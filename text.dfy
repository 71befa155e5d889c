/** Character and string helpers standing in for the parts of Rust's `str` and `char`
    API that the solvers rely on: ASCII digits, `split_once`, `split` on a character and
    `trim`. Strings are sequences of characters. */
module Text {
  import opened Wrappers

  predicate IsDigit(c: char) {
    '0' <= c <= '9'
  }

  /** `char::to_digit(10)` for an ASCII digit. */
  function DigitValue(c: char): (d: nat)
    requires IsDigit(c)
    ensures d < 10
  {
    c as int - '0' as int
  }

  /** The character written for a decimal digit; inverse of `DigitValue`. */
  function DigitChar(d: nat): (c: char)
    requires d < 10
    ensures IsDigit(c) && DigitValue(c) == d
  {
    ('0' as int + d) as char
  }

  /** `char::is_ascii_whitespace`: space, tab, line feed, form feed, carriage return. */
  predicate IsAsciiWhitespace(c: char) {
    c == ' ' || c == '\t' || c == '\n' || c == 12 as char || c == '\r'
  }

  /** The characters of the input that are not ASCII whitespace, in order. */
  function Cells(s: string): (r: string)
    ensures forall k :: 0 <= k < |r| ==> !IsAsciiWhitespace(r[k])
    ensures |r| <= |s|
  {
    if s == [] then []
    else (if IsAsciiWhitespace(s[0]) then [] else [s[0]]) + Cells(s[1..])
  }

  /** `char::is_whitespace`, the Unicode White_Space property, which `str::trim` strips and
      `split_whitespace` splits at: the ASCII tab to carriage return (the vertical tab
      included) and space, then next line, no-break space, ogham space mark, the spaces
      U+2000 to U+200A, the line and paragraph separators, narrow no-break space, medium
      mathematical space and ideographic space. */
  predicate IsWhitespace(c: char) {
    c == ' ' || '\t' <= c <= '\r' || c == '\U{85}' || c == '\U{A0}' || c == '\U{1680}' ||
    '\U{2000}' <= c <= '\U{200A}' || c == '\U{2028}' || c == '\U{2029}' || c == '\U{202F}' ||
    c == '\U{205F}' || c == '\U{3000}'
  }

  /** `sep` occurs in `s` starting at index `j`. */
  predicate OccursAt(s: string, sep: string, j: int) {
    0 <= j && j + |sep| <= |s| && s[j..j + |sep|] == sep
  }

  /** The first index at or after `from` where `sep` occurs in `s`. */
  function FindFrom(s: string, sep: string, from: nat): (r: Option<nat>)
    requires from <= |s|
    ensures r.Some? ==> from <= r.value && OccursAt(s, sep, r.value)
    ensures r.Some? ==> forall j :: from <= j < r.value ==> !OccursAt(s, sep, j)
    ensures r.None? ==> forall j :: from <= j ==> !OccursAt(s, sep, j)
    decreases |s| - from
  {
    if OccursAt(s, sep, from) then Some(from)
    else if from == |s| then None
    else FindFrom(s, sep, from + 1)
  }

  /** `str::split_once`: the text before and after the first occurrence of `sep`. */
  function SplitOnce(s: string, sep: string): (r: Option<(string, string)>)
    ensures r.Some? ==> s == r.value.0 + sep + r.value.1
    ensures r.Some? ==> forall j :: 0 <= j < |r.value.0| ==> !OccursAt(s, sep, j)
    ensures r.None? <==> forall j :: !OccursAt(s, sep, j)
  {
    match FindFrom(s, sep, 0)
    case None => None
    case Some(k) =>
      assert s == s[..k] + sep + s[k + |sep|..] by {
        assert s[k..k + |sep|] == sep;
        assert s == s[..k] + s[k..k + |sep|] + s[k + |sep|..];
      }
      Some((s[..k], s[k + |sep|..]))
  }

  /** `str::split` on a single character: the maximal pieces between separators, kept
      even when empty, so a string with n separators has n + 1 pieces. */
  function Split(s: string, sep: char): (r: seq<string>)
    ensures |r| >= 1
    ensures forall k :: 0 <= k < |r| ==> sep !in r[k]
  {
    if s == [] then [[]]
    else
      var rest := Split(s[1..], sep);
      if s[0] == sep then [[]] + rest
      else [[s[0]] + rest[0]] + rest[1..]
  }

  /** The inverse of `Split`: the pieces glued back with the separator between them. */
  function Join(pieces: seq<string>, sep: char): string
    requires |pieces| >= 1
  {
    if |pieces| == 1 then pieces[0] else pieces[0] + [sep] + Join(pieces[1..], sep)
  }

  lemma {:induction false} JoinSplit(s: string, sep: char)
    ensures Join(Split(s, sep), sep) == s
  {
    if s != [] {
      var rest := Split(s[1..], sep);
      JoinSplit(s[1..], sep);
      if s[0] == sep {
        assert ([[]] + rest)[1..] == rest;
      } else {
        var r := [[s[0]] + rest[0]] + rest[1..];
        assert r[1..] == rest[1..];
        if |rest| > 1 {
          assert rest == [rest[0]] + rest[1..];
          assert Join(rest, sep) == rest[0] + [sep] + Join(rest[1..], sep);
        }
      }
    }
  }

  /** A string without the separator is a single piece. */
  lemma {:induction false} SplitPlain(s: string, sep: char)
    requires sep !in s
    ensures Split(s, sep) == [s]
  {
    if s != [] {
      SplitPlain(s[1..], sep);
      assert [s[0]] + s[1..] == s;
    }
  }

  /** Splitting at the first separator peels off the text before it. */
  lemma {:induction false} SplitAfter(a: string, b: string, sep: char)
    requires sep !in a
    ensures Split(a + [sep] + b, sep) == [a] + Split(b, sep)
  {
    if a == [] {
      assert (a + [sep] + b)[1..] == b;
    } else {
      SplitAfter(a[1..], b, sep);
      assert (a + [sep] + b)[1..] == a[1..] + [sep] + b;
      assert [a[0]] + a[1..] == a;
    }
  }

  /** `Split` undoes `Join` when no piece holds the separator. */
  lemma {:induction false} SplitJoin(pieces: seq<string>, sep: char)
    requires |pieces| >= 1
    requires forall k :: 0 <= k < |pieces| ==> sep !in pieces[k]
    ensures Split(Join(pieces, sep), sep) == pieces
  {
    if |pieces| == 1 {
      SplitPlain(pieces[0], sep);
    } else {
      SplitJoin(pieces[1..], sep);
      SplitAfter(pieces[0], Join(pieces[1..], sep), sep);
      assert pieces == [pieces[0]] + pieces[1..];
    }
  }

  /** Joining two lists of pieces is joining their joins. */
  lemma {:induction false} JoinConcat(p: seq<string>, q: seq<string>, sep: char)
    requires |p| >= 1 && |q| >= 1
    ensures Join(p + q, sep) == Join(p, sep) + [sep] + Join(q, sep)
    decreases |p|
  {
    assert (p + q)[1..] == p[1..] + q;
    if |p| > 1 {
      JoinConcat(p[1..], q, sep);
    }
  }

  /** A character in none of the pieces and other than the separator is not in their join. */
  lemma {:induction false} JoinAvoids(p: seq<string>, sep: char, c: char)
    requires |p| >= 1 && c != sep && forall k :: 0 <= k < |p| ==> c !in p[k]
    ensures c !in Join(p, sep)
    decreases |p|
  {
    if |p| > 1 {
      JoinAvoids(p[1..], sep, c);
    }
  }

  /** `str::trim`: drop leading and trailing whitespace. */
  function Trim(s: string): (r: string)
    ensures r != [] ==> !IsWhitespace(r[0]) && !IsWhitespace(r[|r| - 1])
    ensures forall c :: c in s && !IsWhitespace(c) ==> c in r
  {
    TrimEnd(TrimStart(s))
  }

  /** `str::trim_start`: the longest suffix that does not start with whitespace. */
  function TrimStart(s: string): (r: string)
    ensures |r| <= |s| && r == s[|s| - |r|..]
    ensures forall k :: 0 <= k < |s| - |r| ==> IsWhitespace(s[k])
    ensures r != [] ==> !IsWhitespace(r[0])
  {
    if s != [] && IsWhitespace(s[0]) then TrimStart(s[1..]) else s
  }

  /** `str::trim_end`: the longest prefix that does not end with whitespace. */
  function TrimEnd(s: string): (r: string)
    ensures |r| <= |s| && r == s[..|r|]
    ensures forall k :: |r| <= k < |s| ==> IsWhitespace(s[k])
    ensures r != [] ==> !IsWhitespace(r[|r| - 1])
    ensures s != [] && !IsWhitespace(s[0]) ==> r != [] && r[0] == s[0]
  {
    if s != [] && IsWhitespace(s[|s| - 1]) then TrimEnd(s[..|s| - 1]) else s
  }

  /** Decimal digits without sign: the value of `str::parse::<u64>` on such a string. */
  function DecimalValue(s: string): (n: nat)
    requires forall k :: 0 <= k < |s| ==> IsDigit(s[k])
    decreases |s|
  {
    if s == [] then 0 else 10 * DecimalValue(s[..|s| - 1]) + DigitValue(s[|s| - 1])
  }

  /** The shortest decimal numeral of `n`; `DecimalValue` reads it back. */
  function Decimal(n: nat): (s: string)
    ensures |s| >= 1
    ensures forall k :: 0 <= k < |s| ==> IsDigit(s[k])
    ensures DecimalValue(s) == n
    decreases n
  {
    if n < 10 then [DigitChar(n)]
    else
      var s := Decimal(n / 10) + [DigitChar(n % 10)];
      assert s[..|s| - 1] == Decimal(n / 10);
      s
  }

  /** How many bytes UTF-8 spends on the character. */
  function Utf8Width(c: char): (n: nat)
    ensures 1 <= n <= 4
    ensures n == 1 <==> c as int < 0x80
  {
    if c as int < 0x80 then 1
    else if c as int < 0x800 then 2
    else if c as int < 0x1_0000 then 3
    else 4
  }

  /** `str::len`: the length in bytes of the UTF-8 encoding, never below the number of
      characters and equal to it on ASCII text. */
  function ByteLen(s: string): (n: nat)
    ensures n >= |s|
    ensures (forall k :: 0 <= k < |s| ==> s[k] as int < 0x80) <==> n == |s|
  {
    if s == [] then 0
    else
      var rest := ByteLen(s[1..]);
      assert forall k :: 1 <= k < |s| ==> s[k] == s[1..][k - 1];
      Utf8Width(s[0]) + rest
  }

  /** The digits `str::parse` reads for an unsigned type: one leading '+' is dropped when
      something follows it. */
  function Unsigned(s: string): string {
    if |s| > 1 && s[0] == '+' then s[1..] else s
  }

  /** A non-empty run of ASCII digits. */
  predicate Numeral(s: string) {
    s != [] && forall k :: 0 <= k < |s| ==> IsDigit(s[k])
  }

  /** `str::parse` for an unsigned integer type: an optional '+' and then a non-empty run of
      digits. The empty string and anything else are rejected, each with the library's
      message. The width of the type is left to the callers. */
  function ParseNat(s: string): (r: Result<nat>)
    ensures r.Ok? <==> Numeral(Unsigned(s))
    ensures r.Ok? ==> r.value == DecimalValue(Unsigned(s))
    ensures s == [] ==> r == Err("cannot parse integer from empty string")
    ensures s != [] && r.Err? ==> r.error == "invalid digit found in string"
  {
    if s == [] then Err("cannot parse integer from empty string")
    else if Numeral(Unsigned(s)) then Ok(DecimalValue(Unsigned(s)))
    else Err("invalid digit found in string")
  }

  /** The shortest numeral reads back as its number. */
  lemma ParseDecimal(n: nat)
    ensures ParseNat(Decimal(n)) == Ok(n)
  {
    var s := Decimal(n);
    assert Unsigned(s) == s by {
      assert IsDigit(s[0]);
    }
  }

  /** So does the numeral written with a '+' in front, and a lone '+' is no number. */
  lemma ParsePlus(n: nat)
    ensures ParseNat("+" + Decimal(n)) == Ok(n)
    ensures ParseNat("+").Err?
  {
    var s := "+" + Decimal(n);
    assert Unsigned(s) == Decimal(n);
    assert !IsDigit('+');
  }

  /** How many non-whitespace characters the string starts with. */
  function WordLen(s: string): (n: nat)
    ensures n <= |s|
    ensures forall i :: 0 <= i < n ==> !IsWhitespace(s[i])
    ensures n < |s| ==> IsWhitespace(s[n])
  {
    if s != [] && !IsWhitespace(s[0]) then 1 + WordLen(s[1..]) else 0
  }

  /** `str::split_whitespace`: the maximal runs of non-whitespace characters, in order. */
  function Words(s: string): (r: seq<string>)
    ensures forall k :: 0 <= k < |r| ==> r[k] != [] && forall i :: 0 <= i < |r[k]| ==> !IsWhitespace(r[k][i])
    decreases |s|
  {
    if s == [] then []
    else if IsWhitespace(s[0]) then Words(s[1..])
    else
      var n := WordLen(s);
      [s[..n]] + Words(s[n..])
  }

  /** A word followed by the end of the text or by whitespace is read whole. */
  lemma {:induction false} WordLenOf(w: string, rest: string)
    requires forall i :: 0 <= i < |w| ==> !IsWhitespace(w[i])
    requires rest == [] || IsWhitespace(rest[0])
    ensures WordLen(w + rest) == |w|
    decreases |w|
  {
    if w != [] {
      assert (w + rest)[1..] == w[1..] + rest;
      WordLenOf(w[1..], rest);
    }
  }

  /** The words of a word, one whitespace character and more text. */
  lemma WordsOf(w: string, c: char, rest: string)
    requires w != [] && forall i :: 0 <= i < |w| ==> !IsWhitespace(w[i])
    requires IsWhitespace(c)
    ensures Words(w + [c] + rest) == [w] + Words(rest)
  {
    var s := w + [c] + rest;
    assert s == w + ([c] + rest);
    WordLenOf(w, [c] + rest);
    assert s[..|w|] == w && s[|w|..] == [c] + rest;
    assert ([c] + rest)[1..] == rest;
  }

  /** A no-break space separates words, as it does for `split_whitespace`. */
  lemma NoBreakSpaceWords()
    ensures Words("41\U{A0}48") == ["41", "48"]
  {
    WordsOf("41", '\U{A0}', "48");
    assert "41" + ['\U{A0}'] + "48" == "41\U{A0}48";
    WordLenOf("48", []);
    assert "48"[..2] == "48" && "48"[2..] == [];
  }

  /** The characters that are not whitespace, in order. */
  function NonWhitespace(s: string): string {
    if s == [] then [] else (if IsWhitespace(s[0]) then [] else [s[0]]) + NonWhitespace(s[1..])
  }

  function Concat(words: seq<string>): string {
    if words == [] then [] else words[0] + Concat(words[1..])
  }

  lemma {:induction false} NonWhitespaceAppend(a: string, b: string)
    ensures NonWhitespace(a + b) == NonWhitespace(a) + NonWhitespace(b)
  {
    if a == [] {
      assert a + b == b;
    } else {
      assert (a + b)[1..] == a[1..] + b;
      NonWhitespaceAppend(a[1..], b);
    }
  }

  lemma {:induction false} NonWhitespaceWord(w: string)
    requires forall i :: 0 <= i < |w| ==> !IsWhitespace(w[i])
    ensures NonWhitespace(w) == w
  {
    if w != [] {
      NonWhitespaceWord(w[1..]);
    }
  }

  /** The words hold exactly the non-whitespace characters, in order. */
  lemma {:induction false} WordsKeepText(s: string)
    ensures Concat(Words(s)) == NonWhitespace(s)
    decreases |s|
  {
    if s != [] {
      if IsWhitespace(s[0]) {
        WordsKeepText(s[1..]);
      } else {
        var n := WordLen(s);
        WordsKeepText(s[n..]);
        assert s == s[..n] + s[n..];
        NonWhitespaceAppend(s[..n], s[n..]);
        NonWhitespaceWord(s[..n]);
        assert ([s[..n]] + Words(s[n..]))[1..] == Words(s[n..]);
      }
    }
  }

  /** Every word parsed as a number, failing at the first one that is not. */
  function ParseNats(words: seq<string>): (r: Result<seq<nat>>)
    ensures r.Ok? <==> forall k :: 0 <= k < |words| ==> ParseNat(words[k]).Ok?
    ensures r.Ok? ==> |r.value| == |words| && forall k :: 0 <= k < |words| ==> ParseNat(words[k]) == Ok(r.value[k])
  {
    if words == [] then Ok([])
    else
      var n :- ParseNat(words[0]);
      var rest :- ParseNats(words[1..]);
      var values := [n] + rest;
      assert forall k :: 1 <= k < |words| ==> words[k] == words[1..][k - 1] && values[k] == rest[k - 1];
      Ok(values)
  }
}
