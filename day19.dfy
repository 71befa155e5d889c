/** Day 19, Aplenty: each machine part carries four ratings (x, m, a, s), and named
    workflows hold rules that send a part to another workflow, accept it or reject it.
    Evaluation starts in the workflow "in"; part 1 adds up the ratings of the accepted
    parts. */
module Day19 {
  import opened Wrappers
  import opened Text

  datatype Category = X | M | A | S

  /** The lower-case letter that names a category in the puzzle text. */
  function Letter(c: Category): char {
    match c
    case X => 'x'
    case M => 'm'
    case A => 'a'
    case S => 's'
  }

  function Capital(c: Category): char {
    match c
    case X => 'X'
    case M => 'M'
    case A => 'A'
    case S => 'S'
  }

  /** The derived `FromStr` of `Category`, which ignores ASCII case: exactly one of the
      eight letters is accepted. */
  function ParseCategory(s: string): (r: Result<Category>)
    ensures r.Ok? ==> s == [Letter(r.value)] || s == [Capital(r.value)]
    ensures r.Err? ==> forall c :: s != [Letter(c)] && s != [Capital(c)]
  {
    if s == "x" || s == "X" then Ok(X)
    else if s == "m" || s == "M" then Ok(M)
    else if s == "a" || s == "A" then Ok(A)
    else if s == "s" || s == "S" then Ok(S)
    else Err("Matching variant not found")
  }

  /** Where a rule sends a part. */
  datatype Target = Accept | Reject | Redirect(name: string)

  predicate IsLower(c: char) {
    'a' <= c <= 'z'
  }

  predicate AllLower(s: string) {
    forall k :: 0 <= k < |s| ==> IsLower(s[k])
  }

  function ShowTarget(t: Target): string {
    match t
    case Accept => "A"
    case Reject => "R"
    case Redirect(name) => name
  }

  /** A target whose text reads back as itself: a workflow name in lower case. */
  predicate ValidTarget(t: Target) {
    t.Redirect? ==> AllLower(t.name)
  }

  /** `Target::from_str`: "A" accepts, "R" rejects, a lower-case name (the empty one
      included) redirects, and anything else is an error. */
  function ParseTarget(s: string): (r: Result<Target>)
    ensures r.Ok? <==> s == "A" || s == "R" || AllLower(s)
    ensures r.Ok? ==> ValidTarget(r.value) && ShowTarget(r.value) == s
    ensures r.Err? ==> r.error == "Invalid target: " + s
  {
    if !(s == "A" || s == "R" || AllLower(s)) then Err("Invalid target: " + s)
    else if s == "A" then Ok(Accept)
    else if s == "R" then Ok(Reject)
    else Ok(Redirect(s))
  }

  /** Reading back a valid target gives the target. */
  lemma ParseShowTarget(t: Target)
    requires ValidTarget(t)
    ensures ParseTarget(ShowTarget(t)) == Ok(t)
  {
    assert !AllLower("A") && !AllLower("R") by {
      assert !IsLower("A"[0]) && !IsLower("R"[0]);
    }
  }

  /** A rating is a `u32`. */
  const U32Limit: nat := 0x1_0000_0000

  /** The first `n` characters of `t` are digits. */
  predicate DigitsTo(t: string, n: nat) {
    n <= |t| && forall m :: 0 <= m < n ==> IsDigit(t[m])
  }

  /** The first `n` characters of `t` are digits whose value fits in a `u32`. */
  predicate FitsTo(t: string, n: nat) {
    DigitsTo(t, n) && DecimalValue(t[..n]) < U32Limit
  }

  /** The digit loop of `u32::from_str` from index `j` on, `acc` being the value of the
      digits before `j`: the index of the first character that is no digit or that takes
      the value past `u32::MAX`, or the length when there is none. */
  function U32Scan(t: string, j: nat, acc: nat): (k: nat)
    requires DigitsTo(t, j) && acc == DecimalValue(t[..j])
    ensures j <= k <= |t|
    ensures forall i :: j < i <= k ==> FitsTo(t, i)
    ensures k < |t| ==> !FitsTo(t, k + 1)
    decreases |t| - j
  {
    if j == |t| then j
    else if !IsDigit(t[j]) then
      assert !DigitsTo(t, j + 1);
      j
    else
      DigitSnoc(t, j);
      var v := 10 * acc + DigitValue(t[j]);
      if v >= U32Limit then j
      else
        assert FitsTo(t, j + 1);
        U32Scan(t, j + 1, v)
  }

  /** Reading one more digit multiplies the value so far by ten and adds the digit. */
  lemma DigitSnoc(t: string, j: nat)
    requires j < |t| && DigitsTo(t, j) && IsDigit(t[j])
    ensures DigitsTo(t, j + 1)
    ensures DecimalValue(t[..j + 1]) == 10 * DecimalValue(t[..j]) + DigitValue(t[j])
  {
    assert t[..j + 1][..j] == t[..j];
  }

  /** A prefix of a numeral is worth at most the numeral. */
  lemma {:induction false} PrefixAtMost(t: string, i: nat)
    requires Numeral(t) && i <= |t|
    ensures DecimalValue(t[..i]) <= DecimalValue(t)
    decreases |t|
  {
    if i == |t| {
      assert t[..i] == t;
    } else if |t| > 1 {
      var init := t[..|t| - 1];
      assert init[..i] == t[..i];
      PrefixAtMost(init, i);
    } else {
      assert t[..i] == [];
    }
  }

  /** Every non-empty prefix of a numeral that fits fits as well, whatever follows it. */
  lemma FitsWithin(d: string, rest: string, i: nat)
    requires Numeral(d) && DecimalValue(d) < U32Limit && 0 < i <= |d|
    ensures FitsTo(d + rest, i)
  {
    assert (d + rest)[..i] == d[..i];
    PrefixAtMost(d, i);
  }

  /** A scan that stops before the end rules out a numeral that fits. */
  lemma ScanShort(t: string, k: nat)
    requires k < |t| && !FitsTo(t, k + 1)
    ensures !(Numeral(t) && DecimalValue(t) < U32Limit)
  {
    if Numeral(t) {
      PrefixAtMost(t, k + 1);
    }
  }

  /** `str::parse::<u32>`: an optional '+' and a run of digits whose value fits in 32
      bits. The digits are read left to right, and the first character that is no digit
      or that overflows decides the error. */
  function ParseU32(s: string): (r: Result<nat>)
    ensures r.Ok? <==> Numeral(Unsigned(s)) && DecimalValue(Unsigned(s)) < U32Limit
    ensures r.Ok? ==> r.value == DecimalValue(Unsigned(s))
    ensures s == [] ==> r == Err("cannot parse integer from empty string")
    ensures s != [] && r.Err? ==>
      var t := Unsigned(s);
      var k := U32Scan(t, 0, 0);
      k < |t| && r.error == if IsDigit(t[k]) then "number too large to fit in target type" else "invalid digit found in string"
    ensures Numeral(Unsigned(s)) && DecimalValue(Unsigned(s)) >= U32Limit ==>
      r == Err("number too large to fit in target type")
  {
    if s == [] then Err("cannot parse integer from empty string")
    else
      var t := Unsigned(s);
      assert t[..0] == [];
      var k := U32Scan(t, 0, 0);
      if k == |t| then
        assert FitsTo(t, |t|);
        assert t[..|t|] == t;
        Ok(DecimalValue(t))
      else
        ScanShort(t, k);
        if IsDigit(t[k]) then Err("number too large to fit in target type")
        else Err("invalid digit found in string")
  }

  /** A numeral that overflows is too large, whatever follows it: the scan reaches the
      overflow before anything after the numeral. */
  lemma OverflowFirst(d: string, rest: string)
    requires Numeral(d) && DecimalValue(d) >= U32Limit
    ensures ParseU32(d + rest) == Err("number too large to fit in target type")
  {
    var t := d + rest;
    assert t[0] == d[0];
    assert Unsigned(t) == t;
    assert t[..|d|] == d;
    assert !FitsTo(t, |d|);
    var k := U32Scan(t, 0, 0);
    assert k < |d|;
    assert t[k] == d[k];
  }

  /** A character that is no digit, after a numeral that fits, is an invalid digit
      whatever follows it, however large. */
  lemma InvalidFirst(d: string, c: char, rest: string)
    requires Numeral(d) && DecimalValue(d) < U32Limit && !IsDigit(c)
    ensures ParseU32(d + [c] + rest) == Err("invalid digit found in string")
  {
    var t := d + [c] + rest;
    assert t == d + ([c] + rest);
    assert t[0] == d[0];
    assert Unsigned(t) == t;
    forall i | 0 < i <= |d|
      ensures FitsTo(t, i)
    {
      FitsWithin(d, [c] + rest, i);
    }
    assert t[|d|] == c;
    assert !FitsTo(t, |d| + 1);
    var k := U32Scan(t, 0, 0);
    assert k == |d|;
  }

  datatype Rule =
    | GreaterThan(category: Category, value: nat, target: Target)
    | LessThan(category: Category, value: nat, target: Target)
    | Unconditional(target: Target)

  /** The text of a rule, as the puzzle writes it. */
  function ShowRule(rule: Rule): string {
    match rule
    case GreaterThan(c, v, t) => [Letter(c), '>'] + Decimal(v) + [':'] + ShowTarget(t)
    case LessThan(c, v, t) => [Letter(c), '<'] + Decimal(v) + [':'] + ShowTarget(t)
    case Unconditional(t) => ShowTarget(t)
  }

  predicate ValidRule(rule: Rule) {
    ValidTarget(rule.target) && (!rule.Unconditional? ==> rule.value < U32Limit)
  }

  /** The inputs on which `Rule::from_str` panics: the text is no target but starts
      with a category letter, and then either ends, so the operator slice is out of
      range, or has its colon right after the letter, so the value slice runs
      backwards. */
  predicate RulePanics(s: string) {
    ParseTarget(s).Err? && ParseCategory(s[..1]).Ok? && (|s| == 1 || s[1] == ':')
  }

  /** `Rule::from_str`. A valid target alone is an unconditional rule. Otherwise the
      first character is the category, the second the operator, the digits up to the
      first colon the value and the rest the target; the errors come in that order,
      the operator being checked last. */
  function ParseRule(s: string): (r: Result<Rule>)
    requires !RulePanics(s)
    ensures ParseTarget(s).Ok? ==> r == Ok(Unconditional(ParseTarget(s).value))
    ensures ParseTarget(s).Err? ==> r.Err? || !r.value.Unconditional?
    ensures r.Ok? ==> ValidRule(r.value)
    ensures r.Ok? && r.value.GreaterThan? ==> |s| >= 2 && s[1] == '>'
    ensures r.Ok? && r.value.LessThan? ==> |s| >= 2 && s[1] == '<'
  {
    match ParseTarget(s)
    case Ok(t) => Ok(Unconditional(t))
    case Err(_) =>
      var category :- ParseCategory(s[..1]);
      match FindFrom(s, ":", 0)
      case None => Err("Invalid rule; no colon: " + s)
      case Some(colon) =>
        assert colon >= 2 by {
          assert s[0] == s[..1][0];
          assert !OccursAt(s, ":", 0) && !OccursAt(s, ":", 1) by {
            assert s[0..1][0] == s[0];
            if |s| >= 2 {
              assert s[1..2][0] == s[1];
            }
          }
        }
        var value :- ParseU32(s[2..colon]);
        var target :- ParseTarget(s[colon + 1..]);
        if s[1] == '>' then Ok(GreaterThan(category, value, target))
        else if s[1] == '<' then Ok(LessThan(category, value, target))
        else Err("Invalid rule; unknown operator: " + s)
  }

  /** A rule text without a colon is an unconditional rule or an error. */
  lemma NoColon(s: string)
    requires !RulePanics(s) && ':' !in s
    ensures ParseRule(s).Ok? ==> ParseRule(s).value.Unconditional?
  {
    forall j | 0 <= j && j + 1 <= |s|
      ensures !OccursAt(s, ":", j)
    {
      assert s[j..j + 1][0] == s[j];
    }
  }

  /** A colon occurs at an index exactly when the character there is one. */
  lemma ColonAt(s: string, j: nat)
    ensures OccursAt(s, ":", j) <==> j < |s| && s[j] == ':'
  {
    if j < |s| {
      assert s[j..j + 1] == [s[j]];
    }
  }

  /** The first colon is where the text says it is. */
  lemma FirstColon(s: string, k: nat)
    requires k < |s| && s[k] == ':'
    requires forall j :: 0 <= j < k ==> s[j] != ':'
    ensures FindFrom(s, ":", 0) == Some(k)
  {
    ColonAt(s, k);
    forall j | 0 <= j < k
      ensures !OccursAt(s, ":", j)
    {
      ColonAt(s, j);
    }
  }

  /** The digits of a number hold no colon. */
  lemma DigitsNoColon(d: string)
    requires forall k :: 0 <= k < |d| ==> IsDigit(d[k])
    ensures ':' !in d
  {
    assert forall k :: 0 <= k < |d| ==> d[k] != ':';
  }

  /** The pieces of a conditional rule's text: letter, operator, digits up to the first
      colon, target. */
  lemma ConditionText(s: string, letter: char, op: char, d: string, target: string)
    requires letter != ':' && op != ':' && ':' !in d
    requires s == [letter, op] + d + [':'] + target
    ensures s[..1] == [letter] && s[1] == op && FindFrom(s, ":", 0) == Some(2 + |d|)
    ensures s[2..2 + |d|] == d && s[2 + |d| + 1..] == target
  {
    var k := 2 + |d|;
    assert s[k] == ':';
    assert forall j :: 2 <= j < k ==> s[j] == d[j - 2];
    FirstColon(s, k);
    assert s[2..k] == d;
    assert s[k + 1..] == target;
  }

  /** Reading back the text of a valid conditional rule gives the rule. */
  lemma ParseShowCondition(rule: Rule)
    requires ValidRule(rule) && !rule.Unconditional?
    ensures !RulePanics(ShowRule(rule))
    ensures ParseRule(ShowRule(rule)) == Ok(rule)
  {
    var c, v, t := rule.category, rule.value, rule.target;
    var op := if rule.GreaterThan? then '>' else '<';
    var s := ShowRule(rule);
    assert s == [Letter(c), op] + Decimal(v) + [':'] + ShowTarget(t);
    var colon := ConditionParts(s, c, op, v, t);
    ConditionRule(s, c, v, t, colon);
  }

  /** A category's lower-case letter reads back as the category. */
  lemma ParseLetter(c: Category)
    ensures ParseCategory([Letter(c)]) == Ok(c)
  {
    match c
    case X => assert [Letter(c)] == "x";
    case M => assert [Letter(c)] == "m";
    case A => assert [Letter(c)] == "a";
    case S => assert [Letter(c)] == "s";
  }

  /** A text whose second character is an operator is no target. */
  lemma NotTarget(s: string)
    requires |s| >= 2 && (s[1] == '>' || s[1] == '<')
    ensures ParseTarget(s).Err?
  {
    assert !IsLower(s[1]);
  }

  /** The pieces of a conditional rule's text, as the parser finds them. */
  lemma ConditionParts(s: string, c: Category, op: char, v: nat, t: Target) returns (colon: nat)
    requires (op == '>' || op == '<') && v < U32Limit && ValidTarget(t)
    requires s == [Letter(c), op] + Decimal(v) + [':'] + ShowTarget(t)
    ensures |s| >= 2 && s[1] == op
    ensures ParseTarget(s).Err? && ParseCategory(s[..1]) == Ok(c)
    ensures 2 <= colon < |s| && FindFrom(s, ":", 0) == Some(colon)
    ensures ParseU32(s[2..colon]) == Ok(v) && ParseTarget(s[colon + 1..]) == Ok(t)
  {
    var d := Decimal(v);
    DigitsNoColon(d);
    colon := 2 + |d|;
    ConditionText(s, Letter(c), op, d, ShowTarget(t));
    ParseLetter(c);
    NotTarget(s);
    ParseDecimal(v);
    ParseShowTarget(t);
  }

  /** A text that is no target, with a category letter, an operator and a value before
      its first colon and a target after it, is the conditional rule they make. */
  lemma ConditionRule(s: string, c: Category, v: nat, t: Target, colon: nat)
    requires |s| >= 2 && (s[1] == '>' || s[1] == '<')
    requires ParseTarget(s).Err? && ParseCategory(s[..1]) == Ok(c)
    requires 2 <= colon < |s| && FindFrom(s, ":", 0) == Some(colon)
    requires ParseU32(s[2..colon]) == Ok(v) && ParseTarget(s[colon + 1..]) == Ok(t)
    ensures !RulePanics(s)
    ensures ParseRule(s) == Ok(if s[1] == '>' then GreaterThan(c, v, t) else LessThan(c, v, t))
  {
  }

  /** Reading back the text of any valid rule gives the rule. */
  lemma ParseShowRule(rule: Rule)
    requires ValidRule(rule)
    ensures !RulePanics(ShowRule(rule))
    ensures ParseRule(ShowRule(rule)) == Ok(rule)
  {
    if rule.Unconditional? {
      ParseShowTarget(rule.target);
    } else {
      ParseShowCondition(rule);
    }
  }

  datatype Part = Part(x: nat, m: nat, a: nat, s: nat)

  /** `Part::rating`. */
  function Rating(part: Part, c: Category): nat {
    match c
    case X => part.x
    case M => part.m
    case A => part.a
    case S => part.s
  }

  /** Each rating is a field of its own: two parts with the same four ratings are the
      same part. */
  lemma RatingsDetermine(p: Part, q: Part)
    requires forall c :: Rating(p, c) == Rating(q, c)
    ensures p == q
  {
    assert Rating(p, X) == Rating(q, X) && Rating(p, M) == Rating(q, M);
    assert Rating(p, A) == Rating(q, A) && Rating(p, S) == Rating(q, S);
  }

  /** The ratings read so far, `None` where the category has not appeared. */
  datatype Ratings = Ratings(x: Option<nat>, m: Option<nat>, a: Option<nat>, s: Option<nat>)

  function Get(acc: Ratings, c: Category): Option<nat> {
    match c
    case X => acc.x
    case M => acc.m
    case A => acc.a
    case S => acc.s
  }

  /** One assignment of the `for` loop: the category's slot now holds the value. */
  function Record(acc: Ratings, c: Category, v: nat): (r: Ratings)
    ensures Get(r, c) == Some(v)
    ensures forall d :: d != c ==> Get(r, d) == Get(acc, d)
  {
    match c
    case X => acc.(x := Some(v))
    case M => acc.(m := Some(v))
    case A => acc.(a := Some(v))
    case S => acc.(s := Some(v))
  }

  /** The pieces on which the loop of `Part::from_str` panics before returning an error:
      an empty piece has no category slice, and a piece of one valid letter no value
      slice. */
  predicate ReadPanics(pieces: seq<string>) {
    pieces != [] &&
    (|pieces[0]| == 0 ||
     (ParseCategory(pieces[0][..1]).Ok? &&
      (|pieces[0]| == 1 || (ParseU32(pieces[0][2..]).Ok? && ReadPanics(pieces[1..])))))
  }

  /** A piece that names a category and carries a value. */
  predicate Readable(piece: string) {
    |piece| >= 2 && ParseCategory(piece[..1]).Ok? && ParseU32(piece[2..]).Ok?
  }

  /** Pieces that are all readable do not make the loop panic. */
  lemma {:induction false} ReadableNoPanic(pieces: seq<string>)
    requires forall k :: 0 <= k < |pieces| ==> Readable(pieces[k])
    ensures !ReadPanics(pieces)
  {
    if pieces != [] {
      assert Readable(pieces[0]);
      ReadableNoPanic(pieces[1..]);
    }
  }

  /** The category named by the first character of a piece. */
  predicate Names(piece: string, c: Category) {
    |piece| >= 1 && ParseCategory(piece[..1]) == Ok(c)
  }

  /** Some piece names the category. */
  predicate Supplies(pieces: seq<string>, c: Category) {
    exists k :: 0 <= k < |pieces| && Names(pieces[k], c)
  }

  /** The loop of `Part::from_str`: each piece is a category character, one ignored
      character, then the value; a later piece of the same category overwrites an
      earlier one, and the first unreadable piece is the error. */
  function ReadRatings(pieces: seq<string>, acc: Ratings): (r: Result<Ratings>)
    requires !ReadPanics(pieces)
  {
    if pieces == [] then Ok(acc)
    else
      var c :- ParseCategory(pieces[0][..1]);
      var v :- ParseU32(pieces[0][2..]);
      ReadRatings(pieces[1..], Record(acc, c, v))
  }

  /** After the loop a category has a value exactly when it had one before or some
      piece named it. */
  lemma {:induction false} ReadRatingsFill(pieces: seq<string>, acc: Ratings, c: Category)
    requires !ReadPanics(pieces) && ReadRatings(pieces, acc).Ok?
    ensures Get(ReadRatings(pieces, acc).value, c).Some? <==>
            Get(acc, c).Some? || Supplies(pieces, c)
  {
    if pieces != [] {
      var d := ParseCategory(pieces[0][..1]).value;
      var v := ParseU32(pieces[0][2..]).value;
      ReadRatingsFill(pieces[1..], Record(acc, d, v), c);
      if exists k :: 0 <= k < |pieces| && Names(pieces[k], c) {
        var k :| 0 <= k < |pieces| && Names(pieces[k], c);
        if k > 0 {
          assert Names(pieces[1..][k - 1], c);
        }
      }
      forall k | 0 <= k < |pieces[1..]| && Names(pieces[1..][k], c)
        ensures Names(pieces[k + 1], c)
      {
      }
    }
  }

  /** The text of a part: its pieces between the braces. */
  function Pieces(r: string): seq<string>
    requires |r| >= 2
  {
    Split(r[1..|r| - 1], ',')
  }

  /** The inputs on which `Part::from_str` panics: fewer than two characters, where the
      slice between the braces is out of range, or pieces on which the loop panics. */
  predicate PartPanics(r: string) {
    |r| < 2 || ReadPanics(Pieces(r))
  }

  /** `Part::from_str`: the ratings between the braces, separated by commas; then each
      of x, m, a and s in turn must have been supplied. */
  function ParsePart(r: string): (p: Result<Part>)
    requires !PartPanics(r)
    ensures p.Ok? ==> ReadRatings(Pieces(r), Ratings(None, None, None, None)).Ok?
    ensures p.Ok? ==> forall c :: Some(Rating(p.value, c)) == Get(ReadRatings(Pieces(r), Ratings(None, None, None, None)).value, c)
  {
    var got :- ReadRatings(Pieces(r), Ratings(None, None, None, None));
    if got.x.None? then Err("Invalid part; x rating missing: " + r)
    else if got.m.None? then Err("Invalid part; m rating missing: " + r)
    else if got.a.None? then Err("Invalid part; a rating missing: " + r)
    else if got.s.None? then Err("Invalid part; s rating missing: " + r)
    else Ok(Part(got.x.value, got.m.value, got.a.value, got.s.value))
  }

  /** A part text that reads without error is a part exactly when every category is
      named by some piece; the first category that none names is the error. */
  lemma PartComplete(r: string)
    requires !PartPanics(r) && ReadRatings(Pieces(r), Ratings(None, None, None, None)).Ok?
    ensures ParsePart(r).Ok? <==> forall c :: Supplies(Pieces(r), c)
    ensures !Supplies(Pieces(r), X) ==> ParsePart(r) == Err("Invalid part; x rating missing: " + r)
  {
    var none := Ratings(None, None, None, None);
    forall c
      ensures Get(ReadRatings(Pieces(r), none).value, c).Some? <==> Supplies(Pieces(r), c)
    {
      ReadRatingsFill(Pieces(r), none, c);
    }
    var got := ReadRatings(Pieces(r), none).value;
    assert got.x == Get(got, X) && got.m == Get(got, M) && got.a == Get(got, A) && got.s == Get(got, S);
    if Supplies(Pieces(r), X) && Supplies(Pieces(r), M) && Supplies(Pieces(r), A) && Supplies(Pieces(r), S) {
      forall c
        ensures Supplies(Pieces(r), c)
      {
        match c
        case X =>
        case M =>
        case A =>
        case S =>
      }
    }
  }

  /** One rating as the puzzle writes it. */
  function ShowRating(c: Category, v: nat): string {
    [Letter(c), '='] + Decimal(v)
  }

  function ShowPart(p: Part): string {
    "{" + Join([ShowRating(X, p.x), ShowRating(M, p.m), ShowRating(A, p.a), ShowRating(S, p.s)], ',') + "}"
  }

  predicate ValidPart(p: Part) {
    p.x < U32Limit && p.m < U32Limit && p.a < U32Limit && p.s < U32Limit
  }

  /** A rating's text holds no comma, names its category and carries its value. */
  lemma ShowRatingReads(c: Category, v: nat)
    requires v < U32Limit
    ensures ',' !in ShowRating(c, v)
    ensures ShowRating(c, v)[..1] == [Letter(c)] && ParseCategory([Letter(c)]) == Ok(c)
    ensures ParseU32(ShowRating(c, v)[2..]) == Ok(v)
  {
    var d := Decimal(v);
    assert ShowRating(c, v)[2..] == d;
    ParseDecimal(v);
    assert forall k :: 0 <= k < |d| ==> d[k] != ',';
  }

  /** The pieces between the braces of a part's text are its four ratings. */
  lemma ShownPieces(p: Part)
    requires ValidPart(p)
    ensures |ShowPart(p)| >= 2
    ensures Pieces(ShowPart(p)) == [ShowRating(X, p.x), ShowRating(M, p.m), ShowRating(A, p.a), ShowRating(S, p.s)]
  {
    var pieces := [ShowRating(X, p.x), ShowRating(M, p.m), ShowRating(A, p.a), ShowRating(S, p.s)];
    ShowRatingReads(X, p.x);
    ShowRatingReads(M, p.m);
    ShowRatingReads(A, p.a);
    ShowRatingReads(S, p.s);
    var r := ShowPart(p);
    assert r[1..|r| - 1] == Join(pieces, ',');
    SplitJoin(pieces, ',');
  }

  /** The four ratings, read in turn from nothing, record every field. */
  lemma ReadShownRatings(p: Part)
    requires ValidPart(p)
    ensures var pieces := [ShowRating(X, p.x), ShowRating(M, p.m), ShowRating(A, p.a), ShowRating(S, p.s)];
      !ReadPanics(pieces) &&
      ReadRatings(pieces, Ratings(None, None, None, None)) == Ok(Ratings(Some(p.x), Some(p.m), Some(p.a), Some(p.s)))
  {
    var pieces := [ShowRating(X, p.x), ShowRating(M, p.m), ShowRating(A, p.a), ShowRating(S, p.s)];
    ShowRatingReads(X, p.x);
    ShowRatingReads(M, p.m);
    ShowRatingReads(A, p.a);
    ShowRatingReads(S, p.s);
    var q1 := pieces[1..];
    var q2 := q1[1..];
    var q3 := q2[1..];
    assert q1[0] == ShowRating(M, p.m) && q2[0] == ShowRating(A, p.a);
    assert q3 == [ShowRating(S, p.s)] && q3[1..] == [];
    ReadableNoPanic(pieces);
    var a0 := Ratings(None, None, None, None);
    var a1 := a0.(x := Some(p.x));
    var a2 := a1.(m := Some(p.m));
    var a3 := a2.(a := Some(p.a));
    var a4 := a3.(s := Some(p.s));
    ReadStep(pieces, a0, X, p.x);
    ReadStep(q1, a1, M, p.m);
    ReadStep(q2, a2, A, p.a);
    ReadStep(q3, a3, S, p.s);
  }

  /** One turn of the rating loop on a piece that names a category and carries a value. */
  lemma ReadStep(pieces: seq<string>, acc: Ratings, c: Category, v: nat)
    requires pieces != [] && |pieces[0]| >= 2 && !ReadPanics(pieces)
    requires ParseCategory(pieces[0][..1]) == Ok(c) && ParseU32(pieces[0][2..]) == Ok(v)
    ensures !ReadPanics(pieces[1..])
    ensures ReadRatings(pieces, acc) == ReadRatings(pieces[1..], Record(acc, c, v))
  {
  }

  /** Reading back the text of a part gives the part. */
  lemma ParseShowPart(p: Part)
    requires ValidPart(p)
    ensures !PartPanics(ShowPart(p))
    ensures ParsePart(ShowPart(p)) == Ok(p)
  {
    ShownPieces(p);
    ReadShownRatings(p);
  }

  /** Whether a rule lets the part through to its target. `evaluate` skips a
      greater-than rule when the rating is at most the value and a less-than rule when
      the rating is at least the value. */
  predicate Passes(rule: Rule, part: Part) {
    match rule
    case GreaterThan(c, v, _) => Rating(part, c) > v
    case LessThan(c, v, _) => Rating(part, c) < v
    case Unconditional(_) => true
  }

  /** The target of the first rule of a workflow that the part passes. */
  function Decide(rules: seq<Rule>, part: Part): Option<Target> {
    if rules == [] then None
    else if Passes(rules[0], part) then Some(rules[0].target)
    else Decide(rules[1..], part)
  }

  /** The first passing rule decides: a decision is the target of a passing rule with
      no passing rule before it, and there is none exactly when no rule passes. */
  lemma {:induction false} DecideFirst(rules: seq<Rule>, part: Part)
    ensures Decide(rules, part).None? <==> forall i :: 0 <= i < |rules| ==> !Passes(rules[i], part)
    ensures Decide(rules, part).Some? ==>
            exists i :: 0 <= i < |rules| && Passes(rules[i], part) && rules[i].target == Decide(rules, part).value &&
                        forall j :: 0 <= j < i ==> !Passes(rules[j], part)
  {
    if rules != [] && !Passes(rules[0], part) {
      DecideFirst(rules[1..], part);
      if Decide(rules, part).Some? {
        var i :| 0 <= i < |rules[1..]| && Passes(rules[1..][i], part) && rules[1..][i].target == Decide(rules, part).value &&
                 forall j :: 0 <= j < i ==> !Passes(rules[1..][j], part);
        assert forall j :: 0 <= j < i + 1 ==> !Passes(rules[j], part) by {
          forall j | 0 <= j < i + 1
            ensures !Passes(rules[j], part)
          {
            if j > 0 {
              assert rules[j] == rules[1..][j - 1];
            }
          }
        }
      } else {
        forall i | 0 <= i < |rules|
          ensures !Passes(rules[i], part)
        {
          if i > 0 {
            assert rules[i] == rules[1..][i - 1];
          }
        }
      }
    }
  }

  /** The workflows by name. */
  type Workflows = map<string, seq<Rule>>

  /** Reference definition of `evaluate` from the workflow `name`, visiting at most
      `fuel` workflows: `None` where the source panics on a missing workflow, loops
      forever on a workflow that no rule decides, or needs more workflows. */
  function Outcome(workflows: Workflows, part: Part, name: string, fuel: nat): Option<bool>
    decreases fuel
  {
    if fuel == 0 || name !in workflows then None
    else
      match Decide(workflows[name], part)
      case None => None
      case Some(Accept) => Some(true)
      case Some(Reject) => Some(false)
      case Some(Redirect(next)) => Outcome(workflows, part, next, fuel - 1)
  }

  /** More fuel does not change an outcome that has been reached. */
  lemma {:induction false} OutcomeMonotone(workflows: Workflows, part: Part, name: string, fuel: nat, more: nat)
    requires fuel <= more && Outcome(workflows, part, name, fuel).Some?
    ensures Outcome(workflows, part, name, more) == Outcome(workflows, part, name, fuel)
    decreases fuel
  {
    match Decide(workflows[name], part)
    case Some(Redirect(next)) =>
      OutcomeMonotone(workflows, part, next, fuel - 1, more - 1);
    case _ =>
  }

  /** The evaluation from "in" neither panics nor loops forever. */
  ghost predicate Terminates(workflows: Workflows, part: Part) {
    exists fuel: nat :: Outcome(workflows, part, "in", fuel).Some?
  }

  /** Whether the part is accepted. */
  ghost function Verdict(workflows: Workflows, part: Part): bool
    requires Terminates(workflows, part)
  {
    var fuel: nat :| Outcome(workflows, part, "in", fuel).Some?;
    Outcome(workflows, part, "in", fuel).value
  }

  /** Any amount of fuel that reaches an outcome gives the verdict. */
  lemma VerdictIs(workflows: Workflows, part: Part, fuel: nat)
    requires Outcome(workflows, part, "in", fuel).Some?
    ensures Terminates(workflows, part)
    ensures Verdict(workflows, part) == Outcome(workflows, part, "in", fuel).value
  {
    var other: nat :| Outcome(workflows, part, "in", other).Some? &&
                      Verdict(workflows, part) == Outcome(workflows, part, "in", other).value;
    if fuel <= other {
      OutcomeMonotone(workflows, part, "in", fuel, other);
    } else {
      OutcomeMonotone(workflows, part, "in", other, fuel);
    }
  }

  /** `evaluate`: from "in", the rules of the current workflow are tried in order; the
      first one that lets the part through decides, accepting, rejecting or moving to the
      named workflow. */
  method Evaluate(workflows: Workflows, part: Part) returns (accepted: bool)
    requires Terminates(workflows, part)
    ensures accepted == Verdict(workflows, part)
  {
    ghost var fuel: nat :| Outcome(workflows, part, "in", fuel).Some?;
    VerdictIs(workflows, part, fuel);
    ghost var name := "in";
    ghost var left := fuel;
    var rules := workflows["in"];
    while true
      invariant name in workflows && rules == workflows[name]
      invariant Outcome(workflows, part, name, left) == Outcome(workflows, part, "in", fuel)
      invariant Outcome(workflows, part, name, left).Some?
      decreases left
    {
      // The source's `for` over the rules never runs out of them: every workflow the
      // evaluation reaches has a deciding rule, so the loop below only ends by leaving
      // the workflow.
      var i := 0;
      while true
        invariant name in workflows && rules == workflows[name]
        invariant Outcome(workflows, part, name, left) == Outcome(workflows, part, "in", fuel)
        invariant Outcome(workflows, part, name, left).Some?
        invariant 0 <= i < |rules|
        invariant Decide(rules[i..], part) == Decide(rules, part)
        decreases |rules| - i
      {
        assert rules[i..][1..] == rules[i + 1..];
        var target;
        match rules[i] {
          case GreaterThan(c, v, t) =>
            if Rating(part, c) <= v {
              i := i + 1;
              continue;
            }
            target := t;
          case LessThan(c, v, t) =>
            if Rating(part, c) >= v {
              i := i + 1;
              continue;
            }
            target := t;
          case Unconditional(t) =>
            target := t;
        }
        match target
        case Accept =>
          return true;
        case Reject =>
          return false;
        case Redirect(next) =>
          rules := workflows[next];
          name := next;
          left := left - 1;
          break;
      }
    }
  }

  /** The sum of a part's four ratings. */
  function Total(part: Part): nat {
    part.x + part.m + part.a + part.s
  }

  ghost predicate AllTerminate(workflows: Workflows, parts: seq<Part>) {
    forall k :: 0 <= k < |parts| ==> Terminates(workflows, parts[k])
  }

  /** The ratings of the accepted parts, added up. */
  ghost function AcceptedTotal(workflows: Workflows, parts: seq<Part>): nat
    requires AllTerminate(workflows, parts)
  {
    if parts == [] then 0
    else
      var last := parts[|parts| - 1];
      AcceptedTotal(workflows, parts[..|parts| - 1]) + (if Verdict(workflows, last) then Total(last) else 0)
  }

  /** The ratings of all parts, added up. */
  function GrandTotal(parts: seq<Part>): nat {
    if parts == [] then 0 else GrandTotal(parts[..|parts| - 1]) + Total(parts[|parts| - 1])
  }

  /** The part is accepted, or rejecting it loses nothing. */
  ghost predicate Counted(workflows: Workflows, part: Part)
    requires Terminates(workflows, part)
  {
    Verdict(workflows, part) || Total(part) == 0
  }

  ghost predicate AllCounted(workflows: Workflows, parts: seq<Part>)
    requires AllTerminate(workflows, parts)
  {
    forall k :: 0 <= k < |parts| ==> Counted(workflows, parts[k])
  }

  /** Only accepted parts count: the accepted total is the grand total exactly when
      every part with a positive total is accepted, and never more. */
  lemma {:induction false} AcceptedOnly(workflows: Workflows, parts: seq<Part>)
    requires AllTerminate(workflows, parts)
    ensures AcceptedTotal(workflows, parts) <= GrandTotal(parts)
    ensures AcceptedTotal(workflows, parts) == GrandTotal(parts) <==> AllCounted(workflows, parts)
  {
    if parts != [] {
      var n := |parts| - 1;
      AcceptedOnly(workflows, parts[..n]);
      AcceptedStep(workflows, parts, n);
      assert parts[..n + 1] == parts;
      CountedStep(workflows, parts);
    }
  }

  /** Every part is counted exactly when all but the last are and the last is. */
  lemma CountedStep(workflows: Workflows, parts: seq<Part>)
    requires parts != [] && AllTerminate(workflows, parts)
    ensures AllTerminate(workflows, parts[..|parts| - 1])
    ensures AllCounted(workflows, parts) <==>
      AllCounted(workflows, parts[..|parts| - 1]) && Counted(workflows, parts[|parts| - 1])
  {
    var init := parts[..|parts| - 1];
    assert forall k :: 0 <= k < |init| ==> init[k] == parts[k];
  }

  /** `part1`: the ratings of the accepted parts, added up. */
  method Part1(workflows: Workflows, parts: seq<Part>) returns (sum: nat)
    requires AllTerminate(workflows, parts)
    ensures sum == AcceptedTotal(workflows, parts)
  {
    sum := 0;
    for i := 0 to |parts|
      invariant sum == AcceptedTotal(workflows, parts[..i])
    {
      assert parts[..i + 1][..i] == parts[..i];
      var accepted := Evaluate(workflows, parts[i]);
      if accepted {
        sum := sum + Total(parts[i]);
      }
    }
    assert parts[..|parts|] == parts;
  }

  /** The worked example's workflows. */
  function SampleWorkflows(): Workflows {
    map[
      "px" := [LessThan(A, 2006, Redirect("qkq")), GreaterThan(M, 2090, Accept), Unconditional(Redirect("rfg"))],
      "pv" := [GreaterThan(A, 1716, Reject), Unconditional(Accept)],
      "lnx" := [GreaterThan(M, 1548, Accept), Unconditional(Accept)],
      "rfg" := [LessThan(S, 537, Redirect("gd")), GreaterThan(X, 2440, Reject), Unconditional(Accept)],
      "qs" := [GreaterThan(S, 3448, Accept), Unconditional(Redirect("lnx"))],
      "qkq" := [LessThan(X, 1416, Accept), Unconditional(Redirect("crn"))],
      "crn" := [GreaterThan(X, 2662, Accept), Unconditional(Reject)],
      "in" := [LessThan(S, 1351, Redirect("px")), Unconditional(Redirect("qqz"))],
      "qqz" := [GreaterThan(S, 2770, Redirect("qs")), LessThan(M, 1801, Redirect("hdj")), Unconditional(Reject)],
      "gd" := [GreaterThan(A, 3333, Reject), Unconditional(Reject)],
      "hdj" := [GreaterThan(M, 838, Accept), Unconditional(Redirect("pv"))]]
  }

  /** The worked example's parts. */
  function SampleParts(): seq<Part> {
    [Part(787, 2655, 1222, 2876), Part(1679, 44, 2067, 496), Part(2036, 264, 79, 2244),
     Part(2461, 1339, 466, 292), Part(2127, 1623, 2188, 1013)]
  }

  /** The first part goes in, qqz, qs, lnx and is accepted. */
  lemma SampleFirst()
    ensures Terminates(SampleWorkflows(), SampleParts()[0]) && Verdict(SampleWorkflows(), SampleParts()[0])
  {
    var w, p := SampleWorkflows(), SampleParts()[0];
    assert Outcome(w, p, "lnx", 1) == Some(true);
    assert Outcome(w, p, "qs", 2) == Some(true);
    assert Outcome(w, p, "qqz", 3) == Some(true);
    assert Outcome(w, p, "in", 4) == Some(true);
    VerdictIs(w, p, 4);
  }

  /** The second part goes in, px, rfg, gd and is rejected. */
  lemma SampleSecond()
    ensures Terminates(SampleWorkflows(), SampleParts()[1]) && !Verdict(SampleWorkflows(), SampleParts()[1])
  {
    var w, p := SampleWorkflows(), SampleParts()[1];
    assert Outcome(w, p, "gd", 1) == Some(false);
    assert Outcome(w, p, "rfg", 2) == Some(false);
    assert Outcome(w, p, "px", 3) == Some(false);
    assert Outcome(w, p, "in", 4) == Some(false);
    VerdictIs(w, p, 4);
  }

  /** The third part goes in, qqz, hdj, pv and is accepted. */
  lemma SampleThird()
    ensures Terminates(SampleWorkflows(), SampleParts()[2]) && Verdict(SampleWorkflows(), SampleParts()[2])
  {
    var w, p := SampleWorkflows(), SampleParts()[2];
    assert Outcome(w, p, "pv", 1) == Some(true);
    assert Outcome(w, p, "hdj", 2) == Some(true);
    assert Outcome(w, p, "qqz", 3) == Some(true);
    assert Outcome(w, p, "in", 4) == Some(true);
    VerdictIs(w, p, 4);
  }

  /** The fourth part goes in, px, qkq, crn and is rejected. */
  lemma SampleFourth()
    ensures Terminates(SampleWorkflows(), SampleParts()[3]) && !Verdict(SampleWorkflows(), SampleParts()[3])
  {
    var w, p := SampleWorkflows(), SampleParts()[3];
    assert Outcome(w, p, "crn", 1) == Some(false);
    assert Outcome(w, p, "qkq", 2) == Some(false);
    assert Outcome(w, p, "px", 3) == Some(false);
    assert Outcome(w, p, "in", 4) == Some(false);
    VerdictIs(w, p, 4);
  }

  /** The fifth part goes in, px, rfg and is accepted. */
  lemma SampleFifth()
    ensures Terminates(SampleWorkflows(), SampleParts()[4]) && Verdict(SampleWorkflows(), SampleParts()[4])
  {
    var w, p := SampleWorkflows(), SampleParts()[4];
    assert Outcome(w, p, "rfg", 1) == Some(true);
    assert Outcome(w, p, "px", 2) == Some(true);
    assert Outcome(w, p, "in", 3) == Some(true);
    VerdictIs(w, p, 3);
  }

  /** The accepted total grows by one part at a time. */
  lemma AcceptedStep(workflows: Workflows, parts: seq<Part>, n: nat)
    requires n < |parts| && AllTerminate(workflows, parts)
    ensures AllTerminate(workflows, parts[..n]) && AllTerminate(workflows, parts[..n + 1])
    ensures AcceptedTotal(workflows, parts[..n + 1]) ==
      AcceptedTotal(workflows, parts[..n]) + (if Verdict(workflows, parts[n]) then Total(parts[n]) else 0)
  {
    assert parts[..n + 1][..n] == parts[..n];
  }

  /** The accepted total of five parts, spelled out. */
  lemma AcceptedTotalFive(workflows: Workflows, parts: seq<Part>)
    requires |parts| == 5 && AllTerminate(workflows, parts)
    ensures AcceptedTotal(workflows, parts) ==
      (if Verdict(workflows, parts[0]) then Total(parts[0]) else 0) +
      (if Verdict(workflows, parts[1]) then Total(parts[1]) else 0) +
      (if Verdict(workflows, parts[2]) then Total(parts[2]) else 0) +
      (if Verdict(workflows, parts[3]) then Total(parts[3]) else 0) +
      (if Verdict(workflows, parts[4]) then Total(parts[4]) else 0)
  {
    AcceptedStep(workflows, parts, 0);
    AcceptedStep(workflows, parts, 1);
    AcceptedStep(workflows, parts, 2);
    AcceptedStep(workflows, parts, 3);
    AcceptedStep(workflows, parts, 4);
    assert parts[..5] == parts;
  }

  /** The worked example: the accepted ratings add up to 19114. */
  lemma SampleTotal()
    ensures AllTerminate(SampleWorkflows(), SampleParts())
    ensures AcceptedTotal(SampleWorkflows(), SampleParts()) == 19114
  {
    var w, ps := SampleWorkflows(), SampleParts();
    SampleFirst();
    SampleSecond();
    SampleThird();
    SampleFourth();
    SampleFifth();
    assert AllTerminate(w, ps);
    AcceptedTotalFive(w, ps);
  }
}
