/** Day 1, Trebuchet: every line of the calibration document keeps only its digits, and
    its calibration value is the two-digit number made of the first and last of them. */
module Day01 {
  import opened Text

  /** `parse` for one line: the ASCII digits of the line from index `i` on, in order. */
  function DigitsFrom(line: string, i: nat): (r: seq<nat>)
    requires i <= |line|
    ensures |r| <= |line| - i
    ensures forall k :: 0 <= k < |r| ==> r[k] < 10
    decreases |line| - i
  {
    if i == |line| then []
    else (if IsDigit(line[i]) then [DigitValue(line[i])] else []) + DigitsFrom(line, i + 1)
  }

  function Digits(line: string): seq<nat> {
    DigitsFrom(line, 0)
  }

  /** Only digits are kept: a line made of digits keeps all of them, and a line with no
      digit yields nothing. */
  lemma {:induction false} DigitsExact(line: string, i: nat)
    requires i <= |line|
    ensures (forall k :: i <= k < |line| ==> IsDigit(line[k])) ==>
      |DigitsFrom(line, i)| == |line| - i &&
      forall k :: i <= k < |line| ==> DigitsFrom(line, i)[k - i] == DigitValue(line[k])
    ensures (forall k :: i <= k < |line| ==> !IsDigit(line[k])) ==> DigitsFrom(line, i) == []
    decreases |line| - i
  {
    if i < |line| {
      DigitsExact(line, i + 1);
    }
  }

  /** A line's calibration value: first digit times ten plus last digit. `first().unwrap()`
      panics on a line without digits, which is the precondition here. */
  function Calibration(digits: seq<nat>): (r: nat)
    requires |digits| > 0
    requires forall k :: 0 <= k < |digits| ==> digits[k] < 10
    ensures r <= 99
  {
    digits[0] * 10 + digits[|digits| - 1]
  }

  /** Read as a two-digit number, the value's tens digit is the first digit and its units
      digit the last. */
  lemma CalibrationDigits(digits: seq<nat>)
    requires |digits| > 0
    requires forall k :: 0 <= k < |digits| ==> digits[k] < 10
    ensures Calibration(digits) / 10 == digits[0]
    ensures Calibration(digits) % 10 == digits[|digits| - 1]
    ensures |digits| == 1 ==> Calibration(digits) == 11 * digits[0]
  {
  }

  predicate HasDigits(lines: seq<seq<nat>>) {
    forall i :: 0 <= i < |lines| ==> |lines[i]| > 0 && forall k :: 0 <= k < |lines[i]| ==> lines[i][k] < 10
  }

  /** `part1`: the sum of all calibration values, at most 99 per line and at least each
      line's own. */
  function Part1(lines: seq<seq<nat>>): (r: nat)
    requires HasDigits(lines)
    ensures r <= 99 * |lines|
    ensures forall k :: 0 <= k < |lines| ==> Calibration(lines[k]) <= r
  {
    if lines == [] then 0
    else
      var rest := Part1(lines[1..]);
      assert forall k :: 1 <= k < |lines| ==> lines[k] == lines[1..][k - 1];
      Calibration(lines[0]) + rest
  }

  lemma {:induction false} Part1Append(a: seq<seq<nat>>, b: seq<seq<nat>>)
    requires HasDigits(a) && HasDigits(b)
    ensures HasDigits(a + b)
    ensures Part1(a + b) == Part1(a) + Part1(b)
  {
    if a != [] {
      assert (a + b)[1..] == a[1..] + b;
      Part1Append(a[1..], b);
      assert (a + b)[0] == a[0];
    } else {
      assert a + b == b;
    }
  }

  /** Characters that are no digits add nothing to the parse. */
  lemma {:induction false} SkipLetters(line: string, i: nat, j: nat)
    requires i <= j <= |line|
    requires forall k :: i <= k < j ==> !IsDigit(line[k])
    ensures DigitsFrom(line, i) == DigitsFrom(line, j)
    decreases j - i
  {
    if i < j {
      SkipLetters(line, i + 1, j);
    }
  }

  /** The worked example's lines, parsed. */
  lemma SampleParseFirst()
    ensures Digits("1abc2") == [1, 2]
  {
    var line := "1abc2";
    assert DigitsFrom(line, 4) == [2];
    SkipLetters(line, 1, 4);
  }

  lemma SampleParseSecond()
    ensures Digits("pqr3stu8vwx") == [3, 8]
  {
    var line := "pqr3stu8vwx";
    SkipLetters(line, 8, 11);
    assert DigitsFrom(line, 7) == [8];
    SkipLetters(line, 4, 7);
    assert DigitsFrom(line, 3) == [3, 8];
    SkipLetters(line, 0, 3);
  }

  lemma SampleParseThird()
    ensures Digits("a1b2c3d4e5f") == [1, 2, 3, 4, 5]
  {
    var line := "a1b2c3d4e5f";
    assert DigitsFrom(line, 10) == [];
    assert DigitsFrom(line, 8) == [5];
    assert DigitsFrom(line, 6) == [4, 5];
    assert DigitsFrom(line, 4) == [3, 4, 5];
    assert DigitsFrom(line, 2) == [2, 3, 4, 5];
  }

  lemma SampleParseFourth()
    ensures Digits("treb7uchet") == [7]
  {
    var line := "treb7uchet";
    SkipLetters(line, 5, 10);
    assert DigitsFrom(line, 4) == [7];
    SkipLetters(line, 0, 4);
  }

  /** The worked example's parsed lines give 12 + 38 + 15 + 77 = 142. */
  lemma Sample()
    ensures Part1([[1, 2], [3, 8], [1, 2, 3, 4, 5], [7]]) == 142
  {
  }
}
