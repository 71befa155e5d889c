/** Day 15, Lens Library: the HASH algorithm folds a step's characters into a value in
    0..255, and the initialization sequence is the comma-separated list of steps. */
module Day15 {
  import opened Text

  /** `hash`: the left fold `((acc + c) * 17) % 256` from 0, taken over the first `n`
      characters. */
  function HashPrefix(s: string, n: nat): (r: nat)
    requires n <= |s|
    ensures r < 256
  {
    if n == 0 then 0 else ((HashPrefix(s, n - 1) + s[n - 1] as int) * 17) % 256
  }

  function Hash(s: string): (r: nat)
    ensures r < 256
    ensures s == [] ==> r == 0
  {
    HashPrefix(s, |s|)
  }

  lemma {:induction false} HashPrefixAppend(s: string, t: string, n: nat)
    requires n <= |s|
    ensures HashPrefix(s + t, n) == HashPrefix(s, n)
  {
    if n > 0 {
      HashPrefixAppend(s, t, n - 1);
    }
  }

  /** One more character folds into the previous hash. */
  lemma HashSnoc(s: string, c: char)
    ensures Hash(s + [c]) == ((Hash(s) + c as int) * 17) % 256
  {
    HashPrefixAppend(s, [c], |s|);
  }

  /** `parse`: the trimmed input split at every comma; gluing the steps back with commas
      gives the trimmed input. */
  function Steps(input: string): (r: seq<string>)
    ensures |r| >= 1
    ensures Join(r, ',') == Trim(input)
    ensures forall k :: 0 <= k < |r| ==> ',' !in r[k]
  {
    JoinSplit(Trim(input), ',');
    Split(Trim(input), ',')
  }

  /** `part1`: the sum of the steps' hashes. */
  function Part1(steps: seq<string>): (r: nat)
    ensures steps == [] ==> r == 0
  {
    if steps == [] then 0 else Hash(steps[0]) + Part1(steps[1..])
  }

  /** Every step adds less than 256. */
  lemma {:induction false} Part1Bound(steps: seq<string>)
    ensures Part1(steps) <= 255 * |steps|
  {
    if steps != [] {
      Part1Bound(steps[1..]);
    }
  }

  lemma SampleHash()
    ensures Hash("HASH") == 52
  {
    assert HashPrefix("HASH", 1) == 200;
    assert HashPrefix("HASH", 2) == 153;
    assert HashPrefix("HASH", 3) == 172;
    assert HashPrefix("HASH", 4) == 52;
  }

  /** The worked example's eleven steps hash to 30, 253, 97, 47, 14, 180, 9, 197, 48, 214
      and 231. */
  lemma SampleHashes1()
    ensures Hash("rn=1") == 30
    ensures Hash("cm-") == 253
    ensures Hash("qp=3") == 97
    ensures Hash("cm=2") == 47
  {
    HashRnSet1();
    HashCmRemove();
    HashQpSet3();
    HashCmSet2();
  }

  lemma SampleHashes2()
    ensures Hash("qp-") == 14
    ensures Hash("pc=4") == 180
    ensures Hash("ot=9") == 9
    ensures Hash("ab=5") == 197
  {
    HashQpRemove();
    HashPcSet4();
    HashOtSet9();
    HashAbSet5();
  }

  lemma SampleHashes3()
    ensures Hash("pc-") == 48
    ensures Hash("pc=6") == 214
    ensures Hash("ot=7") == 231
  {
    HashPcRemove();
    HashPcSet6();
    HashOtSet7();
  }

  /** One step of the worked example each. */
  /** A trailing no-break space is whitespace to `str::trim`, so it is no part of the
      last step. */
  lemma NoBreakSpaceTrimmed()
    ensures Steps("rn=1\U{A0}") == ["rn=1"]
    ensures Part1(Steps("rn=1\U{A0}")) == 30
  {
    var input := "rn=1\U{A0}";
    assert TrimStart(input) == input;
    assert input[..4] == "rn=1";
    assert TrimEnd(input) == "rn=1";
    assert ',' !in "rn=1";
    SplitJoin(["rn=1"], ',');
    HashRnSet1();
    assert Part1(["rn=1"]) == Hash("rn=1") + Part1([]);
  }

  lemma HashRnSet1()
    ensures Hash("rn=1") == 30
  {
    assert HashPrefix("rn=1", 1) == 146;
    assert HashPrefix("rn=1", 2) == 0;
    assert HashPrefix("rn=1", 3) == 13;
  }

  lemma HashCmRemove()
    ensures Hash("cm-") == 253
  {
    assert HashPrefix("cm-", 1) == 147;
    assert HashPrefix("cm-", 2) == 0;
  }

  lemma HashQpSet3()
    ensures Hash("qp=3") == 97
  {
    assert HashPrefix("qp=3", 1) == 129;
    assert HashPrefix("qp=3", 2) == 1;
    assert HashPrefix("qp=3", 3) == 30;
  }

  lemma HashCmSet2()
    ensures Hash("cm=2") == 47
  {
    assert HashPrefix("cm=2", 1) == 147;
    assert HashPrefix("cm=2", 2) == 0;
    assert HashPrefix("cm=2", 3) == 13;
  }

  lemma HashQpRemove()
    ensures Hash("qp-") == 14
  {
    assert HashPrefix("qp-", 1) == 129;
    assert HashPrefix("qp-", 2) == 1;
  }

  lemma HashPcSet4()
    ensures Hash("pc=4") == 180
  {
    assert HashPrefix("pc=4", 1) == 112;
    assert HashPrefix("pc=4", 2) == 3;
    assert HashPrefix("pc=4", 3) == 64;
  }

  lemma HashOtSet9()
    ensures Hash("ot=9") == 9
  {
    assert HashPrefix("ot=9", 1) == 95;
    assert HashPrefix("ot=9", 2) == 3;
    assert HashPrefix("ot=9", 3) == 64;
  }

  lemma HashAbSet5()
    ensures Hash("ab=5") == 197
  {
    assert HashPrefix("ab=5", 1) == 113;
    assert HashPrefix("ab=5", 2) == 3;
    assert HashPrefix("ab=5", 3) == 64;
  }

  lemma HashPcRemove()
    ensures Hash("pc-") == 48
  {
    assert HashPrefix("pc-", 1) == 112;
    assert HashPrefix("pc-", 2) == 3;
  }

  lemma HashPcSet6()
    ensures Hash("pc=6") == 214
  {
    assert HashPrefix("pc=6", 1) == 112;
    assert HashPrefix("pc=6", 2) == 3;
    assert HashPrefix("pc=6", 3) == 64;
  }

  lemma HashOtSet7()
    ensures Hash("ot=7") == 231
  {
    assert HashPrefix("ot=7", 1) == 95;
    assert HashPrefix("ot=7", 2) == 3;
    assert HashPrefix("ot=7", 3) == 64;
  }

  /** The hashes of the worked example sum to 1320. */
  lemma Sample()
    ensures Part1(["rn=1", "cm-", "qp=3", "cm=2", "qp-", "pc=4", "ot=9", "ab=5", "pc-", "pc=6", "ot=7"]) == 1320
  {
    SampleHashes1();
    SampleHashes2();
    SampleHashes3();
  }
}
