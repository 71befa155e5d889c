/** Day 4, Scratchcards: a card scores by how many of its numbers are winning numbers, and
    in the second part every match wins a copy of one of the following cards. */
module Day04 {
  import opened Wrappers
  import opened Text

  datatype Card = Card(number: nat, winning: set<nat>, numbers: set<nat>)

  /** `Card::from_str`: "Card <n>: <winning numbers> | <numbers>". A line without ": ",
      a header without a second word or with a non-numeric one, a body without " | " and
      a list entry that is not a number are errors, each with its context message. */
  function ParseCard(s: string): (r: Result<Card>)
    ensures SplitOnce(s, ": ").None? ==> r == Err("Unable to parse card: header not found: " + s)
    ensures SplitOnce(s, ": ").Some? && SplitOnce(SplitOnce(s, ": ").value.1, " | ").None? ==> r.Err?
    ensures r.Ok? ==> (|Words(SplitOnce(s, ": ").value.0)| >= 2 &&
                       ParseNat(Words(SplitOnce(s, ": ").value.0)[1]) == Ok(r.value.number))
    ensures r.Ok? ==> var halves := SplitOnce(SplitOnce(s, ": ").value.1, " | ").value;
      Listed(Words(halves.0), r.value.winning) && Listed(Words(halves.1), r.value.numbers)
    ensures SplitOnce(s, ": ").Some? ==> HeaderParsed(s, SplitOnce(s, ": ").value.0, SplitOnce(s, ": ").value.1, r)
  {
    match SplitOnce(s, ": ")
    case None => Err("Unable to parse card: header not found: " + s)
    case Some((header, body)) =>
      var words := Words(header);
      if |words| < 2 then Err("Unable to parse card header: " + header)
      else if ParseNat(words[1]).Err? then Err("Unable to parse card number from header: " + header)
      else
        var number := ParseNat(words[1]).value;
        match SplitOnce(body, " | ")
        case None => Err("Unable to parse card: separator not found " + s)
        case Some((left, right)) =>
          var winning :- ParseNumbers(Words(left));
          var numbers :- ParseNumbers(Words(right));
          Ok(Card(number, ToSet(winning), ToSet(numbers)))
  }

  /** What `from_str` gives once the line splits at ": " into a header and a body: a header
      with fewer than two words, or whose second word is no number, is an error naming the
      header; otherwise the body decides. */
  predicate HeaderParsed(s: string, header: string, body: string, r: Result<Card>) {
    var words := Words(header);
    if |words| < 2 then r == Err("Unable to parse card header: " + header)
    else if ParseNat(words[1]).Err? then r == Err("Unable to parse card number from header: " + header)
    else BodyParsed(s, body, ParseNat(words[1]).value, r)
  }

  /** What `from_str` gives for the body of a card with a valid number: a body without
      " | " is an error naming the line; otherwise the card parses exactly when every word
      of both halves is a number, the first word that is not being named in the error, and
      the card then holds the number and the values of each half. */
  predicate BodyParsed(s: string, body: string, number: nat, r: Result<Card>) {
    match SplitOnce(body, " | ")
    case None => r == Err("Unable to parse card: separator not found " + s)
    case Some((left, right)) =>
      var winning, numbers := Words(left), Words(right);
      (r.Ok? <==> FirstBad(winning) == |winning| && FirstBad(numbers) == |numbers|) &&
      (FirstBad(winning) < |winning| ==> r == Err("Unable to parse number: " + winning[FirstBad(winning)])) &&
      (FirstBad(winning) == |winning| && FirstBad(numbers) < |numbers| ==>
         r == Err("Unable to parse number: " + numbers[FirstBad(numbers)])) &&
      (r.Ok? ==> r.value.number == number && Listed(winning, r.value.winning) && Listed(numbers, r.value.numbers))
  }

  /** The set holds exactly the values of the words, each word being a number. */
  predicate Listed(words: seq<string>, values: set<nat>) {
    (forall k :: 0 <= k < |words| ==> ParseNat(words[k]).Ok? && ParseNat(words[k]).value in values) &&
    forall x :: x in values ==> exists k :: 0 <= k < |words| && ParseNat(words[k]) == Ok(x)
  }

  /** The index of the first word that is not a number; the length when there is none. */
  function FirstBad(words: seq<string>): (k: nat)
    ensures k <= |words|
    ensures forall j :: 0 <= j < k ==> ParseNat(words[j]).Ok?
    ensures k < |words| ==> ParseNat(words[k]).Err?
  {
    if words == [] then 0
    else if ParseNat(words[0]).Err? then 0
    else
      var k := FirstBad(words[1..]);
      assert forall j :: 1 <= j < k + 1 ==> words[j] == words[1..][j - 1];
      1 + k
  }

  /** One list of numbers: every word parsed, the first that is not a number reported. */
  function ParseNumbers(words: seq<string>): (r: Result<seq<nat>>)
    ensures r.Ok? <==> FirstBad(words) == |words|
    ensures r.Ok? ==> |r.value| == |words| && forall k :: 0 <= k < |words| ==> ParseNat(words[k]) == Ok(r.value[k])
    ensures r.Err? ==> r.error == "Unable to parse number: " + words[FirstBad(words)]
  {
    if words == [] then Ok([])
    else
      var head := ParseNat(words[0]);
      if head.Err? then Err("Unable to parse number: " + words[0])
      else
        var tail := words[1..];
        assert FirstBad(words) == 1 + FirstBad(tail);
        match ParseNumbers(tail)
        case Err(e) =>
          assert words[FirstBad(words)] == tail[FirstBad(tail)];
          Err(e)
        case Ok(rest) =>
          ParsedCons(words, head.value, rest);
          Ok([head.value] + rest)
  }

  lemma ParsedCons(words: seq<string>, x: nat, rest: seq<nat>)
    requires words != [] && ParseNat(words[0]) == Ok(x) && |rest| == |words| - 1
    requires forall k :: 0 <= k < |rest| ==> ParseNat(words[1..][k]) == Ok(rest[k])
    ensures forall k :: 0 <= k < |words| ==> ParseNat(words[k]) == Ok(([x] + rest)[k])
  {
    forall k | 0 < k < |words|
      ensures ParseNat(words[k]) == Ok(([x] + rest)[k])
    {
      assert words[k] == words[1..][k - 1];
    }
  }

  /** Collecting into a `HashSet`. */
  function ToSet(s: seq<nat>): (r: set<nat>)
    ensures forall x :: x in r <==> x in s
  {
    set x | x in s
  }

  /** The number of the card's numbers that are winning numbers. */
  function Matches(c: Card): nat {
    |c.winning * c.numbers|
  }

  function Pow2(n: nat): (r: nat)
    ensures r >= 1
  {
    if n == 0 then 1 else 2 * Pow2(n - 1)
  }

  /** A card's points: 0 without a match, then 1, doubled for every further match. */
  function Score(matches: nat): (r: nat)
    ensures matches == 0 <==> r == 0
    ensures matches >= 1 ==> r == Pow2(matches - 1)
  {
    if matches == 0 then 0 else Pow2(matches - 1)
  }

  /** Every match after the first doubles the points. */
  lemma ScoreDoubles(matches: nat)
    requires matches >= 1
    ensures Score(matches + 1) == 2 * Score(matches)
  {
  }

  /** Each card's match count. */
  function Wins(cards: seq<Card>): (w: seq<nat>)
    ensures |w| == |cards| && forall k :: 0 <= k < |cards| ==> w[k] == Matches(cards[k])
  {
    if cards == [] then [] else [Matches(cards[0])] + Wins(cards[1..])
  }

  /** The sum of the cards' scores: nothing exactly when no card has a match, and at
      least each card's own score. */
  function Points(wins: seq<nat>): (r: nat)
    ensures r == 0 <==> forall k :: 0 <= k < |wins| ==> wins[k] == 0
    ensures forall k :: 0 <= k < |wins| ==> Score(wins[k]) <= r
  {
    if wins == [] then 0
    else
      var rest := Points(wins[1..]);
      assert forall k :: 1 <= k < |wins| ==> wins[k] == wins[1..][k - 1];
      Score(wins[0]) + rest
  }

  /** The points of two runs of cards add up. */
  lemma {:induction false} PointsAppend(a: seq<nat>, b: seq<nat>)
    ensures Points(a + b) == Points(a) + Points(b)
  {
    if a == [] {
      assert a + b == b;
    } else {
      assert (a + b)[1..] == a[1..] + b;
      PointsAppend(a[1..], b);
    }
  }

  /** `part1`: the sum of the cards' points, 0 exactly when no card has a winning
      number. */
  function Part1(cards: seq<Card>): (r: nat)
    ensures r == 0 <==> forall k :: 0 <= k < |cards| ==> cards[k].winning * cards[k].numbers == {}
  {
    var w := Wins(cards);
    assert forall k :: 0 <= k < |cards| ==> (w[k] == 0 <==> cards[k].winning * cards[k].numbers == {});
    Points(w)
  }

  /** Every card with k matches wins one copy of each of the next k cards, and the input
      never points past the last card. */
  predicate InRange(wins: seq<nat>) {
    forall p :: 0 <= p < |wins| ==> p + wins[p] < |wins|
  }

  /** Reference definition: the number of cards one instance of card p ends up being,
      itself and every copy it wins, transitively. Wins past the last card are cut off
      here; `InRange` rules them out for the solver. */
  function Copies(wins: seq<nat>, p: nat): (r: nat)
    requires p < |wins|
    ensures r >= 1
    decreases |wins| - p, 1
  {
    1 + CopiesSum(wins, p + 1, if p + 1 + wins[p] <= |wins| then p + 1 + wins[p] else |wins|)
  }

  /** The copies of cards a..b-1. */
  function CopiesSum(wins: seq<nat>, a: nat, b: nat): (r: nat)
    requires a <= b <= |wins|
    ensures r >= b - a
    decreases |wins| - a, 2
  {
    if a == b then 0 else Copies(wins, a) + CopiesSum(wins, a + 1, b)
  }

  /** The cards in the end: every original card with everything it wins. */
  function Total(wins: seq<nat>): (r: nat)
    ensures r >= |wins|
  {
    CopiesSum(wins, 0, |wins|)
  }

  lemma {:induction false} CopiesSumSnoc(wins: seq<nat>, a: nat, b: nat)
    requires a <= b < |wins|
    ensures CopiesSum(wins, a, b + 1) == CopiesSum(wins, a, b) + Copies(wins, b)
    decreases b - a
  {
    if a < b {
      CopiesSumSnoc(wins, a + 1, b);
    }
  }

  /** The original cards are numbered 1, 2, ... in order. */
  predicate Numbered(cards: seq<Card>) {
    forall k :: 0 <= k < |cards| ==> cards[k].number == k + 1
  }

  /** Every card of the deck is an original card. */
  predicate Copied(deck: seq<Card>, cards: seq<Card>) {
    forall k :: 0 <= k < |deck| ==> deck[k] in cards
  }

  /** In a numbered deck a card is found at the index its number names. */
  lemma CopyOf(cards: seq<Card>, c: Card)
    requires Numbered(cards) && c in cards
    ensures 1 <= c.number <= |cards| && cards[c.number - 1] == c
  {
    var x :| 0 <= x < |cards| && cards[x] == c;
  }

  /** What one card still to be processed will amount to. */
  function Amount(wins: seq<nat>, c: Card): nat {
    if 1 <= c.number <= |wins| then Copies(wins, c.number - 1) else 0
  }

  /** What the cards still to be processed will amount to. */
  function Pending(wins: seq<nat>, deck: seq<Card>): nat {
    if deck == [] then 0 else Pending(wins, deck[..|deck| - 1]) + Amount(wins, deck[|deck| - 1])
  }

  lemma {:induction false} PendingHead(wins: seq<nat>, deck: seq<Card>)
    requires deck != []
    ensures Pending(wins, deck) == Amount(wins, deck[0]) + Pending(wins, deck[1..])
  {
    if |deck| > 1 {
      PendingHead(wins, deck[..|deck| - 1]);
      assert deck[..|deck| - 1][1..] == deck[1..][..|deck[1..]| - 1];
    }
  }

  lemma PendingSnoc(wins: seq<nat>, deck: seq<Card>, c: Card)
    ensures Pending(wins, deck + [c]) == Pending(wins, deck) + Amount(wins, c)
  {
    assert (deck + [c])[..|deck|] == deck;
  }

  lemma {:induction false} PendingPrefix(wins: seq<nat>, cards: seq<Card>, n: nat)
    requires Numbered(cards) && |wins| == |cards| && n <= |cards|
    ensures Pending(wins, cards[..n]) == CopiesSum(wins, 0, n)
  {
    if n > 0 {
      PendingPrefix(wins, cards, n - 1);
      assert cards[..n] == cards[..n - 1] + [cards[n - 1]];
      PendingSnoc(wins, cards[..n - 1], cards[n - 1]);
      CopiesSumSnoc(wins, 0, n - 1);
    } else {
      assert cards[..0] == [];
    }
  }

  /** An original card amounts to the copies of its own index. */
  lemma AmountOf(wins: seq<nat>, cards: seq<Card>, k: nat)
    requires Numbered(cards) && |wins| == |cards| && k < |cards|
    ensures Amount(wins, cards[k]) == Copies(wins, k)
  {
  }

  /** Appending the cards numbered n + 1 .. n + m adds what they amount to. */
  lemma {:induction false} PendingExtend(wins: seq<nat>, cards: seq<Card>, rest: seq<Card>, n: nat, m: nat)
    requires Numbered(cards) && |wins| == |cards| && n + m <= |cards|
    ensures Pending(wins, rest + cards[n..n + m]) == Pending(wins, rest) + CopiesSum(wins, n, n + m)
    decreases m
  {
    if m == 0 {
      assert rest + cards[n..n] == rest;
    } else {
      var c := cards[n];
      assert cards[n..n + m] == [c] + cards[n + 1..n + m];
      assert rest + cards[n..n + m] == (rest + [c]) + cards[n + 1..n + m];
      PendingExtend(wins, cards, rest + [c], n + 1, m - 1);
      PendingSnoc(wins, rest, c);
      AmountOf(wins, cards, n);
      assert CopiesSum(wins, n, n + m) == Copies(wins, n) + CopiesSum(wins, n + 1, n + m);
    }
  }

  /** The `for j in 1..=matches` loop: push the deck's cards at indices n .. n + m - 1,
      which are the original cards numbered n + 1 .. n + m. */
  method PushCopies(deck: seq<Card>, ghost cards: seq<Card>, n: nat, m: nat) returns (grown: seq<Card>)
    requires |cards| <= |deck| && deck[..|cards|] == cards && n + m <= |cards|
    ensures grown == deck + cards[n..n + m]
  {
    grown := deck;
    var j := 1;
    while j <= m
      invariant 1 <= j <= m + 1
      invariant grown == deck + cards[n..n + j - 1]
    {
      assert grown[n - 1 + j] == cards[n - 1 + j];
      grown := grown + [grown[n - 1 + j]];
      assert cards[n..n + j] == cards[n..n + j - 1] + [cards[n + j - 1]];
      j := j + 1;
    }
  }

  /** Copies of original cards are original cards. */
  lemma CopiedExtend(deck: seq<Card>, cards: seq<Card>, n: nat, m: nat)
    requires Copied(deck, cards) && n + m <= |cards|
    ensures Copied(deck + cards[n..n + m], cards)
  {
    var d := deck + cards[n..n + m];
    forall k | 0 <= k < |d| ensures d[k] in cards {
      if k >= |deck| {
        assert d[k] == cards[n + k - |deck|];
      }
    }
  }

  /** One pass of the outer loop: processing the card at index i, numbered n, moves it
      from pending to done and appends the copies it wins, which amount to the rest of
      what it was worth. */
  lemma LoopStep(wins: seq<nat>, cards: seq<Card>, deck: seq<Card>, grown: seq<Card>, i: nat, n: nat, m: nat)
    requires Numbered(cards) && |wins| == |cards| && InRange(wins)
    requires i < |deck| && deck[i].number == n && 1 <= n <= |cards| && m == wins[n - 1]
    requires grown == deck + cards[n..n + m]
    ensures 1 + Pending(wins, grown[i + 1..]) == Pending(wins, deck[i..])
    ensures Accounted(wins, deck, i) ==> Accounted(wins, grown, i + 1)
  {
    var tail := deck[i + 1..] + cards[n..n + m];
    assert grown[i + 1..] == tail;
    assert deck[i..] == [deck[i]] + deck[i + 1..];
    calc {
      Pending(wins, deck[i..]);
      { PendingHead(wins, deck[i..]); }
      Amount(wins, deck[i]) + Pending(wins, deck[i + 1..]);
      Copies(wins, n - 1) + Pending(wins, deck[i + 1..]);
      { assert n - 1 + 1 + m <= |wins|; }
      1 + CopiesSum(wins, n, n + m) + Pending(wins, deck[i + 1..]);
      { PendingExtend(wins, cards, deck[i + 1..], n, m); }
      1 + Pending(wins, tail);
    }
  }

  /** The cards before index i are done and those from i on are still pending; together
      they make up the total. */
  predicate Accounted(wins: seq<nat>, deck: seq<Card>, i: nat) {
    i <= |deck| && i + Pending(wins, deck[i..]) == Total(wins)
  }

  /** The invariant of `part2`'s outer loop: the deck starts with the original cards and
      holds only original cards, and the cards before index i are done. */
  predicate Dealt(cards: seq<Card>, wins: seq<nat>, deck: seq<Card>, i: nat) {
    Numbered(cards) && wins == Wins(cards) && InRange(wins) &&
    |cards| <= |deck| && deck[..|cards|] == cards && Copied(deck, cards) && Accounted(wins, deck, i)
  }

  /** The card at index i of the deck is an original card whose copies stay within the
      original cards, so the inner loop's indices are in range. */
  lemma Ready(cards: seq<Card>, wins: seq<nat>, deck: seq<Card>, i: nat)
    requires Dealt(cards, wins, deck, i) && i < |deck|
    ensures 1 <= deck[i].number && deck[i].number + Matches(deck[i]) <= |cards|
    ensures Matches(deck[i]) == wins[deck[i].number - 1]
  {
    CopyOf(cards, deck[i]);
  }

  /** One pass of `part2`'s outer loop keeps the invariant and leaves fewer cards
      pending. */
  lemma Advance(cards: seq<Card>, wins: seq<nat>, deck: seq<Card>, i: nat, n: nat, m: nat, grown: seq<Card>)
    requires Dealt(cards, wins, deck, i) && i < |deck|
    requires n == deck[i].number && m == Matches(deck[i])
    requires grown == deck + cards[n..n + m]
    ensures Dealt(cards, wins, grown, i + 1)
    ensures Pending(wins, grown[i + 1..]) < Pending(wins, deck[i..])
  {
    Ready(cards, wins, deck, i);
    assert grown[..|cards|] == deck[..|cards|];
    CopiedExtend(deck, cards, n, m);
    LoopStep(wins, cards, deck, grown, i, n, m);
  }

  /** `part2`: walk the growing deck in order; processing a card appends one copy of each
      of the next `matches` cards, taken from the deck by index. The answer is the deck's
      final size, the total of the reference definition. */
  method Part2(cards: seq<Card>) returns (total: nat)
    requires Numbered(cards) && InRange(Wins(cards))
    ensures total == Total(Wins(cards))
    ensures total >= |cards|
  {
    ghost var wins := Wins(cards);
    var deck := cards;
    var i := 0;
    PendingPrefix(wins, cards, |cards|);
    assert cards[..|cards|] == cards && deck[i..] == cards;
    while i < |deck|
      invariant Dealt(cards, wins, deck, i)
      decreases Pending(wins, deck[i..])
    {
      Ready(cards, wins, deck, i);
      var card := deck[i];
      var n := card.number;
      var m := Matches(card);
      var grown := PushCopies(deck, cards, n, m);
      Advance(cards, wins, deck, i, n, m, grown);
      deck := grown;
      i := i + 1;
    }
    total := |deck|;
  }

  /** The worked example's match counts: 4, 2, 2, 1, 0 and 0. */
  lemma SamplePoints()
    ensures Points([4, 2, 2, 1, 0, 0]) == 13
  {
    assert Points([0]) == 0;
    assert Points([0, 0]) == 0;
    assert Points([1, 0, 0]) == 1;
    assert Points([2, 1, 0, 0]) == 3;
    assert Points([2, 2, 1, 0, 0]) == 5;
  }

  lemma SampleTotal()
    ensures InRange([4, 2, 2, 1, 0, 0]) && Total([4, 2, 2, 1, 0, 0]) == 30
  {
    var w := [4, 2, 2, 1, 0, 0];
    assert Copies(w, 5) == 1;
    assert Copies(w, 4) == 1;
    assert CopiesSum(w, 5, 6) == 1;
    assert CopiesSum(w, 4, 5) == 1;
    assert CopiesSum(w, 4, 6) == 2;
    assert Copies(w, 3) == 2;
    assert CopiesSum(w, 3, 5) == 3;
    assert CopiesSum(w, 3, 6) == 4;
    assert Copies(w, 2) == 4;
    assert CopiesSum(w, 2, 4) == 6;
    assert CopiesSum(w, 2, 6) == 8;
    assert Copies(w, 1) == 7;
    assert CopiesSum(w, 1, 5) == 14;
    assert CopiesSum(w, 1, 6) == 15;
    assert Copies(w, 0) == 15;
    assert CopiesSum(w, 0, 6) == 30;
  }
}
