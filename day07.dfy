/** Day 7, Camel Cards: a hand of five cards has a type fixed by how its cards group, hands
    are ordered by type and then card by card, and the winnings are every bid times the
    hand's rank in that order. */
module Day07 {
  import opened Wrappers
  import Text

  /** The thirteen cards, in increasing strength (the derived `Ord` of the enum). */
  datatype Card = Num2 | Num3 | Num4 | Num5 | Num6 | Num7 | Num8 | Num9 | T | J | Q | K | A

  /** The card labels, weakest first. */
  const Labels: string := "23456789TJQKA"

  /** A card's strength: its position in the enum. */
  function Strength(c: Card): (r: nat)
    ensures r < 13
  {
    match c
    case Num2 => 0 case Num3 => 1 case Num4 => 2 case Num5 => 3 case Num6 => 4
    case Num7 => 5 case Num8 => 6 case Num9 => 7 case T => 8 case J => 9
    case Q => 10 case K => 11 case A => 12
  }

  /** The card of a given strength. */
  function OfStrength(i: nat): (c: Card)
    requires i < 13
    ensures Strength(c) == i
  {
    [Num2, Num3, Num4, Num5, Num6, Num7, Num8, Num9, T, J, Q, K, A][i]
  }

  lemma StrengthInjective(a: Card, b: Card)
    ensures Strength(a) == Strength(b) <==> a == b
  {
  }

  /** `Card::try_from`: exactly the thirteen labels are cards, and a label's position in
      `Labels` is the card's strength, so 2 < 3 < ... < 9 < T < J < Q < K < A. */
  function ParseCard(ch: char): (r: Result<Card>)
    ensures r.Ok? <==> ch in Labels
    ensures r.Ok? ==> Labels[Strength(r.value)] == ch
    ensures r.Err? ==> r.error == "Invalid card: " + [ch]
  {
    match ch
    case '2' => Ok(Num2) case '3' => Ok(Num3) case '4' => Ok(Num4) case '5' => Ok(Num5)
    case '6' => Ok(Num6) case '7' => Ok(Num7) case '8' => Ok(Num8) case '9' => Ok(Num9)
    case 'T' => Ok(T) case 'J' => Ok(J) case 'Q' => Ok(Q) case 'K' => Ok(K) case 'A' => Ok(A)
    case _ => Err("Invalid card: " + [ch])
  }

  /** Every card is read back from its label. */
  lemma ParseLabel(c: Card)
    ensures ParseCard(Labels[Strength(c)]) == Ok(c)
  {
  }

  /** The index of the first character that is no card; the length when there is none. */
  function FirstNonCard(s: string): (k: nat)
    ensures k <= |s|
    ensures forall i :: 0 <= i < k ==> s[i] in Labels
    ensures k < |s| ==> s[k] !in Labels
  {
    if s == [] || s[0] !in Labels then 0
    else
      var k := FirstNonCard(s[1..]);
      assert forall i :: 1 <= i < k + 1 ==> s[i] == s[1..][i - 1];
      1 + k
  }

  /** The cards of a string, stopping at the first character that is not a card. */
  function ParseCards(s: string): (r: Result<seq<Card>>)
    ensures r.Ok? <==> forall i :: 0 <= i < |s| ==> s[i] in Labels
    ensures r.Ok? ==> |r.value| == |s| && forall i :: 0 <= i < |s| ==> Labels[Strength(r.value[i])] == s[i]
    ensures r.Err? ==> FirstNonCard(s) < |s| && r.error == "Invalid card: " + [s[FirstNonCard(s)]]
  {
    if s == [] then Ok([])
    else
      var c :- ParseCard(s[0]);
      var rest :- ParseCards(s[1..]);
      assert forall i :: 1 <= i < |s| ==> s[i] == s[1..][i - 1];
      Ok([c] + rest)
  }

  /** How many of the cards are `c`. */
  function Count(cards: seq<Card>, c: Card): (r: nat)
    ensures r <= |cards|
  {
    if cards == [] then 0 else (if cards[0] == c then 1 else 0) + Count(cards[1..], c)
  }

  /** The sizes of the groups of equal cards, strongest card first, as grouping the
      reverse-sorted hand yields them; only the strengths below `k` are looked at. */
  function GroupCountsBelow(cards: seq<Card>, k: nat): (r: seq<nat>)
    requires k <= 13
    ensures forall i :: 0 <= i < |r| ==> r[i] >= 1
  {
    if k == 0 then []
    else
      var n := Count(cards, OfStrength(k - 1));
      (if n > 0 then [n] else []) + GroupCountsBelow(cards, k - 1)
  }

  function GroupCounts(cards: seq<Card>): seq<nat> {
    GroupCountsBelow(cards, 13)
  }

  function Sum(s: seq<nat>): nat {
    if s == [] then 0 else s[0] + Sum(s[1..])
  }

  /** The number of cards whose strength is below k. */
  function CountBelow(cards: seq<Card>, k: nat): nat
    requires k <= 13
  {
    if k == 0 then 0 else Count(cards, OfStrength(k - 1)) + CountBelow(cards, k - 1)
  }

  lemma {:induction false} GroupSumBelow(cards: seq<Card>, k: nat)
    requires k <= 13
    ensures Sum(GroupCountsBelow(cards, k)) == CountBelow(cards, k)
  {
    if k > 0 {
      GroupSumBelow(cards, k - 1);
      var n := Count(cards, OfStrength(k - 1));
      var rest := GroupCountsBelow(cards, k - 1);
      if n > 0 {
        assert ([n] + rest)[1..] == rest;
      } else {
        assert [] + rest == rest;
      }
    }
  }

  lemma {:induction false} CountBelowCons(c: Card, rest: seq<Card>, k: nat)
    requires k <= 13
    ensures CountBelow([c] + rest, k) == CountBelow(rest, k) + (if Strength(c) < k then 1 else 0)
  {
    if k > 0 {
      CountBelowCons(c, rest, k - 1);
      assert ([c] + rest)[1..] == rest;
      StrengthInjective(c, OfStrength(k - 1));
    }
  }

  lemma {:induction false} CountBelowAll(cards: seq<Card>)
    ensures CountBelow(cards, 13) == |cards|
  {
    if cards == [] {
      CountBelowEmpty(13);
    } else {
      CountBelowAll(cards[1..]);
      assert cards == [cards[0]] + cards[1..];
      CountBelowCons(cards[0], cards[1..], 13);
    }
  }

  lemma {:induction false} CountBelowEmpty(k: nat)
    requires k <= 13
    ensures CountBelow([], k) == 0
  {
    if k > 0 {
      CountBelowEmpty(k - 1);
    }
  }

  /** The groups account for every card of the hand. */
  lemma GroupCountsSum(cards: seq<Card>)
    ensures Sum(GroupCounts(cards)) == |cards|
  {
    GroupSumBelow(cards, 13);
    CountBelowAll(cards);
  }

  predicate Positive(s: seq<nat>) {
    forall i :: 0 <= i < |s| ==> s[i] >= 1
  }

  predicate NonIncreasing(s: seq<nat>) {
    forall i :: 0 < i < |s| ==> s[i - 1] >= s[i]
  }

  /** Inserts x in front of the first element it is at least. */
  function InsertDesc(x: nat, s: seq<nat>): (r: seq<nat>)
    requires NonIncreasing(s)
    ensures NonIncreasing(r) && multiset(r) == multiset(s) + multiset{x}
    ensures |r| == |s| + 1 && (r[0] == x || (s != [] && r[0] == s[0]))
  {
    if s == [] || x >= s[0] then [x] + s
    else
      var rest := InsertDesc(x, s[1..]);
      var r := [s[0]] + rest;
      assert s == [s[0]] + s[1..];
      assert NonIncreasing(r) by {
        forall i | 0 < i < |r| ensures r[i - 1] >= r[i] {
          if i > 1 {
            assert r[i - 1] == rest[i - 2] && r[i] == rest[i - 1];
          } else {
            assert r[1] == rest[0];
          }
        }
      }
      r
  }

  lemma {:induction false} InsertDescSum(x: nat, s: seq<nat>)
    requires NonIncreasing(s)
    ensures Sum(InsertDesc(x, s)) == x + Sum(s)
    ensures x >= 1 && Positive(s) ==> Positive(InsertDesc(x, s))
  {
    if s != [] && x < s[0] {
      var rest := InsertDesc(x, s[1..]);
      InsertDescSum(x, s[1..]);
      assert InsertDesc(x, s) == [s[0]] + rest;
      assert ([s[0]] + rest)[1..] == rest;
    } else {
      assert ([x] + s)[1..] == s;
    }
  }

  /** `.sorted().rev()` on the group sizes: the same sizes, largest first. */
  function SortDesc(s: seq<nat>): (r: seq<nat>)
    ensures NonIncreasing(r) && multiset(r) == multiset(s)
    ensures Sum(r) == Sum(s) && (Positive(s) ==> Positive(r))
  {
    if s == [] then []
    else
      assert s == [s[0]] + s[1..];
      assert Positive(s) ==> Positive(s[1..]) by {
        assert forall i :: 0 <= i < |s[1..]| ==> s[1..][i] == s[i + 1];
      }
      InsertDescSum(s[0], SortDesc(s[1..]));
      InsertDesc(s[0], SortDesc(s[1..]))
  }

  /** The seven ways to write 5 as a sum of positive parts, largest part first. */
  predicate FiveShape(sorted: seq<nat>) {
    sorted == [5] || sorted == [4, 1] || sorted == [3, 2] || sorted == [3, 1, 1] ||
    sorted == [2, 2, 1] || sorted == [2, 1, 1, 1] || sorted == [1, 1, 1, 1, 1]
  }

  /** The `match` on the sorted group sizes; None is the `unreachable!()` arm. */
  function TypeOfCounts(sorted: seq<nat>): (r: Option<nat>)
    ensures r.Some? <==> FiveShape(sorted)
    ensures r.Some? ==> r.value <= 6
    ensures r.Some? ==> (r.value == 6 <==> |sorted| == 1) && (r.value == 0 <==> |sorted| == 5)
  {
    if sorted == [5] then Some(6)
    else if sorted == [4, 1] then Some(5)
    else if sorted == [3, 2] then Some(4)
    else if sorted == [3, 1, 1] then Some(3)
    else if sorted == [2, 2, 1] then Some(2)
    else if sorted == [2, 1, 1, 1] then Some(1)
    else if sorted == [1, 1, 1, 1, 1] then Some(0)
    else None
  }

  /** Splitting off the largest part. */
  lemma Peel(s: seq<nat>)
    requires s != [] && Positive(s) && NonIncreasing(s)
    ensures s == [s[0]] + s[1..] && s[0] >= 1
    ensures Positive(s[1..]) && NonIncreasing(s[1..]) && Sum(s[1..]) == Sum(s) - s[0]
    ensures s[1..] != [] ==> s[1..][0] <= s[0] && Sum(s[1..]) >= 1
  {
    assert forall i :: 0 <= i < |s[1..]| ==> s[1..][i] == s[i + 1];
  }

  lemma PartitionsOfOne(s: seq<nat>)
    requires Positive(s) && NonIncreasing(s) && Sum(s) == 1
    ensures s == [1]
  {
    Peel(s);
  }

  lemma PartitionsOfTwo(s: seq<nat>)
    requires Positive(s) && NonIncreasing(s) && Sum(s) == 2
    ensures s == [2] || s == [1, 1]
  {
    Peel(s);
    if s[0] == 1 {
      PartitionsOfOne(s[1..]);
    }
  }

  lemma PartitionsOfThree(s: seq<nat>)
    requires Positive(s) && NonIncreasing(s) && Sum(s) == 3
    ensures s == [3] || s == [2, 1] || s == [1, 1, 1]
  {
    Peel(s);
    if s[0] == 2 {
      PartitionsOfOne(s[1..]);
    } else if s[0] == 1 {
      PartitionsOfTwo(s[1..]);
    }
  }

  lemma PartitionsOfFour(s: seq<nat>)
    requires Positive(s) && NonIncreasing(s) && Sum(s) == 4
    ensures s == [4] || s == [3, 1] || s == [2, 2] || s == [2, 1, 1] || s == [1, 1, 1, 1]
  {
    Peel(s);
    if s[0] == 3 {
      PartitionsOfOne(s[1..]);
    } else if s[0] == 2 {
      PartitionsOfTwo(s[1..]);
    } else if s[0] == 1 {
      PartitionsOfThree(s[1..]);
    }
  }

  /** A non-increasing list of positive parts adding up to 5 is one of the seven. */
  lemma PartitionsOfFive(s: seq<nat>)
    requires Positive(s) && NonIncreasing(s) && Sum(s) == 5
    ensures FiveShape(s)
  {
    Peel(s);
    if s[0] == 4 {
      PartitionsOfOne(s[1..]);
    } else if s[0] == 3 {
      PartitionsOfTwo(s[1..]);
    } else if s[0] == 2 {
      PartitionsOfThree(s[1..]);
    } else if s[0] == 1 {
      PartitionsOfFour(s[1..]);
    }
  }

  /** The `unreachable!()` arm is unreachable: five cards always group into one of the
      seven patterns. */
  lemma FiveCardsClassified(cards: seq<Card>)
    requires |cards| == 5
    ensures TypeOfCounts(SortDesc(GroupCounts(cards))).Some?
  {
    GroupCountsSum(cards);
    PartitionsOfFive(SortDesc(GroupCounts(cards)));
  }

  /** The hand type from the cards. */
  function HandType(cards: seq<Card>): (r: nat)
    requires |cards| == 5
    ensures r <= 6
  {
    FiveCardsClassified(cards);
    TypeOfCounts(SortDesc(GroupCounts(cards))).value
  }

  /** A parsed hand; the derived ordering compares the fields in this order. */
  datatype Hand = Hand(handType: nat, cards: seq<Card>, text: string)

  /** `Hand::from_str`: five bytes of text, each character a card. The length test counts
      UTF-8 bytes, so a string of five bytes holding a non-ASCII character fails at its
      first non-card character instead. */
  function ParseHand(s: string): (r: Result<Hand>)
    ensures r.Ok? <==> |s| == 5 && forall i :: 0 <= i < |s| ==> s[i] in Labels
    ensures r.Ok? ==> r.value.handType <= 6 && |r.value.cards| == 5
    ensures r.Ok? ==> Show(r.value) == s
    ensures r.Ok? ==> forall i :: 0 <= i < 5 ==> Labels[Strength(r.value.cards[i])] == s[i]
    ensures Text.ByteLen(s) != 5 ==> r == Err("Invalid hand: " + s)
    ensures Text.ByteLen(s) == 5 && r.Err? ==> FirstNonCard(s) < |s| && r.error == "Invalid card: " + [s[FirstNonCard(s)]]
  {
    if Text.ByteLen(s) != 5 then Err("Invalid hand: " + s)
    else
      var cards :- ParseCards(s);
      Ok(Hand(HandType(cards), cards, s))
  }

  /** Four characters of five bytes pass the length test and fail on the first card. */
  lemma NonAsciiShort()
    ensures ParseHand("\U{E4}234") == Err("Invalid card: \U{E4}")
  {
    assert Text.ByteLen("\U{E4}234") == 5 by {
      assert Text.ByteLen("234") == 3;
    }
    assert ParseCard('\U{E4}') == Err("Invalid card: \U{E4}");
  }

  /** Five characters of six bytes fail the length test. */
  lemma NonAsciiLong()
    ensures ParseHand("\U{E4}2345") == Err("Invalid hand: \U{E4}2345")
  {
    assert Text.ByteLen("\U{E4}2345") == 6 by {
      assert Text.ByteLen("2345") == 4;
    }
  }

  /** `Display`: the string the hand was parsed from. */
  function Show(h: Hand): string {
    h.text
  }

  /** The labels of a sequence of cards. */
  function Labelled(cards: seq<Card>): (s: string)
    ensures |s| == |cards| && forall i :: 0 <= i < |s| ==> s[i] == Labels[Strength(cards[i])]
  {
    seq(|cards|, i requires 0 <= i < |cards| => Labels[Strength(cards[i])])
  }

  /** A parsed hand's text is the labels of its cards, so two parsed hands with the same
      cards have the same text and the third field never decides the order. */
  lemma TextFollowsCards(s: string)
    requires ParseHand(s).Ok?
    ensures ParseHand(s).value.text == Labelled(ParseHand(s).value.cards)
  {
  }

  /** The derived lexicographic order on card arrays. */
  predicate CardsBelow(a: seq<Card>, b: seq<Card>)
    requires |a| == |b|
  {
    a != [] && (Strength(a[0]) < Strength(b[0]) || (a[0] == b[0] && CardsBelow(a[1..], b[1..])))
  }

  /** The derived order on hands: type first, then cards (the text follows the cards). */
  predicate Below(x: Hand, y: Hand)
    requires |x.cards| == |y.cards|
  {
    x.handType < y.handType || (x.handType == y.handType && CardsBelow(x.cards, y.cards))
  }

  predicate AtMost(x: Hand, y: Hand)
    requires |x.cards| == |y.cards|
  {
    !Below(y, x)
  }

  lemma {:induction false} CardsBelowStrict(a: seq<Card>, b: seq<Card>)
    requires |a| == |b|
    ensures CardsBelow(a, b) ==> !CardsBelow(b, a)
    ensures !CardsBelow(a, b) && !CardsBelow(b, a) ==> a == b
  {
    if a != [] {
      CardsBelowStrict(a[1..], b[1..]);
      StrengthInjective(a[0], b[0]);
      if a[0] == b[0] && a[1..] == b[1..] {
        assert a == [a[0]] + a[1..] && b == [b[0]] + b[1..];
      }
    }
  }

  lemma {:induction false} CardsBelowTransitive(a: seq<Card>, b: seq<Card>, c: seq<Card>)
    requires |a| == |b| == |c|
    requires CardsBelow(a, b) && CardsBelow(b, c)
    ensures CardsBelow(a, c)
  {
    if a[0] == b[0] && b[0] == c[0] {
      CardsBelowTransitive(a[1..], b[1..], c[1..]);
    }
  }

  /** Hands of equal length are totally ordered: the order is a strict order, and two
      hands neither of which is below the other agree on type and cards. */
  lemma BelowTotal(x: Hand, y: Hand)
    requires |x.cards| == |y.cards|
    ensures !Below(x, x)
    ensures Below(x, y) ==> !Below(y, x)
    ensures !Below(x, y) && !Below(y, x) ==> x.handType == y.handType && x.cards == y.cards
  {
    CardsBelowStrict(x.cards, y.cards);
    CardsBelowStrict(x.cards, x.cards);
  }

  lemma BelowTransitive(x: Hand, y: Hand, z: Hand)
    requires |x.cards| == |y.cards| == |z.cards|
    requires Below(x, y) && Below(y, z)
    ensures Below(x, z)
  {
    if x.handType == y.handType == z.handType {
      CardsBelowTransitive(x.cards, y.cards, z.cards);
    }
  }

  lemma AtMostTransitive(x: Hand, y: Hand, z: Hand)
    requires |x.cards| == |y.cards| == |z.cards|
    requires AtMost(x, y) && AtMost(y, z)
    ensures AtMost(x, z)
  {
    BelowTotal(x, y);
    BelowTotal(y, z);
    BelowTotal(x, z);
    if Below(x, y) && Below(y, z) {
      BelowTransitive(x, y, z);
    }
  }

  /** Every entry's hand has five cards. */
  predicate FiveCards(entries: seq<(Hand, nat)>) {
    forall k :: 0 <= k < |entries| ==> |entries[k].0.cards| == 5
  }

  predicate SortedByHand(entries: seq<(Hand, nat)>)
    requires FiveCards(entries)
  {
    forall a, b :: 0 <= a < b < |entries| ==> AtMost(entries[a].0, entries[b].0)
  }

  /** Inserting in front of the first entry the new one is at most, which keeps equal
      hands in input order (`sorted_by_key` is stable). */
  function Insert(e: (Hand, nat), entries: seq<(Hand, nat)>): (r: seq<(Hand, nat)>)
    requires |e.0.cards| == 5 && FiveCards(entries) && SortedByHand(entries)
    ensures FiveCards(r) && SortedByHand(r)
    ensures multiset(r) == multiset(entries) + multiset{e}
  {
    if entries == [] then [e]
    else if AtMost(e.0, entries[0].0) then
      InsertFront(e, entries);
      [e] + entries
    else
      var rest := Insert(e, entries[1..]);
      assert entries == [entries[0]] + entries[1..];
      InsertBehind(e, entries, rest);
      [entries[0]] + rest
  }

  /** A hand at most the first entry goes in front of a sorted list. */
  lemma InsertFront(e: (Hand, nat), entries: seq<(Hand, nat)>)
    requires |e.0.cards| == 5 && FiveCards(entries) && SortedByHand(entries)
    requires entries != [] && AtMost(e.0, entries[0].0)
    ensures FiveCards([e] + entries) && SortedByHand([e] + entries)
  {
    var r := [e] + entries;
    forall a, b | 0 <= a < b < |r| ensures AtMost(r[a].0, r[b].0) {
      if a == 0 && b > 1 {
        AtMostTransitive(e.0, entries[0].0, entries[b - 1].0);
      }
    }
  }

  /** A hand above the first entry goes behind it, into the sorted rest. */
  lemma InsertBehind(e: (Hand, nat), entries: seq<(Hand, nat)>, rest: seq<(Hand, nat)>)
    requires |e.0.cards| == 5 && FiveCards(entries) && SortedByHand(entries)
    requires entries != [] && !AtMost(e.0, entries[0].0)
    requires FiveCards(rest) && SortedByHand(rest)
    requires multiset(rest) == multiset(entries[1..]) + multiset{e}
    ensures FiveCards([entries[0]] + rest) && SortedByHand([entries[0]] + rest)
  {
    var r := [entries[0]] + rest;
    BelowTotal(e.0, entries[0].0);
    forall a, b | 0 <= a < b < |r| ensures AtMost(r[a].0, r[b].0) {
      if a == 0 {
        assert rest[b - 1] in multiset(rest);
        if rest[b - 1] != e {
          assert rest[b - 1] in entries[1..];
          var m :| 0 <= m < |entries[1..]| && entries[1..][m] == rest[b - 1];
          assert entries[m + 1] == rest[b - 1];
        }
      }
    }
  }

  /** Two hands the order cannot tell apart: the same type and the same cards. */
  predicate SameKey(x: Hand, y: Hand) {
    x.handType == y.handType && x.cards == y.cards
  }

  /** The entries whose hand has the key of `h`, in their order. */
  function Tied(entries: seq<(Hand, nat)>, h: Hand): seq<(Hand, nat)> {
    if entries == [] then []
    else (if SameKey(entries[0].0, h) then [entries[0]] else []) + Tied(entries[1..], h)
  }

  /** A hand is never below one with its key. */
  lemma SameKeyNotBelow(x: Hand, y: Hand)
    requires |x.cards| == |y.cards| && SameKey(x, y)
    ensures !Below(x, y)
  {
    CardsBelowStrict(x.cards, x.cards);
  }

  /** Inserting puts the new entry in front of the entries tied with it. */
  lemma {:induction false} InsertTied(e: (Hand, nat), entries: seq<(Hand, nat)>, h: Hand)
    requires |e.0.cards| == 5 && FiveCards(entries) && SortedByHand(entries)
    ensures Tied(Insert(e, entries), h) == if SameKey(e.0, h) then [e] + Tied(entries, h) else Tied(entries, h)
  {
    if entries != [] {
      if AtMost(e.0, entries[0].0) {
        assert ([e] + entries)[1..] == entries;
      } else {
        var rest := Insert(e, entries[1..]);
        InsertTied(e, entries[1..], h);
        if SameKey(e.0, h) && SameKey(entries[0].0, h) {
          SameKeyNotBelow(entries[0].0, e.0);
          assert false;
        }
        assert ([entries[0]] + rest)[1..] == rest;
      }
    }
  }

  lemma InsertTiedAll(e: (Hand, nat), entries: seq<(Hand, nat)>)
    requires |e.0.cards| == 5 && FiveCards(entries) && SortedByHand(entries)
    ensures forall h :: Tied(Insert(e, entries), h) == if SameKey(e.0, h) then [e] + Tied(entries, h) else Tied(entries, h)
  {
    forall h
      ensures Tied(Insert(e, entries), h) == if SameKey(e.0, h) then [e] + Tied(entries, h) else Tied(entries, h)
    {
      InsertTied(e, entries, h);
    }
  }

  /** `sorted_by_key(|(hand, _)| hand)`: a stable insertion sort. The result is sorted, a
      permutation, and entries with equal hands stay in their input order. */
  function Sort(entries: seq<(Hand, nat)>): (r: seq<(Hand, nat)>)
    requires FiveCards(entries)
    ensures FiveCards(r) && SortedByHand(r)
    ensures multiset(r) == multiset(entries)
    ensures forall h :: Tied(r, h) == Tied(entries, h)
  {
    if entries == [] then []
    else
      assert entries == [entries[0]] + entries[1..];
      var rest := Sort(entries[1..]);
      InsertTiedAll(entries[0], rest);
      Insert(entries[0], rest)
  }

  /** Entries that all share the key of `h` are all kept. */
  lemma {:induction false} TiedAll(entries: seq<(Hand, nat)>, h: Hand)
    requires forall k :: 0 <= k < |entries| ==> SameKey(entries[k].0, h)
    ensures Tied(entries, h) == entries
  {
    if entries != [] {
      TiedAll(entries[1..], h);
      assert [entries[0]] + entries[1..] == entries;
    }
  }

  /** Two entries with the same hand, bids 1 then 2, are ranked in that order: the
      winnings are 1 * 1 + 2 * 2. */
  lemma EqualHands(h: Hand)
    requires |h.cards| == 5
    ensures Part1([(h, 1), (h, 2)]) == 5
  {
    var entries := [(h, 1), (h, 2)];
    TiedAll(entries, h);
    var r := Sort(entries);
    forall k | 0 <= k < |r|
      ensures SameKey(r[k].0, h)
    {
      assert r[k] in multiset(entries);
    }
    TiedAll(r, h);
    assert r == entries;
    assert Winnings(entries[1..], 2) == 4;
  }

  /** The sum of `rank * bid` where the first entry has rank `first`. */
  function Winnings(entries: seq<(Hand, nat)>, first: nat): nat {
    if entries == [] then 0 else first * entries[0].1 + Winnings(entries[1..], first + 1)
  }

  /** `part1`: ranks 1..n in increasing hand order, so every bid is paid at least once
      whatever order the hands come in. */
  function Part1(entries: seq<(Hand, nat)>): (r: nat)
    requires FiveCards(entries)
    ensures r >= Bids(entries)
  {
    WinningsAtLeastBids(Sort(entries), 1);
    BidsSort(entries);
    Winnings(Sort(entries), 1)
  }

  /** Every bid is paid at least once: the winnings are at least the sum of the bids, and
      with a single hand they are its bid. */
  lemma {:induction false} WinningsAtLeastBids(entries: seq<(Hand, nat)>, first: nat)
    requires first >= 1
    ensures Winnings(entries, first) >= Bids(entries)
  {
    if entries != [] {
      WinningsAtLeastBids(entries[1..], first + 1);
    }
  }

  function Bids(entries: seq<(Hand, nat)>): nat {
    if entries == [] then 0 else entries[0].1 + Bids(entries[1..])
  }

  /** Inserting an entry adds its bid. */
  lemma {:induction false} BidsInsert(e: (Hand, nat), entries: seq<(Hand, nat)>)
    requires |e.0.cards| == 5 && FiveCards(entries) && SortedByHand(entries)
    ensures Bids(Insert(e, entries)) == e.1 + Bids(entries)
  {
    if entries == [] {
    } else if AtMost(e.0, entries[0].0) {
      assert ([e] + entries)[1..] == entries;
    } else {
      var rest := entries[1..];
      assert SortedByHand(rest) && FiveCards(rest);
      BidsInsert(e, rest);
      assert ([entries[0]] + Insert(e, rest))[1..] == Insert(e, rest);
    }
  }

  /** Sorting keeps the bids. */
  lemma {:induction false} BidsSort(entries: seq<(Hand, nat)>)
    requires FiveCards(entries)
    ensures Bids(Sort(entries)) == Bids(entries)
  {
    if entries != [] {
      assert FiveCards(entries[1..]);
      BidsSort(entries[1..]);
      BidsInsert(entries[0], Sort(entries[1..]));
    }
  }

  /** The worked example's hands in rank order: 32T3K (one pair), KTJJT and KK677 (two
      pairs), T55J5 and QQQJA (three of a kind). */
  function SampleRanked(): seq<(Hand, nat)> {
    [(Hand(1, [Num3, Num2, T, Num3, K], "32T3K"), 765),
     (Hand(2, [K, T, J, J, T], "KTJJT"), 220),
     (Hand(2, [K, K, Num6, Num7, Num7], "KK677"), 28),
     (Hand(3, [T, Num5, Num5, J, Num5], "T55J5"), 684),
     (Hand(3, [Q, Q, Q, J, A], "QQQJA"), 483)]
  }

  /** Their sorted group sizes give those types. */
  lemma SampleTypes()
    ensures TypeOfCounts([2, 1, 1, 1]) == Some(1)
    ensures TypeOfCounts([2, 2, 1]) == Some(2)
    ensures TypeOfCounts([3, 1, 1]) == Some(3)
  {
  }

  /** The order is the rank order, and the winnings are 6440. */
  lemma SampleWinnings()
    ensures FiveCards(SampleRanked()) && SortedByHand(SampleRanked())
    ensures Winnings(SampleRanked(), 1) == 6440
  {
    var e := SampleRanked();
    assert CardsBelow(e[1].0.cards, e[2].0.cards);
    assert CardsBelow(e[3].0.cards, e[4].0.cards);
    assert Winnings(e[4..], 5) == 2415;
    assert Winnings(e[3..], 4) == 2736 + 2415;
    assert Winnings(e[2..], 3) == 84 + 2736 + 2415;
    assert Winnings(e[1..], 2) == 440 + 84 + 2736 + 2415;
  }
}
