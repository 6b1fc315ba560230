/** Deck primitives of the game service (src/services/gameService.ts):
    the swap shuffle, the prefix deal and the scan for the first plain card. */
module Deck {
  import opened Cards

  /** The index that the shuffle swaps with at step `i`. The source draws it as
      Math.floor(Math.random() * (i + 1)); here it comes from the caller-supplied
      random stream `picks`, reduced into 0..i, and is 0 once the stream runs out. */
  function Pick(picks: seq<nat>, i: nat): (j: nat)
    ensures j <= i
  {
    if i < |picks| then picks[i] % (i + 1) else 0
  }

  /** `s` with the cards at `i` and `j` exchanged. */
  function Swap(s: seq<Card>, i: nat, j: nat): (r: seq<Card>)
    requires i < |s| && j < |s|
    ensures |r| == |s|
  {
    s[i := s[j]][j := s[i]]
  }

  /** A swap exchanges the two cards and keeps every other position. */
  lemma SwapExchanges(s: seq<Card>, i: nat, j: nat)
    requires i < |s| && j < |s|
    ensures var r := Swap(s, i, j);
      && r[i] == s[j] && r[j] == s[i]
      && (forall k :: 0 <= k < |s| && k != i && k != j ==> r[k] == s[k])
  {
  }

  /** A swap permutes the cards. */
  lemma SwapPermutes(s: seq<Card>, i: nat, j: nat)
    requires i < |s| && j < |s|
    ensures multiset(Swap(s, i, j)) == multiset(s)
  {
  }

  /** What the swap loop leaves once it has run its steps i, i - 1, ..., 1 on `s`. */
  function ShuffleFrom(s: seq<Card>, i: int, picks: seq<nat>): seq<Card>
    requires i < |s|
    decreases i
  {
    if i <= 0 then s else ShuffleFrom(Swap(s, i, Pick(picks, i)), i - 1, picks)
  }

  /** Every run of the swap loop permutes the cards. */
  lemma {:induction false} ShuffleFromPermutes(s: seq<Card>, i: int, picks: seq<nat>)
    requires i < |s|
    ensures |ShuffleFrom(s, i, picks)| == |s|
    ensures multiset(ShuffleFrom(s, i, picks)) == multiset(s)
    decreases i
  {
    if i > 0 {
      var t := Swap(s, i, Pick(picks, i));
      SwapPermutes(s, i, Pick(picks, i));
      ShuffleFromPermutes(t, i - 1, picks);
      assert ShuffleFrom(s, i, picks) == ShuffleFrom(t, i - 1, picks);
    }
  }

  /** The shuffle of `deck` driven by `picks`: a permutation of `deck`. */
  function Shuffled(deck: seq<Card>, picks: seq<nat>): (r: seq<Card>)
    ensures |r| == |deck| && multiset(r) == multiset(deck)
  {
    ShuffleFromPermutes(deck, |deck| - 1, picks);
    ShuffleFrom(deck, |deck| - 1, picks)
  }

  /** The source's shuffleDeck: copies `deck` into a fresh array and swaps from
      the back, so the caller's sequence is never touched. */
  method ShuffleDeck(deck: seq<Card>, picks: seq<nat>) returns (shuffled: seq<Card>)
    ensures shuffled == Shuffled(deck, picks)
    ensures multiset(shuffled) == multiset(deck)
  {
    var a := new Card[|deck|](k requires 0 <= k < |deck| => deck[k]);
    assert a[..] == deck;
    var i := |deck| - 1;
    while i > 0
      invariant -1 <= i < a.Length
      invariant ShuffleFrom(a[..], i, picks) == Shuffled(deck, picks)
    {
      var j := Pick(picks, i);
      ghost var before := a[..];
      SwapCards(a, i, j);
      assert ShuffleFrom(before, i, picks) == ShuffleFrom(a[..], i - 1, picks);
      i := i - 1;
    }
    shuffled := a[..];
  }

  /** One step of shuffleDeck: exchanges two cells of the array in place. */
  method SwapCards(a: array<Card>, i: nat, j: nat)
    requires i < a.Length && j < a.Length
    modifies a
    ensures a[..] == Swap(old(a[..]), i, j)
  {
    a[i], a[j] := a[j], a[i];
    assert a[..] == old(a[..])[i := old(a[..])[j]][j := old(a[..])[i]];
  }

  /** The source's dealCards: the first `n` cards (all of them if fewer) form
      the hand and the rest stays as the deck. */
  function Deal(deck: seq<Card>, n: nat): (r: (seq<Card>, seq<Card>))
    ensures r.0 + r.1 == deck
    ensures |r.0| == if n <= |deck| then n else |deck|
  {
    if n <= |deck| then (deck[..n], deck[n..]) else (deck, [])
  }

  /** The numbers that trigger a special effect: 1, 2, 5, 8, 14 and 20. */
  predicate IsSpecialNumber(n: int)
  {
    n == 1 || n == 2 || n == 5 || n == 8 || n == 14 || n == 20
  }

  /** The index of the first card of `pile` whose number is not special, or -1. */
  function FirstPlain(pile: seq<Card>): (idx: int)
    ensures -1 <= idx < |pile|
    ensures idx >= 0 ==> !IsSpecialNumber(pile[idx].number)
    ensures forall k :: 0 <= k < |pile| && (idx == -1 || k < idx) ==> IsSpecialNumber(pile[k].number)
  {
    if pile == [] then -1
    else if !IsSpecialNumber(pile[0].number) then 0
    else
      var rest := FirstPlain(pile[1..]);
      if rest == -1 then -1 else rest + 1
  }

  /** The scan loop of createGame that looks for the first plain card. */
  method FindFirstPlain(pile: seq<Card>) returns (firstCardIndex: int)
    ensures firstCardIndex == FirstPlain(pile)
  {
    firstCardIndex := -1;
    var i := 0;
    while i < |pile|
      invariant 0 <= i <= |pile|
      invariant forall k :: 0 <= k < i ==> IsSpecialNumber(pile[k].number)
    {
      if !IsSpecialNumber(pile[i].number) {
        firstCardIndex := i;
        break;
      }
      i := i + 1;
    }
  }

  /** How createGame seeds the discard pile from the dealt-out draw pile `pile`:
      the first plain card if there is one, else the last card; the result is the
      remaining draw pile and the seed card. */
  function SeedDiscard(pile: seq<Card>): (r: (seq<Card>, Card))
    requires |pile| > 0
  {
    var idx := FirstPlain(pile);
    if idx != -1 then (pile[..idx] + pile[idx + 1..], pile[idx])
    else (pile[..|pile| - 1], pile[|pile| - 1])
  }

  /** createGame's seeding step: moves the first plain card of `pile` (the last
      card when all are special) onto an empty discard pile. */
  method SeedDiscardPile(pile: seq<Card>) returns (drawPile: seq<Card>, discardPile: seq<Card>)
    requires |pile| > 0
    ensures drawPile == SeedDiscard(pile).0 && discardPile == [SeedDiscard(pile).1]
  {
    discardPile := [];
    drawPile := pile;
    var firstCardIndex := FindFirstPlain(drawPile);
    if firstCardIndex != -1 {
      discardPile := discardPile + [drawPile[firstCardIndex]];
      drawPile := drawPile[..firstCardIndex] + drawPile[firstCardIndex + 1..];
    } else {
      discardPile := discardPile + [drawPile[|drawPile| - 1]];
      drawPile := drawPile[..|drawPile| - 1];
    }
  }

  /** The seed card is the first plain card of `pile` (the last card when all are
      special), and the other cards stay in the draw pile in their order. */
  lemma SeedDiscardChoice(pile: seq<Card>)
    requires |pile| > 0
    ensures var (draw, top) := SeedDiscard(pile);
      exists i :: 0 <= i < |pile| && top == pile[i] && draw == pile[..i] + pile[i + 1..] &&
        (forall k :: 0 <= k < i ==> IsSpecialNumber(pile[k].number)) &&
        (!IsSpecialNumber(top.number) ||
          (i == |pile| - 1 && forall k :: 0 <= k < |pile| ==> IsSpecialNumber(pile[k].number)))
    ensures var (draw, top) := SeedDiscard(pile);
      |draw| == |pile| - 1 && multiset(draw) + multiset{top} == multiset(pile)
  {
    var idx := FirstPlain(pile);
    var i := if idx != -1 then idx else |pile| - 1;
    assert pile == pile[..i] + [pile[i]] + pile[i + 1..];
    var (draw, top) := SeedDiscard(pile);
    assert draw == pile[..i] + pile[i + 1..] && top == pile[i];
    assert multiset(pile) == multiset(pile[..i]) + multiset{pile[i]} + multiset(pile[i + 1..]);
  }
}
