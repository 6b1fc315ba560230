/** The card types and the constant card collections of the Whot! game
    (src/lib/whot.ts). */
module Cards {

  /** The five suits and the wild shape `Whot`. */
  datatype Shape = Circle | Triangle | Cross | Square | Star | Whot

  /** A card: its catalog id, its shape and its number (rank). */
  datatype Card = Card(id: int, shape: Shape, number: int)

  // The catalog is written section by section, in the order of the source's
  // comments; FullDeck is their concatenation.

  const Circles: seq<Card> := [
    Card(1, Circle, 1), Card(2, Circle, 2), Card(3, Circle, 3), Card(4, Circle, 4),
    Card(5, Circle, 5), Card(6, Circle, 7), Card(7, Circle, 8), Card(8, Circle, 10),
    Card(9, Circle, 11), Card(10, Circle, 12), Card(11, Circle, 13), Card(12, Circle, 14)]

  const Triangles: seq<Card> := [
    Card(13, Triangle, 1), Card(14, Triangle, 2), Card(15, Triangle, 3), Card(16, Triangle, 4),
    Card(17, Triangle, 5), Card(18, Triangle, 7), Card(19, Triangle, 8), Card(20, Triangle, 10),
    Card(21, Triangle, 11), Card(22, Triangle, 12), Card(23, Triangle, 13), Card(24, Triangle, 14)]

  const Crosses: seq<Card> := [
    Card(25, Cross, 1), Card(26, Cross, 2), Card(27, Cross, 3), Card(28, Cross, 5),
    Card(29, Cross, 7), Card(30, Cross, 10), Card(31, Cross, 11), Card(32, Cross, 13),
    Card(33, Cross, 14)]

  const Squares: seq<Card> := [
    Card(34, Square, 1), Card(35, Square, 2), Card(36, Square, 3), Card(37, Square, 5),
    Card(38, Square, 7), Card(39, Square, 10), Card(40, Square, 11), Card(41, Square, 13),
    Card(42, Square, 14)]

  const Stars: seq<Card> := [
    Card(43, Star, 1), Card(44, Star, 2), Card(45, Star, 3), Card(46, Star, 4),
    Card(47, Star, 5), Card(48, Star, 7), Card(49, Star, 8)]

  const WhotCards: seq<Card> := [
    Card(50, Whot, 20), Card(51, Whot, 20), Card(52, Whot, 20), Card(53, Whot, 20),
    Card(54, Whot, 20)]

  /** The full 54-card catalog. */
  const FullDeck: seq<Card> := Circles + Triangles + Crosses + Squares + Stars + WhotCards

  /** The eight-card pack shown to new players. */
  const StarterPack: seq<Card> := [
    Card(1, Circle, 5), Card(2, Triangle, 8), Card(3, Cross, 2), Card(4, Square, 10),
    Card(5, Star, 1), Card(6, Star, 4), Card(50, Whot, 20), Card(8, Triangle, 11)]

  /** The numbers of a circle or triangle suit. */
  const LongSuit: seq<int> := [1, 2, 3, 4, 5, 7, 8, 10, 11, 12, 13, 14]
  /** The numbers of a cross or square suit. */
  const ShortSuit: seq<int> := [1, 2, 3, 5, 7, 10, 11, 13, 14]
  /** The numbers of the star suit. */
  const StarSuit: seq<int> := [1, 2, 3, 4, 5, 7, 8]

  /** The numbers of the cards of `shape` in `deck`, in deck order. */
  function NumbersOf(deck: seq<Card>, shape: Shape): (r: seq<int>)
    ensures |r| <= |deck|
  {
    if deck == [] then []
    else (if deck[0].shape == shape then [deck[0].number] else []) + NumbersOf(deck[1..], shape)
  }

  /** `cards` holds consecutive ids from `firstId`, all of `shape`, numbered `numbers` in order. */
  ghost predicate IsSection(cards: seq<Card>, shape: Shape, firstId: int, numbers: seq<int>)
  {
    |cards| == |numbers| &&
    forall j :: 0 <= j < |cards| ==> cards[j] == Card(firstId + j, shape, numbers[j])
  }

  /** The ids of `deck` run consecutively from `firstId`. */
  ghost predicate IdsFrom(deck: seq<Card>, firstId: int)
  {
    forall j :: 0 <= j < |deck| ==> deck[j].id == firstId + j
  }

  lemma Sections()
    ensures IsSection(Circles, Circle, 1, LongSuit)
    ensures IsSection(Triangles, Triangle, 13, LongSuit)
    ensures IsSection(Crosses, Cross, 25, ShortSuit)
    ensures IsSection(Squares, Square, 34, ShortSuit)
    ensures IsSection(Stars, Star, 43, StarSuit)
    ensures IsSection(WhotCards, Whot, 50, [20, 20, 20, 20, 20])
  {
  }

  lemma {:induction false} IdsFromAppend(a: seq<Card>, b: seq<Card>, firstId: int)
    requires IdsFrom(a, firstId) && IdsFrom(b, firstId + |a|)
    ensures IdsFrom(a + b, firstId)
  {
    forall j | 0 <= j < |a + b| ensures (a + b)[j].id == firstId + j {
      if j >= |a| { assert (a + b)[j] == b[j - |a|]; }
    }
  }

  lemma {:induction false} NumbersOfAppend(a: seq<Card>, b: seq<Card>, shape: Shape)
    ensures NumbersOf(a + b, shape) == NumbersOf(a, shape) + NumbersOf(b, shape)
  {
    if a == [] {
      assert a + b == b;
    } else {
      assert (a + b)[0] == a[0];
      assert (a + b)[1..] == a[1..] + b;
      NumbersOfAppend(a[1..], b, shape);
      var head := if a[0].shape == shape then [a[0].number] else [];
      assert NumbersOf(a + b, shape) == head + NumbersOf(a[1..] + b, shape);
      assert NumbersOf(a, shape) == head + NumbersOf(a[1..], shape);
    }
  }

  lemma {:induction false} NumbersOfSection(cards: seq<Card>, shape: Shape, firstId: int, numbers: seq<int>, s: Shape)
    requires IsSection(cards, shape, firstId, numbers)
    ensures NumbersOf(cards, s) == if s == shape then numbers else []
  {
    if cards != [] {
      NumbersOfSection(cards[1..], shape, firstId + 1, numbers[1..], s);
    }
  }

  /** The catalog has 54 cards. */
  lemma CatalogSize()
    ensures |FullDeck| == 54
  {
  }

  /** The catalog has 54 cards whose ids are 1..54 in order. */
  lemma {:induction false} CatalogIds()
    ensures |FullDeck| == 54
    ensures forall i :: 0 <= i < |FullDeck| ==> FullDeck[i].id == i + 1
  {
    Sections();
    IdsFromAppend(Circles, Triangles, 1);
    IdsFromAppend(Circles + Triangles, Crosses, 1);
    IdsFromAppend(Circles + Triangles + Crosses, Squares, 1);
    IdsFromAppend(Circles + Triangles + Crosses + Squares, Stars, 1);
    IdsFromAppend(Circles + Triangles + Crosses + Squares + Stars, WhotCards, 1);
  }

  /** No two catalog cards share an id. */
  lemma CatalogIdsDistinct()
    ensures forall i, j :: 0 <= i < j < |FullDeck| ==> FullDeck[i].id != FullDeck[j].id
  {
    CatalogIds();
  }

  /** The numbers of the catalog's cards of shape `s`. */
  function SuitOf(s: Shape): seq<int>
  {
    match s
    case Circle => LongSuit
    case Triangle => LongSuit
    case Cross => ShortSuit
    case Square => ShortSuit
    case Star => StarSuit
    case Whot => [20, 20, 20, 20, 20]
  }

  /** The position of a shape's section in the catalog. */
  function SectionIndex(s: Shape): nat
  {
    match s
    case Circle => 0
    case Triangle => 1
    case Cross => 2
    case Square => 3
    case Star => 4
    case Whot => 5
  }

  /** When only the `k`-th of six joined parts holds cards of shape `s`, the numbers
      of shape `s` in the whole are that part's numbers. */
  lemma {:induction false} OnlyOnePart(a: seq<Card>, b: seq<Card>, c: seq<Card>, d: seq<Card>, e: seq<Card>, f: seq<Card>,
                                       s: Shape, k: nat, r: seq<int>)
    requires k < 6
    requires NumbersOf(a, s) == (if k == 0 then r else []) && NumbersOf(b, s) == (if k == 1 then r else [])
    requires NumbersOf(c, s) == (if k == 2 then r else []) && NumbersOf(d, s) == (if k == 3 then r else [])
    requires NumbersOf(e, s) == (if k == 4 then r else []) && NumbersOf(f, s) == (if k == 5 then r else [])
    ensures NumbersOf(a + b + c + d + e + f, s) == r
  {
    NumbersOfAppend(a + b + c + d + e, f, s);
    NumbersOfAppend(a + b + c + d, e, s);
    NumbersOfAppend(a + b + c, d, s);
    NumbersOfAppend(a + b, c, s);
    NumbersOfAppend(a, b, s);
    OnlyOneNonEmpty(NumbersOf(a, s), NumbersOf(b, s), NumbersOf(c, s), NumbersOf(d, s), NumbersOf(e, s), NumbersOf(f, s), k, r);
  }

  lemma OnlyOneNonEmpty(a: seq<int>, b: seq<int>, c: seq<int>, d: seq<int>, e: seq<int>, f: seq<int>, k: nat, r: seq<int>)
    requires k < 6
    requires a == (if k == 0 then r else []) && b == (if k == 1 then r else [])
    requires c == (if k == 2 then r else []) && d == (if k == 3 then r else [])
    requires e == (if k == 4 then r else []) && f == (if k == 5 then r else [])
    ensures a + b + c + d + e + f == r
  {
    var empty: seq<int> := [];
    if k == 0 { assert a + b + c + d + e + f == r + empty + empty + empty + empty + empty; }
    else if k == 1 { assert a + b + c + d + e + f == empty + r + empty + empty + empty + empty; }
    else if k == 2 { assert a + b + c + d + e + f == empty + empty + r + empty + empty + empty; }
    else if k == 3 { assert a + b + c + d + e + f == empty + empty + empty + r + empty + empty; }
    else if k == 4 { assert a + b + c + d + e + f == empty + empty + empty + empty + r + empty; }
  }

  /** Six sections laid out as the catalog's hold, per shape, that shape's suit. */
  lemma SectionsNumbers(a: seq<Card>, b: seq<Card>, c: seq<Card>, d: seq<Card>, e: seq<Card>, f: seq<Card>, s: Shape)
    requires IsSection(a, Circle, 1, LongSuit) && IsSection(b, Triangle, 13, LongSuit)
    requires IsSection(c, Cross, 25, ShortSuit) && IsSection(d, Square, 34, ShortSuit)
    requires IsSection(e, Star, 43, StarSuit) && IsSection(f, Whot, 50, [20, 20, 20, 20, 20])
    ensures NumbersOf(a + b + c + d + e + f, s) == SuitOf(s)
  {
    NumbersOfSection(a, Circle, 1, LongSuit, s);
    NumbersOfSection(b, Triangle, 13, LongSuit, s);
    NumbersOfSection(c, Cross, 25, ShortSuit, s);
    NumbersOfSection(d, Square, 34, ShortSuit, s);
    NumbersOfSection(e, Star, 43, StarSuit, s);
    NumbersOfSection(f, Whot, 50, [20, 20, 20, 20, 20], s);
    OnlyOnePart(a, b, c, d, e, f, s, SectionIndex(s), SuitOf(s));
  }

  /** Per shape, the catalog holds exactly the listed numbers, in order:
      12 circles and 12 triangles, 9 crosses and 9 squares, 7 stars and 5 whot cards. */
  lemma CatalogNumbers(s: Shape)
    ensures NumbersOf(FullDeck, s) == SuitOf(s)
    ensures |LongSuit| == 12 && |ShortSuit| == 9 && |StarSuit| == 7
  {
    Sections();
    SectionsNumbers(Circles, Triangles, Crosses, Squares, Stars, WhotCards, s);
  }

  /** The whot cards are exactly the last five (ids 50..54); a card has number 20
      exactly when it is a whot card, and every other card has a number in 1..14. */
  lemma CatalogWhotCards()
    ensures forall i :: 0 <= i < |FullDeck| ==> (FullDeck[i].shape == Whot <==> 49 <= i)
    ensures forall i :: 0 <= i < |FullDeck| ==> (FullDeck[i].number == 20 <==> FullDeck[i].shape == Whot)
    ensures forall i :: 0 <= i < |FullDeck| && FullDeck[i].shape != Whot ==> 1 <= FullDeck[i].number <= 14
  {
    Sections();
    var front := Circles + Triangles + Crosses + Squares + Stars;
    assert FullDeck == front + WhotCards;
    assert |front| == 49;
    forall i | 0 <= i < |FullDeck|
      ensures (FullDeck[i].shape == Whot <==> 49 <= i)
      ensures (FullDeck[i].number == 20 <==> FullDeck[i].shape == Whot)
      ensures FullDeck[i].shape != Whot ==> 1 <= FullDeck[i].number <= 14
    {
      if i < 12 {
        assert FullDeck[i] == Circles[i];
      } else if i < 24 {
        assert FullDeck[i] == Triangles[i - 12];
      } else if i < 33 {
        assert FullDeck[i] == Crosses[i - 24];
      } else if i < 42 {
        assert FullDeck[i] == Squares[i - 33];
      } else if i < 49 {
        assert FullDeck[i] == Stars[i - 42];
      } else {
        assert FullDeck[i] == WhotCards[i - 49];
      }
    }
  }

  /** The starter pack: eight cards with distinct ids, of which exactly one,
      the seventh (id 50), is a whot card. */
  lemma StarterPackContents()
    ensures |StarterPack| == 8
    ensures forall i, j :: 0 <= i < j < |StarterPack| ==> StarterPack[i].id != StarterPack[j].id
    ensures forall i :: 0 <= i < |StarterPack| ==> (StarterPack[i].shape == Whot <==> i == 6)
    ensures StarterPack[6].id == 50
  {
  }
}
