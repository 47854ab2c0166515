/** The question deck: thirty numbered cards, their category bands and
    removal of a drawn card. Question texts are opaque and not modelled. */
module Cards {

  /** Number of question cards in a fresh deck; ids run 1..DeckSize. */
  const DeckSize: int := 30

  datatype Category = Perception | Connection | Reflection

  /** A drawn card as the draw handler reports it: its id and category label. */
  datatype Card = Card(id: int, category: Category)

  /** Lowest and highest id of each category band (the deck's comments). */
  function BandLow(c: Category): int
  {
    match c
    case Perception => 1
    case Connection => 11
    case Reflection => 21
  }

  function BandHigh(c: Category): int
  {
    match c
    case Perception => 10
    case Connection => 20
    case Reflection => 30
  }

  /** getLevelInfo: the category of a question id. Total on every integer:
      everything above 20 falls into Reflection. */
  function LevelInfo(id: int): (c: Category)
    ensures id <= 10 ==> c == Perception
    ensures 10 < id <= 20 ==> c == Connection
    ensures 20 < id ==> c == Reflection
  {
    if id <= 10 then Perception
    else if id <= 20 then Connection
    else Reflection
  }

  /** On the deck's ids, the category computed by LevelInfo is exactly the
      band the id lies in, and each band holds ten ids. */
  lemma LevelInfoMatchesBands(id: int, c: Category)
    requires 1 <= id <= DeckSize
    ensures LevelInfo(id) == c <==> BandLow(c) <= id <= BandHigh(c)
    ensures BandHigh(c) - BandLow(c) + 1 == 10
  {
  }

  /** Ids are distinct: a Map has each key at most once. */
  predicate Distinct(d: seq<int>)
  {
    forall i, j :: 0 <= i < j < |d| ==> d[i] != d[j]
  }

  /** Every id is one of the thirty question ids. */
  predicate InRange(d: seq<int>)
  {
    forall i :: 0 <= i < |d| ==> 1 <= d[i] <= DeckSize
  }

  /** The keys of the fresh question map, in insertion order. */
  function FreshDeck(): (d: seq<int>)
    ensures |d| == DeckSize
    ensures forall i :: 0 <= i < |d| ==> d[i] == i + 1
    ensures Distinct(d) && InRange(d)
    ensures forall id :: 1 <= id <= DeckSize ==> id in d
  {
    var d := seq(DeckSize, i => i + 1);
    forall id | 1 <= id <= DeckSize
      ensures id in d
    {
      assert d[id - 1] == id;
    }
    d
  }

  /** questions.delete(key) on the key at position k: the other keys keep
      their relative order. */
  function RemoveAt(d: seq<int>, k: nat): (r: seq<int>)
    requires k < |d|
    ensures |r| == |d| - 1
    ensures forall i :: 0 <= i < |r| ==> r[i] == if i < k then d[i] else d[i + 1]
    ensures multiset(r) + multiset{d[k]} == multiset(d)
    ensures forall x :: x in r ==> x in d
    ensures forall x :: x in d && x != d[k] ==> x in r
    ensures Distinct(d) ==> Distinct(r) && d[k] !in r
    ensures InRange(d) ==> InRange(r)
  {
    var r := d[..k] + d[k + 1..];
    RemoveAtIndex(d, k);
    RemoveAtMultiset(d, k);
    RemoveAtMembers(d, k);
    if Distinct(d) then RemoveAtDistinct(d, k); r else r
  }

  /** Position i of the shortened deck holds the key that was at i or i + 1. */
  lemma RemoveAtIndex(d: seq<int>, k: nat)
    requires k < |d|
    ensures forall i :: 0 <= i < |d| - 1 ==>
      (d[..k] + d[k + 1..])[i] == if i < k then d[i] else d[i + 1]
  {
  }

  /** Removing position k takes exactly one copy of d[k] out of the deck. */
  lemma RemoveAtMultiset(d: seq<int>, k: nat)
    requires k < |d|
    ensures multiset(d[..k] + d[k + 1..]) + multiset{d[k]} == multiset(d)
  {
    assert d == d[..k] + [d[k]] + d[k + 1..];
  }

  /** The shortened deck holds every key of d except possibly d[k], and
      nothing else. */
  lemma RemoveAtMembers(d: seq<int>, k: nat)
    requires k < |d|
    ensures forall x :: x in d[..k] + d[k + 1..] ==> x in d
    ensures forall x :: x in d && x != d[k] ==> x in d[..k] + d[k + 1..]
  {
    RemoveAtMultiset(d, k);
    var r := d[..k] + d[k + 1..];
    forall x | x in r
      ensures x in d
    {
      assert x in multiset(r);
      assert x in multiset(d);
    }
    forall x | x in d && x != d[k]
      ensures x in r
    {
      assert x in multiset(d);
      assert x in multiset(r);
    }
  }

  /** Removing from a deck without repeats leaves no repeats and no copy of
      the removed key. */
  lemma RemoveAtDistinct(d: seq<int>, k: nat)
    requires k < |d| && Distinct(d)
    ensures Distinct(d[..k] + d[k + 1..])
    ensures d[k] !in d[..k] + d[k + 1..]
  {
    var r := d[..k] + d[k + 1..];
    RemoveAtIndex(d, k);
    forall i, j | 0 <= i < j < |r|
      ensures r[i] != r[j]
    {
      var i' := if i < k then i else i + 1;
      var j' := if j < k then j else j + 1;
      assert r[i] == d[i'] && r[j] == d[j'] && i' < j';
    }
    forall i | 0 <= i < |r|
      ensures r[i] != d[k]
    {
      var i' := if i < k then i else i + 1;
      assert r[i] == d[i'] && i' != k;
    }
  }
}
