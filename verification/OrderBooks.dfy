/** An aggregated order book: one size per price, each side a sorted array that stands for a map. */
module OrderBooks {
  import opened Errors

  datatype Level = Level(at: int, size: nat)

  /** A side as a map from price to the size resting there; a price with no size is absent. */
  type PriceMap = map<int, nat>

  predicate Better(descending: bool, a: int, b: int) { if descending then a > b else a < b }

  ghost predicate Sorted(descending: bool, s: seq<Level>) {
    && (forall i, j :: 0 <= i < j < |s| ==> Better(descending, s[i].at, s[j].at))
    && (forall i :: 0 <= i < |s| ==> s[i].size > 0)
  }

  function ToMap(s: seq<Level>): PriceMap {
    if s == [] then map[] else ToMap(s[..|s| - 1])[s[|s| - 1].at := s[|s| - 1].size]
  }

  /** One price level update. It is refused exactly when the side is full and the price is new. */
  function Applied(m: PriceMap, capacity: nat, at: int, size: nat): (PriceMap, Result<()>) {
    if size == 0 then (m - {at}, Ok(()))
    else if at !in m && |m| >= capacity then (m, Err(CapacityExceeded))
    else (m[at := size], Ok(()))
  }

  lemma {:induction false} ToMapAt(descending: bool, s: seq<Level>, i: nat)
    requires Sorted(descending, s) && i < |s|
    ensures s[i].at in ToMap(s) && ToMap(s)[s[i].at] == s[i].size
  {
    if i < |s| - 1 {
      ToMapAt(descending, s[..|s| - 1], i);
    }
  }

  lemma {:induction false} ToMapKey(s: seq<Level>, p: int) returns (i: nat)
    requires p in ToMap(s)
    ensures i < |s| && s[i].at == p
  {
    if s[|s| - 1].at == p {
      i := |s| - 1;
    } else {
      i := ToMapKey(s[..|s| - 1], p);
    }
  }

  lemma LastIsNew(descending: bool, s: seq<Level>)
    requires Sorted(descending, s) && s != []
    ensures s[|s| - 1].at !in ToMap(s[..|s| - 1])
  {
    var body := s[..|s| - 1];
    forall p | p in ToMap(body) ensures p != s[|s| - 1].at {
      var i := ToMapKey(body, p);
      assert Better(descending, s[i].at, s[|s| - 1].at);
    }
  }

  lemma {:induction false} ToMapSize(descending: bool, s: seq<Level>)
    requires Sorted(descending, s)
    ensures |ToMap(s)| == |s|
  {
    if s != [] {
      var body, last := s[..|s| - 1], s[|s| - 1];
      ToMapSize(descending, body);
      LastIsNew(descending, s);
      assert ToMap(s).Keys == ToMap(body).Keys + {last.at};
    }
  }

  /** Two maps over the same levels are equal when they agree at every price of both lists. */
  lemma SameMap(descending: bool, s: seq<Level>, m: PriceMap)
    requires Sorted(descending, s)
    requires forall i :: 0 <= i < |s| ==> s[i].at in m && m[s[i].at] == s[i].size
    requires forall p :: p in m ==> exists i :: 0 <= i < |s| && s[i].at == p
    ensures ToMap(s) == m
  {
    forall p | p in m ensures p in ToMap(s) && ToMap(s)[p] == m[p] {
      var i :| 0 <= i < |s| && s[i].at == p;
      ToMapAt(descending, s, i);
    }
    forall p | p in ToMap(s) ensures p in m {
      var i := ToMapKey(s, p);
    }
  }

  /** Sorted lists of the same map are the same list, so comparing arrays compares books. */
  lemma {:induction false} SortedUnique(descending: bool, s: seq<Level>, t: seq<Level>)
    requires Sorted(descending, s) && Sorted(descending, t) && ToMap(s) == ToMap(t)
    ensures s == t
  {
    ToMapSize(descending, s);
    ToMapSize(descending, t);
    if s != [] {
      var a, b := s[|s| - 1], t[|t| - 1];
      WorstIsLast(descending, s, t);
      WorstIsLast(descending, t, s);
      ToMapAt(descending, s, |s| - 1);
      ToMapAt(descending, t, |t| - 1);
      assert a == b;
      WithoutLast(descending, s);
      WithoutLast(descending, t);
      SortedUnique(descending, s[..|s| - 1], t[..|t| - 1]);
      assert s == s[..|s| - 1] + [a] && t == t[..|t| - 1] + [b];
    }
  }

  lemma WorstIsLast(descending: bool, s: seq<Level>, t: seq<Level>)
    requires Sorted(descending, s) && Sorted(descending, t) && ToMap(s) == ToMap(t) && s != [] && t != []
    ensures !Better(descending, t[|t| - 1].at, s[|s| - 1].at)
  {
    ToMapAt(descending, s, |s| - 1);
    var i := ToMapKey(t, s[|s| - 1].at);
  }

  lemma WithoutLast(descending: bool, s: seq<Level>)
    requires Sorted(descending, s) && s != []
    ensures Sorted(descending, s[..|s| - 1]) && ToMap(s[..|s| - 1]) == ToMap(s) - {s[|s| - 1].at}
  {
    LastIsNew(descending, s);
  }

  // ---- the four outcomes on lists ----------------------------------------------

  /** `where` is the place of a price: everything before it is better, nothing from it on is. */
  ghost predicate PlaceOf(descending: bool, s: seq<Level>, at: int, where: nat) {
    && where <= |s|
    && (forall i :: 0 <= i < where ==> Better(descending, s[i].at, at))
    && (forall i :: where <= i < |s| ==> !Better(descending, s[i].at, at))
  }

  lemma AbsentUnlessAtPlace(descending: bool, s: seq<Level>, at: int, where: nat)
    requires Sorted(descending, s) && PlaceOf(descending, s, at, where)
    ensures at in ToMap(s) <==> where < |s| && s[where].at == at
    ensures forall i :: where < i < |s| ==> Better(descending, at, s[i].at)
    ensures where < |s| && s[where].at != at ==> Better(descending, at, s[where].at)
  {
    forall i | where < i < |s| ensures Better(descending, at, s[i].at) {
      assert Better(descending, s[where].at, s[i].at);
    }
    if at in ToMap(s) {
      var i := ToMapKey(s, at);
    }
    if where < |s| && s[where].at == at {
      ToMapAt(descending, s, where);
    }
  }

  lemma RemovedLevel(descending: bool, s: seq<Level>, at: int, where: nat, t: seq<Level>)
    requires Sorted(descending, s) && where < |s| && s[where].at == at && t == s[..where] + s[where + 1..]
    ensures Sorted(descending, t)
    ensures ToMap(t) == ToMap(s) - {at}
  {
    RemovedSorted(descending, s, where, t);
    var m := ToMap(s) - {at};
    forall i | 0 <= i < |t| ensures t[i].at in m && m[t[i].at] == t[i].size {
      ToMapAt(descending, s, if i < where then i else i + 1);
    }
    forall p | p in m ensures exists i :: 0 <= i < |t| && t[i].at == p {
      var i := RemovedKey(s, where, t, p);
    }
    SameMap(descending, t, m);
  }

  lemma RemovedKey(s: seq<Level>, where: nat, t: seq<Level>, p: int) returns (i: nat)
    requires where < |s| && t == s[..where] + s[where + 1..] && p in ToMap(s) && p != s[where].at
    ensures i < |t| && t[i].at == p
  {
    var k := ToMapKey(s, p);
    i := if k < where then k else k - 1;
  }

  lemma RemovedSorted(descending: bool, s: seq<Level>, where: nat, t: seq<Level>)
    requires Sorted(descending, s) && where < |s| && t == s[..where] + s[where + 1..]
    ensures Sorted(descending, t)
    ensures forall i :: 0 <= i < |t| ==> t[i] == s[if i < where then i else i + 1] && t[i].at != s[where].at
  {
    forall i | 0 <= i < |t| ensures t[i].at != s[where].at {
      assert if i < where then Better(descending, s[i].at, s[where].at) else Better(descending, s[where].at, s[i + 1].at);
    }
  }

  lemma ReplacedLevel(descending: bool, s: seq<Level>, where: nat, size: nat)
    requires Sorted(descending, s) && where < |s| && size > 0
    ensures Sorted(descending, s[where := Level(s[where].at, size)])
    ensures ToMap(s[where := Level(s[where].at, size)]) == ToMap(s)[s[where].at := size]
  {
    var t, m := s[where := Level(s[where].at, size)], ToMap(s)[s[where].at := size];
    forall i | 0 <= i < |t| ensures t[i].at in m && m[t[i].at] == t[i].size {
      ToMapAt(descending, s, i);
    }
    forall p | p in m ensures exists i :: 0 <= i < |t| && t[i].at == p {
      ToMapAt(descending, s, where);
      var k := ToMapKey(s, p);
      assert t[k].at == p;
    }
    SameMap(descending, t, m);
  }

  lemma InsertedLevel(descending: bool, s: seq<Level>, at: int, where: nat, size: nat)
    requires Sorted(descending, s) && PlaceOf(descending, s, at, where) && at !in ToMap(s) && size > 0
    ensures Sorted(descending, s[..where] + [Level(at, size)] + s[where..])
    ensures ToMap(s[..where] + [Level(at, size)] + s[where..]) == ToMap(s)[at := size]
  {
    AbsentUnlessAtPlace(descending, s, at, where);
    var t, m := s[..where] + [Level(at, size)] + s[where..], ToMap(s)[at := size];
    InsertedSorted(descending, s, at, where, size);
    forall i | 0 <= i < |t| ensures t[i].at in m && m[t[i].at] == t[i].size {
      if i != where { ToMapAt(descending, s, if i < where then i else i - 1); }
    }
    forall p | p in m ensures exists i :: 0 <= i < |t| && t[i].at == p {
      if p == at {
        assert t[where].at == p;
      } else {
        var k := ToMapKey(s, p);
        assert t[if k < where then k else k + 1].at == p;
      }
    }
    SameMap(descending, t, m);
  }

  lemma InsertedSorted(descending: bool, s: seq<Level>, at: int, where: nat, size: nat)
    requires Sorted(descending, s) && PlaceOf(descending, s, at, where) && size > 0
    requires forall i :: where <= i < |s| ==> Better(descending, at, s[i].at)
    ensures Sorted(descending, s[..where] + [Level(at, size)] + s[where..])
  {
    var t := s[..where] + [Level(at, size)] + s[where..];
    forall i, j | 0 <= i < j < |t| ensures Better(descending, t[i].at, t[j].at) {
      assert i < where ==> t[i] == s[i];
      assert j > where ==> t[j] == s[j - 1];
      assert i > where ==> t[i] == s[i - 1];
      assert j < where ==> t[j] == s[j];
    }
    forall i | 0 <= i < |t| ensures t[i].size > 0 {
      assert t[i] == if i < where then s[i] else if i == where then Level(at, size) else s[i - 1];
    }
  }

  // ---- what a run of updates means ------------------------------------------------

  datatype Update = Update(at: int, size: nat)

  /** The side after a run, and the updates that were not refused, in order. */
  function Replayed(capacity: nat, updates: seq<Update>): (PriceMap, seq<Update>) {
    if updates == [] then (map[], [])
    else
      var u := updates[|updates| - 1];
      var (m, accepted) := Replayed(capacity, updates[..|updates| - 1]);
      var (m', result) := Applied(m, capacity, u.at, u.size);
      (m', if result.Ok? then accepted + [u] else accepted)
  }

  /** The size named by the last update of a price, zero when there is none. */
  function LastSize(updates: seq<Update>, at: int): nat {
    if updates == [] then 0
    else if updates[|updates| - 1].at == at then updates[|updates| - 1].size
    else LastSize(updates[..|updates| - 1], at)
  }

  /** After any run each price holds the size of its last update that was not refused, a price whose
      last size is zero is gone, and the side never outgrows its capacity. */
  lemma {:induction false} LastWriteWins(capacity: nat, updates: seq<Update>, at: int)
    ensures var (m, accepted) := Replayed(capacity, updates);
            && |m| <= capacity
            && (at in m <==> LastSize(accepted, at) > 0)
            && (at in m ==> m[at] == LastSize(accepted, at))
  {
    if updates != [] {
      LastWriteWins(capacity, updates[..|updates| - 1], at);
      var u := updates[|updates| - 1];
      var (m, accepted) := Replayed(capacity, updates[..|updates| - 1]);
      assert (accepted + [u])[..|accepted|] == accepted;
      AppliedFits(m, capacity, u.at, u.size);
    }
  }

  lemma AppliedFits(m: PriceMap, capacity: nat, at: int, size: nat)
    requires |m| <= capacity
    ensures |Applied(m, capacity, at, size).0| <= capacity
  {
    WithoutFits(m, at);
    PutFits(m, at, size);
  }

  lemma WithoutFits(m: PriceMap, at: int)
    ensures |m - {at}| <= |m|
  {
    assert (m - {at}).Keys == m.Keys - {at};
  }

  lemma PutFits(m: PriceMap, at: int, size: nat)
    ensures |m[at := size]| == |m| + if at in m then 0 else 1
  {
    assert m[at := size].Keys == m.Keys + {at};
  }

  lemma ShiftedUp(s: seq<Level>, t: seq<Level>, where: nat, value: Level)
    requires where <= |s| && |t| == |s| + 1 && t[where] == value
    requires forall j :: 0 <= j < where ==> t[j] == s[j]
    requires forall j :: where < j < |t| ==> t[j] == s[j - 1]
    ensures t == s[..where] + [value] + s[where..]
  {}

  // ---- the component ----------------------------------------------------------------

  class Side {
    const descending: bool
    const levels: array<Level>
    var count: nat
    var refused: nat

    ghost predicate Valid()
      reads this, levels
    {
      count <= levels.Length && Sorted(descending, levels[..count])
    }

    ghost function Model(): PriceMap
      reads this, levels
      requires count <= levels.Length
    {
      ToMap(levels[..count])
    }

    constructor (capacity: nat, descending: bool)
      requires capacity >= 2
      ensures Valid() && fresh(levels)
      ensures levels.Length == capacity && this.descending == descending && Model() == map[] && refused == 0
    {
      this.descending := descending;
      levels := new Level[capacity](_ => Level(0, 0));
      count, refused := 0, 0;
    }

    /** The best price with its size, or nothing when the side is empty. */
    method Best() returns (best: Option<Level>)
      requires Valid()
      ensures best.None? <==> Model() == map[]
      ensures best.Some? ==> best.value.at in Model() && Model()[best.value.at] == best.value.size
      ensures best.Some? ==> forall p :: p in Model() && p != best.value.at ==> Better(descending, best.value.at, p)
    {
      if count == 0 {
        return None;
      }
      ghost var s := levels[..count];
      ToMapAt(descending, s, 0);
      forall p | p in Model() && p != s[0].at ensures Better(descending, s[0].at, p) {
        var i := ToMapKey(s, p);
      }
      return Some(levels[0]);
    }

    method PositionOf(at: int) returns (where: nat)
      requires Valid()
      ensures PlaceOf(descending, levels[..count], at, where)
    {
      where := 0;
      while where < count && Better(descending, levels[where].at, at)
        invariant where <= count
        invariant forall i :: 0 <= i < where ==> Better(descending, levels[i].at, at)
      {
        where := where + 1;
      }
      ghost var s := levels[..count];
      forall i | where <= i < count ensures !Better(descending, s[i].at, at) {
        if i > where { assert Better(descending, s[where].at, s[i].at); }
      }
    }

    method Apply(at: int, size: nat) returns (result: Result<()>)
      requires Valid()
      modifies this, levels
      ensures Valid()
      ensures (Model(), result) == Applied(old(Model()), levels.Length, at, size)
      ensures refused == old(refused) + if result.Err? then 1 else 0
    {
      ghost var s := levels[..count];
      var where := PositionOf(at);
      var present := where < count && levels[where].at == at;
      AbsentUnlessAtPlace(descending, s, at, where);
      ToMapSize(descending, s);

      if size == 0 {
        if present {
          RemovedLevel(descending, s, at, where, s[..where] + s[where + 1..]);
          RemoveAt(where);
        } else {
          assert ToMap(s) - {at} == ToMap(s);
        }
        return Ok(());
      }
      if present {
        ReplacedLevel(descending, s, where, size);
        levels[where] := Level(at, size);
        assert levels[..count] == s[where := Level(at, size)];
        return Ok(());
      }
      if count >= levels.Length {
        refused := refused + 1;
        return Err(CapacityExceeded);
      }
      InsertedLevel(descending, s, at, where, size);
      InsertAt(where, Level(at, size));
      return Ok(());
    }

    method InsertAt(where: nat, value: Level)
      requires where <= count < levels.Length
      modifies this`count, levels
      ensures count == old(count) + 1
      ensures levels[..count] == old(levels[..count])[..where] + [value] + old(levels[..count])[where..]
    {
      ghost var s := levels[..count];
      var i := count;
      while i > where
        modifies levels
        invariant where <= i <= count
        invariant forall j :: 0 <= j < i ==> levels[j] == s[j]
        invariant forall j :: i < j <= count ==> levels[j] == s[j - 1]
      {
        levels[i] := levels[i - 1];
        i := i - 1;
      }
      levels[where] := value;
      count := count + 1;
      ShiftedUp(s, levels[..count], where, value);
    }

    method RemoveAt(where: nat)
      requires where < count <= levels.Length
      modifies this`count, levels
      ensures count == old(count) - 1
      ensures levels[..count] == old(levels[..count])[..where] + old(levels[..count])[where + 1..]
    {
      ghost var s := levels[..count];
      var i := where;
      while i + 1 < count
        modifies levels
        invariant where <= i < count
        invariant forall j :: 0 <= j < where ==> levels[j] == s[j]
        invariant forall j :: where <= j < i ==> levels[j] == s[j + 1]
        invariant forall j :: i < j < count ==> levels[j] == s[j]
      {
        levels[i] := levels[i + 1];
        i := i + 1;
      }
      count := count - 1;
      assert levels[..count] == s[..where] + s[where + 1..];
    }

    /** Comparing the arrays decides whether the two sides hold the same sizes at the same prices. */
    method Equals(other: Side) returns (same: bool)
      requires Valid() && other.Valid() && descending == other.descending
      ensures same <==> Model() == other.Model()
    {
      ghost var s, t := levels[..count], other.levels[..other.count];
      if Model() == other.Model() {
        SortedUnique(descending, s, t);
      }
      if count != other.count {
        return false;
      }
      for i := 0 to count
        invariant s[..i] == t[..i]
      {
        if levels[i] != other.levels[i] {
          assert s[i] != t[i];
          return false;
        }
        assert s[..i + 1] == s[..i] + [s[i]] && t[..i + 1] == t[..i] + [t[i]];
      }
      assert s[..count] == s && t[..count] == t;
      return true;
    }

    /** Empties the side. The refusal count survives. */
    method Clear()
      requires Valid()
      modifies this`count
      ensures Valid() && Model() == map[]
    {
      count := 0;
    }
  }

  // ---- both sides of one symbol -------------------------------------------------------

  datatype Book = Book(bids: PriceMap, asks: PriceMap)

  const EMPTY_BOOK := Book(map[], map[])

  datatype PriceLevelUpdate = PriceLevelUpdate(buy: bool, at: int, size: nat)

  function AppliedToBook(depth: nat, b: Book, u: PriceLevelUpdate): (Book, Result<()>) {
    if u.buy then
      var (bids, result) := Applied(b.bids, depth, u.at, u.size);
      (b.(bids := bids), result)
    else
      var (asks, result) := Applied(b.asks, depth, u.at, u.size);
      (b.(asks := asks), result)
  }

  function SideOf(b: Book, buy: bool): PriceMap { if buy then b.bids else b.asks }

  /** An update is refused exactly when its side is full and its price, with a positive size, is new there; a
      refused one changes nothing. */
  lemma RefusedOnlyWhenFull(depth: nat, b: Book, u: PriceLevelUpdate)
    ensures var (after, result) := AppliedToBook(depth, b, u);
            && (result.Err? <==> u.size > 0 && u.at !in SideOf(b, u.buy) && |SideOf(b, u.buy)| >= depth)
            && (result.Err? ==> result.error == CapacityExceeded && after == b)
  {}

  /** Buys leave the asks alone, sells the bids, and on its own side an update leaves every other price alone. */
  lemma OneSideOnePrice(depth: nat, b: Book, u: PriceLevelUpdate, at: int)
    ensures var after := AppliedToBook(depth, b, u).0;
            && SideOf(after, !u.buy) == SideOf(b, !u.buy)
            && (at != u.at ==> (at in SideOf(after, u.buy) <==> at in SideOf(b, u.buy)))
            && (at != u.at && at in SideOf(b, u.buy) ==> SideOf(after, u.buy)[at] == SideOf(b, u.buy)[at])
  {}

  /** The book after a run, and the updates that were not refused, in order. */
  function ReplayedBook(depth: nat, updates: seq<PriceLevelUpdate>): (Book, seq<PriceLevelUpdate>) {
    if updates == [] then (EMPTY_BOOK, [])
    else
      var u := updates[|updates| - 1];
      var (b, accepted) := ReplayedBook(depth, updates[..|updates| - 1]);
      var (b', result) := AppliedToBook(depth, b, u);
      (b', if result.Ok? then accepted + [u] else accepted)
  }

  /** The size named by the last update of a price on one side, zero when there is none. */
  function LastSizeOn(updates: seq<PriceLevelUpdate>, buy: bool, at: int): nat {
    if updates == [] then 0
    else
      var u := updates[|updates| - 1];
      if u.buy == buy && u.at == at then u.size else LastSizeOn(updates[..|updates| - 1], buy, at)
  }

  predicate HoldsLast(side: PriceMap, last: nat, at: int) { (at in side <==> last > 0) && (at in side ==> side[at] == last) }

  lemma UpdateHoldsLast(depth: nat, b: Book, u: PriceLevelUpdate, buy: bool, at: int, last: nat)
    requires HoldsLast(SideOf(b, buy), last, at) && AppliedToBook(depth, b, u).1.Ok?
    ensures HoldsLast(SideOf(AppliedToBook(depth, b, u).0, buy), if u.buy == buy && u.at == at then u.size else last, at)
  {}

  /** After any run each bid price holds the size of the last buy update there that was not refused, each ask
      price of the last sell update; a price whose last size is zero is gone. */
  lemma {:induction false} EachSideHoldsItsLast(depth: nat, updates: seq<PriceLevelUpdate>, at: int)
    ensures var (b, accepted) := ReplayedBook(depth, updates);
            && HoldsLast(b.bids, LastSizeOn(accepted, true, at), at)
            && HoldsLast(b.asks, LastSizeOn(accepted, false, at), at)
  {
    if updates != [] {
      var front, u := updates[..|updates| - 1], updates[|updates| - 1];
      EachSideHoldsItsLast(depth, front, at);
      var (b, accepted) := ReplayedBook(depth, front);
      if AppliedToBook(depth, b, u).1.Ok? {
        assert (accepted + [u])[..|accepted|] == accepted;
        UpdateHoldsLast(depth, b, u, true, at, LastSizeOn(accepted, true, at));
        UpdateHoldsLast(depth, b, u, false, at, LastSizeOn(accepted, false, at));
      } else {
        RefusedOnlyWhenFull(depth, b, u);
      }
    }
  }

  class OrderBook {
    const bids: Side
    const asks: Side
    var updates: nat

    ghost predicate Valid()
      reads this, bids, bids.levels, asks, asks.levels
    {
      && bids.Valid() && asks.Valid()
      && bids != asks && bids.levels != asks.levels
      && bids.descending && !asks.descending
      && bids.levels.Length == asks.levels.Length
    }

    ghost function Model(): Book
      reads this, bids, bids.levels, asks, asks.levels
      requires Valid()
    {
      Book(bids.Model(), asks.Model())
    }

    constructor (depth: nat)
      requires depth >= 2
      ensures Valid() && fresh(bids) && fresh(bids.levels) && fresh(asks) && fresh(asks.levels)
      ensures Model() == EMPTY_BOOK && bids.levels.Length == depth && updates == 0
    {
      bids := new Side(depth, true);
      asks := new Side(depth, false);
      updates := 0;
    }

    method Apply(u: PriceLevelUpdate) returns (result: Result<()>)
      requires Valid()
      modifies this, bids, bids.levels, asks, asks.levels
      ensures Valid() && updates == old(updates) + 1
      ensures (Model(), result) == AppliedToBook(bids.levels.Length, old(Model()), u)
    {
      updates := updates + 1;
      if u.buy {
        result := bids.Apply(u.at, u.size);
      } else {
        result := asks.Apply(u.at, u.size);
      }
    }

    /** Two books are equal exactly when both maps are, whatever their histories. */
    method Equals(other: OrderBook) returns (same: bool)
      requires Valid() && other.Valid()
      ensures same <==> Model() == other.Model()
    {
      same := bids.Equals(other.bids);
      if same {
        same := asks.Equals(other.asks);
      }
    }

    /** Crossed means some bid is at or above some ask; it is reported, not repaired. */
    method Crossed() returns (crossed: bool)
      requires Valid()
      ensures crossed <==> exists b, a :: b in Model().bids && a in Model().asks && b >= a
    {
      var bid := bids.Best();
      var ask := asks.Best();
      crossed := bid.Some? && ask.Some? && bid.value.at >= ask.value.at;
      forall b, a | b in Model().bids && a in Model().asks && b >= a ensures crossed {
        assert b == bid.value.at || Better(true, bid.value.at, b);
        assert a == ask.value.at || Better(false, ask.value.at, a);
      }
      if crossed {
        assert bid.value.at in Model().bids && ask.value.at in Model().asks;
      }
    }
  }
}
