/** An order-by-order book in a fixed open-addressing table with tombstones.

    The specification is a map from reference to order and a count of executed shares. The table keeps
    no reference twice and no empty slot on the probe path of a live order, which is why a lookup that
    meets an empty slot may stop. */
module OrderLevelBooks {
  import opened Arithmetic
  import opened Errors

  /** `stock` stands for the symbol, which is only copied and compared. */
  datatype Order = Order(reference: nat, stock: nat, shares: nat, price: nat, buy: bool)

  datatype Slot = Empty | Live(value: Order) | Tombstone

  datatype Message =
    | Add(reference: nat, stock: nat, shares: nat, price: nat, buy: bool)
    | Executed(reference: nat, shares: nat)
    | Cancel(reference: nat, shares: nat)
    | Delete(reference: nat)
    | Replace(original: nat, reference: nat, shares: nat, price: nat)

  /** The abstract book. */
  datatype Orders = Orders(live: map<nat, Order>, executed: nat)

  const NO_ORDERS := Orders(map[], 0)

  /** Takes shares off an order; an order with none left is gone. */
  function Reduced(live: map<nat, Order>, reference: nat, shares: nat): map<nat, Order>
    requires reference in live && shares <= live[reference].shares
  {
    var left := live[reference].shares - shares;
    if left == 0 then live - {reference} else live[reference := live[reference].(shares := left)]
  }

  function Applied(capacity: nat, b: Orders, m: Message): (Orders, Result<()>) {
    match m
    case Add(reference, stock, shares, price, buy) =>
      if reference == 0 || shares == 0 || reference in b.live then (b, Err(InvalidArgument))
      else if |b.live| >= capacity then (b, Err(CapacityExceeded))
      else (b.(live := b.live[reference := Order(reference, stock, shares, price, buy)]), Ok(()))
    case Executed(reference, shares) =>
      if reference !in b.live || shares == 0 || shares > b.live[reference].shares then (b, Err(InvalidArgument))
      else (Orders(Reduced(b.live, reference, shares), b.executed + shares), Ok(()))
    case Cancel(reference, shares) =>
      if reference !in b.live || shares == 0 || shares > b.live[reference].shares then (b, Err(InvalidArgument))
      else (b.(live := Reduced(b.live, reference, shares)), Ok(()))
    case Delete(reference) =>
      if reference !in b.live then (b, Err(InvalidArgument)) else (b.(live := b.live - {reference}), Ok(()))
    case Replace(original, reference, shares, price) =>
      if original !in b.live || reference == 0 || shares == 0 || reference == original || reference in b.live
      then (b, Err(InvalidArgument))
      else (b.(live := (b.live - {original})[reference := b.live[original].(reference := reference, shares := shares, price := price)]), Ok(()))
  }

  // ---- the table as a list of slots -----------------------------------------------

  function ToMap(s: seq<Slot>): map<nat, Order> {
    if s == [] then map[]
    else
      match s[|s| - 1]
      case Live(order) => ToMap(s[..|s| - 1])[order.reference := order]
      case _ => ToMap(s[..|s| - 1])
  }

  /** No reference is live in two slots. */
  ghost predicate Distinct(s: seq<Slot>) {
    s != [] ==>
      && Distinct(s[..|s| - 1])
      && (s[|s| - 1].Live? ==> s[|s| - 1].value.reference !in ToMap(s[..|s| - 1]))
  }

  function LiveCount(s: seq<Slot>): nat {
    if s == [] then 0 else LiveCount(s[..|s| - 1]) + if s[|s| - 1].Live? then 1 else 0
  }

  lemma {:induction false} MapSize(s: seq<Slot>)
    requires Distinct(s)
    ensures |ToMap(s)| == LiveCount(s)
  {
    if s != [] {
      var body := s[..|s| - 1];
      MapSize(body);
      if s[|s| - 1].Live? {
        assert ToMap(s).Keys == ToMap(body).Keys + {s[|s| - 1].value.reference};
      }
    }
  }

  lemma {:induction false} SlotOf(s: seq<Slot>, reference: nat) returns (i: nat)
    requires reference in ToMap(s)
    ensures i < |s| && s[i] == Live(ToMap(s)[reference]) && ToMap(s)[reference].reference == reference
  {
    var last := s[|s| - 1];
    if last.Live? && last.value.reference == reference {
      i := |s| - 1;
    } else {
      i := SlotOf(s[..|s| - 1], reference);
    }
  }

  lemma {:induction false} LiveIsMapped(s: seq<Slot>, i: nat)
    requires Distinct(s) && i < |s| && s[i].Live?
    ensures s[i].value.reference in ToMap(s) && ToMap(s)[s[i].value.reference] == s[i].value
  {
    if i < |s| - 1 {
      LiveIsMapped(s[..|s| - 1], i);
    }
  }

  lemma {:induction false} OneSlotEach(s: seq<Slot>, i: nat, j: nat)
    requires Distinct(s) && i < |s| && j < |s| && s[i].Live? && s[j].Live?
    requires s[i].value.reference == s[j].value.reference
    ensures i == j
  {
    var body := s[..|s| - 1];
    if i < |s| - 1 && j < |s| - 1 {
      OneSlotEach(body, i, j);
    } else if i < |s| - 1 {
      LiveIsMapped(body, i);
    } else if j < |s| - 1 {
      LiveIsMapped(body, j);
    }
  }

  lemma {:induction false} PutOrder(s: seq<Slot>, i: nat, order: Order)
    requires Distinct(s) && i < |s| && !s[i].Live? && order.reference !in ToMap(s)
    ensures Distinct(s[i := Live(order)])
    ensures ToMap(s[i := Live(order)]) == ToMap(s)[order.reference := order]
    ensures LiveCount(s[i := Live(order)]) == LiveCount(s) + 1
  {
    var body := s[..|s| - 1];
    if i == |s| - 1 {
      assert s[i := Live(order)][..|s| - 1] == body;
    } else {
      PutOrder(body, i, order);
      assert s[i := Live(order)][..|s| - 1] == body[i := Live(order)];
    }
  }

  lemma {:induction false} BuryOrder(s: seq<Slot>, i: nat)
    requires Distinct(s) && i < |s| && s[i].Live?
    ensures Distinct(s[i := Tombstone])
    ensures ToMap(s[i := Tombstone]) == ToMap(s) - {s[i].value.reference}
    ensures LiveCount(s[i := Tombstone]) == LiveCount(s) - 1
  {
    var body, last := s[..|s| - 1], s[|s| - 1];
    if i == |s| - 1 {
      assert s[i := Tombstone][..|s| - 1] == body;
    } else {
      BuryOrder(body, i);
      LiveIsMapped(body, i);
      assert s[i := Tombstone][..|s| - 1] == body[i := Tombstone];
    }
  }

  lemma {:induction false} ChangeOrder(s: seq<Slot>, i: nat, order: Order)
    requires Distinct(s) && i < |s| && s[i].Live? && s[i].value.reference == order.reference
    ensures Distinct(s[i := Live(order)])
    ensures ToMap(s[i := Live(order)]) == ToMap(s)[order.reference := order]
    ensures LiveCount(s[i := Live(order)]) == LiveCount(s)
  {
    var body := s[..|s| - 1];
    if i == |s| - 1 {
      assert s[i := Live(order)][..|s| - 1] == body;
    } else {
      ChangeOrder(body, i, order);
      LiveIsMapped(body, i);
      assert s[i := Live(order)][..|s| - 1] == body[i := Live(order)];
    }
  }

  lemma {:induction false} AllLive(s: seq<Slot>)
    requires forall i :: 0 <= i < |s| ==> s[i].Live?
    ensures LiveCount(s) == |s|
  {
    if s != [] {
      AllLive(s[..|s| - 1]);
    }
  }

  lemma {:induction false} LiveCountBound(s: seq<Slot>)
    ensures LiveCount(s) <= |s|
  {
    if s != [] {
      LiveCountBound(s[..|s| - 1]);
    }
  }

  // ---- probing ---------------------------------------------------------------------

  const GOLDEN: nat := 11400714819323198485
  const WORD: nat := 0x1_0000_0000_0000_0000

  predicate PowerOfTwo(n: nat) { n == 1 || (n > 1 && n % 2 == 0 && PowerOfTwo(n / 2)) }

  /** Fibonacci hashing in 64-bit arithmetic, masked to a power-of-two capacity. */
  function Bucket(reference: nat, n: nat): (b: nat)
    requires n > 0
    ensures b < n
  {
    reference * GOLDEN % WORD % n
  }

  /** The slot at a distance along a probe. */
  function Probe(start: nat, distance: nat, n: nat): (at: nat)
    requires start < n
    ensures at < n
  {
    (start + distance) % n
  }

  /** How far a probe from `start` goes to reach `at`. */
  function Distance(start: nat, at: nat, n: nat): (d: nat)
    requires start < n && at < n
    ensures d < n
  {
    if at >= start then at - start else at + n - start
  }

  lemma ProbeReaches(start: nat, at: nat, n: nat)
    requires start < n && at < n
    ensures Probe(start, Distance(start, at, n), n) == at
  {
    var d := Distance(start, at, n);
    if at < start {
      assert start + d == at + n;
      WrapsOnce(start + d, n);
    } else {
      assert start + d == at;
    }
  }

  lemma DistanceOfProbe(start: nat, d: nat, n: nat)
    requires start < n && d < n
    ensures Distance(start, Probe(start, d, n), n) == d
  {
    if start + d >= n {
      WrapsOnce(start + d, n);
    }
  }

  /** No slot before `distance` on the probe from `start` is empty. */
  ghost predicate PathClear(s: seq<Slot>, start: nat, distance: nat)
    requires start < |s|
  {
    distance > 0 ==> s[Probe(start, distance - 1, |s|)] != Empty && PathClear(s, start, distance - 1)
  }

  lemma {:induction false} PathClearAt(s: seq<Slot>, start: nat, distance: nat, d: nat)
    requires start < |s| && PathClear(s, start, distance) && d < distance
    ensures s[Probe(start, d, |s|)] != Empty
  {
    if d < distance - 1 {
      PathClearAt(s, start, distance - 1, d);
    }
  }

  lemma {:induction false} PathStaysClear(s: seq<Slot>, i: nat, x: Slot, start: nat, distance: nat)
    requires start < |s| && i < |s| && x != Empty && PathClear(s, start, distance)
    ensures PathClear(s[i := x], start, distance)
  {
    if distance > 0 {
      PathStaysClear(s, i, x, start, distance - 1);
    }
  }

  /** Where an order is, seen from its own bucket. */
  function Home(order: Order, at: nat, n: nat): nat
    requires at < n
  {
    Distance(Bucket(order.reference, n), at, n)
  }

  ghost predicate Reachable(s: seq<Slot>, i: nat)
    requires i < |s|
  {
    s[i].Live? ==> PathClear(s, Bucket(s[i].value.reference, |s|), Home(s[i].value, i, |s|))
  }

  /** Every live order can be found. */
  ghost predicate Findable(s: seq<Slot>) {
    forall i :: 0 <= i < |s| ==> Reachable(s, i)
  }

  /** Overwriting a slot with something not empty keeps every other order findable. */
  lemma OverwriteKeepsFindable(s: seq<Slot>, i: nat, x: Slot)
    requires Findable(s) && i < |s| && x != Empty
    requires x.Live? ==> PathClear(s, Bucket(x.value.reference, |s|), Home(x.value, i, |s|))
    ensures Findable(s[i := x])
  {
    var t := s[i := x];
    forall k | 0 <= k < |t| ensures Reachable(t, k) {
      if t[k].Live? {
        assert k == i || Reachable(s, k);
        PathStaysClear(s, i, x, Bucket(t[k].value.reference, |s|), Home(t[k].value, k, |s|));
      }
    }
  }

  /** What a lookup has established after `distance` steps. */
  ghost predicate NotSeen(s: seq<Slot>, reference: nat, distance: nat)
    requires |s| > 0
  {
    forall d :: 0 <= d < distance ==>
      var x := s[Probe(Bucket(reference, |s|), d, |s|)]; !(x.Live? && x.value.reference == reference)
  }

  /** Stopping at an empty slot, or after every slot, misses nothing. */
  lemma StoppingIsSafe(s: seq<Slot>, reference: nat, distance: nat)
    requires |s| > 0 && Distinct(s) && Findable(s) && NotSeen(s, reference, distance)
    requires distance == |s| || (distance < |s| && s[Probe(Bucket(reference, |s|), distance, |s|)] == Empty)
    ensures reference !in ToMap(s)
  {
    if reference in ToMap(s) {
      var i := SlotOf(s, reference);
      var home := Home(s[i].value, i, |s|);
      assert Reachable(s, i);
      ProbeReaches(Bucket(reference, |s|), i, |s|);
      assert distance < home;
      PathClearAt(s, Bucket(reference, |s|), home, distance);
    }
  }

  /** Probing every distance visits every slot. */
  lemma WholeProbeIsLive(s: seq<Slot>, start: nat)
    requires start < |s|
    requires forall d :: 0 <= d < |s| ==> s[Probe(start, d, |s|)].Live?
    ensures LiveCount(s) == |s|
  {
    forall i | 0 <= i < |s| ensures s[i].Live? {
      ProbeReaches(start, i, |s|);
      assert s[Probe(start, Distance(start, i, |s|), |s|)].Live?;
    }
    AllLive(s);
  }

  /** Where a new order may go: a slot that is not live and that its own lookup will reach. */
  ghost predicate Placeable(s: seq<Slot>, reference: nat, into: nat)
    requires into < |s|
  {
    var start := Bucket(reference, |s|);
    !s[into].Live? && PathClear(s, start, Distance(start, into, |s|))
  }

  lemma PlaceableAt(s: seq<Slot>, reference: nat, d: nat)
    requires d < |s| && PathClear(s, Bucket(reference, |s|), d)
    requires !s[Probe(Bucket(reference, |s|), d, |s|)].Live?
    ensures Placeable(s, reference, Probe(Bucket(reference, |s|), d, |s|))
  {
    DistanceOfProbe(Bucket(reference, |s|), d, |s|);
  }

  /** What a table must satisfy for its lookups to be right. */
  ghost predicate Sound(s: seq<Slot>) { |s| > 0 && Distinct(s) && Findable(s) }

  lemma Placed(s: seq<Slot>, i: nat, order: Order)
    requires Sound(s) && i < |s| && Placeable(s, order.reference, i) && order.reference !in ToMap(s)
    ensures Sound(s[i := Live(order)])
    ensures ToMap(s[i := Live(order)]) == ToMap(s)[order.reference := order]
    ensures LiveCount(s[i := Live(order)]) == LiveCount(s) + 1
  {
    PutOrder(s, i, order);
    OverwriteKeepsFindable(s, i, Live(order));
  }

  lemma Buried(s: seq<Slot>, i: nat)
    requires Sound(s) && i < |s| && s[i].Live?
    ensures Sound(s[i := Tombstone])
    ensures ToMap(s[i := Tombstone]) == ToMap(s) - {s[i].value.reference}
    ensures LiveCount(s[i := Tombstone]) == LiveCount(s) - 1
  {
    BuryOrder(s, i);
    OverwriteKeepsFindable(s, i, Tombstone);
  }

  lemma Changed(s: seq<Slot>, i: nat, order: Order)
    requires Sound(s) && i < |s| && s[i].Live? && s[i].value.reference == order.reference
    ensures Sound(s[i := Live(order)])
    ensures ToMap(s[i := Live(order)]) == ToMap(s)[order.reference := order]
    ensures LiveCount(s[i := Live(order)]) == LiveCount(s)
  {
    ChangeOrder(s, i, order);
    assert Reachable(s, i);
    OverwriteKeepsFindable(s, i, Live(order));
  }

  /** Comparing counts and looking up one table's orders in the other decides equality of the maps. */
  lemma CountingDecidesEquality(a: map<nat, Order>, b: map<nat, Order>)
    requires |a| == |b| && forall k :: k in a ==> k in b && b[k] == a[k]
    ensures a == b
  {
    SameSizeSubset(a.Keys, b.Keys);
  }

  lemma SameSizeSubset(a: set<nat>, b: set<nat>)
    requires a <= b && |a| == |b|
    ensures a == b
  {
    assert |b - a| == |b| - |a|;
  }

  // ---- runs ------------------------------------------------------------------------

  function Run(capacity: nat, messages: seq<Message>): Orders {
    if messages == [] then NO_ORDERS
    else Applied(capacity, Run(capacity, messages[..|messages| - 1]), messages[|messages| - 1]).0
  }

  /** Every order is filed under its own nonzero reference with shares left, and the book never overflows. */
  ghost predicate Orderly(capacity: nat, b: Orders) {
    && |b.live| <= capacity
    && forall r :: r in b.live ==> r != 0 && b.live[r].reference == r && b.live[r].shares > 0
  }

  lemma AppliedIsOrderly(capacity: nat, b: Orders, m: Message)
    requires Orderly(capacity, b)
    ensures Orderly(capacity, Applied(capacity, b, m).0)
  {
    if Applied(capacity, b, m).1.Err? { return; }
    match m
    case Add(reference, stock, shares, price, buy) =>
      PutIsOrderly(capacity, b, Order(reference, stock, shares, price, buy));
    case Executed(reference, shares) => ReducedIsOrderly(capacity, b, reference, shares);
    case Cancel(reference, shares) => ReducedIsOrderly(capacity, b, reference, shares);
    case Delete(reference) => WithoutIsOrderly(capacity, b, reference);
    case Replace(original, reference, shares, price) =>
      SwapIsOrderly(capacity, b, original, b.live[original].(reference := reference, shares := shares, price := price));
  }

  lemma SwapIsOrderly(capacity: nat, b: Orders, original: nat, order: Order)
    requires Orderly(capacity, b) && original in b.live
    requires order.reference != 0 && order.shares != 0 && order.reference !in b.live
    ensures Orderly(capacity, b.(live := (b.live - {original})[order.reference := order]))
  {
    WithoutIsOrderly(capacity, b, original);
    WithoutIsSmaller(b.live, original);
    PutIsOrderly(capacity, b.(live := b.live - {original}), order);
  }

  lemma PutIsOrderly(capacity: nat, b: Orders, order: Order)
    requires Orderly(capacity, b) && |b.live| < capacity
    requires order.reference != 0 && order.shares != 0 && order.reference !in b.live
    ensures Orderly(capacity, b.(live := b.live[order.reference := order]))
  {
    assert (b.live[order.reference := order]).Keys == b.live.Keys + {order.reference};
  }

  lemma WithoutIsOrderly(capacity: nat, b: Orders, reference: nat)
    requires Orderly(capacity, b)
    ensures Orderly(capacity, b.(live := b.live - {reference}))
  {
    WithoutIsSmaller(b.live, reference);
  }

  lemma WithoutIsSmaller(live: map<nat, Order>, reference: nat)
    ensures reference in live ==> |live - {reference}| == |live| - 1
    ensures reference !in live ==> live - {reference} == live
  {
    assert (live - {reference}).Keys == live.Keys - {reference};
  }

  lemma ReducedIsOrderly(capacity: nat, b: Orders, reference: nat, shares: nat)
    requires Orderly(capacity, b)
    ensures reference in b.live && shares <= b.live[reference].shares ==>
              Orderly(capacity, b.(live := Reduced(b.live, reference, shares)))
  {
    if reference in b.live && shares <= b.live[reference].shares {
      WithoutIsSmaller(b.live, reference);
      var left := b.live[reference].(shares := b.live[reference].shares - shares);
      assert (b.live[reference := left]).Keys == b.live.Keys;
    }
  }

  lemma {:induction false} RunIsOrderly(capacity: nat, messages: seq<Message>)
    ensures Orderly(capacity, Run(capacity, messages))
  {
    if messages != [] {
      RunIsOrderly(capacity, messages[..|messages| - 1]);
      AppliedIsOrderly(capacity, Run(capacity, messages[..|messages| - 1]), messages[|messages| - 1]);
    }
  }

  /** Only an add can be refused for want of room, and only when every slot is taken. */
  lemma RefusedOnlyWhenFull(capacity: nat, messages: seq<Message>, m: Message)
    ensures Applied(capacity, Run(capacity, messages), m).1 == Err(CapacityExceeded) <==>
              && m.Add? && m.reference != 0 && m.shares != 0
              && m.reference !in Run(capacity, messages).live
              && |Run(capacity, messages).live| == capacity
  {
    RunIsOrderly(capacity, messages);
  }

  // ---- the table -------------------------------------------------------------------

  class OrderLevelBook {
    const slots: array<Slot>
    var count: nat
    var executedShares: nat

    ghost predicate Valid()
      reads this, slots
    {
      Sound(slots[..]) && count == LiveCount(slots[..])
    }

    ghost function Model(): Orders
      reads this, slots
    {
      Orders(ToMap(slots[..]), executedShares)
    }

    constructor (capacity: nat)
      requires capacity >= 8 && PowerOfTwo(capacity)
      ensures Valid() && Model() == NO_ORDERS && slots.Length == capacity && fresh(slots)
    {
      slots := new Slot[capacity](_ => Empty);
      count, executedShares := 0, 0;
      new;
      NothingLive(slots[..]);
    }

    method FindIndex(reference: nat) returns (at: nat)
      requires Valid()
      ensures at <= slots.Length
      ensures at < slots.Length ==> slots[at].Live? && slots[at].value.reference == reference
      ensures at < slots.Length <==> reference in Model().live
    {
      ghost var s := slots[..];
      var n := slots.Length;
      var start := Bucket(reference, n);
      for distance := 0 to n
        invariant NotSeen(s, reference, distance)
      {
        at := Probe(start, distance, n);
        if slots[at] == Empty {
          StoppingIsSafe(s, reference, distance);
          return n;
        }
        if slots[at].Live? && slots[at].value.reference == reference {
          LiveIsMapped(s, at);
          return at;
        }
      }
      StoppingIsSafe(s, reference, n);
      return n;
    }

    method Find(reference: nat) returns (order: Option<Order>)
      requires Valid()
      ensures order == if reference in Model().live then Some(Model().live[reference]) else None
    {
      var at := FindIndex(reference);
      if at == slots.Length { return None; }
      LiveIsMapped(slots[..], at);
      return Some(slots[at].value);
    }

    /** The first tombstone on the probe path, or the empty slot that ends it. */
    method FreeSlot(reference: nat) returns (into: nat)
      requires Valid()
      ensures into <= slots.Length
      ensures into < slots.Length ==> Placeable(slots[..], reference, into)
      ensures into == slots.Length ==> count == slots.Length
    {
      ghost var s := slots[..];
      var n := slots.Length;
      var start := Bucket(reference, n);
      var firstTombstone: nat := n;
      for distance := 0 to n
        invariant PathClear(s, start, distance)
        invariant firstTombstone <= n
        invariant firstTombstone < n ==> Placeable(s, reference, firstTombstone)
        invariant firstTombstone == n ==> forall d :: 0 <= d < distance ==> s[Probe(start, d, n)].Live?
      {
        var at := Probe(start, distance, n);
        if slots[at] == Tombstone && firstTombstone == n {
          PlaceableAt(s, reference, distance);
          firstTombstone := at;
        }
        if slots[at] == Empty {
          PlaceableAt(s, reference, distance);
          return if firstTombstone == n then at else firstTombstone;
        }
      }
      if firstTombstone == n {
        WholeProbeIsLive(s, start);
      }
      return firstTombstone;
    }

    method Insert(value: Order) returns (r: Result<()>)
      requires Valid() && value.reference !in Model().live
      modifies this`count, slots
      ensures Valid() && executedShares == old(executedShares)
      ensures r == if |old(Model().live)| >= slots.Length then Err(CapacityExceeded) else Ok(())
      ensures Model().live == if r.Ok? then old(Model().live)[value.reference := value] else old(Model().live)
    {
      MapSize(slots[..]);
      if count >= slots.Length { return Err(CapacityExceeded); }
      var into := FreeSlot(value.reference);
      Placed(slots[..], into, value);
      ghost var s := slots[..][into := Live(value)];
      slots[into] := Live(value);
      assert slots[..] == s;
      count := count + 1;
      return Ok(());
    }

    method Erase(reference: nat)
      requires Valid() && reference in Model().live
      modifies this`count, slots
      ensures Valid() && executedShares == old(executedShares)
      ensures Model().live == old(Model().live) - {reference}
    {
      var at := FindIndex(reference);
      Buried(slots[..], at);
      ghost var s := slots[..][at := Tombstone];
      LiveCountPositive(slots[..], at);
      slots[at] := Tombstone;
      assert slots[..] == s;
      count := count - 1;
    }

    /** Takes shares off a live order, erasing it when none are left. */
    method Reduce(reference: nat, shares: nat) returns (r: Result<()>)
      requires Valid()
      modifies this`count, slots
      ensures Valid() && executedShares == old(executedShares)
      ensures r == if reference in old(Model().live) && 0 < shares <= old(Model().live)[reference].shares
                   then Ok(()) else Err(InvalidArgument)
      ensures Model().live == if r.Ok? then Reduced(old(Model().live), reference, shares) else old(Model().live)
    {
      var at := FindIndex(reference);
      if at == slots.Length || shares == 0 { return Err(InvalidArgument); }
      LiveIsMapped(slots[..], at);
      if shares > slots[at].value.shares { return Err(InvalidArgument); }
      var order := slots[at].value.(shares := slots[at].value.shares - shares);
      Changed(slots[..], at, order);
      ghost var s := slots[..][at := Live(order)];
      slots[at] := Live(order);
      assert slots[..] == s;
      if order.shares == 0 {
        Erase(reference);
        assert old(Model().live)[reference := order] - {reference} == old(Model().live) - {reference};
      }
      return Ok(());
    }

    method Apply(m: Message) returns (r: Result<()>)
      requires Valid()
      modifies this, slots
      ensures Valid()
      ensures (Model(), r) == Applied(slots.Length, old(Model()), m)
    {
      match m
      case Add(reference, stock, shares, price, buy) =>
        r := ApplyAdd(Order(reference, stock, shares, price, buy));
      case Executed(reference, shares) =>
        r := Reduce(reference, shares);
        if r.Ok? { executedShares := executedShares + shares; }
      case Cancel(reference, shares) =>
        r := Reduce(reference, shares);
      case Delete(reference) =>
        r := ApplyDelete(reference);
      case Replace(original, reference, shares, price) =>
        r := ApplyReplace(original, reference, shares, price);
    }

    method ApplyAdd(order: Order) returns (r: Result<()>)
      requires Valid()
      modifies this`count, slots
      ensures Valid()
      ensures (Model(), r) == Applied(slots.Length, old(Model()), Add(order.reference, order.stock, order.shares, order.price, order.buy))
    {
      var existing := FindIndex(order.reference);
      if order.reference == 0 || order.shares == 0 || existing < slots.Length { return Err(InvalidArgument); }
      r := Insert(order);
    }

    method ApplyDelete(reference: nat) returns (r: Result<()>)
      requires Valid()
      modifies this`count, slots
      ensures Valid()
      ensures (Model(), r) == Applied(slots.Length, old(Model()), Delete(reference))
    {
      var existing := FindIndex(reference);
      if existing == slots.Length { return Err(InvalidArgument); }
      Erase(reference);
      r := Ok(());
    }

    /** The erase makes room, so the insert cannot be refused. */
    method ApplyReplace(original: nat, reference: nat, shares: nat, price: nat) returns (r: Result<()>)
      requires Valid()
      modifies this`count, slots
      ensures Valid()
      ensures (Model(), r) == Applied(slots.Length, old(Model()), Replace(original, reference, shares, price))
    {
      var at := FindIndex(original);
      var taken := FindIndex(reference);
      if at == slots.Length || reference == 0 || shares == 0 || reference == original || taken < slots.Length {
        return Err(InvalidArgument);
      }
      LiveIsMapped(slots[..], at);
      var replacement := slots[at].value.(reference := reference, shares := shares, price := price);
      WithoutIsSmaller(Model().live, original);
      MapSize(slots[..]);
      LiveCountBound(slots[..]);
      Erase(original);
      r := Insert(replacement);
    }

    method Equals(other: OrderLevelBook) returns (same: bool)
      requires Valid() && other.Valid()
      ensures same <==> Model() == other.Model()
    {
      ghost var s := slots[..];
      MapSize(s);
      MapSize(other.slots[..]);
      if count != other.count || executedShares != other.executedShares { return false; }
      for i := 0 to slots.Length
        invariant forall k :: 0 <= k < i && s[k].Live? ==> Agrees(other.Model().live, s[k].value)
      {
        if slots[i].Live? {
          LiveIsMapped(s, i);
          var found := other.Find(slots[i].value.reference);
          if found == None || found.value != slots[i].value { return false; }
        }
      }
      forall k | k in ToMap(s) ensures k in other.Model().live && other.Model().live[k] == ToMap(s)[k] {
        var at := SlotOf(s, k);
        assert Agrees(other.Model().live, s[at].value);
      }
      CountingDecidesEquality(ToMap(s), other.Model().live);
      return true;
    }
  }

  ghost predicate Agrees(live: map<nat, Order>, order: Order) {
    order.reference in live && live[order.reference] == order
  }

  lemma {:induction false} NothingLive(s: seq<Slot>)
    requires forall i :: 0 <= i < |s| ==> s[i] == Empty
    ensures ToMap(s) == map[] && Distinct(s) && LiveCount(s) == 0 && Findable(s)
  {
    if s != [] {
      NothingLive(s[..|s| - 1]);
    }
  }

  lemma LiveCountPositive(s: seq<Slot>, i: nat)
    requires Distinct(s) && i < |s| && s[i].Live?
    ensures LiveCount(s) > 0
  {
    BuryOrder(s, i);
  }
}
