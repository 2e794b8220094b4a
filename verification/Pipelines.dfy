/** From the feed to the book: delivered messages wait until everything below them has been applied, so
    the book is built in sequence order whatever order they were delivered in. */
module Pipelines {
  import opened Ranges
  import Books = OrderBooks

  /** What a message body decodes to: a price level update, or something that leaves the levels alone. */
  datatype Body = Quote(update: Books.PriceLevelUpdate) | Other

  type Published = map<nat, Body>

  function AppliedBody(depth: nat, b: Books.Book, body: Body): Books.Book {
    match body
    case Quote(update) => Books.AppliedToBook(depth, b, update).0
    case Other => b
  }

  // ---- the reorder buffer ---------------------------------------------------------------

  datatype State = State(book: Books.Book, next: nat, pending: map<nat, Body>)

  const START := State(Books.EMPTY_BOOK, 1, map[])

  function Drained(depth: nat, p: State): State
    decreases |p.pending|
  {
    if p.next !in p.pending then p
    else
      WithoutIsSmaller(p.pending, p.next);
      Drained(depth, Taken(depth, p))
  }

  /** The next message leaves the buffer and reaches the book. */
  function Taken(depth: nat, p: State): State
    requires p.next in p.pending
  {
    State(AppliedBody(depth, p.book, p.pending[p.next]), p.next + 1, p.pending - {p.next})
  }

  lemma WithoutIsSmaller(pending: map<nat, Body>, n: nat)
    requires n in pending
    ensures |pending - {n}| == |pending| - 1
  {
    assert (pending - {n}).Keys == pending.Keys - {n};
  }

  function Delivered(depth: nat, p: State, sequence: nat, body: Body): State {
    Drained(depth, p.(pending := p.pending[sequence := body]))
  }

  /** One delivered number; a number the venue never published is skipped. */
  function Offered(depth: nat, published: Published, p: State, sequence: nat): State {
    if sequence in published then Delivered(depth, p, sequence, published[sequence]) else p
  }

  function OfferedAll(depth: nat, published: Published, p: State, numbers: seq<nat>): State {
    if numbers == [] then p
    else Offered(depth, published, OfferedAll(depth, published, p, numbers[..|numbers| - 1]), numbers[|numbers| - 1])
  }

  // ---- what the book is --------------------------------------------------------------------

  /** The book of a feed without loss: every message below `end` applied in order. */
  function LossFree(depth: nat, published: Published, end: nat): Books.Book
    requires forall n :: 1 <= n < end ==> n in published
  {
    if end <= 1 then Books.EMPTY_BOOK else AppliedBody(depth, LossFree(depth, published, end - 1), published[end - 1])
  }

  /** The price level updates among the messages below `end`, in order. */
  function Quotes(published: Published, end: nat): seq<Books.PriceLevelUpdate>
    requires forall n :: 1 <= n < end ==> n in published
  {
    if end <= 1 then []
    else Quotes(published, end - 1) + if published[end - 1].Quote? then [published[end - 1].update] else []
  }

  /** So each price on each side of it holds the size of its last update below `end` that was not refused. */
  lemma {:induction false} LossFreeIsReplayed(depth: nat, published: Published, end: nat)
    requires forall n :: 1 <= n < end ==> n in published
    ensures LossFree(depth, published, end) == Books.ReplayedBook(depth, Quotes(published, end)).0
  {
    if end > 1 {
      LossFreeIsReplayed(depth, published, end - 1);
      var before := Quotes(published, end - 1);
      if published[end - 1].Quote? {
        assert (before + [published[end - 1].update])[..|before|] == before;
      } else {
        assert before + [] == before;
      }
    }
  }

  /** Every message below `n` has been delivered. */
  ghost predicate AllBelow(delivered: set<nat>, n: nat) {
    forall k :: 1 <= k < n ==> k in delivered
  }

  /** Waiting are exactly the messages delivered from `next` on. Ones delivered again after they were
      applied stay in the buffer and do no harm. */
  ghost predicate Buffered(published: Published, p: State, delivered: set<nat>) {
    && p.next >= 1 && delivered <= published.Keys && AllBelow(delivered, p.next)
    && (forall k :: k in p.pending ==> k in delivered && p.pending[k] == published[k])
    && (forall k :: k in delivered && k >= p.next ==> k in p.pending)
  }

  ghost predicate UpToDate(depth: nat, published: Published, p: State, delivered: set<nat>) {
    Buffered(published, p, delivered) && p.book == LossFree(depth, published, p.next)
  }

  /** At rest the buffer is waiting for a message that has not been delivered. */
  ghost predicate AtRest(depth: nat, published: Published, p: State, delivered: set<nat>) {
    UpToDate(depth, published, p, delivered) && p.next !in delivered
  }

  lemma TakenKeeps(depth: nat, published: Published, p: State, delivered: set<nat>)
    requires UpToDate(depth, published, p, delivered) && p.next in p.pending
    ensures UpToDate(depth, published, Taken(depth, p), delivered)
  {
    var after := Taken(depth, p);
    assert AllBelow(delivered, after.next);
    assert Buffered(published, after, delivered);
  }

  lemma {:induction false} DrainSettles(depth: nat, published: Published, p: State, delivered: set<nat>)
    requires UpToDate(depth, published, p, delivered)
    ensures AtRest(depth, published, Drained(depth, p), delivered)
    decreases |p.pending|
  {
    if p.next in p.pending {
      WithoutIsSmaller(p.pending, p.next);
      TakenKeeps(depth, published, p, delivered);
      DrainSettles(depth, published, Taken(depth, p), delivered);
    }
  }

  lemma OfferKeeps(depth: nat, published: Published, p: State, delivered: set<nat>, sequence: nat)
    requires AtRest(depth, published, p, delivered)
    ensures AtRest(depth, published, Offered(depth, published, p, sequence), delivered + ({sequence} * published.Keys))
  {
    if sequence in published {
      var put := p.(pending := p.pending[sequence := published[sequence]]);
      assert {sequence} * published.Keys == {sequence};
      assert Buffered(published, put, delivered + {sequence});
      DrainSettles(depth, published, put, delivered + {sequence});
    } else {
      assert delivered + ({sequence} * published.Keys) == delivered;
    }
  }

  ghost function Numbers(numbers: seq<nat>): set<nat> { set n | n in numbers }

  lemma {:induction false} OfferAllKeeps(depth: nat, published: Published, p: State, delivered: set<nat>, numbers: seq<nat>)
    requires AtRest(depth, published, p, delivered)
    ensures AtRest(depth, published, OfferedAll(depth, published, p, numbers), delivered + (Numbers(numbers) * published.Keys))
  {
    if numbers == [] {
      assert delivered + (Numbers(numbers) * published.Keys) == delivered;
    } else {
      var front, last := numbers[..|numbers| - 1], numbers[|numbers| - 1];
      OfferAllKeeps(depth, published, p, delivered, front);
      OfferKeeps(depth, published, OfferedAll(depth, published, p, front), delivered + (Numbers(front) * published.Keys), last);
      assert numbers == front + [last];
      assert Numbers(numbers) == Numbers(front) + {last};
      assert delivered + (Numbers(front) * published.Keys) + ({last} * published.Keys) == delivered + (Numbers(numbers) * published.Keys);
    }
  }

  /** Any order and any repetition of the same deliveries builds the same book, and it is the book of the
      feed without loss up to the first message not delivered. */
  lemma ArrivalOrderDoesNotMatter(depth: nat, published: Published, a: seq<nat>, b: seq<nat>)
    requires Numbers(a) == Numbers(b)
    ensures var p, q := OfferedAll(depth, published, START, a), OfferedAll(depth, published, START, b);
            p.book == q.book && p.next == q.next
  {
    OfferAllKeeps(depth, published, START, {}, a);
    OfferAllKeeps(depth, published, START, {}, b);
    SameFrontier(depth, published, OfferedAll(depth, published, START, a), OfferedAll(depth, published, START, b),
                 {} + (Numbers(a) * published.Keys));
  }

  lemma SameFrontier(depth: nat, published: Published, p: State, q: State, delivered: set<nat>)
    requires AtRest(depth, published, p, delivered) && AtRest(depth, published, q, delivered)
    ensures p.next == q.next && p.book == q.book
  {}

  // ---- the pipeline ---------------------------------------------------------------------

  /** The numbers of a range, and of a list of ranges, in the order they are delivered. */
  function InRange(r: Range): seq<nat>
    decreases r.end
  {
    if r.IsEmpty() then [] else InRange(Range(r.first, r.end - 1)) + [r.end - 1]
  }

  function Listed(ranges: seq<Range>): seq<nat> {
    if ranges == [] then [] else Listed(ranges[..|ranges| - 1]) + InRange(ranges[|ranges| - 1])
  }

  lemma {:induction false} OfferedAllJoins(depth: nat, published: Published, p: State, a: seq<nat>, b: seq<nat>)
    ensures OfferedAll(depth, published, OfferedAll(depth, published, p, a), b) == OfferedAll(depth, published, p, a + b)
  {
    if b == [] {
      assert a + b == a;
    } else {
      var front, last := b[..|b| - 1], b[|b| - 1];
      OfferedAllJoins(depth, published, p, a, front);
      assert (a + b)[..|a + b| - 1] == a + front;
    }
  }

  class Pipeline {
    const book: Books.OrderBook
    var pending: map<nat, Body>
    var next: nat

    ghost predicate Valid()
      reads this, book, book.bids, book.bids.levels, book.asks, book.asks.levels
    {
      book.Valid()
    }

    ghost function Model(): State
      requires Valid()
      reads this, book, book.bids, book.bids.levels, book.asks, book.asks.levels
    {
      State(book.Model(), next, pending)
    }

    function Depth(): nat
      reads book, book.bids, book.bids.levels
    {
      book.bids.levels.Length
    }

    constructor (depth: nat)
      requires depth >= 2
      ensures Valid() && Model() == START && Depth() == depth
      ensures fresh(book) && fresh(book.bids) && fresh(book.bids.levels) && fresh(book.asks) && fresh(book.asks.levels)
    {
      book := new Books.OrderBook(depth);
      pending, next := map[], 1;
    }

    method ApplyNext()
      requires Valid() && next in pending
      modifies this, book, book.bids, book.bids.levels, book.asks, book.asks.levels
      ensures Valid() && Model() == Taken(Depth(), old(Model()))
    {
      ghost var before := book.Model();
      var body := pending[next];
      if body.Quote? {
        var result := book.Apply(body.update);
        assert (book.Model(), result) == Books.AppliedToBook(Depth(), before, body.update);
      }
      assert book.Model() == AppliedBody(Depth(), before, body);
      pending := pending - {next};
      next := next + 1;
    }

    method DeliverToBook(sequence: nat, body: Body)
      requires Valid()
      modifies this, book, book.bids, book.bids.levels, book.asks, book.asks.levels
      ensures Valid() && Model() == Delivered(Depth(), old(Model()), sequence, body)
    {
      pending := pending[sequence := body];
      while next in pending
        invariant Valid() && Drained(Depth(), Model()) == Delivered(Depth(), old(Model()), sequence, body)
        decreases |pending|
      {
        WithoutIsSmaller(pending, next);
        ApplyNext();
      }
    }

    method OfferToBook(published: Published, sequence: nat)
      requires Valid()
      modifies this, book, book.bids, book.bids.levels, book.asks, book.asks.levels
      ensures Valid() && Model() == Offered(Depth(), published, old(Model()), sequence)
    {
      if sequence in published {
        DeliverToBook(sequence, published[sequence]);
      }
    }

    method DeliverRange(published: Published, range: Range)
      requires Valid()
      modifies this, book, book.bids, book.bids.levels, book.asks, book.asks.levels
      ensures Valid() && Model() == OfferedAll(Depth(), published, old(Model()), InRange(range))
    {
      var n := range.first;
      while n < range.end
        invariant Valid() && range.first <= n && (n <= range.end || n == range.first)
        invariant Model() == OfferedAll(Depth(), published, old(Model()), InRange(Range(range.first, n)))
      {
        OfferToBook(published, n);
        n := n + 1;
      }
      assert n > range.end ==> InRange(range) == [] == InRange(Range(range.first, n));
    }

    /** Repairs first, then what the packet newly carried. */
    method Deliver(published: Published, repaired: seq<Range>, accepted: Range)
      requires Valid()
      modifies this, book, book.bids, book.bids.levels, book.asks, book.asks.levels
      ensures Valid() && Model() == OfferedAll(Depth(), published, old(Model()), Listed(repaired) + InRange(accepted))
    {
      ghost var start := Model();
      for i := 0 to |repaired|
        invariant Valid() && Model() == OfferedAll(Depth(), published, start, Listed(repaired[..i]))
      {
        DeliverRange(published, repaired[i]);
        OfferedAllJoins(Depth(), published, start, Listed(repaired[..i]), InRange(repaired[i]));
        assert repaired[..i + 1][..i] == repaired[..i];
      }
      DeliverRange(published, accepted);
      assert repaired[..|repaired|] == repaired;
      OfferedAllJoins(Depth(), published, start, Listed(repaired), InRange(accepted));
    }
  }
}
