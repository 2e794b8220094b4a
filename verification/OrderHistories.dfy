/** What an order-by-order book holds, read off the messages it accepted.

    An order is filed by an add or by a replace, loses what is executed or canceled on it, and is withdrawn by a
    delete or by the next replace. Which symbol and side it belongs to was said by the add its chain of replaces
    goes back to. */
module OrderHistories {
  import opened Errors
  import opened OrderLevelBooks

  // ---- reading a history ---------------------------------------------------------------

  /** The message files an order under the reference. */
  predicate Files(m: Message, reference: nat) { (m.Add? || m.Replace?) && m.reference == reference }

  predicate Withdraws(m: Message, reference: nat) {
    (m.Delete? && m.reference == reference) || (m.Replace? && m.original == reference)
  }

  /** The shares the message takes off an order. */
  function Takes(m: Message, reference: nat): nat {
    if (m.Executed? || m.Cancel?) && m.reference == reference then m.shares else 0
  }

  /** Where the reference was filed last. */
  function Filed(ms: seq<Message>, reference: nat): (at: Option<nat>)
    ensures at.Some? ==> at.value < |ms| && Files(ms[at.value], reference)
  {
    if ms == [] then None
    else if Files(ms[|ms| - 1], reference) then Some(|ms| - 1)
    else Filed(ms[..|ms| - 1], reference)
  }

  /** What was taken off the reference behind a position. */
  function TakenSince(ms: seq<Message>, at: nat, reference: nat): nat {
    if |ms| <= at + 1 then 0 else TakenSince(ms[..|ms| - 1], at, reference) + Takes(ms[|ms| - 1], reference)
  }

  predicate WithdrawnSince(ms: seq<Message>, at: nat, reference: nat) {
    exists i :: at < i < |ms| && Withdraws(ms[i], reference)
  }

  const NO_ADD := Add(0, 0, 0, 0, false)

  /** The add at the head of the chain of replaces that ends here. */
  function Head(ms: seq<Message>): (head: Message)
    requires ms != []
    ensures head.Add?
    decreases |ms|
  {
    var front, last := ms[..|ms| - 1], ms[|ms| - 1];
    if last.Add? then last
    else if last.Replace? && Filed(front, last.original).Some? then Head(front[..Filed(front, last.original).value + 1])
    else NO_ADD
  }

  function ExecutedShares(ms: seq<Message>): nat {
    if ms == [] then 0
    else ExecutedShares(ms[..|ms| - 1]) + if ms[|ms| - 1].Executed? then ms[|ms| - 1].shares else 0
  }

  /** Filed, not withdrawn since, and not all taken since. */
  predicate Open(ms: seq<Message>, reference: nat) {
    var at := Filed(ms, reference);
    at.Some? && !WithdrawnSince(ms, at.value, reference) && TakenSince(ms, at.value, reference) < ms[at.value].shares
  }

  /** The order a reference stands for. */
  function Standing(ms: seq<Message>, reference: nat): Option<Order> {
    var at := Filed(ms, reference);
    if Open(ms, reference) then
      var filed, head := ms[at.value], Head(ms[..at.value + 1]);
      Some(Order(reference, head.stock, filed.shares - TakenSince(ms, at.value, reference), filed.price, head.buy))
    else None
  }

  // ---- one message more -------------------------------------------------------------------

  lemma OneMore(ms: seq<Message>, m: Message, reference: nat)
    ensures var more := ms + [m];
            && Filed(more, reference) == (if Files(m, reference) then Some(|ms|) else Filed(ms, reference))
            && ExecutedShares(more) == ExecutedShares(ms) + (if m.Executed? then m.shares else 0)
            && (forall at: nat | at < |ms| ::
                  && TakenSince(more, at, reference) == TakenSince(ms, at, reference) + Takes(m, reference)
                  && (WithdrawnSince(more, at, reference) <==> WithdrawnSince(ms, at, reference) || Withdraws(m, reference)))
            && TakenSince(more, |ms|, reference) == 0 && !WithdrawnSince(more, |ms|, reference)
  {
    var more := ms + [m];
    assert more[..|ms|] == ms;
    forall at: nat | at < |ms|
      ensures WithdrawnSince(more, at, reference) <==> WithdrawnSince(ms, at, reference) || Withdraws(m, reference)
    {
      assert more[|ms|] == m;
      if WithdrawnSince(ms, at, reference) {
        var i :| at < i < |ms| && Withdraws(ms[i], reference);
        assert Withdraws(more[i], reference);
      }
    }
  }

  /** A message that says nothing of a reference leaves what it stands for alone. */
  lemma SilentKeeps(ms: seq<Message>, m: Message, reference: nat)
    requires !Files(m, reference) && !Withdraws(m, reference) && Takes(m, reference) == 0
    ensures Standing(ms + [m], reference) == Standing(ms, reference)
  {
    OneMore(ms, m, reference);
    SamePrefix(ms, m, Filed(ms, reference));
  }

  lemma SamePrefix(ms: seq<Message>, m: Message, at: Option<nat>)
    requires at.Some? ==> at.value < |ms|
    ensures at.Some? ==> (ms + [m])[..at.value + 1] == ms[..at.value + 1]
  {}

  lemma WithdrawnIsGone(ms: seq<Message>, m: Message, reference: nat)
    requires !Files(m, reference) && Withdraws(m, reference)
    ensures Standing(ms + [m], reference) == None
  {
    OneMore(ms, m, reference);
  }

  lemma TakenIsLess(ms: seq<Message>, m: Message, reference: nat)
    requires (m.Executed? || m.Cancel?) && m.reference == reference && Standing(ms, reference).Some?
    requires m.shares <= Standing(ms, reference).value.shares
    ensures var order := Standing(ms, reference).value;
            Standing(ms + [m], reference) ==
            if m.shares == order.shares then None else Some(order.(shares := order.shares - m.shares))
  {
    OneMore(ms, m, reference);
    SamePrefix(ms, m, Filed(ms, reference));
  }

  lemma AddStands(ms: seq<Message>, m: Message)
    requires m.Add? && m.shares > 0
    ensures Standing(ms + [m], m.reference) == Some(Order(m.reference, m.stock, m.shares, m.price, m.buy))
  {
    OneMore(ms, m, m.reference);
    assert (ms + [m])[..|ms| + 1] == ms + [m];
  }

  lemma ReplaceStands(ms: seq<Message>, m: Message)
    requires m.Replace? && m.shares > 0 && Standing(ms, m.original).Some?
    ensures var order := Standing(ms, m.original).value;
            Standing(ms + [m], m.reference) == Some(Order(m.reference, order.stock, m.shares, m.price, order.buy))
  {
    OneMore(ms, m, m.reference);
    assert (ms + [m])[..|ms| + 1] == ms + [m] && (ms + [m])[..|ms|] == ms;
  }

  // ---- the book -----------------------------------------------------------------------------

  /** A run, and the messages that were not refused, in order. */
  function Recorded(capacity: nat, messages: seq<Message>): (Orders, seq<Message>) {
    if messages == [] then (NO_ORDERS, [])
    else
      var (b, accepted) := Recorded(capacity, messages[..|messages| - 1]);
      var (b', result) := Applied(capacity, b, messages[|messages| - 1]);
      (b', if result.Ok? then accepted + [messages[|messages| - 1]] else accepted)
  }

  lemma {:induction false} RecordedIsRun(capacity: nat, messages: seq<Message>)
    ensures Recorded(capacity, messages).0 == Run(capacity, messages)
  {
    if messages != [] {
      RecordedIsRun(capacity, messages[..|messages| - 1]);
    }
  }

  /** The book holds of a reference what the history says. */
  predicate HoldsAsFiled(b: Orders, ms: seq<Message>, reference: nat) {
    Standing(ms, reference) == if reference in b.live then Some(b.live[reference]) else None
  }

  ghost predicate AsFiled(b: Orders, ms: seq<Message>) {
    (forall reference :: HoldsAsFiled(b, ms, reference)) && b.executed == ExecutedShares(ms)
  }

  /** One accepted message, reference by reference. */
  lemma AcceptedKeeps(capacity: nat, b: Orders, ms: seq<Message>, m: Message, reference: nat)
    requires AsFiled(b, ms) && Applied(capacity, b, m).1.Ok?
    ensures HoldsAsFiled(Applied(capacity, b, m).0, ms + [m], reference)
  {
    assert HoldsAsFiled(b, ms, reference);
    if Files(m, reference) {
      if m.Add? {
        AddStands(ms, m);
      } else {
        assert HoldsAsFiled(b, ms, m.original);
        ReplaceStands(ms, m);
      }
    } else if Withdraws(m, reference) {
      WithdrawnIsGone(ms, m, reference);
    } else if (m.Executed? || m.Cancel?) && m.reference == reference {
      TakenIsLess(ms, m, reference);
    } else {
      SilentKeeps(ms, m, reference);
    }
  }

  /** After any run, refused messages and all: the book holds exactly the orders filed and not withdrawn of which
      shares are left, each with the price and shares of the message that filed it, less what was taken since,
      and with the symbol and side of the add it goes back to; and it has counted every executed share. */
  lemma {:induction false} BookIsItsHistory(capacity: nat, messages: seq<Message>)
    ensures AsFiled(Run(capacity, messages), Recorded(capacity, messages).1)
  {
    RecordedIsRun(capacity, messages);
    if messages != [] {
      var front, m := messages[..|messages| - 1], messages[|messages| - 1];
      BookIsItsHistory(capacity, front);
      RecordedIsRun(capacity, front);
      var b, ms := Run(capacity, front), Recorded(capacity, front).1;
      if Applied(capacity, b, m).1.Ok? {
        forall reference ensures HoldsAsFiled(Applied(capacity, b, m).0, ms + [m], reference) {
          AcceptedKeeps(capacity, b, ms, m, reference);
        }
        OneMore(ms, m, 0);
        ExecutedCounts(capacity, b, m);
      } else {
        RefusedChangesNothing(capacity, b, m);
      }
    }
  }

  lemma ExecutedCounts(capacity: nat, b: Orders, m: Message)
    requires Applied(capacity, b, m).1.Ok?
    ensures Applied(capacity, b, m).0.executed == b.executed + if m.Executed? then m.shares else 0
  {}

  lemma RefusedChangesNothing(capacity: nat, b: Orders, m: Message)
    requires Applied(capacity, b, m).1.Err?
    ensures Applied(capacity, b, m).0 == b
  {}

  /** What the history lets a message do. */
  predicate Permitted(capacity: nat, open: nat, ms: seq<Message>, m: Message) {
    match m
    case Add(reference, stock, shares, price, buy) =>
      reference != 0 && shares > 0 && !Open(ms, reference) && open < capacity
    case Executed(reference, shares) => Standing(ms, reference).Some? && 0 < shares <= Standing(ms, reference).value.shares
    case Cancel(reference, shares) => Standing(ms, reference).Some? && 0 < shares <= Standing(ms, reference).value.shares
    case Delete(reference) => Open(ms, reference)
    case Replace(original, reference, shares, price) =>
      reference != 0 && shares > 0 && Open(ms, original) && !Open(ms, reference)
  }

  /** A message is refused exactly when the history does not permit it, and then it leaves the book as it was. */
  lemma RefusedExactly(capacity: nat, messages: seq<Message>, m: Message)
    ensures var b, ms := Run(capacity, messages), Recorded(capacity, messages).1;
            && (Applied(capacity, b, m).1.Ok? <==> Permitted(capacity, |b.live|, ms, m))
            && (Applied(capacity, b, m).1.Err? ==> Applied(capacity, b, m).0 == b)
  {
    var b, ms := Run(capacity, messages), Recorded(capacity, messages).1;
    BookIsItsHistory(capacity, messages);
    OpenIsLive(capacity, messages, m.reference);
    if m.Replace? {
      OpenIsLive(capacity, messages, m.original);
    }
  }

  lemma OpenIsLive(capacity: nat, messages: seq<Message>, reference: nat)
    ensures Open(Recorded(capacity, messages).1, reference) <==> reference in Run(capacity, messages).live
    ensures HoldsAsFiled(Run(capacity, messages), Recorded(capacity, messages).1, reference)
  {
    BookIsItsHistory(capacity, messages);
    assert HoldsAsFiled(Run(capacity, messages), Recorded(capacity, messages).1, reference);
  }
}
