/**
 * The payment consumer: it charges each order in a ledger and then acknowledges it, and may die before the charge,
 * after the charge or before the acknowledgement, any number of times.
 */
module Payment {
  import opened Basics

  /** A message, with the order id and the amount in its body; None is a field, or a whole body, that is missing. */
  datatype Message = Message(id: Option<string>, order: Option<string>, amount: Option<real>)

  datatype Row = Row(order: string, amount: real, messageId: Option<string>)

  /** The two tables. `processed` holds the ids that are not NULL: SQLite accepts any number of NULL keys. */
  datatype Ledger = Ledger(processed: set<string>, charges: seq<Row>)

  datatype Outcome = Charged | Duplicate | Aborted

  predicate AlreadyProcessed(l: Ledger, m: Message) {
    m.id.Some? && m.id.value in l.processed
  }

  predicate Complete(m: Message) {
    m.order.Some? && m.amount.Some?
  }

  function RowOf(m: Message): Row
    requires Complete(m)
  {
    Row(m.order.value, m.amount.value, m.id)
  }

  /** The charge transaction: both rows are written, or neither. */
  function Charge(l: Ledger, m: Message, idempotent: bool): (Ledger, Outcome) {
    if idempotent && AlreadyProcessed(l, m) then (l, Duplicate)
    else if !Complete(m) then (l, Aborted)
    else (Ledger(if idempotent && m.id.Some? then l.processed + {m.id.value} else l.processed, l.charges + [RowOf(m)]), Charged)
  }

  function RowsOf(charges: seq<Row>, id: string): nat {
    if charges == [] then 0
    else RowsOf(charges[..|charges| - 1], id) + if charges[|charges| - 1].messageId == Some(id) then 1 else 0
  }

  datatype Crash = NoCrash | BeforeCharge | AfterCharge

  /** The consumer dies on this message before it charges: it has no order id, or the crash is set to come first. */
  predicate StopsEarly(m: Message, crash: Crash) {
    m.order.None? || crash.BeforeCharge?
  }

  /** The consumer dies on this message and does not acknowledge it; a missing amount is only read for a new charge. */
  predicate Stops(l: Ledger, m: Message, crash: Crash, idempotent: bool) {
    StopsEarly(m, crash) || crash.AfterCharge? || Charge(l, m, idempotent).1.Aborted?
  }

  function ChargeAll(l: Ledger, batch: seq<Message>, idempotent: bool): Ledger
    decreases |batch|
  {
    if batch == [] then l else ChargeAll(Charge(l, batch[0], idempotent).0, batch[1..], idempotent)
  }

  class LedgerDb {
    var processed: set<string>
    var charges: seq<Row>

    constructor ()
      ensures State() == Ledger({}, [])
    {
      processed, charges := {}, [];
    }

    function State(): Ledger
      reads this
    {
      Ledger(processed, charges)
    }

    /** A missing field raises after the id was inserted; the transaction then rolls back. */
    method ChargeMessage(m: Message, idempotent: bool) returns (outcome: Outcome)
      modifies this
      ensures (State(), outcome) == Charge(old(State()), m, idempotent)
      ensures outcome == Duplicate <==> idempotent && m.id.Some? && m.id.value in old(processed)
      ensures outcome == Aborted <==> outcome != Duplicate && (m.order.None? || m.amount.None?)
      ensures outcome == Charged ==> charges == old(charges) + [Row(m.order.value, m.amount.value, m.id)]
      ensures outcome == Charged ==>
                processed == old(processed) + if idempotent && m.id.Some? then {m.id.value} else {}
      ensures outcome != Charged ==> charges == old(charges) && processed == old(processed)
    {
      var before := processed;
      if idempotent {
        if m.id.Some? && m.id.value in processed {
          return Duplicate;
        }
        if m.id.Some? {
          processed := processed + {m.id.value};
        }
      }
      if !Complete(m) {
        processed := before;
        return Aborted;
      }
      charges := charges + [RowOf(m)];
      return Charged;
    }

    /**
     * The consume loop with manual acknowledgements; returns how many messages were acknowledged before it ended. The
     * order id is read before anything else happens.
     */
    method Consume(batch: seq<Message>, crash: Crash, idempotent: bool) returns (acked: nat)
      modifies this
      ensures acked <= |batch|
      ensures forall i :: 0 <= i < acked ==> !Stops(ChargeAll(old(State()), batch[..i], idempotent), batch[i], crash, idempotent)
      ensures acked == |batch| ==> State() == ChargeAll(old(State()), batch, idempotent)
      ensures acked < |batch| ==>
                var l := ChargeAll(old(State()), batch[..acked], idempotent);
                && Stops(l, batch[acked], crash, idempotent)
                && State() == if StopsEarly(batch[acked], crash) then l else Charge(l, batch[acked], idempotent).0
    {
      acked := 0;
      while acked < |batch|
        invariant acked <= |batch|
        invariant forall i :: 0 <= i < acked ==>
                    !Stops(ChargeAll(old(State()), batch[..i], idempotent), batch[i], crash, idempotent)
        invariant State() == ChargeAll(old(State()), batch[..acked], idempotent)
        decreases |batch| - acked
      {
        if batch[acked].order.None? {
          return;
        }
        if crash.BeforeCharge? {
          return;
        }
        var outcome := ChargeMessage(batch[acked], idempotent);
        if outcome.Aborted? || crash.AfterCharge? {
          return;
        }
        assert batch[..acked + 1] == batch[..acked] + [batch[acked]];
        ChargeAllOfAppend(old(State()), batch[..acked], batch[acked], idempotent);
        acked := acked + 1;
      }
      assert batch[..acked] == batch;
    }
  }

  lemma {:induction false} ChargeAllOfAppend(l: Ledger, xs: seq<Message>, m: Message, idempotent: bool)
    ensures ChargeAll(l, xs + [m], idempotent) == Charge(ChargeAll(l, xs, idempotent), m, idempotent).0
    decreases |xs|
  {
    if xs == [] {
      assert xs + [m] == [m] && [m][1..] == [];
      assert ChargeAll(Charge(l, m, idempotent).0, [], idempotent) == Charge(l, m, idempotent).0;
    } else {
      assert (xs + [m])[1..] == xs[1..] + [m];
      ChargeAllOfAppend(Charge(l, xs[0], idempotent).0, xs[1..], m, idempotent);
    }
  }

  // ---- every run of crashing consumers ----

  datatype Stage = Received | Done

  datatype Place = Ready | Unacked(consumer: nat, stage: Stage)

  datatype Entry = Entry(message: Message, place: Place)

  /** The payments queue, the ledger, and two histories: the messages published and the messages acknowledged. */
  datatype System = System(queue: map<nat, Entry>, ledger: Ledger, published: seq<Message>, acked: set<Message>)

  datatype Action =
    | Publish(m: Message)
    | Deliver(id: nat, consumer: nat)
    | ChargeNow(id: nat)
    | Ack(id: nat)
    | Die(consumer: nat)

  function Start(): System {
    System(map[], Ledger({}, []), [], {})
  }

  predicate At(s: System, id: nat, stage: Stage) {
    id in s.queue && s.queue[id].place.Unacked? && s.queue[id].place.stage == stage
  }

  /** A message that lacks a field the consumer reads kills it: only Die can follow. */
  predicate Enabled(s: System, a: Action) {
    match a
    case Publish(_) => true
    case Deliver(id, _) => id in s.queue && s.queue[id].place.Ready?
    case ChargeNow(id) => At(s, id, Received) && !Stops(s.ledger, s.queue[id].message, NoCrash, true)
    case Ack(id) => At(s, id, Done)
    case Die(_) => true
  }

  function Requeued(e: Entry, consumer: nat): Entry {
    if e.place.Unacked? && e.place.consumer == consumer then e.(place := Ready) else e
  }

  function Next(s: System, a: Action): System
    requires Enabled(s, a)
  {
    match a
    case Publish(m) => s.(queue := s.queue[|s.published| := Entry(m, Ready)], published := s.published + [m])
    case Deliver(id, consumer) => s.(queue := s.queue[id := s.queue[id].(place := Unacked(consumer, Received))])
    case ChargeNow(id) =>
      s.(queue := s.queue[id := s.queue[id].(place := s.queue[id].place.(stage := Done))],
         ledger := Charge(s.ledger, s.queue[id].message, true).0)
    case Ack(id) => s.(queue := s.queue - {id}, acked := s.acked + {s.queue[id].message})
    case Die(consumer) => s.(queue := map id | id in s.queue :: Requeued(s.queue[id], consumer))
  }

  predicate CanRun(s: System, actions: seq<Action>)
    decreases |actions|
  {
    actions == [] || (Enabled(s, actions[0]) && CanRun(Next(s, actions[0]), actions[1..]))
  }

  function Run(s: System, actions: seq<Action>): System
    requires CanRun(s, actions)
    decreases |actions|
  {
    if actions == [] then s else Run(Next(s, actions[0]), actions[1..])
  }

  // A publication joins the queue ready, and a delivery hands a ready message to one consumer, as it is.
  lemma DeliverExactly(s: System, m: Message, id: nat, consumer: nat)
    ensures Next(s, Publish(m)) ==
            s.(queue := s.queue[|s.published| := Entry(m, Ready)], published := s.published + [m])
    ensures Enabled(s, Deliver(id, consumer)) ==>
              Next(s, Deliver(id, consumer)) == s.(queue := s.queue[id := Entry(s.queue[id].message, Unacked(consumer, Received))])
  {
  }

  // An acknowledgement takes exactly this message off the queue; a charge comes before it and leaves it there.
  lemma AckExactly(s: System, id: nat)
    ensures Enabled(s, Ack(id)) ==>
              Next(s, Ack(id)) == s.(queue := s.queue - {id}, acked := s.acked + {s.queue[id].message})
    ensures Enabled(s, Ack(id)) ==> s.queue[id].place.Unacked? && s.queue[id].place.stage.Done?
    ensures Enabled(s, ChargeNow(id)) ==>
              var t := Next(s, ChargeNow(id));
              && t.queue == s.queue[id := Entry(s.queue[id].message, Unacked(s.queue[id].place.consumer, Done))]
              && t.acked == s.acked && t.published == s.published
  {
  }

  // When a consumer dies the broker gives back exactly the deliveries it had not acknowledged, each as it was.
  lemma DieExactly(s: System, consumer: nat)
    ensures var t := Next(s, Die(consumer));
            && t == s.(queue := t.queue) && t.queue.Keys == s.queue.Keys
            && (forall id :: id in s.queue ==>
                  t.queue[id] == if s.queue[id].place.Unacked? && s.queue[id].place.consumer == consumer
                                 then Entry(s.queue[id].message, Ready) else s.queue[id])
  {
  }

  /** The processed ids are exactly the charged ids, and each was charged once. */
  ghost predicate LedgerOk(l: Ledger) {
    && (forall i :: 0 <= i < |l.charges| && l.charges[i].messageId.Some? ==> l.charges[i].messageId.value in l.processed)
    && (forall id :: RowsOf(l.charges, id) == if id in l.processed then 1 else 0)
  }

  predicate IsRowOf(row: Row, m: Message) {
    Complete(m) && row == RowOf(m)
  }

  /** The message was charged: under its id, or, having none, as some row. */
  predicate Settled(l: Ledger, m: Message) {
    if m.id.Some? then m.id.value in l.processed else Complete(m) && RowOf(m) in l.charges
  }

  ghost predicate Inv(s: System) {
    && LedgerOk(s.ledger)
    && (forall id :: At(s, id, Done) ==> Settled(s.ledger, s.queue[id].message))
    && (forall m :: m in s.acked ==> Settled(s.ledger, m))
    && (forall id :: id in s.queue ==> id < |s.published| && s.queue[id].message in s.published)
    && (forall i :: 0 <= i < |s.ledger.charges| ==> exists m :: m in s.published && IsRowOf(s.ledger.charges[i], m))
  }

  lemma RowsOfAppend(charges: seq<Row>, row: Row, id: string)
    ensures RowsOf(charges + [row], id) == RowsOf(charges, id) + if row.messageId == Some(id) then 1 else 0
  {
    assert (charges + [row])[..|charges|] == charges;
  }

  lemma ChargeKeepsLedger(l: Ledger, m: Message)
    requires LedgerOk(l) && !Charge(l, m, true).1.Aborted?
    ensures LedgerOk(Charge(l, m, true).0) && Settled(Charge(l, m, true).0, m)
    ensures forall x: Message :: Settled(l, x) ==> Settled(Charge(l, m, true).0, x)
  {
    forall id ensures RowsOf(Charge(l, m, true).0.charges, id) == if id in Charge(l, m, true).0.processed then 1 else 0 {
      if Complete(m) {
        RowsOfAppend(l.charges, RowOf(m), id);
      }
    }
  }

  lemma ChargeKeepsInv(s: System, id: nat)
    requires Inv(s) && Enabled(s, ChargeNow(id))
    ensures Inv(Next(s, ChargeNow(id)))
  {
    var t := Next(s, ChargeNow(id));
    var m := s.queue[id].message;
    ChargeKeepsLedger(s.ledger, m);
    forall j | At(t, j, Done) ensures Settled(t.ledger, t.queue[j].message) {
      assert j == id || At(s, j, Done);
    }
    forall i | 0 <= i < |t.ledger.charges| ensures exists p :: p in t.published && IsRowOf(t.ledger.charges[i], p) {
      if i == |s.ledger.charges| {
        assert m in t.published;
      } else {
        assert t.ledger.charges[i] == s.ledger.charges[i];
      }
    }
  }

  lemma NextKeepsInv(s: System, a: Action)
    requires Inv(s) && Enabled(s, a)
    ensures Inv(Next(s, a))
  {
    var t := Next(s, a);
    if a.ChargeNow? {
      ChargeKeepsInv(s, a.id);
    } else {
      assert forall j :: At(t, j, Done) ==> At(s, j, Done) && t.queue[j].message == s.queue[j].message;
      assert forall m :: m in s.published ==> m in t.published;
      if a.Ack? {
        assert At(s, a.id, Done);
      }
    }
  }

  lemma {:induction false} RunKeepsInv(s: System, actions: seq<Action>)
    requires Inv(s) && CanRun(s, actions)
    ensures Inv(Run(s, actions))
    decreases |actions|
  {
    if actions != [] {
      NextKeepsInv(s, actions[0]);
      RunKeepsInv(Next(s, actions[0]), actions[1..]);
    }
  }

  // With idempotent consumers crashing anywhere, any number of times: no message id is charged twice, the processed
  // ids are exactly the charged ids, every charge is that of a published message, and every acknowledged message that
  // carries an id has exactly one charge.
  lemma ChargedOnce(actions: seq<Action>, id: string)
    requires CanRun(Start(), actions)
    ensures var s := Run(Start(), actions);
            && RowsOf(s.ledger.charges, id) == (if id in s.ledger.processed then 1 else 0)
            && (forall m :: m in s.acked && m.id == Some(id) ==> RowsOf(s.ledger.charges, id) == 1)
            && (forall i :: 0 <= i < |s.ledger.charges| ==> exists m :: m in s.published && IsRowOf(s.ledger.charges[i], m))
  {
    RunKeepsInv(Start(), actions);
  }

  // What a charge writes: the order and the amount of the body and the message id, and the id once more as processed.
  lemma ChargeWritesTheFields(l: Ledger, m: Message, idempotent: bool)
    ensures var (after, outcome) := Charge(l, m, idempotent);
            && (outcome == Duplicate <==> idempotent && m.id.Some? && m.id.value in l.processed)
            && (outcome == Charged <==> outcome != Duplicate && m.order.Some? && m.amount.Some?)
            && (outcome == Charged ==>
                  && after.charges == l.charges + [Row(m.order.value, m.amount.value, m.id)]
                  && after.processed == l.processed + if idempotent && m.id.Some? then {m.id.value} else {})
            && (outcome != Charged ==> after == l)
  {
  }

  /** The message is still on the queue, or it was acknowledged. */
  predicate Kept(s: System, i: nat)
    requires i < |s.published|
  {
    (i in s.queue && s.queue[i].message == s.published[i]) || s.published[i] in s.acked
  }

  ghost predicate AllKept(s: System) {
    forall i :: 0 <= i < |s.published| ==> Kept(s, i)
  }

  lemma {:induction false} RunKeepsAll(s: System, actions: seq<Action>)
    requires CanRun(s, actions) && AllKept(s)
    ensures AllKept(Run(s, actions))
    decreases |actions|
  {
    if actions != [] {
      NextKeepsAll(s, actions[0]);
      RunKeepsAll(Next(s, actions[0]), actions[1..]);
    }
  }

  lemma NextKeepsAll(s: System, a: Action)
    requires Enabled(s, a) && AllKept(s)
    ensures AllKept(Next(s, a))
  {
    forall i | 0 <= i < |Next(s, a).published| ensures Kept(Next(s, a), i) {
      if i < |s.published| {
        assert Kept(s, i);
      }
    }
  }

  // In every run no published message is lost: it is on the queue, or it was acknowledged, and then, if it carries an
  // id, it was charged exactly once.
  lemma NothingIsLost(actions: seq<Action>, i: nat)
    requires CanRun(Start(), actions) && i < |Run(Start(), actions).published|
    ensures var s := Run(Start(), actions);
            && Kept(s, i)
            && (s.published[i] in s.acked && s.published[i].id.Some? ==>
                  RowsOf(s.ledger.charges, s.published[i].id.value) == 1)
  {
    RunKeepsAll(Start(), actions);
    RunKeepsInv(Start(), actions);
  }

  // The consumer dies on a message, before acknowledging it, iff it has no order id, or a crash is set, or it has no
  // amount and is charged; before it charges in the first case and with the crash set to come first.
  lemma StopsExactly(l: Ledger, m: Message, crash: Crash, idempotent: bool)
    ensures StopsEarly(m, crash) <==> m.order.None? || crash == BeforeCharge
    ensures Stops(l, m, crash, idempotent) <==>
              m.order.None? || crash != NoCrash
              || (m.amount.None? && !(idempotent && m.id.Some? && m.id.value in l.processed))
  {
  }

  // The id is what protects: a delivery adds a charge exactly when the message is complete and carries no id or a new
  // one, and otherwise changes nothing.
  lemma ChargesAgainIff(l: Ledger, m: Message)
    ensures var after := Charge(l, m, true).0;
            && (after.charges != l.charges <==> Complete(m) && (m.id.None? || m.id.value !in l.processed))
            && (after.charges != l.charges ==> after.charges == l.charges + [RowOf(m)])
            && (after.charges == l.charges ==> after == l)
  {
    if Complete(m) {
      assert |l.charges + [RowOf(m)]| == |l.charges| + 1;
    }
  }

  // A message published without an id is charged once per delivery, because a NULL key is never a duplicate.
  lemma WithoutIdChargedPerDelivery(m: Message, deliveries: nat)
    requires m.id.None? && Complete(m)
    ensures ChargeAll(Ledger({}, []), seq(deliveries, i requires 0 <= i < deliveries => m), true)
            == Ledger({}, seq(deliveries, i requires 0 <= i < deliveries => RowOf(m)))
  {
    var all := seq(deliveries, i requires 0 <= i < deliveries => m);
    if deliveries > 0 {
      var fewer := seq(deliveries - 1, i requires 0 <= i < deliveries - 1 => m);
      assert all == fewer + [m];
      WithoutIdChargedPerDelivery(m, deliveries - 1);
      ChargeAllOfAppend(Ledger({}, []), fewer, m, true);
    }
  }
}
