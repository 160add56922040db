/**
 * The queue, its poller, the running functions and the payment table as one step system. Functions die between any
 * two records, answers are lost, an abandoned function keeps running, messages are redelivered, and the same order
 * is sent any number of times.
 */
module EffectivelyOnce {
  import opened Basics
  import opened Sqs
  import opened Processor
  import opened Poller
  import SqsRuns

  datatype Status = Running | Done | Dead

  datatype Invocation = Invocation(records: seq<Record>, next: nat, failures: seq<MessageId>, status: Status)

  datatype PollerState =
    | Idle
    | Waiting(ids: seq<MessageId>, run: nat)
    | Settling(ids: seq<MessageId>, failed: set<MessageId>)

  /** One charge that happened. */
  datatype Entry = Entry(order: string, amount: real, id: MessageId)

  /** The parts that exist, and three histories: every body sent, every id the poller deleted, every charge made. */
  datatype System = System(
    q: QueueState<Body>,
    poller: PollerState,
    runs: seq<Invocation>,
    table: Table,
    sent: map<MessageId, Body>,
    deletedIds: set<MessageId>,
    log: seq<Entry>)

  datatype Action =
    | Send(ids: seq<MessageId>, bodies: seq<Body>)
    | Purge
    | PollReceive(batchSize: int, now: int)
    | InvokeDirectly(records: seq<Record>)
    | Work(run: nat)
    | Die(run: nat)
    | Answer
    | Lose
    | Settle

  function Start(): System {
    System(QueueState([], [], 0), Idle, [], Table(map[], map[], map[]), map[], {}, [])
  }

  ghost predicate Enabled(s: System, a: Action) {
    match a
    case Send(ids, bodies) => |ids| == |bodies| && SqsRuns.Distinct(ids) && Members(ids) !! s.sent.Keys
    case Purge => true
    case PollReceive(_, _) => s.poller.Idle?
    case InvokeDirectly(_) => true
    case Work(i) => i < |s.runs| && s.runs[i].status.Running? && s.runs[i].next <= |s.runs[i].records|
    case Die(i) => i < |s.runs| && s.runs[i].status.Running?
    case Answer => s.poller.Waiting? && s.poller.run < |s.runs| && s.runs[s.poller.run].status.Done?
    case Lose => s.poller.Waiting?
    case Settle => s.poller.Settling? && s.poller.ids != []
  }

  function RecordsOf(batch: seq<Message<Body>>): seq<Record> {
    seq(|batch|, i requires 0 <= i < |batch| => Record(batch[i].id, batch[i].body))
  }

  function Sent(ids: seq<MessageId>, bodies: seq<Body>): map<MessageId, Body>
    requires |ids| == |bodies|
    decreases |ids|
  {
    if ids == [] then map[] else Sent(ids[1..], bodies[1..])[ids[0] := bodies[0]]
  }

  /** The function processes its next record, or returns once none is left. */
  function WorkOn(s: System, i: nat): System
    requires i < |s.runs| && s.runs[i].next <= |s.runs[i].records|
  {
    var run := s.runs[i];
    if run.next == |run.records| then s.(runs := s.runs[i := run.(status := Done)])
    else
      var r := run.records[run.next];
      match Parse(r.body)
      case Crash => s.(runs := s.runs[i := run.(status := Dead)])
      case Invalid => s.(runs := s.runs[i := run.(next := run.next + 1, failures := run.failures + [r.id])])
      case Pay(order, amount) =>
        s.(runs := s.runs[i := run.(next := run.next + 1)],
           table := Charge(s.table, true, order, amount, r.id),
           log := if order in s.table.records then s.log else s.log + [Entry(order, amount, r.id)])
  }

  function SettleNext(cfg: Config, s: System): System
    requires s.poller.Settling? && s.poller.ids != []
  {
    var id, rest, failed := s.poller.ids[0], s.poller.ids[1..], s.poller.failed;
    s.(q := SettleOne(cfg, s.q, id, failed),
       deletedIds := if id !in failed && Find(s.q.messages, id) != [] then s.deletedIds + {id} else s.deletedIds,
       poller := if rest == [] then Idle else Settling(rest, failed))
  }

  function Next(cfg: Config, s: System, a: Action): System
    requires a.Send? ==> |a.ids| == |a.bodies|
    requires a.Work? ==> a.run < |s.runs| && s.runs[a.run].next <= |s.runs[a.run].records|
    requires a.Die? ==> a.run < |s.runs|
    requires a.Answer? ==> s.poller.Waiting? && s.poller.run < |s.runs|
    requires a.Lose? ==> s.poller.Waiting?
    requires a.Settle? ==> s.poller.Settling? && s.poller.ids != []
  {
    match a
    case Send(ids, bodies) => s.(q := SendTo(s.q, ids, bodies), sent := s.sent + Sent(ids, bodies))
    case Purge => s.(q := Purged(s.q))
    case PollReceive(batchSize, now) =>
      var (out, batch) := ReceiveFrom(s.q.messages, batchSize, now, cfg.timeout);
      if batch == [] then s.(q := s.q.(messages := out))
      else s.(q := s.q.(messages := out), poller := Waiting(BatchIds(batch), |s.runs|),
              runs := s.runs + [Invocation(RecordsOf(batch), 0, [], Running)])
    case InvokeDirectly(records) => s.(runs := s.runs + [Invocation(records, 0, [], Running)])
    case Work(i) => WorkOn(s, i)
    case Die(i) => s.(runs := s.runs[i := s.runs[i].(status := Dead)])
    case Answer =>
      s.(poller := Settling(s.poller.ids, FailedOf(Reported(Members(s.runs[s.poller.run].failures)), s.poller.ids)))
    case Lose => s.(poller := Settling(s.poller.ids, FailedOf(InvokeError, s.poller.ids)))
    case Settle => SettleNext(cfg, s)
  }

  ghost predicate CanRun(cfg: Config, s: System, actions: seq<Action>)
    decreases |actions|
  {
    actions == [] || (Enabled(s, actions[0]) && CanRun(cfg, Next(cfg, s, actions[0]), actions[1..]))
  }

  ghost function Run(cfg: Config, s: System, actions: seq<Action>): System
    requires CanRun(cfg, s, actions)
    decreases |actions|
  {
    if actions == [] then s else Run(cfg, Next(cfg, s, actions[0]), actions[1..])
  }

  // ---- the invariant ----

  /** The charges made are exactly the idempotency records, one per order, with the amount of the recorded message. */
  ghost predicate TableOk(t: Table, log: seq<Entry>) {
    && CountsOk(t)
    && (forall i :: 0 <= i < |log| ==> EntryOk(t, log[i]))
    && (forall i, j :: 0 <= i < j < |log| ==> log[i].order != log[j].order)
    && (forall o :: o in t.records ==> Logged(log, o))
  }

  ghost predicate CountsOk(t: Table) {
    && t.charges.Keys == t.records.Keys && t.totals.Keys == t.records.Keys
    && forall o :: o in t.records ==> t.charges[o] == 1
  }

  predicate EntryOk(t: Table, e: Entry) {
    && e.order in t.records && t.records[e.order] == e.id
    && e.order in t.totals && t.totals[e.order] == e.amount
  }

  ghost predicate Logged(log: seq<Entry>, order: string) {
    exists i :: 0 <= i < |log| && log[i].order == order
  }

  /** A processed record was charged (now or before) or reported as failed. */
  predicate Handled(records: map<string, MessageId>, r: Record, failures: seq<MessageId>) {
    match Parse(r.body)
    case Crash => false
    case Invalid => r.id in failures
    case Pay(order, _) => order in records
  }

  ghost predicate RunOk(records: map<string, MessageId>, run: Invocation) {
    && run.next <= |run.records|
    && (run.status.Done? ==> run.next == |run.records|)
    && (forall j :: 0 <= j < run.next ==> Handled(records, run.records[j], run.failures))
  }

  ghost predicate KnownMessages(ms: seq<Message<Body>>, sent: map<MessageId, Body>) {
    forall i :: 0 <= i < |ms| ==> ms[i].id in sent && sent[ms[i].id] == ms[i].body
  }

  /** Deleting this message is safe: it is a payment, and its order has its idempotency record. */
  predicate Paid(sent: map<MessageId, Body>, records: map<string, MessageId>, id: MessageId) {
    id in sent && Parse(sent[id]).Pay? && Parse(sent[id]).order in records
  }

  ghost predicate BatchKnown(sent: map<MessageId, Body>, ids: seq<MessageId>, run: Invocation) {
    && |run.records| == |ids|
    && forall j :: 0 <= j < |ids| ==> run.records[j].id == ids[j] && ids[j] in sent && run.records[j].body == sent[ids[j]]
  }

  ghost predicate PollerOk(s: System) {
    match s.poller
    case Idle => true
    case Waiting(ids, i) => i < |s.runs| && BatchKnown(s.sent, ids, s.runs[i])
    case Settling(ids, failed) => forall j :: 0 <= j < |ids| && ids[j] !in failed ==> Paid(s.sent, s.table.records, ids[j])
  }

  function Unsettled(p: PollerState): seq<MessageId> {
    if p.Idle? then [] else p.ids
  }

  ghost predicate Inv(cfg: Config, s: System) {
    && Bounded(s.q, Unsettled(s.poller), cfg.maxReceives)
    && KnownMessages(s.q.messages, s.sent)
    && TableOk(s.table, s.log)
    && (forall i :: 0 <= i < |s.runs| ==> RunOk(s.table.records, s.runs[i]))
    && PollerOk(s)
    && (forall id :: id in s.deletedIds ==> Paid(s.sent, s.table.records, id))
  }

  // ---- every step keeps it ----

  lemma LogGrows(log: seq<Entry>, entry: Entry, order: string)
    ensures Logged(log + [entry], order) <==> Logged(log, order) || entry.order == order
  {
    var log' := log + [entry];
    assert log'[|log|] == entry;
    if Logged(log, order) {
      var i :| 0 <= i < |log| && log[i].order == order;
      assert log'[i].order == order;
    }
    if Logged(log', order) && entry.order != order {
      var i :| 0 <= i < |log'| && log'[i].order == order;
      assert log[i].order == order;
    }
  }

  lemma FirstCharge(t: Table, order: string, amount: real, id: MessageId)
    requires CountsOk(t) && order !in t.records
    ensures var t' := Charge(t, true, order, amount, id);
            CountsOk(t') && EntryOk(t', Entry(order, amount, id)) && t'.records.Keys == t.records.Keys + {order}
    ensures forall e :: EntryOk(t, e) ==> EntryOk(Charge(t, true, order, amount, id), e)
  {
  }

  lemma ChargeKeepsTable(t: Table, log: seq<Entry>, order: string, amount: real, id: MessageId)
    requires TableOk(t, log)
    ensures var t' := Charge(t, true, order, amount, id);
            && TableOk(t', if order in t.records then log else log + [Entry(order, amount, id)])
            && order in t'.records && t.records.Keys <= t'.records.Keys
  {
    if order !in t.records {
      var entry := Entry(order, amount, id);
      FirstCharge(t, order, amount, id);
      forall o | o in Charge(t, true, order, amount, id).records ensures Logged(log + [entry], o) {
        LogGrows(log, entry, o);
      }
      forall i | 0 <= i < |log| ensures log[i].order != order {
        assert EntryOk(t, log[i]);
      }
    }
  }

  lemma RunStaysOk(xs: map<string, MessageId>, ys: map<string, MessageId>, run: Invocation)
    requires xs.Keys <= ys.Keys && RunOk(xs, run)
    ensures RunOk(ys, run)
  {
    forall j | 0 <= j < run.next ensures Handled(ys, run.records[j], run.failures) {
      assert Handled(xs, run.records[j], run.failures);
    }
  }

  /** One function moves on: its records and ids stay, the idempotency records only grow. */
  lemma RunChange(cfg: Config, s: System, i: nat, run: Invocation, t: Table, log: seq<Entry>)
    requires Inv(cfg, s) && i < |s.runs| && run.records == s.runs[i].records
    requires TableOk(t, log) && s.table.records.Keys <= t.records.Keys && RunOk(t.records, run)
    ensures Inv(cfg, s.(runs := s.runs[i := run], table := t, log := log))
  {
    var after := s.(runs := s.runs[i := run], table := t, log := log);
    forall j | 0 <= j < |after.runs| ensures RunOk(t.records, after.runs[j]) {
      if j != i { RunStaysOk(s.table.records, t.records, s.runs[j]); }
    }
  }

  lemma RejectKeepsRun(records: map<string, MessageId>, run: Invocation)
    requires RunOk(records, run) && run.next < |run.records| && run.status.Running?
    requires Parse(run.records[run.next].body).Invalid?
    ensures RunOk(records, run.(next := run.next + 1, failures := run.failures + [run.records[run.next].id]))
  {
    forall j | 0 <= j < run.next
      ensures Handled(records, run.records[j], run.failures + [run.records[run.next].id])
    {
      assert Handled(records, run.records[j], run.failures);
    }
  }

  lemma PayKeepsRun(xs: map<string, MessageId>, ys: map<string, MessageId>, run: Invocation)
    requires RunOk(xs, run) && run.next < |run.records| && run.status.Running? && xs.Keys <= ys.Keys
    requires Parse(run.records[run.next].body).Pay? && Parse(run.records[run.next].body).order in ys
    ensures RunOk(ys, run.(next := run.next + 1))
  {
    RunStaysOk(xs, ys, run);
  }

  lemma WorkKeepsInv(cfg: Config, s: System, i: nat)
    requires Inv(cfg, s) && Enabled(s, Work(i))
    ensures Inv(cfg, WorkOn(s, i))
  {
    var run := s.runs[i];
    var next := WorkOn(s, i);
    assert RunOk(s.table.records, run);
    if run.next < |run.records| {
      match Parse(run.records[run.next].body)
      case Crash =>
      case Invalid => RejectKeepsRun(s.table.records, run);
      case Pay(order, amount) =>
        ChargeKeepsTable(s.table, s.log, order, amount, run.records[run.next].id);
        PayKeepsRun(s.table.records, next.table.records, run);
    }
    RunChange(cfg, s, i, next.runs[i], next.table, next.log);
  }

  lemma {:induction false} SentMaps(ids: seq<MessageId>, bodies: seq<Body>)
    requires |ids| == |bodies| && SqsRuns.Distinct(ids)
    ensures Sent(ids, bodies).Keys == Members(ids)
    ensures forall i :: 0 <= i < |ids| ==> ids[i] in Sent(ids, bodies) && Sent(ids, bodies)[ids[i]] == bodies[i]
    decreases |ids|
  {
    if ids != [] {
      SentMaps(ids[1..], bodies[1..]);
      assert ids == [ids[0]] + ids[1..];
      forall i | 0 < i < |ids| ensures ids[i] in Sent(ids, bodies) && Sent(ids, bodies)[ids[i]] == bodies[i] {
        assert ids[1..][i - 1] == ids[i] && bodies[1..][i - 1] == bodies[i];
        assert ids[i] != ids[0];
      }
    }
  }

  lemma SendKeepsKnown(ms: seq<Message<Body>>, sent: map<MessageId, Body>, ids: seq<MessageId>, bodies: seq<Body>)
    requires KnownMessages(ms, sent)
    requires |ids| == |bodies| && SqsRuns.Distinct(ids) && Members(ids) !! sent.Keys
    ensures KnownMessages(ms + Fresh(ids, bodies), sent + Sent(ids, bodies))
  {
    SentMaps(ids, bodies);
    var more := Fresh(ids, bodies);
    assert KnownMessages(more, sent + Sent(ids, bodies));
    assert KnownMessages(ms, sent + Sent(ids, bodies));
  }

  lemma SendKeepsBounded(max: nat, q: QueueState<Body>, unsettled: seq<MessageId>, sent: map<MessageId, Body>,
                         ids: seq<MessageId>, bodies: seq<Body>)
    requires Bounded(q, unsettled, max) && KnownMessages(q.messages, sent) && max >= 1
    requires |ids| == |bodies| && SqsRuns.Distinct(ids) && Members(ids) !! sent.Keys
    ensures Bounded(SendTo(q, ids, bodies), unsettled, max)
  {
    SqsRuns.FreshIds(ids, bodies);
    assert Ids(q.messages) <= sent.Keys;
    SqsRuns.AppendIds(q.messages, Fresh(ids, bodies));
  }

  lemma SendKeepsInv(cfg: Config, s: System, ids: seq<MessageId>, bodies: seq<Body>)
    requires Inv(cfg, s) && Enabled(s, Send(ids, bodies)) && cfg.maxReceives >= 1
    ensures Inv(cfg, Next(cfg, s, Send(ids, bodies)))
  {
    SentMaps(ids, bodies);
    SendKeepsKnown(s.q.messages, s.sent, ids, bodies);
    SendKeepsBounded(cfg.maxReceives, s.q, Unsettled(s.poller), s.sent, ids, bodies);
    var sent := s.sent + Sent(ids, bodies);
    forall id | id in s.sent ensures id in sent && sent[id] == s.sent[id] {}
  }

  lemma ReceiveKeepsKnown(ms: seq<Message<Body>>, limit: int, now: int, timeout: nat, sent: map<MessageId, Body>)
    requires UniqueIds(ms) && KnownMessages(ms, sent)
    ensures KnownMessages(ReceiveFrom(ms, limit, now, timeout).0, sent)
    ensures KnownMessages(ReceiveFrom(ms, limit, now, timeout).1, sent)
  {
    ReceiveChangesOnlyTheBatch(ms, limit, now, timeout);
    var (out, batch) := ReceiveFrom(ms, limit, now, timeout);
    forall i | 0 <= i < |batch| ensures batch[i].id in sent && sent[batch[i].id] == batch[i].body {
      assert batch[i] in batch;
      var j :| 0 <= j < |out| && out[j] == batch[i];
    }
  }

  lemma ReceiveKeepsInv(cfg: Config, s: System, batchSize: int, now: int)
    requires Inv(cfg, s) && Enabled(s, PollReceive(batchSize, now))
    ensures Inv(cfg, Next(cfg, s, PollReceive(batchSize, now)))
  {
    ReceiveKeepsBounded(cfg, s.q, batchSize, now);
    ReceiveKeepsKnown(s.q.messages, batchSize, now, cfg.timeout, s.sent);
  }

  lemma AnswerKeepsInv(cfg: Config, s: System)
    requires Inv(cfg, s) && Enabled(s, Answer)
    ensures Inv(cfg, Next(cfg, s, Answer))
  {
    var run := s.runs[s.poller.run];
    var ids := s.poller.ids;
    assert RunOk(s.table.records, run);
    forall j | 0 <= j < |ids| && ids[j] !in Members(run.failures)
      ensures Paid(s.sent, s.table.records, ids[j])
    {
      assert Handled(s.table.records, run.records[j], run.failures);
    }
  }

  lemma SettleKeepsInv(cfg: Config, s: System)
    requires Inv(cfg, s) && Enabled(s, Settle)
    ensures Inv(cfg, Next(cfg, s, Settle))
  {
    var ids, failed := s.poller.ids, s.poller.failed;
    SettleOneKeepsBounded(cfg, s.q, ids, failed);
    WithoutKeeps(s.q.messages, ids[0]);
    var next := Next(cfg, s, Settle);
    forall i | 0 <= i < |next.q.messages|
      ensures next.q.messages[i].id in s.sent && s.sent[next.q.messages[i].id] == next.q.messages[i].body
    {
      assert next.q.messages[i] in s.q.messages;
    }
    assert forall j :: 0 <= j < |ids[1..]| ==> ids[1..][j] == ids[j + 1];
  }

  lemma NextKeepsInv(cfg: Config, s: System, a: Action)
    requires Inv(cfg, s) && Enabled(s, a) && cfg.maxReceives >= 1
    ensures Inv(cfg, Next(cfg, s, a))
  {
    match a
    case Send(ids, bodies) => SendKeepsInv(cfg, s, ids, bodies);
    case Purge =>
    case PollReceive(batchSize, now) => ReceiveKeepsInv(cfg, s, batchSize, now);
    case InvokeDirectly(_) =>
    case Work(i) => WorkKeepsInv(cfg, s, i);
    case Die(i) =>
      assert RunOk(s.table.records, s.runs[i]);
      RunChange(cfg, s, i, s.runs[i].(status := Dead), s.table, s.log);
    case Answer => AnswerKeepsInv(cfg, s);
    case Lose =>
    case Settle => SettleKeepsInv(cfg, s);
  }

  lemma {:induction false} RunKeepsInv(cfg: Config, s: System, actions: seq<Action>)
    requires Inv(cfg, s) && CanRun(cfg, s, actions) && cfg.maxReceives >= 1
    ensures Inv(cfg, Run(cfg, s, actions))
    decreases |actions|
  {
    if actions != [] {
      NextKeepsInv(cfg, s, actions[0]);
      RunKeepsInv(cfg, Next(cfg, s, actions[0]), actions[1..]);
    }
  }

  // ---- the promises ----

  // In every run: an order is charged at most once, exactly when its idempotency record exists, and with the amount
  // of the one charge made; every message the poller deleted is a payment whose order was charged exactly once.
  lemma ChargedEffectivelyOnce(cfg: Config, actions: seq<Action>, order: string)
    requires cfg.maxReceives >= 1 && CanRun(cfg, Start(), actions)
    ensures var s := Run(cfg, Start(), actions);
            && Charges(s.table, order) == (if order in s.table.records then 1 else 0)
            && (order in s.table.records <==> Logged(s.log, order))
            && (forall i :: 0 <= i < |s.log| && s.log[i].order == order ==> Total(s.table, order) == s.log[i].amount)
            && forall id :: id in s.deletedIds && id in s.sent && PaysOrder(s.sent[id], order) ==> Charges(s.table, order) == 1
  {
    RunKeepsInv(cfg, Start(), actions);
    var s := Run(cfg, Start(), actions);
    forall id | id in s.deletedIds && id in s.sent && PaysOrder(s.sent[id], order) ensures Charges(s.table, order) == 1 {
      ParseMeans(s.sent[id]);
    }
  }

  lemma DeletedMeansCharged(cfg: Config, actions: seq<Action>, id: MessageId)
    requires cfg.maxReceives >= 1 && CanRun(cfg, Start(), actions) && id in Run(cfg, Start(), actions).deletedIds
    ensures var s := Run(cfg, Start(), actions);
            id in s.sent && Payable(s.sent[id]) && Charges(s.table, s.sent[id].orderId.value) == 1
  {
    RunKeepsInv(cfg, Start(), actions);
    ParseMeans(Run(cfg, Start(), actions).sent[id]);
    assert Paid(Run(cfg, Start(), actions).sent, Run(cfg, Start(), actions).table.records, id);
  }

  // In every run with one poller, sends and purges at any time: between polls each queued message was received fewer
  // times than the maximum, and each dead letter exactly that often.
  lemma ReceiveCountsStayBounded(cfg: Config, actions: seq<Action>)
    requires cfg.maxReceives >= 1 && CanRun(cfg, Start(), actions)
    ensures var s := Run(cfg, Start(), actions);
            && DeadAtMax(s.q.deadLetters, cfg.maxReceives)
            && (s.poller.Idle? ==> BelowMax(s.q.messages, cfg.maxReceives))
            && forall i :: 0 <= i < |s.q.messages| ==> s.q.messages[i].receives <= cfg.maxReceives
  {
    RunKeepsInv(cfg, Start(), actions);
  }

  // ---- deleted messages are gone ----

  /** A deleted id is in neither queue, and no dead letter is also queued. */
  ghost predicate DeletedAreGone(s: System) {
    && s.deletedIds <= s.sent.Keys && DeadIds(s.q.deadLetters) <= s.sent.Keys
    && s.deletedIds !! Ids(s.q.messages) && s.deletedIds !! DeadIds(s.q.deadLetters)
    && Ids(s.q.messages) !! DeadIds(s.q.deadLetters)
  }

  lemma DeadIdsOfAppend(ds: seq<DeadLetter<Body>>, d: DeadLetter<Body>)
    ensures DeadIds(ds + [d]) == DeadIds(ds) + {d.id}
  {
    assert forall x :: x in ds + [d] <==> x in ds || x == d;
  }

  lemma SendKeepsGone(cfg: Config, s: System, ids: seq<MessageId>, bodies: seq<Body>)
    requires UniqueIds(s.q.messages) && KnownMessages(s.q.messages, s.sent)
    requires DeletedAreGone(s) && Enabled(s, Send(ids, bodies))
    ensures DeletedAreGone(Next(cfg, s, Send(ids, bodies)))
  {
    SendAdds(s.q, ids, bodies, s.sent);
  }

  lemma SettleKeepsGone(cfg: Config, s: System)
    requires KnownMessages(s.q.messages, s.sent) && DeletedAreGone(s) && Enabled(s, Settle)
    ensures DeletedAreGone(Next(cfg, s, Settle))
  {
    assert Ids(s.q.messages) <= s.sent.Keys;
    FindSound(s.q.messages, s.poller.ids[0]);
    SettleMoves(cfg, s.q, s.poller.ids[0], s.poller.failed);
  }

  lemma NextKeepsGone(cfg: Config, s: System, a: Action)
    requires UniqueIds(s.q.messages) && KnownMessages(s.q.messages, s.sent)
    requires DeletedAreGone(s) && Enabled(s, a)
    ensures DeletedAreGone(Next(cfg, s, a))
  {
    if a.Send? {
      SendKeepsGone(cfg, s, a.ids, a.bodies);
    } else if a.PollReceive? {
      SqsRuns.ReceiveKeepsIds(s.q.messages, a.batchSize, a.now, cfg.timeout);
    } else if a.Settle? {
      SettleKeepsGone(cfg, s);
    } else if !a.Purge? {
      OthersLeaveTheQueue(cfg, s, a);
    }
  }

  lemma {:induction false} RunKeepsGone(cfg: Config, s: System, actions: seq<Action>)
    requires Inv(cfg, s) && DeletedAreGone(s) && CanRun(cfg, s, actions) && cfg.maxReceives >= 1
    ensures DeletedAreGone(Run(cfg, s, actions))
    decreases |actions|
  {
    if actions != [] {
      NextKeepsInv(cfg, s, actions[0]);
      NextKeepsGone(cfg, s, actions[0]);
      RunKeepsGone(cfg, Next(cfg, s, actions[0]), actions[1..]);
    }
  }

  // In every run a message that the poller deleted is neither queued nor dead-lettered, then or later, and no message
  // is in both places.
  lemma DeletedStaysDeleted(cfg: Config, before: seq<Action>, after: seq<Action>, id: MessageId)
    requires cfg.maxReceives >= 1 && CanRun(cfg, Start(), before) && CanRun(cfg, Run(cfg, Start(), before), after)
    requires id in Run(cfg, Start(), before).deletedIds
    ensures var s := Run(cfg, Run(cfg, Start(), before), after);
            id in s.deletedIds && id !in Ids(s.q.messages) && id !in DeadIds(s.q.deadLetters)
            && Ids(s.q.messages) !! DeadIds(s.q.deadLetters)
  {
    RunKeepsInv(cfg, Start(), before);
    RunKeepsGone(cfg, Start(), before);
    RunKeepsGone(cfg, Run(cfg, Start(), before), after);
    StillDeleted(cfg, Run(cfg, Start(), before), after, id);
  }

  lemma {:induction false} StillDeleted(cfg: Config, s: System, actions: seq<Action>, id: MessageId)
    requires CanRun(cfg, s, actions) && id in s.deletedIds
    ensures id in Run(cfg, s, actions).deletedIds
    decreases |actions|
  {
    if actions != [] {
      StillDeleted(cfg, Next(cfg, s, actions[0]), actions[1..], id);
    }
  }

  /** Every message ever sent is queued, dead-lettered or deleted, and the counter counts the deleted ones. */
  ghost predicate AllAccounted(s: System) {
    Accounts(s.sent.Keys, Ids(s.q.messages), DeadIds(s.q.deadLetters), s.deletedIds) && s.q.deleted == |s.deletedIds|
  }

  ghost predicate Accounts(sent: set<MessageId>, queued: set<MessageId>, dead: set<MessageId>, deleted: set<MessageId>) {
    sent == queued + dead + deleted
  }

  lemma SendAdds(q: QueueState<Body>, ids: seq<MessageId>, bodies: seq<Body>, sent: map<MessageId, Body>)
    requires UniqueIds(q.messages) && KnownMessages(q.messages, sent)
    requires |ids| == |bodies| && SqsRuns.Distinct(ids) && Members(ids) !! sent.Keys
    ensures Ids(SendTo(q, ids, bodies).messages) == Ids(q.messages) + Members(ids)
    ensures (sent + Sent(ids, bodies)).Keys == sent.Keys + Members(ids)
  {
    SentMaps(ids, bodies);
    SqsRuns.FreshIds(ids, bodies);
    assert Ids(q.messages) <= sent.Keys;
    SqsRuns.AppendIds(q.messages, Fresh(ids, bodies));
  }

  /** What settling one message does to the ids. */
  lemma SettleMoves(cfg: Config, q: QueueState<Body>, id: MessageId, failed: set<MessageId>)
    ensures var after := SettleOne(cfg, q, id, failed);
            if id !in Ids(q.messages) || (id in failed && !Exhausted(q, id, cfg.maxReceives)) then after == q
            else && Ids(after.messages) == Ids(q.messages) - {id}
                 && DeadIds(after.deadLetters) == DeadIds(q.deadLetters) + (if id in failed then {id} else {})
                 && after.deleted == q.deleted + if id in failed then 0 else 1
  {
    FindSound(q.messages, id);
    WithoutRemoves(q.messages, id);
    var after := SettleOne(cfg, q, id, failed);
    if after.deadLetters != q.deadLetters {
      DeadIdsOfAppend(q.deadLetters, after.deadLetters[|q.deadLetters|]);
    }
  }

  lemma IdMoves(sent: set<MessageId>, queued: set<MessageId>, dead: set<MessageId>, deleted: set<MessageId>, id: MessageId)
    requires Accounts(sent, queued, dead, deleted) && id in queued
    ensures Accounts(sent, queued - {id}, dead + {id}, deleted) && Accounts(sent, queued - {id}, dead, deleted + {id})
    ensures id !in deleted ==> |deleted + {id}| == |deleted| + 1
  {
  }

  lemma SettleKeepsAccounted(cfg: Config, s: System)
    requires DeletedAreGone(s) && AllAccounted(s) && Enabled(s, Settle)
    ensures AllAccounted(Next(cfg, s, Settle))
  {
    var id := s.poller.ids[0];
    FindSound(s.q.messages, id);
    SettleMoves(cfg, s.q, id, s.poller.failed);
    if id in Ids(s.q.messages) {
      IdMoves(s.sent.Keys, Ids(s.q.messages), DeadIds(s.q.deadLetters), s.deletedIds, id);
      assert id !in s.deletedIds;
    }
  }

  lemma SendKeepsAccounted(cfg: Config, s: System, ids: seq<MessageId>, bodies: seq<Body>)
    requires UniqueIds(s.q.messages) && KnownMessages(s.q.messages, s.sent)
    requires AllAccounted(s) && Enabled(s, Send(ids, bodies))
    ensures AllAccounted(Next(cfg, s, Send(ids, bodies)))
  {
    SendAdds(s.q, ids, bodies, s.sent);
  }

  lemma ReceiveKeepsAccounted(cfg: Config, s: System, batchSize: int, now: int)
    requires UniqueIds(s.q.messages) && AllAccounted(s) && Enabled(s, PollReceive(batchSize, now))
    ensures AllAccounted(Next(cfg, s, PollReceive(batchSize, now)))
  {
    SqsRuns.ReceiveKeepsIds(s.q.messages, batchSize, now, cfg.timeout);
  }

  lemma NextKeepsAccounted(cfg: Config, s: System, a: Action)
    requires UniqueIds(s.q.messages) && KnownMessages(s.q.messages, s.sent)
    requires DeletedAreGone(s) && AllAccounted(s) && Enabled(s, a) && !a.Purge?
    ensures AllAccounted(Next(cfg, s, a))
  {
    if a.Send? {
      SendKeepsAccounted(cfg, s, a.ids, a.bodies);
    } else if a.PollReceive? {
      ReceiveKeepsAccounted(cfg, s, a.batchSize, a.now);
    } else if a.Settle? {
      SettleKeepsAccounted(cfg, s);
    } else {
      OthersLeaveTheQueue(cfg, s, a);
    }
  }

  lemma OthersLeaveTheQueue(cfg: Config, s: System, a: Action)
    requires Enabled(s, a) && !a.Send? && !a.Purge? && !a.PollReceive? && !a.Settle?
    ensures var t := Next(cfg, s, a);
            t.q == s.q && t.sent == s.sent && t.deletedIds == s.deletedIds
  {
  }

  lemma {:induction false} RunKeepsAccounted(cfg: Config, s: System, actions: seq<Action>)
    requires Inv(cfg, s) && DeletedAreGone(s) && AllAccounted(s) && CanRun(cfg, s, actions) && cfg.maxReceives >= 1
    requires forall i :: 0 <= i < |actions| ==> !actions[i].Purge?
    ensures AllAccounted(Run(cfg, s, actions))
    decreases |actions|
  {
    if actions != [] {
      NextKeepsInv(cfg, s, actions[0]);
      NextKeepsGone(cfg, s, actions[0]);
      NextKeepsAccounted(cfg, s, actions[0]);
      RunKeepsAccounted(cfg, Next(cfg, s, actions[0]), actions[1..]);
    }
  }

  // In every run without a purge each payment sent is in exactly one place: queued, a dead letter, or deleted, and
  // then its order was charged.
  lemma NoPaymentIsLost(cfg: Config, actions: seq<Action>, id: MessageId)
    requires cfg.maxReceives >= 1 && CanRun(cfg, Start(), actions)
    requires forall i :: 0 <= i < |actions| ==> !actions[i].Purge?
    requires id in Run(cfg, Start(), actions).sent
    ensures var s := Run(cfg, Start(), actions);
            var queued, dead, deleted := id in Ids(s.q.messages), id in DeadIds(s.q.deadLetters), id in s.deletedIds;
            && (queued || dead || deleted) && !(queued && dead) && !(queued && deleted) && !(dead && deleted)
            && (deleted ==> Payable(s.sent[id]) && Charges(s.table, s.sent[id].orderId.value) == 1)
  {
    RunKeepsInv(cfg, Start(), actions);
    RunKeepsGone(cfg, Start(), actions);
    RunKeepsAccounted(cfg, Start(), actions);
    if id in Run(cfg, Start(), actions).deletedIds {
      DeletedMeansCharged(cfg, actions, id);
    }
  }

  // ---- which orders were charged ----

  predicate PaysFor(r: Record, order: string) {
    PaysOrder(r.body, order)
  }

  predicate Reached(run: Invocation, order: string) {
    exists j :: 0 <= j < run.next && j < |run.records| && PaysFor(run.records[j], order)
  }

  /** Some invocation got past a record that pays this order. */
  ghost predicate GotPast(runs: seq<Invocation>, order: string) {
    exists i :: 0 <= i < |runs| && Reached(runs[i], order)
  }

  ghost predicate OnlyReachedAreRecorded(s: System) {
    forall order :: order in s.table.records ==> GotPast(s.runs, order)
  }

  /** Runs keep their records and only move forward. */
  ghost predicate RunsAdvance(xs: seq<Invocation>, ys: seq<Invocation>) {
    |xs| <= |ys| && forall i :: 0 <= i < |xs| ==> xs[i].records == ys[i].records && xs[i].next <= ys[i].next
  }

  lemma StillPast(xs: seq<Invocation>, ys: seq<Invocation>, order: string)
    requires RunsAdvance(xs, ys) && GotPast(xs, order)
    ensures GotPast(ys, order)
  {
    var i :| 0 <= i < |xs| && Reached(xs[i], order);
    var j :| 0 <= j < xs[i].next && j < |xs[i].records| && PaysFor(xs[i].records[j], order);
    assert PaysFor(ys[i].records[j], order);
    assert Reached(ys[i], order);
  }

  lemma NextKeepsReached(cfg: Config, s: System, a: Action)
    requires OnlyReachedAreRecorded(s) && Enabled(s, a)
    ensures OnlyReachedAreRecorded(Next(cfg, s, a))
  {
    var t := Next(cfg, s, a);
    assert RunsAdvance(s.runs, t.runs);
    forall order | order in t.table.records ensures GotPast(t.runs, order) {
      if order in s.table.records {
        StillPast(s.runs, t.runs, order);
      } else {
        var run := s.runs[a.run];
        assert PaysFor(run.records[run.next], order);
        assert Reached(t.runs[a.run], order);
      }
    }
  }

  lemma {:induction false} RunKeepsReached(cfg: Config, s: System, actions: seq<Action>)
    requires OnlyReachedAreRecorded(s) && CanRun(cfg, s, actions)
    ensures OnlyReachedAreRecorded(Run(cfg, s, actions))
    decreases |actions|
  {
    if actions != [] {
      NextKeepsReached(cfg, s, actions[0]);
      RunKeepsReached(cfg, Next(cfg, s, actions[0]), actions[1..]);
    }
  }

  // In every run an order was charged, and then once, exactly when some invocation got past a record that pays it.
  lemma ChargedIffReached(cfg: Config, actions: seq<Action>, order: string)
    requires cfg.maxReceives >= 1 && CanRun(cfg, Start(), actions)
    ensures var s := Run(cfg, Start(), actions);
            Charges(s.table, order) == if GotPast(s.runs, order) then 1 else 0
  {
    RunKeepsInv(cfg, Start(), actions);
    RunKeepsReached(cfg, Start(), actions);
    var s := Run(cfg, Start(), actions);
    if GotPast(s.runs, order) {
      PastIsRecorded(s.table.records, s.runs, order);
    }
  }

  lemma PastIsRecorded(records: map<string, MessageId>, runs: seq<Invocation>, order: string)
    requires GotPast(runs, order) && forall i :: 0 <= i < |runs| ==> RunOk(records, runs[i])
    ensures order in records
  {
    var i :| 0 <= i < |runs| && Reached(runs[i], order);
    var j :| 0 <= j < runs[i].next && j < |runs[i].records| && PaysFor(runs[i].records[j], order);
    assert RunOk(records, runs[i]);
    assert Handled(records, runs[i].records[j], runs[i].failures);
    ParseMeans(runs[i].records[j].body);
  }

  // ---- which amount was charged ----

  /** The record pays this order by this amount, as its fields say. */
  predicate PaysAmount(r: Record, e: Entry) {
    r.id == e.id && PaysOrder(r.body, e.order) && r.body.amount.value == e.amount
  }

  predicate Carried(run: Invocation, e: Entry) {
    exists j :: 0 <= j < run.next && j < |run.records| && PaysAmount(run.records[j], e)
  }

  ghost predicate CarriedBySome(runs: seq<Invocation>, e: Entry) {
    exists i :: 0 <= i < |runs| && Carried(runs[i], e)
  }

  ghost predicate LogIsCarried(s: System) {
    forall k :: 0 <= k < |s.log| ==> CarriedBySome(s.runs, s.log[k])
  }

  lemma StillCarried(xs: seq<Invocation>, ys: seq<Invocation>, e: Entry)
    requires RunsAdvance(xs, ys) && CarriedBySome(xs, e)
    ensures CarriedBySome(ys, e)
  {
    var i :| 0 <= i < |xs| && Carried(xs[i], e);
    var j :| 0 <= j < xs[i].next && j < |xs[i].records| && PaysAmount(xs[i].records[j], e);
    assert PaysAmount(ys[i].records[j], e);
    assert Carried(ys[i], e);
  }

  lemma NextKeepsCarried(cfg: Config, s: System, a: Action)
    requires LogIsCarried(s) && Enabled(s, a)
    ensures LogIsCarried(Next(cfg, s, a))
  {
    var t := Next(cfg, s, a);
    assert RunsAdvance(s.runs, t.runs);
    forall k | 0 <= k < |t.log| ensures CarriedBySome(t.runs, t.log[k]) {
      if k < |s.log| {
        assert t.log[k] == s.log[k];
        StillCarried(s.runs, t.runs, s.log[k]);
      } else {
        var run := s.runs[a.run];
        ParseMeans(run.records[run.next].body);
        assert PaysAmount(run.records[run.next], t.log[k]);
        assert Carried(t.runs[a.run], t.log[k]);
      }
    }
  }

  lemma {:induction false} RunKeepsCarried(cfg: Config, s: System, actions: seq<Action>)
    requires LogIsCarried(s) && CanRun(cfg, s, actions)
    ensures LogIsCarried(Run(cfg, s, actions))
    decreases |actions|
  {
    if actions != [] {
      NextKeepsCarried(cfg, s, actions[0]);
      RunKeepsCarried(cfg, Next(cfg, s, actions[0]), actions[1..]);
    }
  }

  /** Every record that an invocation was handed is a message that was sent. */
  ghost predicate RecordsSent(s: System) {
    forall i, j :: 0 <= i < |s.runs| && 0 <= j < |s.runs[i].records| ==> IsSent(s.sent, s.runs[i].records[j])
  }

  predicate IsSent(sent: map<MessageId, Body>, r: Record) {
    r.id in sent && sent[r.id] == r.body
  }

  lemma NextKeepsSent(cfg: Config, s: System, a: Action)
    requires UniqueIds(s.q.messages) && KnownMessages(s.q.messages, s.sent)
    requires RecordsSent(s) && Enabled(s, a) && !a.InvokeDirectly?
    ensures RecordsSent(Next(cfg, s, a))
  {
    if a.Send? {
      SentMaps(a.ids, a.bodies);
    } else if a.PollReceive? {
      ReceiveKeepsKnown(s.q.messages, a.batchSize, a.now, cfg.timeout, s.sent);
    }
  }

  lemma {:induction false} RunKeepsSent(cfg: Config, s: System, actions: seq<Action>)
    requires Inv(cfg, s) && RecordsSent(s) && CanRun(cfg, s, actions) && cfg.maxReceives >= 1
    requires forall i :: 0 <= i < |actions| ==> !actions[i].InvokeDirectly?
    ensures RecordsSent(Run(cfg, s, actions))
    decreases |actions|
  {
    if actions != [] {
      NextKeepsInv(cfg, s, actions[0]);
      NextKeepsSent(cfg, s, actions[0]);
      RunKeepsSent(cfg, Next(cfg, s, actions[0]), actions[1..]);
    }
  }

  // In every run, a charged order was charged by the amount field of a record that an invocation got past, the one
  // that its idempotency record names.
  lemma ChargedByTheAmount(cfg: Config, actions: seq<Action>, order: string)
    requires cfg.maxReceives >= 1 && CanRun(cfg, Start(), actions)
    requires Charges(Run(cfg, Start(), actions).table, order) > 0
    ensures var t := Run(cfg, Start(), actions).table;
            order in t.records
            && CarriedBySome(Run(cfg, Start(), actions).runs, Entry(order, Total(t, order), t.records[order]))
  {
    RunKeepsInv(cfg, Start(), actions);
    RunKeepsCarried(cfg, Start(), actions);
    var s := Run(cfg, Start(), actions);
    assert Logged(s.log, order);
    var i :| 0 <= i < |s.log| && s.log[i].order == order;
    assert EntryOk(s.table, s.log[i]);
    assert s.log[i] == Entry(order, Total(s.table, order), s.table.records[order]);
  }

  // With the queue as the only way in, that is the amount field of the very message sent under that id.
  lemma ChargedByTheAmountSent(cfg: Config, actions: seq<Action>, order: string)
    requires cfg.maxReceives >= 1 && CanRun(cfg, Start(), actions)
    requires forall i :: 0 <= i < |actions| ==> !actions[i].InvokeDirectly?
    requires Charges(Run(cfg, Start(), actions).table, order) > 0
    ensures var s := Run(cfg, Start(), actions);
            order in s.table.records
            && var id := s.table.records[order];
               id in s.sent && PaysOrder(s.sent[id], order) && Total(s.table, order) == s.sent[id].amount.value
  {
    ChargedByTheAmount(cfg, actions, order);
    RunKeepsSent(cfg, Start(), actions);
    var s := Run(cfg, Start(), actions);
    var e := Entry(order, Total(s.table, order), s.table.records[order]);
    var i :| 0 <= i < |s.runs| && Carried(s.runs[i], e);
    var j :| 0 <= j < s.runs[i].next && j < |s.runs[i].records| && PaysAmount(s.runs[i].records[j], e);
    assert IsSent(s.sent, s.runs[i].records[j]);
  }

  /** The invocations that were handed this record. */
  function Carriers(runs: seq<Invocation>, r: Record): set<nat> {
    set i: nat | i < |runs| && r in runs[i].records
  }

  ghost predicate HandedOut(runs: seq<Invocation>, id: MessageId, body: Body, receives: nat) {
    |Carriers(runs, Record(id, body))| >= receives
  }

  /** Each receive of a message, dead-lettered or not, handed it to another invocation. */
  ghost predicate EachReceiveIsARun(s: System) {
    && (forall i :: 0 <= i < |s.q.messages| ==>
                      HandedOut(s.runs, s.q.messages[i].id, s.q.messages[i].body, s.q.messages[i].receives))
    && (forall i :: 0 <= i < |s.q.deadLetters| ==>
                      HandedOut(s.runs, s.q.deadLetters[i].id, s.q.deadLetters[i].body, s.q.deadLetters[i].receives))
  }

  lemma CarriersGrow(xs: seq<Invocation>, ys: seq<Invocation>, r: Record)
    requires RunsAdvance(xs, ys)
    ensures |Carriers(xs, r)| <= |Carriers(ys, r)|
  {
    assert forall i :: i in Carriers(xs, r) ==> i in Carriers(ys, r);
    SubsetIsSmaller(Carriers(xs, r), Carriers(ys, r));
  }

  lemma NewRunCarriesBatch(runs: seq<Invocation>, batch: seq<Message<Body>>, m: Message<Body>)
    requires m in batch
    ensures |Carriers(runs + [Invocation(RecordsOf(batch), 0, [], Running)], Record(m.id, m.body))|
            == |Carriers(runs, Record(m.id, m.body))| + 1
  {
    var r := Record(m.id, m.body);
    var j :| 0 <= j < |batch| && batch[j] == m;
    assert RecordsOf(batch)[j] == r;
    assert Carriers(runs + [Invocation(RecordsOf(batch), 0, [], Running)], r) == Carriers(runs, r) + {|runs|};
  }

  lemma ReceiveIsARun(cfg: Config, s: System, batchSize: int, now: int)
    requires UniqueIds(s.q.messages) && EachReceiveIsARun(s) && Enabled(s, PollReceive(batchSize, now))
    ensures EachReceiveIsARun(Next(cfg, s, PollReceive(batchSize, now)))
  {
    ReceiveChangesOnlyTheBatch(s.q.messages, batchSize, now, cfg.timeout);
    var (out, batch) := ReceiveFrom(s.q.messages, batchSize, now, cfg.timeout);
    var runs := Next(cfg, s, PollReceive(batchSize, now)).runs;
    assert RunsAdvance(s.runs, runs);
    forall i | 0 <= i < |out| ensures HandedOut(runs, out[i].id, out[i].body, out[i].receives) {
      var m := s.q.messages[i];
      assert HandedOut(s.runs, m.id, m.body, m.receives);
      if TakenNow(m, out[i], batch, now, cfg.timeout) {
        NewRunCarriesBatch(s.runs, batch, out[i]);
      } else {
        CarriersGrow(s.runs, runs, Record(m.id, m.body));
      }
    }
    forall r { CarriersGrow(s.runs, runs, r); }
  }

  lemma SettleIsARun(cfg: Config, s: System)
    requires EachReceiveIsARun(s) && Enabled(s, Settle)
    ensures EachReceiveIsARun(Next(cfg, s, Settle))
  {
    WithoutKeeps(s.q.messages, s.poller.ids[0]);
    FindSound(s.q.messages, s.poller.ids[0]);
    var t := Next(cfg, s, Settle);
    forall i | 0 <= i < |t.q.messages|
      ensures HandedOut(t.runs, t.q.messages[i].id, t.q.messages[i].body, t.q.messages[i].receives)
    {
      assert t.q.messages[i] in s.q.messages;
    }
  }

  lemma NextKeepsRuns(cfg: Config, s: System, a: Action)
    requires UniqueIds(s.q.messages) && EachReceiveIsARun(s) && Enabled(s, a)
    ensures EachReceiveIsARun(Next(cfg, s, a))
  {
    var t := Next(cfg, s, a);
    if a.PollReceive? {
      ReceiveIsARun(cfg, s, a.batchSize, a.now);
    } else if a.Settle? {
      SettleIsARun(cfg, s);
    } else {
      assert RunsAdvance(s.runs, t.runs);
      forall r { CarriersGrow(s.runs, t.runs, r); }
    }
  }

  lemma {:induction false} RunKeepsRuns(cfg: Config, s: System, actions: seq<Action>)
    requires Inv(cfg, s) && EachReceiveIsARun(s) && CanRun(cfg, s, actions) && cfg.maxReceives >= 1
    ensures EachReceiveIsARun(Run(cfg, s, actions))
    decreases |actions|
  {
    if actions != [] {
      NextKeepsInv(cfg, s, actions[0]);
      NextKeepsRuns(cfg, s, actions[0]);
      RunKeepsRuns(cfg, Next(cfg, s, actions[0]), actions[1..]);
    }
  }

  // In every run, a payment that was dead-lettered had been handed to at least as many invocations as the maximum of
  // receives; its order was charged exactly when one of these, or of those with the same order, got past its record.
  lemma DeadLetterChargedIff(cfg: Config, actions: seq<Action>, k: nat)
    requires cfg.maxReceives >= 1 && CanRun(cfg, Start(), actions)
    requires k < |Run(cfg, Start(), actions).q.deadLetters|
    requires Payable(Run(cfg, Start(), actions).q.deadLetters[k].body)
    ensures var s := Run(cfg, Start(), actions);
            var d := s.q.deadLetters[k];
            var order := d.body.orderId.value;
            && |Carriers(s.runs, Record(d.id, d.body))| >= cfg.maxReceives
            && (Charges(s.table, order) == 1 <==> GotPast(s.runs, order))
            && (Charges(s.table, order) == 0 <==> !GotPast(s.runs, order))
  {
    RunKeepsInv(cfg, Start(), actions);
    RunKeepsRuns(cfg, Start(), actions);
    var d := Run(cfg, Start(), actions).q.deadLetters[k];
    assert HandedOut(Run(cfg, Start(), actions).runs, d.id, d.body, d.receives);
    ChargedIffReached(cfg, actions, d.body.orderId.value);
  }

  lemma Prepend(cfg: Config, s: System, a: Action, rest: seq<Action>)
    requires Enabled(s, a) && CanRun(cfg, Next(cfg, s, a), rest)
    ensures CanRun(cfg, s, [a] + rest) && Run(cfg, s, [a] + rest) == Run(cfg, Next(cfg, s, a), rest)
  {
    assert ([a] + rest)[1..] == rest;
  }

  lemma ReceiveOne(m: Message<Body>, limit: int, now: int, timeout: nat)
    requires m.visibleAt <= now && limit >= 1
    ensures ReceiveFrom([m], limit, now, timeout) == ([Hide(m, now, timeout)], [Hide(m, now, timeout)])
  {
    var none: seq<Message<Body>> := [];
    assert [m][..|[m]| - 1] == none && ReceiveFrom(none, limit, now, timeout) == (none, none);
    assert none + [Hide(m, now, timeout)] == [Hide(m, now, timeout)];
  }

  lemma ChargeThenLose(cfg: Config, s: System, m: Message<Body>) returns (actions: seq<Action>)
    requires cfg.maxReceives == 1 && s.q == QueueState([m], [], 0) && s.poller == Waiting([m.id], 0)
    requires m.receives == 1 && Parse(m.body).Pay? && Parse(m.body).order !in s.table.records
    requires Parse(m.body).order !in s.table.charges
    requires s.runs == [Invocation([Record(m.id, m.body)], 0, [], Running)]
    ensures CanRun(cfg, s, actions)
    ensures var d := Run(cfg, s, actions);
            && d.q.deadLetters == [DeadLetter(m.id, m.body, 1)]
            && Charges(d.table, Parse(m.body).order) == 1
  {
    var charged := Next(cfg, s, Work(0));
    var lost := Next(cfg, charged, Lose);
    var settled := Next(cfg, lost, Settle);
    assert lost.poller.ids[0] in lost.poller.failed;
    assert Find(lost.q.messages, m.id) == [m];
    assert CanRun(cfg, settled, []) && Run(cfg, settled, []) == settled;
    Prepend(cfg, lost, Settle, []);
    Prepend(cfg, charged, Lose, [Settle] + []);
    Prepend(cfg, s, Work(0), [Lose] + ([Settle] + []));
    actions := [Work(0)] + ([Lose] + ([Settle] + []));
  }

  // A dead letter is no proof that nothing was charged: the function charged, its answer was lost, and the message
  // had used up its receives.
  lemma DeadLetterMayBeCharged() returns (cfg: Config, actions: seq<Action>)
    ensures cfg.maxReceives >= 1 && CanRun(cfg, Start(), actions)
    ensures var s := Run(cfg, Start(), actions);
            |s.q.deadLetters| == 1 && PaysOrder(s.q.deadLetters[0].body, "ORD-1")
            && Charges(s.table, "ORD-1") == 1
  {
    cfg := Config(12, 1);
    var body := Object(false, Some("ORD-1"), Number(25.0));
    ParseMeans(body);
    assert Parse(body) == Pay("ORD-1", 25.0) by { assert "ORD-1"[0] == 'O' && 'O' in "ORD-1"; }
    var m := Message(0, body, 0, 0);
    var sent := Next(cfg, Start(), Send([0], [body]));
    assert sent.q.messages == [m];
    ReceiveOne(m, 10, 0, 12);
    var polled := Next(cfg, sent, PollReceive(10, 0));
    assert polled.poller == Waiting([0], 0);
    assert RecordsOf([Hide(m, 0, 12)]) == [Record(0, body)];
    assert polled.runs == [Invocation([Record(0, body)], 0, [], Running)];
    var rest := ChargeThenLose(cfg, polled, Hide(m, 0, 12));
    Prepend(cfg, sent, PollReceive(10, 0), rest);
    Prepend(cfg, Start(), Send([0], [body]), [PollReceive(10, 0)] + rest);
    actions := [Send([0], [body])] + ([PollReceive(10, 0)] + rest);
  }
}
