/** The event source mapping: one poll receives a batch, invokes the function and settles every message of it. */
module Poller {
  import opened Basics
  import opened Sqs
  import SqsRuns
  import Environments

  /** How the invocation ended: it failed, it answered something that is not a batch response, or it reported failures. */
  datatype Outcome = InvokeError | InvalidResponse | Reported(failed: set<MessageId>)

  function BatchIds<B>(batch: seq<Message<B>>): seq<MessageId> {
    seq(|batch|, i requires 0 <= i < |batch| => batch[i].id)
  }

  /** The messages to give back: all of them unless the function named the failed ones. */
  function FailedOf(outcome: Outcome, ids: seq<MessageId>): set<MessageId> {
    if outcome.Reported? then outcome.failed else set i | i in ids
  }

  function SettleOne<B>(cfg: Config, q: QueueState<B>, id: MessageId, failed: set<MessageId>): QueueState<B> {
    if id in failed then FailIn(q, id, cfg.maxReceives) else DeleteFrom(q, id)
  }

  function SettleAll<B>(cfg: Config, q: QueueState<B>, ids: seq<MessageId>, failed: set<MessageId>): QueueState<B>
    decreases |ids|
  {
    if ids == [] then q else SettleAll(cfg, SettleOne(cfg, q, ids[0], failed), ids[1..], failed)
  }

  /** The queue after one poll that nothing interleaves with, and whether the poll found messages. */
  function Poll<B>(cfg: Config, q: QueueState<B>, batchSize: int, now: int, outcome: Outcome): (QueueState<B>, bool) {
    var (out, batch) := ReceiveFrom(q.messages, batchSize, now, cfg.timeout);
    if batch == [] then (q.(messages := out), false)
    else (SettleAll(cfg, q.(messages := out), BatchIds(batch), FailedOf(outcome, BatchIds(batch))), true)
  }

  method PollOnce<B>(queue: Queue<B>, batchSize: int, now: int, outcome: Outcome) returns (found: bool)
    requires UniqueIds(queue.messages)
    modifies queue
    ensures (queue.State(), found) == Poll(queue.config, old(queue.State()), batchSize, now, outcome)
    ensures UniqueIds(queue.messages)
  {
    SqsRuns.ReceiveKeepsIds(queue.messages, batchSize, now, queue.config.timeout);
    var batch := queue.Receive(batchSize, now);
    if |batch| == 0 {
      return false;
    }
    var ids := BatchIds(batch);
    var failed := FailedOf(outcome, ids);
    ghost var received := queue.State();
    for i := 0 to |ids|
      invariant UniqueIds(queue.messages)
      invariant SettleAll(queue.config, received, ids, failed) == SettleAll(queue.config, queue.State(), ids[i..], failed)
    {
      assert ids[i..][0] == ids[i] && ids[i..][1..] == ids[i + 1..];
      if ids[i] !in failed {
        queue.Delete(ids[i]);
      } else {
        var _ := queue.Fail(ids[i]);
      }
    }
    return true;
  }

  // ---- receive counts stay below the maximum between polls ----

  ghost predicate BelowMax<B>(ms: seq<Message<B>>, max: nat) {
    forall i :: 0 <= i < |ms| ==> ms[i].receives < max
  }

  ghost predicate DeadAtMax<B>(ds: seq<DeadLetter<B>>, max: nat) {
    forall i :: 0 <= i < |ds| ==> ds[i].receives == max
  }

  /** While `unsettled` is still to be settled, only its messages may have reached the maximum, and none exceeds it. */
  ghost predicate AtMostMax<B>(ms: seq<Message<B>>, unsettled: seq<MessageId>, max: nat) {
    forall i :: 0 <= i < |ms| ==> ms[i].receives <= max && (ms[i].id !in unsettled ==> ms[i].receives < max)
  }

  ghost predicate Bounded<B>(q: QueueState<B>, unsettled: seq<MessageId>, max: nat) {
    UniqueIds(q.messages) && AtMostMax(q.messages, unsettled, max) && DeadAtMax(q.deadLetters, max)
  }

  lemma WithoutKeepsAtMost<B>(ms: seq<Message<B>>, id: MessageId, ids: seq<MessageId>, max: nat)
    requires ids != [] && id == ids[0] && AtMostMax(ms, ids, max)
    ensures AtMostMax(Without(ms, id), ids[1..], max)
  {
    WithoutKeeps(ms, id);
    var out := Without(ms, id);
    forall i | 0 <= i < |out|
      ensures out[i].receives <= max && (out[i].id !in ids[1..] ==> out[i].receives < max)
    {
      var j :| 0 <= j < |ms| && ms[j] == out[i];
      assert ids == [ids[0]] + ids[1..];
    }
  }

  lemma SettleOneKeepsBounded<B>(cfg: Config, q: QueueState<B>, ids: seq<MessageId>, failed: set<MessageId>)
    requires ids != [] && Bounded(q, ids, cfg.maxReceives)
    ensures Bounded(SettleOne(cfg, q, ids[0], failed), ids[1..], cfg.maxReceives)
  {
    var id, max := ids[0], cfg.maxReceives;
    FindSound(q.messages, id);
    if SettleOne(cfg, q, id, failed) == q {
      forall i | 0 <= i < |q.messages| && q.messages[i].id !in ids[1..] ensures q.messages[i].receives < max {
        assert ids == [ids[0]] + ids[1..];
        if q.messages[i].id == id {
          FindAt(q.messages, i);
        }
      }
    } else {
      WithoutIsUnique(q.messages, id);
      WithoutKeepsAtMost(q.messages, id, ids, max);
      var m := Find(q.messages, id)[0];
      var i :| 0 <= i < |q.messages| && q.messages[i] == m;
    }
  }

  lemma {:induction false} SettleAllKeepsBounded<B>(cfg: Config, q: QueueState<B>, ids: seq<MessageId>,
                                                    failed: set<MessageId>)
    requires Bounded(q, ids, cfg.maxReceives)
    ensures Bounded(SettleAll(cfg, q, ids, failed), [], cfg.maxReceives)
    decreases |ids|
  {
    if ids != [] {
      SettleOneKeepsBounded(cfg, q, ids, failed);
      SettleAllKeepsBounded(cfg, SettleOne(cfg, q, ids[0], failed), ids[1..], failed);
    }
  }

  lemma ReceiveKeepsBounded<B>(cfg: Config, q: QueueState<B>, batchSize: int, now: int)
    requires Bounded(q, [], cfg.maxReceives)
    ensures var (out, batch) := ReceiveFrom(q.messages, batchSize, now, cfg.timeout);
            Bounded(q.(messages := out), BatchIds(batch), cfg.maxReceives)
  {
    SqsRuns.ReceiveKeepsIds(q.messages, batchSize, now, cfg.timeout);
    ReceiveChangesOnlyTheBatch(q.messages, batchSize, now, cfg.timeout);
    var (out, batch) := ReceiveFrom(q.messages, batchSize, now, cfg.timeout);
    forall j | 0 <= j < |batch| ensures batch[j].id in BatchIds(batch) {
      assert BatchIds(batch)[j] == batch[j].id;
    }
    assert forall i :: 0 <= i < |out| && out[i] in batch ==> out[i].id in BatchIds(batch);
  }

  // After every poll each queued message has fewer receives than the maximum, and each dead letter exactly the maximum.
  lemma PollKeepsReceiveCounts<B>(cfg: Config, q: QueueState<B>, batchSize: int, now: int, outcome: Outcome)
    requires UniqueIds(q.messages) && BelowMax(q.messages, cfg.maxReceives) && DeadAtMax(q.deadLetters, cfg.maxReceives)
    ensures var after := Poll(cfg, q, batchSize, now, outcome).0;
            && UniqueIds(after.messages)
            && BelowMax(after.messages, cfg.maxReceives) && DeadAtMax(after.deadLetters, cfg.maxReceives)
  {
    ReceiveKeepsBounded(cfg, q, batchSize, now);
    var (out, batch) := ReceiveFrom(q.messages, batchSize, now, cfg.timeout);
    if batch == [] {
      assert BatchIds(batch) == [];
    } else {
      var ids := BatchIds(batch);
      SettleAllKeepsBounded(cfg, q.(messages := out), ids, FailedOf(outcome, ids));
    }
  }

  // ---- what becomes of each message of the batch ----

  /** The function answered, and did not name this message as failed. */
  predicate Processed(outcome: Outcome, id: MessageId) {
    outcome.Reported? && id !in outcome.failed
  }

  ghost function ProcessedIds<B>(batch: seq<Message<B>>, outcome: Outcome): set<MessageId> {
    set m | m in batch && Processed(outcome, m.id) :: m.id
  }

  /** The dead letters a batch makes, in its order: what was not processed and has used up its receives. */
  function NewDead<B>(batch: seq<Message<B>>, outcome: Outcome, max: nat): seq<DeadLetter<B>> {
    if batch == [] then []
    else
      var m := batch[0];
      (if !Processed(outcome, m.id) && m.receives >= max then [DeadLetter(m.id, m.body, m.receives)] else [])
      + NewDead(batch[1..], outcome, max)
  }

  /** The message leaves the queue: it was processed, or this was its last receive. */
  predicate Leaves<B>(m: Message<B>, outcome: Outcome, max: nat) {
    Processed(outcome, m.id) || m.receives >= max
  }

  ghost predicate SettledAs<B>(before: QueueState<B>, after: QueueState<B>, batch: seq<Message<B>>, outcome: Outcome,
                               max: nat) {
    && (forall m :: m in after.messages ==> m in before.messages && !(m in batch && Leaves(m, outcome, max)))
    && (forall m :: m in before.messages && !(m in batch && Leaves(m, outcome, max)) ==> m in after.messages)
    && after.deadLetters == before.deadLetters + NewDead(batch, outcome, max)
    && after.deleted == before.deleted + |ProcessedIds(batch, outcome)|
  }

  ghost predicate Fails<B>(batch: seq<Message<B>>, outcome: Outcome, failed: set<MessageId>) {
    forall m :: m in batch ==> (m.id in failed <==> !Processed(outcome, m.id))
  }

  lemma FindsTheMessage<B>(ms: seq<Message<B>>, m: Message<B>)
    requires UniqueIds(ms) && m in ms
    ensures Find(ms, m.id) == [m]
  {
    var i :| 0 <= i < |ms| && ms[i] == m;
    FindAt(ms, i);
  }

  lemma SameIdSameMessage<B>(ms: seq<Message<B>>, a: Message<B>, b: Message<B>)
    requires UniqueIds(ms) && a in ms && b in ms && a.id == b.id
    ensures a == b
  {
    FindsTheMessage(ms, a);
    FindsTheMessage(ms, b);
  }

  lemma MessagesAfter<B>(ms: seq<Message<B>>, after: seq<Message<B>>, m: Message<B>, outcome: Outcome, max: nat)
    requires UniqueIds(ms) && m in ms
    requires after == if Leaves(m, outcome, max) then Without(ms, m.id) else ms
    ensures forall x :: x in after ==> x in ms && !(x in [m] && Leaves(x, outcome, max))
    ensures forall x :: x in ms && !(x in [m] && Leaves(x, outcome, max)) ==> x in after
  {
    WithoutKeeps(ms, m.id);
    forall x | x in after ensures x in ms && !(x in [m] && Leaves(x, outcome, max)) {
      var i :| 0 <= i < |after| && after[i] == x;
    }
    forall x | x in ms && !(x in [m] && Leaves(x, outcome, max)) ensures x in after {
      var i :| 0 <= i < |ms| && ms[i] == x;
      if x.id == m.id {
        SameIdSameMessage(ms, x, m);
        assert x in [m];
      }
    }
  }

  lemma OnlyOne<B>(m: Message<B>, outcome: Outcome, max: nat)
    ensures NewDead([m], outcome, max) ==
            if !Processed(outcome, m.id) && m.receives >= max then [DeadLetter(m.id, m.body, m.receives)] else []
    ensures ProcessedIds([m], outcome) == if Processed(outcome, m.id) then {m.id} else {}
  {
    var none: seq<Message<B>> := [];
    assert [m][1..] == none && NewDead(none, outcome, max) == [];
    assert m in [m];
  }

  lemma SettleHead<B>(cfg: Config, q: QueueState<B>, m: Message<B>, outcome: Outcome, failed: set<MessageId>)
    requires UniqueIds(q.messages) && m in q.messages && Fails([m], outcome, failed)
    ensures UniqueIds(SettleOne(cfg, q, m.id, failed).messages)
    ensures SettledAs(q, SettleOne(cfg, q, m.id, failed), [m], outcome, cfg.maxReceives)
  {
    assert m in [m];
    FindsTheMessage(q.messages, m);
    WithoutIsUnique(q.messages, m.id);
    OnlyOne(m, outcome, cfg.maxReceives);
    var after := SettleOne(cfg, q, m.id, failed);
    MessagesAfter(q.messages, after.messages, m, outcome, cfg.maxReceives);
  }

  lemma BatchMembers<B>(batch: seq<Message<B>>)
    requires batch != []
    ensures forall m :: m in batch ==> m == batch[0] || m in batch[1..]
    ensures forall m :: m in batch[1..] ==> m in batch
  {
    assert batch == [batch[0]] + batch[1..];
  }

  lemma OthersHaveOtherIds<B>(batch: seq<Message<B>>)
    requires batch != [] && UniqueIds(batch)
    ensures forall m :: m in batch[1..] ==> m.id != batch[0].id
  {
    forall m | m in batch[1..] ensures m.id != batch[0].id {
      var i :| 0 <= i < |batch[1..]| && batch[1..][i] == m;
      assert batch[i + 1] == m;
    }
  }

  lemma ProcessedInTwo<B>(batch: seq<Message<B>>, outcome: Outcome)
    requires batch != [] && UniqueIds(batch)
    ensures |ProcessedIds(batch, outcome)| ==
            (if Processed(outcome, batch[0].id) then 1 else 0) + |ProcessedIds(batch[1..], outcome)|
  {
    BatchMembers(batch);
    OthersHaveOtherIds(batch);
    var first, rest := batch[0].id, ProcessedIds(batch[1..], outcome);
    assert first !in rest;
    assert ProcessedIds(batch, outcome) == rest + if Processed(outcome, first) then {first} else {};
  }

  lemma BatchInTwo<B>(batch: seq<Message<B>>, outcome: Outcome, max: nat)
    requires batch != [] && UniqueIds(batch)
    ensures NewDead(batch, outcome, max) == NewDead([batch[0]], outcome, max) + NewDead(batch[1..], outcome, max)
    ensures |ProcessedIds(batch, outcome)| == |ProcessedIds([batch[0]], outcome)| + |ProcessedIds(batch[1..], outcome)|
  {
    OnlyOne(batch[0], outcome, max);
    ProcessedInTwo(batch, outcome);
  }

  lemma SettledAddsUp<B>(x: QueueState<B>, y: QueueState<B>, z: QueueState<B>, batch: seq<Message<B>>, outcome: Outcome,
                         max: nat)
    requires batch != [] && UniqueIds(batch)
    requires SettledAs(x, y, [batch[0]], outcome, max) && SettledAs(y, z, batch[1..], outcome, max)
    ensures SettledAs(x, z, batch, outcome, max)
  {
    BatchInTwo(batch, outcome, max);
    BatchMembers(batch);
  }

  lemma RestStaysQueued<B>(q: QueueState<B>, next: QueueState<B>, batch: seq<Message<B>>, outcome: Outcome, max: nat)
    requires batch != [] && UniqueIds(batch) && forall m :: m in batch ==> m in q.messages
    requires SettledAs(q, next, [batch[0]], outcome, max)
    ensures forall m :: m in batch[1..] ==> m in next.messages && m in batch
  {
    forall m | m in batch[1..] ensures m in next.messages && m in batch {
      var i :| 0 <= i < |batch[1..]| && batch[1..][i] == m;
      assert batch[i + 1] == m && m != batch[0];
    }
  }

  lemma {:induction false} SettleAllSettles<B>(cfg: Config, q: QueueState<B>, batch: seq<Message<B>>, outcome: Outcome,
                                               failed: set<MessageId>)
    requires UniqueIds(q.messages) && UniqueIds(batch) && Fails(batch, outcome, failed)
    requires forall m :: m in batch ==> m in q.messages
    ensures SettledAs(q, SettleAll(cfg, q, BatchIds(batch), failed), batch, outcome, cfg.maxReceives)
    decreases |batch|
  {
    if batch == [] {
      assert ProcessedIds(batch, outcome) == {};
    } else {
      var m, rest := batch[0], batch[1..];
      assert batch == [m] + rest;
      SettleHead(cfg, q, m, outcome, failed);
      var next := SettleOne(cfg, q, m.id, failed);
      RestStaysQueued(q, next, batch, outcome, cfg.maxReceives);
      assert BatchIds(batch)[1..] == BatchIds(rest);
      SettleAllSettles(cfg, next, rest, outcome, failed);
      SettledAddsUp(q, next, SettleAll(cfg, next, BatchIds(rest), failed), batch, outcome, cfg.maxReceives);
    }
  }

  lemma FailedOrProcessed<B>(batch: seq<Message<B>>, outcome: Outcome)
    ensures Fails(batch, outcome, FailedOf(outcome, BatchIds(batch)))
  {
    forall m | m in batch ensures m.id in BatchIds(batch) {
      var i :| 0 <= i < |batch| && batch[i] == m;
      assert BatchIds(batch)[i] == m.id;
    }
  }

  lemma {:induction false} BatchIsUnique<B>(ms: seq<Message<B>>, limit: int, now: int, timeout: nat)
    requires UniqueIds(ms)
    ensures UniqueIds(ReceiveFrom(ms, limit, now, timeout).1)
  {
    if ms != [] {
      var init, last := ms[..|ms| - 1], ms[|ms| - 1];
      BatchIsUnique(init, limit, now, timeout);
      ReceiveChangesOnlyTheBatch(init, limit, now, timeout);
      var (out, batch) := ReceiveFrom(init, limit, now, timeout);
      forall i | 0 <= i < |batch| ensures batch[i].id != last.id {
        assert batch[i] in out;
        var j :| 0 <= j < |out| && out[j] == batch[i];
        assert out[j].id == init[j].id && ms[j] == init[j];
      }
    }
  }

  // A poll takes its batch and settles exactly its messages: the processed ones are deleted and counted; of the others
  // those on their last receive are dead-lettered, in order, as they are; all the rest stays.
  lemma PollSettlesTheBatch<B>(cfg: Config, q: QueueState<B>, batchSize: int, now: int, outcome: Outcome)
    requires UniqueIds(q.messages)
    ensures var (out, batch) := ReceiveFrom(q.messages, batchSize, now, cfg.timeout);
            var (after, found) := Poll(cfg, q, batchSize, now, outcome);
            (found <==> batch != []) && SettledAs(q.(messages := out), after, batch, outcome, cfg.maxReceives)
  {
    SqsRuns.ReceiveKeepsIds(q.messages, batchSize, now, cfg.timeout);
    ReceiveChangesOnlyTheBatch(q.messages, batchSize, now, cfg.timeout);
    BatchIsUnique(q.messages, batchSize, now, cfg.timeout);
    var (out, batch) := ReceiveFrom(q.messages, batchSize, now, cfg.timeout);
    if batch == [] {
      assert ProcessedIds(batch, outcome) == {};
    } else {
      FailedOrProcessed(batch, outcome);
      SettleAllSettles(cfg, q.(messages := out), batch, outcome, FailedOf(outcome, BatchIds(batch)));
    }
  }

  // So, of each message of the batch: processed, it is in neither queue any more; not processed, it is queued below the
  // maximum or a dead letter at the maximum. Without a valid answer nothing is deleted.
  lemma EachMessageIsSettled<B>(cfg: Config, q: QueueState<B>, batchSize: int, now: int, outcome: Outcome, m: Message<B>)
    requires Bounded(q, [], cfg.maxReceives) && Ids(q.messages) !! DeadIds(q.deadLetters)
    requires m in ReceiveFrom(q.messages, batchSize, now, cfg.timeout).1
    ensures var after := Poll(cfg, q, batchSize, now, outcome).0;
            && (outcome.Reported? && m.id !in outcome.failed ==> m.id !in Ids(after.messages) && m.id !in DeadIds(after.deadLetters))
            && ((outcome.Reported? ==> m.id in outcome.failed) ==>
                  if m.receives < cfg.maxReceives then m in after.messages
                  else m.receives == cfg.maxReceives && m.id !in Ids(after.messages)
                       && DeadLetter(m.id, m.body, m.receives) in after.deadLetters)
            && (!outcome.Reported? ==> after.deleted == q.deleted)
            && (after.deleted == q.deleted + |ProcessedIds(ReceiveFrom(q.messages, batchSize, now, cfg.timeout).1, outcome)|)
  {
    PollSettlesTheBatch(cfg, q, batchSize, now, outcome);
    ReceiveKeepsBounded(cfg, q, batchSize, now);
    SqsRuns.ReceiveKeepsIds(q.messages, batchSize, now, cfg.timeout);
    ReceiveChangesOnlyTheBatch(q.messages, batchSize, now, cfg.timeout);
    var (out, batch) := ReceiveFrom(q.messages, batchSize, now, cfg.timeout);
    NewDeadAre(batch, outcome, cfg.maxReceives);
    BatchIsUnique(q.messages, batchSize, now, cfg.timeout);
    forall x | x in out && x.id == m.id ensures x == m {
      SameIdSameMessage(out, x, m);
    }
    forall x | x in batch && x.id == m.id ensures x == m {
      SameIdSameMessage(batch, x, m);
    }
    if !outcome.Reported? {
      assert ProcessedIds(batch, outcome) == {};
    }
    assert m.id in Ids(out);
  }

  lemma {:induction false} NewDeadAre<B>(batch: seq<Message<B>>, outcome: Outcome, max: nat)
    ensures forall m :: m in batch && !Processed(outcome, m.id) && m.receives >= max ==>
                          DeadLetter(m.id, m.body, m.receives) in NewDead(batch, outcome, max)
    ensures forall d :: d in NewDead(batch, outcome, max) ==>
                          exists m :: m in batch && !Processed(outcome, m.id) && m.receives >= max
                                      && d == DeadLetter(m.id, m.body, m.receives)
  {
    if batch != [] {
      NewDeadAre(batch[1..], outcome, max);
      assert batch == [batch[0]] + batch[1..];
      assert batch[0] in batch;
    }
  }

  /** What the poller makes of an invocation that came back: with an error it does not look at the reply at all. */
  function Heard(result: Environments.Result, reply: Option<set<MessageId>>): Outcome
    requires result.Result?
  {
    if result.error != Environments.NoError then InvokeError
    else if reply.None? then InvalidResponse
    else Reported(reply.value)
  }

  // From the exchange with the function to the queue: unless the function answered 200 without a function error, and
  // with a valid batch response, nothing is deleted and every message of the batch goes back or is dead-lettered; else
  // exactly the messages it did not name are deleted.
  lemma ExchangeSettlesTheBatch<B>(cfg: Config, q: QueueState<B>, batchSize: int, now: int,
                                   exchange: Environments.Exchange, reply: Option<set<MessageId>>, m: Message<B>)
    requires Bounded(q, [], cfg.maxReceives) && Ids(q.messages) !! DeadIds(q.deadLetters)
    requires m in ReceiveFrom(q.messages, batchSize, now, cfg.timeout).1
    requires !exchange.OtherException?
    ensures var after := Poll(cfg, q, batchSize, now, Heard(Environments.ResultOf(exchange, false), reply)).0;
            var success := exchange == Environments.Response(200, false) && reply.Some?;
            && (success && m.id !in reply.value ==> m.id !in Ids(after.messages) && m.id !in DeadIds(after.deadLetters)
                                                    && after.deleted > q.deleted)
            && ((success ==> m.id in reply.value) ==>
                  m in after.messages || DeadLetter(m.id, m.body, m.receives) in after.deadLetters)
            && (!success ==> after.deleted == q.deleted)
  {
    Environments.ResultMeans(exchange, false);
    var outcome := Heard(Environments.ResultOf(exchange, false), reply);
    EachMessageIsSettled(cfg, q, batchSize, now, outcome, m);
    var batch := ReceiveFrom(q.messages, batchSize, now, cfg.timeout).1;
    if Processed(outcome, m.id) {
      assert m.id in ProcessedIds(batch, outcome);
    }
  }

  // ---- the queue drains ----

  /** How many receives the queued messages have left in all. */
  function Remaining<B>(ms: seq<Message<B>>, max: nat): int {
    if ms == [] then 0 else Remaining(ms[..|ms| - 1], max) + max - ms[|ms| - 1].receives
  }

  lemma {:induction false} ReceiveSpends<B>(ms: seq<Message<B>>, limit: int, now: int, timeout: nat, max: nat)
    ensures var (out, batch) := ReceiveFrom(ms, limit, now, timeout);
            Remaining(out, max) == Remaining(ms, max) - |batch|
  {
    if ms != [] {
      ReceiveSpends(ms[..|ms| - 1], limit, now, timeout, max);
      var out := ReceiveFrom(ms, limit, now, timeout).0;
      assert out[..|out| - 1] == ReceiveFrom(ms[..|ms| - 1], limit, now, timeout).0;
    }
  }

  lemma {:induction false} RemainingOfAppend<B>(xs: seq<Message<B>>, ys: seq<Message<B>>, max: nat)
    ensures Remaining(xs + ys, max) == Remaining(xs, max) + Remaining(ys, max)
    decreases |ys|
  {
    if ys == [] {
      assert xs + ys == xs;
    } else {
      assert (xs + ys)[..|xs + ys| - 1] == xs + ys[..|ys| - 1];
      RemainingOfAppend(xs, ys[..|ys| - 1], max);
    }
  }

  lemma {:induction false} RemovingSpends<B>(ms: seq<Message<B>>, id: MessageId, max: nat)
    requires forall i :: 0 <= i < |ms| ==> ms[i].receives <= max
    ensures Remaining(Without(ms, id), max) <= Remaining(ms, max)
  {
    if ms != [] {
      RemovingSpends(ms[1..], id, max);
      assert ms == [ms[0]] + ms[1..];
      RemainingOfAppend([ms[0]], ms[1..], max);
      RemainingOfAppend([ms[0]], Without(ms[1..], id), max);
      assert [ms[0]][..0] == [];
      assert Remaining([ms[0]], max) == max - ms[0].receives;
      assert [] + Without(ms[1..], id) == Without(ms[1..], id);
    }
  }

  lemma {:induction false} SettlingSpends<B>(cfg: Config, q: QueueState<B>, ids: seq<MessageId>, failed: set<MessageId>)
    requires Bounded(q, ids, cfg.maxReceives)
    ensures Remaining(SettleAll(cfg, q, ids, failed).messages, cfg.maxReceives) <= Remaining(q.messages, cfg.maxReceives)
    decreases |ids|
  {
    if ids != [] {
      RemovingSpends(q.messages, ids[0], cfg.maxReceives);
      SettleOneKeepsBounded(cfg, q, ids, failed);
      SettlingSpends(cfg, SettleOne(cfg, q, ids[0], failed), ids[1..], failed);
    }
  }

  // A poll that finds messages strictly reduces the receives that are left.
  lemma PollSpends<B>(cfg: Config, q: QueueState<B>, batchSize: int, now: int, outcome: Outcome)
    requires Bounded(q, [], cfg.maxReceives)
    ensures var (after, found) := Poll(cfg, q, batchSize, now, outcome);
            if found then Remaining(after.messages, cfg.maxReceives) < Remaining(q.messages, cfg.maxReceives)
            else Remaining(after.messages, cfg.maxReceives) == Remaining(q.messages, cfg.maxReceives)
  {
    ReceiveKeepsBounded(cfg, q, batchSize, now);
    ReceiveSpends(q.messages, batchSize, now, cfg.timeout, cfg.maxReceives);
    var (out, batch) := ReceiveFrom(q.messages, batchSize, now, cfg.timeout);
    if batch != [] {
      SettlingSpends(cfg, q.(messages := out), BatchIds(batch), FailedOf(outcome, BatchIds(batch)));
    }
  }

  lemma {:induction false} RemainingIsPositive<B>(ms: seq<Message<B>>, max: nat)
    requires BelowMax(ms, max)
    ensures Remaining(ms, max) >= |ms|
  {
    if ms != [] {
      RemainingIsPositive(ms[..|ms| - 1], max);
    }
  }

  datatype Round = Round(now: int, outcome: Outcome)

  function PollMany<B>(cfg: Config, q: QueueState<B>, batchSize: int, rounds: seq<Round>): QueueState<B>
    decreases |rounds|
  {
    if rounds == [] then q
    else PollMany(cfg, Poll(cfg, q, batchSize, rounds[0].now, rounds[0].outcome).0, batchSize, rounds[1..])
  }

  ghost predicate AllVisible<B>(ms: seq<Message<B>>, now: int) {
    forall i :: 0 <= i < |ms| ==> ms[i].visibleAt <= now
  }

  /** The polls that count, picked greedily: the first at `t` or later, each next one a timeout after the last picked. */
  function Slots(rounds: seq<Round>, t: int, timeout: nat): nat
    decreases |rounds|
  {
    if rounds == [] then 0
    else if rounds[0].now < t then Slots(rounds[1..], t, timeout)
    else 1 + Slots(rounds[1..], rounds[0].now + timeout, timeout)
  }

  // Starting to count later finds no more polls, and at most one fewer if it is at most one timeout later.
  lemma {:induction false} LaterSlots(rounds: seq<Round>, t: int, u: int, timeout: nat)
    requires t <= u
    ensures Slots(rounds, u, timeout) <= Slots(rounds, t, timeout)
    ensures u <= t + timeout ==> Slots(rounds, t, timeout) <= Slots(rounds, u, timeout) + 1
    decreases |rounds|
  {
    if rounds != [] {
      var now := rounds[0].now;
      if now < t {
        LaterSlots(rounds[1..], t, u, timeout);
      } else if now < u {
        var next := now + timeout;
        if u <= next {
          LaterSlots(rounds[1..], u, next, timeout);
        } else {
          LaterSlots(rounds[1..], next, u, timeout);
        }
      }
    }
  }

  lemma {:induction false} VisibleIsFound<B>(ms: seq<Message<B>>, limit: int, now: int, timeout: nat)
    requires ms != [] && AllVisible(ms, now) && limit >= 1
    ensures ReceiveFrom(ms, limit, now, timeout).1 != []
  {
    if |ms| > 1 {
      VisibleIsFound(ms[..|ms| - 1], limit, now, timeout);
    }
  }

  lemma {:induction false} SettlingKeepsVisible<B>(cfg: Config, q: QueueState<B>, ids: seq<MessageId>,
                                                   failed: set<MessageId>, now: int)
    requires AllVisible(q.messages, now)
    ensures AllVisible(SettleAll(cfg, q, ids, failed).messages, now)
    decreases |ids|
  {
    if ids != [] {
      WithoutKeeps(q.messages, ids[0]);
      var next := SettleOne(cfg, q, ids[0], failed);
      forall i | 0 <= i < |next.messages| ensures next.messages[i].visibleAt <= now {
        assert next.messages[i] in q.messages;
      }
      SettlingKeepsVisible(cfg, next, ids[1..], failed, now);
    }
  }

  /** What `now` hides is visible again one timeout later; the rest was visible at `t`. */
  function VisibleAgain(t: int, now: int, timeout: nat): int {
    if now + timeout < t then t else now + timeout
  }

  lemma PollKeepsVisible<B>(cfg: Config, q: QueueState<B>, batchSize: int, now: int, outcome: Outcome, t: int)
    requires UniqueIds(q.messages) && AllVisible(q.messages, t)
    ensures AllVisible(Poll(cfg, q, batchSize, now, outcome).0.messages, VisibleAgain(t, now, cfg.timeout))
    ensures !Poll(cfg, q, batchSize, now, outcome).1 ==> Poll(cfg, q, batchSize, now, outcome).0 == q
  {
    ReceiveChangesOnlyTheBatch(q.messages, batchSize, now, cfg.timeout);
    var (out, batch) := ReceiveFrom(q.messages, batchSize, now, cfg.timeout);
    var later := VisibleAgain(t, now, cfg.timeout);
    assert AllVisible(out, later);
    if batch == [] {
      assert out == q.messages;
    } else {
      SettlingKeepsVisible(cfg, q.(messages := out), BatchIds(batch), FailedOf(outcome, BatchIds(batch)), later);
    }
  }

  // Whatever the functions answer and whenever the polls come, polling without sends empties the queue once as many
  // polls as there are receives left were a visibility timeout apart.
  lemma {:induction false} QueueDrains<B>(cfg: Config, q: QueueState<B>, batchSize: int, rounds: seq<Round>, t: int)
    requires batchSize >= 1 && Bounded(q, [], cfg.maxReceives) && AllVisible(q.messages, t)
    requires Slots(rounds, t, cfg.timeout) >= Remaining(q.messages, cfg.maxReceives)
    ensures PollMany(cfg, q, batchSize, rounds).messages == []
    decreases |rounds|
  {
    RemainingIsPositive(q.messages, cfg.maxReceives);
    if rounds != [] {
      var r := rounds[0];
      var (next, found) := Poll(cfg, q, batchSize, r.now, r.outcome);
      PollSpends(cfg, q, batchSize, r.now, r.outcome);
      PollKeepsReceiveCounts(cfg, q, batchSize, r.now, r.outcome);
      PollKeepsVisible(cfg, q, batchSize, r.now, r.outcome, t);
      if r.now >= t && q.messages != [] {
        VisibleIsFound(q.messages, batchSize, r.now, cfg.timeout);
      }
      var u := if found then VisibleAgain(t, r.now, cfg.timeout) else t;
      if r.now < t {
        LaterSlots(rounds[1..], t, u, cfg.timeout);
      } else if !found {
        LaterSlots(rounds[1..], t, r.now + cfg.timeout, cfg.timeout);
      }
      QueueDrains(cfg, next, batchSize, rounds[1..], u);
    }
  }

  /** The clock never goes back, and a poll follows the one before within `gap`; the first comes within `gap` of `t`. */
  ghost predicate KeepsPolling(rounds: seq<Round>, t: int, gap: nat) {
    && (rounds != [] ==> rounds[0].now <= t + gap)
    && forall i :: 0 < i < |rounds| ==> rounds[i - 1].now <= rounds[i].now <= rounds[i - 1].now + gap
  }

  function Periods(n: nat, period: nat): nat {
    if n == 0 then 0 else period + Periods(n - 1, period)
  }

  lemma {:induction false} PeriodsAreAProduct(n: nat, period: nat)
    ensures Periods(n, period) == n * period
  {
    if n > 0 {
      PeriodsAreAProduct(n - 1, period);
      assert n * period == period + (n - 1) * period;
    }
  }

  lemma RestKeepsPolling(rounds: seq<Round>, t: int, u: int, gap: nat)
    requires rounds != [] && KeepsPolling(rounds, t, gap) && rounds[0].now <= u
    ensures KeepsPolling(rounds[1..], u, gap)
  {
    var rest := rounds[1..];
    forall i | 0 < i < |rest| ensures rest[i - 1].now <= rest[i].now <= rest[i - 1].now + gap {
      assert rounds[i].now <= rounds[i + 1].now;
    }
    if rest != [] {
      assert rounds[1].now <= rounds[0].now + gap;
    }
  }

  lemma {:induction false} TimeGivesSlots(rounds: seq<Round>, t: int, gap: nat, timeout: nat)
    requires rounds != [] && KeepsPolling(rounds, t, gap)
    ensures rounds[|rounds| - 1].now <= t + Periods(Slots(rounds, t, timeout), gap + timeout)
    decreases |rounds|
  {
    var rest := rounds[1..];
    var now := rounds[0].now;
    if rest != [] {
      var u := if now < t then t else now + timeout;
      RestKeepsPolling(rounds, t, u, gap);
      TimeGivesSlots(rest, u, gap, timeout);
    }
  }

  // So a poller that comes back within `gap` each time empties the queue in the time of one visibility timeout and one
  // gap for each receive that is left.
  lemma QueueDrainsInTime<B>(cfg: Config, q: QueueState<B>, batchSize: int, rounds: seq<Round>, t: int, gap: nat)
    requires batchSize >= 1 && Bounded(q, [], cfg.maxReceives) && AllVisible(q.messages, t)
    requires rounds != [] && KeepsPolling(rounds, t, gap)
    requires rounds[|rounds| - 1].now > t + (Remaining(q.messages, cfg.maxReceives) - 1) * (gap + cfg.timeout)
    ensures PollMany(cfg, q, batchSize, rounds).messages == []
  {
    var slots, left := Slots(rounds, t, cfg.timeout), Remaining(q.messages, cfg.maxReceives);
    TimeGivesSlots(rounds, t, gap, cfg.timeout);
    PeriodsAreAProduct(slots, gap + cfg.timeout);
    if slots < left {
      LessTimesLess(slots, left - 1, gap + cfg.timeout);
      assert false;
    }
    QueueDrains(cfg, q, batchSize, rounds, t);
  }

  lemma LessTimesLess(a: int, b: int, c: nat)
    requires a <= b
    ensures a * c <= b * c
  {
  }
}
