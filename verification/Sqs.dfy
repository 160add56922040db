/** The in-memory stand-in for an SQS standard queue with a redrive policy to a dead letter queue. */
module Sqs {

  type MessageId = nat

  datatype Message<B> = Message(id: MessageId, body: B, receives: nat, visibleAt: int)

  datatype DeadLetter<B> = DeadLetter(id: MessageId, body: B, receives: nat)

  /** The queue keeps its messages in insertion order; `deleted` only counts. */
  datatype QueueState<B> = QueueState(messages: seq<Message<B>>, deadLetters: seq<DeadLetter<B>>, deleted: nat)

  /** How long a received message stays hidden, and after how many receives a failure dead-letters it. */
  datatype Config = Config(timeout: nat, maxReceives: nat)

  // ---- what each operation does to the queue ----

  function Fresh<B>(ids: seq<MessageId>, bodies: seq<B>): seq<Message<B>>
    requires |ids| == |bodies|
  {
    seq(|ids|, i requires 0 <= i < |ids| => Message(ids[i], bodies[i], 0, 0))
  }

  function SendTo<B>(q: QueueState<B>, ids: seq<MessageId>, bodies: seq<B>): QueueState<B>
    requires |ids| == |bodies|
  {
    q.(messages := q.messages + Fresh(ids, bodies))
  }

  function Hide<B>(m: Message<B>, now: int, timeout: nat): Message<B> {
    m.(receives := m.receives + 1, visibleAt := now + timeout)
  }

  /** The messages after a receive, and the batch it took. */
  function ReceiveFrom<B>(ms: seq<Message<B>>, limit: int, now: int, timeout: nat): (seq<Message<B>>, seq<Message<B>>) {
    if ms == [] then ([], [])
    else
      var (out, batch) := ReceiveFrom(ms[..|ms| - 1], limit, now, timeout);
      var m := ms[|ms| - 1];
      if m.visibleAt <= now && |batch| < limit
      then (out + [Hide(m, now, timeout)], batch + [Hide(m, now, timeout)])
      else (out + [m], batch)
  }

  ghost function Ids<B>(ms: seq<Message<B>>): set<MessageId> {
    set m | m in ms :: m.id
  }

  ghost function DeadIds<B>(ds: seq<DeadLetter<B>>): set<MessageId> {
    set d | d in ds :: d.id
  }

  function Without<B>(ms: seq<Message<B>>, id: MessageId): seq<Message<B>> {
    if ms == [] then [] else (if ms[0].id == id then [] else [ms[0]]) + Without(ms[1..], id)
  }

  /** The message with this id; ids are unique in a queue. */
  function Find<B>(ms: seq<Message<B>>, id: MessageId): seq<Message<B>> {
    if ms == [] then [] else if ms[0].id == id then [ms[0]] else Find(ms[1..], id)
  }

  function DeleteFrom<B>(q: QueueState<B>, id: MessageId): QueueState<B> {
    if Find(q.messages, id) == [] then q
    else q.(messages := Without(q.messages, id), deleted := q.deleted + 1)
  }

  predicate Exhausted<B>(q: QueueState<B>, id: MessageId, maxReceives: nat) {
    Find(q.messages, id) != [] && Find(q.messages, id)[0].receives >= maxReceives
  }

  function FailIn<B>(q: QueueState<B>, id: MessageId, maxReceives: nat): QueueState<B> {
    if !Exhausted(q, id, maxReceives) then q
    else
      var m := Find(q.messages, id)[0];
      q.(messages := Without(q.messages, id), deadLetters := q.deadLetters + [DeadLetter(id, m.body, m.receives)])
  }

  function Purged<B>(q: QueueState<B>): QueueState<B> {
    QueueState([], [], 0)
  }

  // ---- the class ----

  class Queue<B> {
    var messages: seq<Message<B>>
    var deadLetters: seq<DeadLetter<B>>
    var deleted: nat
    const config: Config

    constructor (config: Config)
      ensures this.config == config && State() == QueueState([], [], 0)
    {
      this.config := config;
      messages, deadLetters, deleted := [], [], 0;
    }

    function State(): QueueState<B>
      reads this
    {
      QueueState(messages, deadLetters, deleted)
    }

    method Send(ids: seq<MessageId>, bodies: seq<B>)
      requires |ids| == |bodies|
      modifies this
      ensures State() == SendTo(old(State()), ids, bodies)
    {
      for i := 0 to |bodies|
        invariant deadLetters == old(deadLetters) && deleted == old(deleted)
        invariant messages == old(messages) + Fresh(ids[..i], bodies[..i])
      {
        messages := messages + [Message(ids[i], bodies[i], 0, 0)];
      }
      assert ids[..|ids|] == ids && bodies[..|bodies|] == bodies;
    }

    method Receive(limit: int, now: int) returns (batch: seq<Message<B>>)
      modifies this
      ensures (messages, batch) == ReceiveFrom(old(messages), limit, now, config.timeout)
      ensures deadLetters == old(deadLetters) && deleted == old(deleted)
    {
      batch := [];
      ghost var all := messages;
      for i := 0 to |messages|
        invariant |messages| == |all| && messages[i..] == all[i..]
        invariant (messages[..i], batch) == ReceiveFrom(all[..i], limit, now, config.timeout)
        invariant deadLetters == old(deadLetters) && deleted == old(deleted)
      {
        assert all[..i + 1][..i] == all[..i];
        var m := messages[i];
        assert m == all[i..][0];
        if m.visibleAt <= now && |batch| < limit {
          messages := messages[i := Hide(m, now, config.timeout)];
          batch := batch + [messages[i]];
        }
        assert messages[..i + 1] == messages[..i] + [messages[i]];
      }
      assert all[..|all|] == all && messages[..|messages|] == messages;
    }

    method Lookup(id: MessageId) returns (index: int)
      ensures index < 0 ==> Find(messages, id) == []
      ensures 0 <= index ==> && index < |messages| && Find(messages, id) == [messages[index]]
                             && messages[index].id == id
    {
      index := 0;
      while index < |messages|
        invariant 0 <= index <= |messages|
        invariant Find(messages, id) == Find(messages[index..], id)
      {
        if messages[index].id == id {
          return;
        }
        index := index + 1;
      }
      index := -1;
    }

    method Delete(id: MessageId)
      requires UniqueIds(messages)
      modifies this
      ensures State() == DeleteFrom(old(State()), id) && UniqueIds(messages)
    {
      var i := Lookup(id);
      if 0 <= i {
        WithoutIsCut(messages, i);
        messages := messages[..i] + messages[i + 1..];
        deleted := deleted + 1;
      }
    }

    /** True when the message was moved to the dead letter queue. */
    method Fail(id: MessageId) returns (moved: bool)
      requires UniqueIds(messages)
      modifies this
      ensures State() == FailIn(old(State()), id, config.maxReceives) && UniqueIds(messages)
      ensures moved <==> Exhausted(old(State()), id, config.maxReceives)
    {
      var i := Lookup(id);
      if 0 <= i && messages[i].receives >= config.maxReceives {
        WithoutIsCut(messages, i);
        var m := messages[i];
        messages := messages[..i] + messages[i + 1..];
        deadLetters := deadLetters + [DeadLetter(id, m.body, m.receives)];
        return true;
      }
      return false;
    }

    method Purge() returns (removed: nat)
      modifies this
      ensures State() == Purged(old(State())) && removed == |old(messages)| + |old(deadLetters)|
    {
      removed := |messages| + |deadLetters|;
      messages, deadLetters, deleted := [], [], 0;
    }
  }

  // ---- ids ----

  ghost predicate UniqueIds<B>(ms: seq<Message<B>>) {
    forall i, j :: 0 <= i < j < |ms| ==> ms[i].id != ms[j].id
  }

  ghost predicate UniqueDead<B>(ds: seq<DeadLetter<B>>) {
    forall i, j :: 0 <= i < j < |ds| ==> ds[i].id != ds[j].id
  }

  lemma {:induction false} WithoutAbsent<B>(ms: seq<Message<B>>, id: MessageId)
    requires id !in Ids(ms)
    ensures Without(ms, id) == ms
  {
    if ms != [] {
      assert ms == [ms[0]] + ms[1..];
      assert ms[0] in ms;
      WithoutAbsent(ms[1..], id);
    }
  }

  // Removing the only message with an id is cutting it out of the sequence.
  lemma {:induction false} WithoutIsCut<B>(ms: seq<Message<B>>, i: nat)
    requires UniqueIds(ms) && i < |ms|
    ensures Without(ms, ms[i].id) == ms[..i] + ms[i + 1..]
    ensures UniqueIds(ms[..i] + ms[i + 1..])
  {
    if i == 0 {
      WithoutAbsent(ms[1..], ms[0].id);
    } else {
      WithoutIsCut(ms[1..], i - 1);
      assert ms[1..][i - 1] == ms[i];
      assert ms[..i] + ms[i + 1..] == [ms[0]] + (ms[1..][..i - 1] + ms[1..][i..]);
    }
  }

  lemma {:induction false} FindSound<B>(ms: seq<Message<B>>, id: MessageId)
    ensures Find(ms, id) == [] <==> id !in Ids(ms)
    ensures Find(ms, id) != [] ==> Find(ms, id)[0] in ms && Find(ms, id)[0].id == id
  {
    if ms != [] {
      assert ms == [ms[0]] + ms[1..];
      assert ms[0] in ms;
      FindSound(ms[1..], id);
    }
  }

  lemma {:induction false} WithoutKeeps<B>(ms: seq<Message<B>>, id: MessageId)
    ensures forall i :: 0 <= i < |Without(ms, id)| ==> Without(ms, id)[i] in ms && Without(ms, id)[i].id != id
    ensures forall i :: 0 <= i < |ms| && ms[i].id != id ==> ms[i] in Without(ms, id)
  {
    if ms != [] {
      var rest := Without(ms[1..], id);
      WithoutKeeps(ms[1..], id);
      assert ms == [ms[0]] + ms[1..];
      forall i | 0 <= i < |ms| && ms[i].id != id ensures ms[i] in Without(ms, id) {
        if i > 0 {
          assert ms[1..][i - 1] == ms[i];
        }
      }
    }
  }

  lemma {:induction false} WithoutIsUnique<B>(ms: seq<Message<B>>, id: MessageId)
    requires UniqueIds(ms)
    ensures UniqueIds(Without(ms, id))
  {
    if ms != [] {
      WithoutIsUnique(ms[1..], id);
      WithoutKeeps(ms[1..], id);
      var rest := Without(ms[1..], id);
      forall j | 0 <= j < |rest| ensures rest[j].id != ms[0].id {
        var i :| 0 <= i < |ms[1..]| && ms[1..][i] == rest[j];
        assert ms[i + 1] == rest[j];
      }
    }
  }

  lemma WithoutRemoves<B>(ms: seq<Message<B>>, id: MessageId)
    ensures Ids(Without(ms, id)) == Ids(ms) - {id}
    ensures forall m :: m in Without(ms, id) <==> m in ms && m.id != id
    ensures UniqueIds(ms) ==> UniqueIds(Without(ms, id))
  {
    WithoutKeeps(ms, id);
    if UniqueIds(ms) {
      WithoutIsUnique(ms, id);
    }
    forall m | m in ms && m.id != id ensures m in Without(ms, id) {
      var i :| 0 <= i < |ms| && ms[i] == m;
    }
    forall x | x in Ids(ms) - {id} ensures x in Ids(Without(ms, id)) {
      var m :| m in ms && m.id == x;
      assert m in Without(ms, id);
    }
  }

  lemma {:induction false} IdsCount<B>(ms: seq<Message<B>>)
    requires UniqueIds(ms)
    ensures |Ids(ms)| == |ms|
  {
    if ms != [] {
      var rest := ms[1..];
      assert ms == [ms[0]] + rest;
      IdsCount(rest);
      assert Ids(ms) == {ms[0].id} + Ids(rest);
      assert ms[0].id !in Ids(rest);
    }
  }

  lemma {:induction false} DeadIdsCount<B>(ds: seq<DeadLetter<B>>)
    requires UniqueDead(ds)
    ensures |DeadIds(ds)| == |ds|
  {
    if ds != [] {
      var rest := ds[1..];
      assert ds == [ds[0]] + rest;
      DeadIdsCount(rest);
      assert DeadIds(ds) == {ds[0].id} + DeadIds(rest);
      assert ds[0].id !in DeadIds(rest);
    }
  }

  // ---- what the other operations do to a message ----

  // What is sent joins at the end, in order, with no receive, visible at every time from zero on.
  lemma SendExactly<B>(q: QueueState<B>, ids: seq<MessageId>, bodies: seq<B>)
    requires |ids| == |bodies|
    ensures var after := SendTo(q, ids, bodies);
            && |after.messages| == |q.messages| + |ids| && after.messages[..|q.messages|] == q.messages
            && (forall i :: 0 <= i < |ids| ==> after.messages[|q.messages| + i] == Message(ids[i], bodies[i], 0, 0))
            && after.deadLetters == q.deadLetters && after.deleted == q.deleted
  {
  }

  // Deleting takes away the one message with this id and counts it, or does nothing.
  lemma DeleteExactly<B>(q: QueueState<B>, id: MessageId)
    requires UniqueIds(q.messages)
    ensures var after := DeleteFrom(q, id);
            && (id !in Ids(q.messages) ==> after == q)
            && (id in Ids(q.messages) ==>
                  && Ids(after.messages) == Ids(q.messages) - {id} && |after.messages| == |q.messages| - 1
                  && (forall i :: 0 <= i < |q.messages| && q.messages[i].id != id ==> q.messages[i] in after.messages)
                  && after.deleted == q.deleted + 1 && after.deadLetters == q.deadLetters)
  {
    FindSound(q.messages, id);
    WithoutKeeps(q.messages, id);
    WithoutRemoves(q.messages, id);
    IdsCount(q.messages);
    IdsCount(Without(q.messages, id));
  }

  // Failing moves the message with this id, as it is, to the end of the dead letters once it has used up its receives,
  // and otherwise leaves it hidden where it is.
  lemma FailExactly<B>(q: QueueState<B>, i: nat, max: nat)
    requires UniqueIds(q.messages) && i < |q.messages|
    ensures var m := q.messages[i];
            var after := FailIn(q, m.id, max);
            && (m.receives < max ==> after == q)
            && (m.receives >= max ==>
                  && after.messages == q.messages[..i] + q.messages[i + 1..] && after.deleted == q.deleted
                  && after.deadLetters == q.deadLetters + [DeadLetter(m.id, m.body, m.receives)])
  {
    FindAt(q.messages, i);
    WithoutIsCut(q.messages, i);
  }

  lemma FailOfUnknown<B>(q: QueueState<B>, id: MessageId, max: nat)
    requires id !in Ids(q.messages)
    ensures FailIn(q, id, max) == q
  {
    FindSound(q.messages, id);
  }

  lemma {:induction false} FindAt<B>(ms: seq<Message<B>>, i: nat)
    requires UniqueIds(ms) && i < |ms|
    ensures Find(ms, ms[i].id) == [ms[i]]
  {
    if i > 0 {
      FindAt(ms[1..], i - 1);
      assert ms[1..][i - 1] == ms[i];
    }
  }

  // ---- what a receive takes ----

  function VisibleAt<B>(ms: seq<Message<B>>, now: int): seq<Message<B>> {
    if ms == [] then []
    else
      var rest := VisibleAt(ms[..|ms| - 1], now);
      if ms[|ms| - 1].visibleAt <= now then rest + [ms[|ms| - 1]] else rest
  }

  function Taken<B>(visible: seq<Message<B>>, limit: int): nat {
    if limit < 0 then 0 else if |visible| < limit then |visible| else limit
  }

  // The batch is the first visible messages in insertion order, up to the limit, each hidden and counted once more.
  lemma {:induction false} ReceiveTakesTheFirstVisible<B>(ms: seq<Message<B>>, limit: int, now: int, timeout: nat)
    ensures var visible := VisibleAt(ms, now);
            var n := Taken(visible, limit);
            ReceiveFrom(ms, limit, now, timeout).1 == seq(n, i requires 0 <= i < n => Hide(visible[i], now, timeout))
  {
    if ms != [] {
      ReceiveTakesTheFirstVisible(ms[..|ms| - 1], limit, now, timeout);
    }
  }

  ghost predicate Untouched<B>(before: Message<B>, after: Message<B>, batch: seq<Message<B>>) {
    after == before && before.id !in Ids(batch)
  }

  ghost predicate TakenNow<B>(before: Message<B>, after: Message<B>, batch: seq<Message<B>>, now: int, timeout: nat) {
    before.visibleAt <= now && after == Hide(before, now, timeout) && after in batch
  }

  // Position by position, a message is untouched or was visible and is hidden and in the batch.
  lemma {:induction false} ReceiveChangesOnlyTheBatch<B>(ms: seq<Message<B>>, limit: int, now: int, timeout: nat)
    requires UniqueIds(ms)
    ensures var (out, batch) := ReceiveFrom(ms, limit, now, timeout);
            && |out| == |ms|
            && (forall i :: 0 <= i < |ms| ==> Untouched(ms[i], out[i], batch) || TakenNow(ms[i], out[i], batch, now, timeout))
            && (forall b :: b in batch ==> b in out)
  {
    if ms != [] {
      var init := ms[..|ms| - 1];
      var last := ms[|ms| - 1];
      ReceiveChangesOnlyTheBatch(init, limit, now, timeout);
      var (out0, batch0) := ReceiveFrom(init, limit, now, timeout);
      var (out, batch) := ReceiveFrom(ms, limit, now, timeout);
      forall b | b in batch0 ensures b.id != last.id {
        assert b in out0;
        var j :| 0 <= j < |out0| && out0[j] == b;
        assert b.id == ms[j].id;
      }
      forall i | 0 <= i < |ms|
        ensures Untouched(ms[i], out[i], batch) || TakenNow(ms[i], out[i], batch, now, timeout)
      {
        if i < |init| {
          assert out[i] == out0[i] && ms[i] == init[i];
          assert ms[i].id != last.id;
        }
      }
    }
  }

  lemma {:induction false} VisibleOfAppend<B>(xs: seq<Message<B>>, ys: seq<Message<B>>, now: int)
    ensures VisibleAt(xs + ys, now) == VisibleAt(xs, now) + VisibleAt(ys, now)
    decreases |ys|
  {
    if ys == [] {
      assert xs + ys == xs;
    } else {
      assert (xs + ys)[..|xs + ys| - 1] == xs + ys[..|ys| - 1];
      VisibleOfAppend(xs, ys[..|ys| - 1], now);
    }
  }

  lemma {:induction false} FreshAreVisible<B>(ids: seq<MessageId>, bodies: seq<B>, now: int)
    requires |ids| == |bodies| && now >= 0
    ensures VisibleAt(Fresh(ids, bodies), now) == Fresh(ids, bodies)
    decreases |ids|
  {
    if ids != [] {
      var n := |ids| - 1;
      assert Fresh(ids, bodies)[..n] == Fresh(ids[..n], bodies[..n]);
      FreshAreVisible(ids[..n], bodies[..n], now);
    }
  }

  // A message can be received as soon as it is sent: if nothing else is visible, a receive takes the first messages of
  // the send, in order, each received once.
  lemma SentCanBeReceived<B>(q: QueueState<B>, ids: seq<MessageId>, bodies: seq<B>, limit: int, now: int, timeout: nat)
    requires |ids| == |bodies| && now >= 0 && VisibleAt(q.messages, now) == []
    ensures var batch := ReceiveFrom(SendTo(q, ids, bodies).messages, limit, now, timeout).1;
            && |batch| == (if limit < 0 then 0 else if |ids| < limit then |ids| else limit)
            && forall i :: 0 <= i < |batch| ==> batch[i] == Message(ids[i], bodies[i], 1, now + timeout)
  {
    VisibleOfAppend(q.messages, Fresh(ids, bodies), now);
    FreshAreVisible(ids, bodies, now);
    ReceiveTakesTheFirstVisible(SendTo(q, ids, bodies).messages, limit, now, timeout);
    assert VisibleAt(SendTo(q, ids, bodies).messages, now) == Fresh(ids, bodies);
  }
}
