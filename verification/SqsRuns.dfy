/** The queue under every interleaving of its operations: conservation of messages, and the distance of receives. */
module SqsRuns {
  import opened Basics
  import opened Sqs

  /**
   * The queue and the history that judges it: the ids sent and the ids deleted since the last purge, and every id
   * ever handed out (each send takes new ones, as random UUIDs do).
   */
  datatype Tracked<B> = Tracked(q: QueueState<B>, sent: set<MessageId>, removed: set<MessageId>, used: set<MessageId>)

  datatype Op<B> =
    | Send(ids: seq<MessageId>, bodies: seq<B>)
    | Receive(limit: int, now: int)
    | Delete(id: MessageId)
    | Fail(id: MessageId)
    | Purge

  ghost predicate Distinct(ids: seq<MessageId>) {
    forall i, j :: 0 <= i < j < |ids| ==> ids[i] != ids[j]
  }

  ghost predicate Enabled<B>(t: Tracked<B>, op: Op<B>) {
    op.Send? ==> |op.ids| == |op.bodies| && Distinct(op.ids) && Members(op.ids) !! t.used
  }

  function Next<B>(cfg: Config, t: Tracked<B>, op: Op<B>): Tracked<B>
    requires op.Send? ==> |op.ids| == |op.bodies|
  {
    match op
    case Send(ids, bodies) =>
      Tracked(SendTo(t.q, ids, bodies), t.sent + Members(ids), t.removed, t.used + Members(ids))
    case Receive(limit, now) => t.(q := t.q.(messages := ReceiveFrom(t.q.messages, limit, now, cfg.timeout).0))
    case Delete(id) =>
      t.(q := DeleteFrom(t.q, id), removed := if Find(t.q.messages, id) == [] then t.removed else t.removed + {id})
    case Fail(id) => t.(q := FailIn(t.q, id, cfg.maxReceives))
    case Purge => t.(q := Purged(t.q), sent := {}, removed := {})
  }

  ghost predicate CanRun<B>(cfg: Config, t: Tracked<B>, ops: seq<Op<B>>)
    decreases |ops|
  {
    ops == [] || (Enabled(t, ops[0]) && CanRun(cfg, Next(cfg, t, ops[0]), ops[1..]))
  }

  ghost function Run<B>(cfg: Config, t: Tracked<B>, ops: seq<Op<B>>): Tracked<B>
    requires CanRun(cfg, t, ops)
    decreases |ops|
  {
    if ops == [] then t else Run(cfg, Next(cfg, t, ops[0]), ops[1..])
  }

  function Empty<B>(): Tracked<B> {
    Tracked(QueueState([], [], 0), {}, {}, {})
  }

  /** Every message sent since the last purge is in exactly one place: queued, deleted or dead-lettered. */
  ghost predicate Conserved<B>(t: Tracked<B>) {
    && UniqueIds(t.q.messages) && UniqueDead(t.q.deadLetters)
    && Split(t.sent, Ids(t.q.messages), t.removed, DeadIds(t.q.deadLetters))
    && t.q.deleted == |t.removed|
    && t.sent <= t.used
  }

  /** The three sets are disjoint and make up the whole. */
  predicate Split(whole: set<MessageId>, queued: set<MessageId>, removed: set<MessageId>, dead: set<MessageId>) {
    whole == queued + removed + dead && queued !! removed && queued !! dead && removed !! dead
  }

  lemma SplitMoves(whole: set<MessageId>, queued: set<MessageId>, removed: set<MessageId>, dead: set<MessageId>, id: MessageId)
    requires Split(whole, queued, removed, dead)
    ensures id in queued ==> Split(whole, queued - {id}, removed + {id}, dead) && id !in removed
    ensures id in queued ==> Split(whole, queued - {id}, removed, dead + {id}) && id !in dead
  {
  }

  lemma SplitGrows(whole: set<MessageId>, queued: set<MessageId>, removed: set<MessageId>, dead: set<MessageId>,
                   more: set<MessageId>)
    requires Split(whole, queued, removed, dead) && more !! whole
    ensures Split(whole + more, queued + more, removed, dead)
  {
  }

  lemma FreshIds<B>(ids: seq<MessageId>, bodies: seq<B>)
    requires |ids| == |bodies| && Distinct(ids)
    ensures Ids(Fresh(ids, bodies)) == Members(ids) && UniqueIds(Fresh(ids, bodies))
  {
    var ms := Fresh(ids, bodies);
    forall x | x in Members(ids) ensures x in Ids(ms) {
      var i :| 0 <= i < |ids| && ids[i] == x;
      assert ms[i] in ms;
    }
  }

  lemma AppendIds<B>(xs: seq<Message<B>>, ys: seq<Message<B>>)
    requires UniqueIds(xs) && UniqueIds(ys) && Ids(xs) !! Ids(ys)
    ensures Ids(xs + ys) == Ids(xs) + Ids(ys) && UniqueIds(xs + ys)
  {
    forall i, j | 0 <= i < j < |xs + ys| ensures (xs + ys)[i].id != (xs + ys)[j].id {
      if i < |xs| && j >= |xs| {
        assert xs[i].id in Ids(xs) && ys[j - |xs|].id in Ids(ys);
      }
    }
  }

  lemma ReceiveKeepsIds<B>(ms: seq<Message<B>>, limit: int, now: int, timeout: nat)
    requires UniqueIds(ms)
    ensures UniqueIds(ReceiveFrom(ms, limit, now, timeout).0)
    ensures Ids(ReceiveFrom(ms, limit, now, timeout).0) == Ids(ms)
  {
    ReceiveChangesOnlyTheBatch(ms, limit, now, timeout);
    var out := ReceiveFrom(ms, limit, now, timeout).0;
    assert forall i :: 0 <= i < |ms| ==> out[i].id == ms[i].id;
    forall x | x in Ids(ms) ensures x in Ids(out) {
      var i :| 0 <= i < |ms| && ms[i].id == x;
      assert out[i] in out;
    }
    forall x | x in Ids(out) ensures x in Ids(ms) {
      var i :| 0 <= i < |out| && out[i].id == x;
      assert ms[i] in ms;
    }
  }

  lemma AppendDead<B>(ds: seq<DeadLetter<B>>, d: DeadLetter<B>)
    requires UniqueDead(ds) && d.id !in DeadIds(ds)
    ensures UniqueDead(ds + [d]) && DeadIds(ds + [d]) == DeadIds(ds) + {d.id}
  {
    var all := ds + [d];
    assert all[|ds|] in all;
    forall i | 0 <= i < |ds| ensures ds[i].id != d.id && ds[i] in all {
      assert ds[i] in ds && all[i] == ds[i];
    }
    assert forall x :: x in all ==> x in ds || x == d;
  }

  lemma FailMoves<B>(q: QueueState<B>, id: MessageId, max: nat)
    requires UniqueIds(q.messages) && UniqueDead(q.deadLetters) && id !in DeadIds(q.deadLetters) && Exhausted(q, id, max)
    ensures var after := FailIn(q, id, max);
            && UniqueIds(after.messages) && Ids(after.messages) == Ids(q.messages) - {id}
            && UniqueDead(after.deadLetters) && DeadIds(after.deadLetters) == DeadIds(q.deadLetters) + {id}
            && after.deleted == q.deleted
  {
    WithoutRemoves(q.messages, id);
    var m := Find(q.messages, id)[0];
    AppendDead(q.deadLetters, DeadLetter(id, m.body, m.receives));
  }

  lemma FailKeepsConserved<B>(t: Tracked<B>, id: MessageId, max: nat)
    requires Conserved(t)
    ensures Conserved(t.(q := FailIn(t.q, id, max)))
  {
    if Exhausted(t.q, id, max) {
      FindSound(t.q.messages, id);
      SplitMoves(t.sent, Ids(t.q.messages), t.removed, DeadIds(t.q.deadLetters), id);
      FailMoves(t.q, id, max);
      var after := FailIn(t.q, id, max);
      assert Split(t.sent, Ids(after.messages), t.removed, DeadIds(after.deadLetters));
    }
  }

  lemma DeleteMoves<B>(q: QueueState<B>, id: MessageId)
    requires UniqueIds(q.messages) && Find(q.messages, id) != []
    ensures var after := DeleteFrom(q, id);
            && UniqueIds(after.messages) && Ids(after.messages) == Ids(q.messages) - {id}
            && after.deadLetters == q.deadLetters && after.deleted == q.deleted + 1
  {
    WithoutRemoves(q.messages, id);
  }

  lemma DeleteKeepsConserved<B>(t: Tracked<B>, id: MessageId)
    requires Conserved(t) && Find(t.q.messages, id) != []
    ensures Conserved(t.(q := DeleteFrom(t.q, id), removed := t.removed + {id}))
  {
    FindSound(t.q.messages, id);
    SplitMoves(t.sent, Ids(t.q.messages), t.removed, DeadIds(t.q.deadLetters), id);
    DeleteMoves(t.q, id);
    assert |t.removed + {id}| == |t.removed| + 1;
    assert Split(t.sent, Ids(DeleteFrom(t.q, id).messages), t.removed + {id}, DeadIds(t.q.deadLetters));
  }

  lemma SendKeepsConserved<B>(t: Tracked<B>, ids: seq<MessageId>, bodies: seq<B>)
    requires Conserved(t) && |ids| == |bodies| && Distinct(ids) && Members(ids) !! t.used
    ensures Conserved(Tracked(SendTo(t.q, ids, bodies), t.sent + Members(ids), t.removed, t.used + Members(ids)))
  {
    FreshIds(ids, bodies);
    SplitGrows(t.sent, Ids(t.q.messages), t.removed, DeadIds(t.q.deadLetters), Members(ids));
    AppendIds(t.q.messages, Fresh(ids, bodies));
  }

  lemma ReceiveKeepsConserved<B>(t: Tracked<B>, limit: int, now: int, timeout: nat)
    requires Conserved(t)
    ensures Conserved(t.(q := t.q.(messages := ReceiveFrom(t.q.messages, limit, now, timeout).0)))
  {
    ReceiveKeepsIds(t.q.messages, limit, now, timeout);
  }

  lemma NextKeepsConserved<B>(cfg: Config, t: Tracked<B>, op: Op<B>)
    requires Conserved(t) && Enabled(t, op)
    ensures Conserved(Next(cfg, t, op))
  {
    match op
    case Send(ids, bodies) => SendKeepsConserved(t, ids, bodies);
    case Receive(limit, now) => ReceiveKeepsConserved(t, limit, now, cfg.timeout);
    case Delete(id) =>
      if Find(t.q.messages, id) != [] {
        DeleteKeepsConserved(t, id);
      }
    case Fail(id) => FailKeepsConserved(t, id, cfg.maxReceives);
    case Purge =>
  }

  lemma {:induction false} RunKeepsConserved<B>(cfg: Config, t: Tracked<B>, ops: seq<Op<B>>)
    requires Conserved(t) && CanRun(cfg, t, ops)
    ensures Conserved(Run(cfg, t, ops))
    decreases |ops|
  {
    if ops != [] {
      NextKeepsConserved(cfg, t, ops[0]);
      RunKeepsConserved(cfg, Next(cfg, t, ops[0]), ops[1..]);
    }
  }

  lemma SplitCounts(whole: set<MessageId>, queued: set<MessageId>, removed: set<MessageId>, dead: set<MessageId>)
    requires Split(whole, queued, removed, dead)
    ensures |whole| == |queued| + |removed| + |dead|
  {
    assert |queued + removed| == |queued| + |removed|;
  }

  // In every interleaving: sent since the last purge = queued + deleted + dead-lettered, no id in two places.
  lemma MessagesAreConserved<B>(cfg: Config, ops: seq<Op<B>>)
    requires CanRun(cfg, Empty<B>(), ops)
    ensures var t := Run(cfg, Empty<B>(), ops);
            && |t.sent| == |t.q.messages| + t.q.deleted + |t.q.deadLetters|
            && Split(t.sent, Ids(t.q.messages), t.removed, DeadIds(t.q.deadLetters))
  {
    RunKeepsConserved(cfg, Empty<B>(), ops);
    var t := Run(cfg, Empty<B>(), ops);
    IdsCount(t.q.messages);
    DeadIdsCount(t.q.deadLetters);
    SplitCounts(t.sent, Ids(t.q.messages), t.removed, DeadIds(t.q.deadLetters));
  }

  // ---- two receives of one message ----

  ghost predicate HiddenIn<B>(ms: seq<Message<B>>, id: MessageId, until: int) {
    forall i :: 0 <= i < |ms| && ms[i].id == id ==> until <= ms[i].visibleAt
  }

  /** Whoever receives this message next does so at `until` or later. */
  ghost predicate HiddenUntil<B>(t: Tracked<B>, id: MessageId, until: int) {
    id in t.used && HiddenIn(t.q.messages, id, until)
  }

  lemma ReceiveKeepsHidden<B>(ms: seq<Message<B>>, limit: int, now: int, timeout: nat, id: MessageId, until: int)
    requires UniqueIds(ms) && HiddenIn(ms, id, until)
    ensures HiddenIn(ReceiveFrom(ms, limit, now, timeout).0, id, until)
  {
    ReceiveChangesOnlyTheBatch(ms, limit, now, timeout);
  }

  lemma WithoutKeepsHidden<B>(ms: seq<Message<B>>, gone: MessageId, id: MessageId, until: int)
    requires HiddenIn(ms, id, until)
    ensures HiddenIn(Without(ms, gone), id, until)
  {
    WithoutKeeps(ms, gone);
    forall i | 0 <= i < |Without(ms, gone)| && Without(ms, gone)[i].id == id
      ensures until <= Without(ms, gone)[i].visibleAt
    {
      var j :| 0 <= j < |ms| && ms[j] == Without(ms, gone)[i];
    }
  }

  lemma NextKeepsHidden<B>(cfg: Config, t: Tracked<B>, op: Op<B>, id: MessageId, until: int)
    requires Conserved(t) && Enabled(t, op) && HiddenUntil(t, id, until)
    ensures HiddenUntil(Next(cfg, t, op), id, until)
  {
    match op
    case Send(ids, bodies) =>
      forall i | 0 <= i < |ids| ensures ids[i] != id { assert ids[i] in Members(ids); }
    case Receive(limit, now) => ReceiveKeepsHidden(t.q.messages, limit, now, cfg.timeout, id, until);
    case Delete(id') => WithoutKeepsHidden(t.q.messages, id', id, until);
    case Fail(id') => WithoutKeepsHidden(t.q.messages, id', id, until);
    case Purge =>
  }

  lemma {:induction false} RunKeepsHidden<B>(cfg: Config, t: Tracked<B>, ops: seq<Op<B>>, id: MessageId, until: int)
    requires Conserved(t) && CanRun(cfg, t, ops) && HiddenUntil(t, id, until)
    ensures HiddenUntil(Run(cfg, t, ops), id, until)
    decreases |ops|
  {
    if ops != [] {
      NextKeepsConserved(cfg, t, ops[0]);
      NextKeepsHidden(cfg, t, ops[0], id, until);
      RunKeepsHidden(cfg, Next(cfg, t, ops[0]), ops[1..], id, until);
    }
  }

  lemma TakenIsHidden<B>(ms: seq<Message<B>>, limit: int, now: int, timeout: nat, id: MessageId) returns (i: nat)
    requires UniqueIds(ms) && id in Ids(ReceiveFrom(ms, limit, now, timeout).1)
    ensures HiddenIn(ReceiveFrom(ms, limit, now, timeout).0, id, now + timeout)
    ensures i < |ms| && ms[i].id == id && ms[i].visibleAt <= now
  {
    ReceiveChangesOnlyTheBatch(ms, limit, now, timeout);
    var (out, batch) := ReceiveFrom(ms, limit, now, timeout);
    var b :| b in batch && b.id == id;
    i :| 0 <= i < |out| && out[i] == b;
    assert ms[i].id == id;
    forall j | 0 <= j < |out| && out[j].id == id ensures j == i {
      assert ms[j].id == id;
    }
  }

  // Two receives of one message are at least the visibility timeout apart, whatever happens between them; the times
  // are the ones the receives read, which need not be in the order in which they take the lock.
  lemma ReceivesAreApart<B>(cfg: Config, t: Tracked<B>, limit1: int, now1: int, ops: seq<Op<B>>, limit2: int, now2: int,
                            id: MessageId)
    requires Conserved(t) && id in Ids(ReceiveFrom(t.q.messages, limit1, now1, cfg.timeout).1)
    requires CanRun(cfg, Next(cfg, t, Receive(limit1, now1)), ops)
    requires id in Ids(ReceiveFrom(Run(cfg, Next(cfg, t, Receive(limit1, now1)), ops).q.messages, limit2, now2, cfg.timeout).1)
    ensures now2 >= now1 + cfg.timeout
  {
    var t1 := Next(cfg, t, Receive(limit1, now1));
    NextKeepsConserved(cfg, t, Receive(limit1, now1));
    var i := TakenIsHidden(t.q.messages, limit1, now1, cfg.timeout, id);
    assert t.q.messages[i] in t.q.messages;
    RunKeepsHidden(cfg, t1, ops, id, now1 + cfg.timeout);
    RunKeepsConserved(cfg, t1, ops);
    var _ := TakenIsHidden(Run(cfg, t1, ops).q.messages, limit2, now2, cfg.timeout, id);
  }
}
