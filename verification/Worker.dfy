/**
 * The order worker: at-least-once processing with retry copies. A worker may die between any two broker operations;
 * the broker then gives its unacknowledged deliveries back to the queue.
 */
module Worker {

  const MAX_ATTEMPTS: nat := 3

  /** What `parse_order` makes of a body, and whether the order can ever be processed. */
  datatype Order = Unreadable | Good | Poison

  /** A message on the queue. `lineage` numbers the publication that it or the original of its copies came from. */
  datatype Copy = Copy(lineage: nat, order: Order, attempt: nat)

  /** How far the worker is with a delivery it has not acknowledged. */
  datatype Stage = Fetched | Processed | Failed | CopySent

  datatype Place = Ready | Unacked(worker: nat, stage: Stage)

  datatype Entry = Entry(copy: Copy, place: Place)

  /**
   * The orders queue and the dead letter queue, and the history that judges them: every order published, the
   * publications that were processed and acknowledged, and how often processing each one failed.
   */
  datatype System = System(
    copies: map<nat, Entry>,
    nextId: nat,
    dead: seq<Copy>,
    orders: seq<Order>,
    done: set<nat>,
    fails: seq<nat>)

  datatype Action =
    | Publish(order: Order)
    | Deliver(id: nat, worker: nat)
    | Process(id: nat)
    | AckDone(id: nat)
    | FailToProcess(id: nat)
    | StoreCopy(id: nat)
    | AckOriginal(id: nat)
    | Nack(id: nat)
    | Reject(id: nat)
    | Die(worker: nat)

  function Start(): System {
    System(map[], 0, [], [], {}, [])
  }

  predicate At(s: System, id: nat, stage: Stage) {
    id in s.copies && s.copies[id].place.Unacked? && s.copies[id].place.stage == stage
  }

  predicate Enabled(s: System, a: Action) {
    match a
    case Publish(_) => true
    case Deliver(id, _) => id in s.copies && s.copies[id].place.Ready?
    case Process(id) => At(s, id, Fetched) && s.copies[id].copy.order.Good?
    case AckDone(id) => At(s, id, Processed)
    case FailToProcess(id) => At(s, id, Fetched) && s.copies[id].copy.order.Poison? && s.copies[id].copy.lineage < |s.fails|
    case StoreCopy(id) => At(s, id, Failed) && s.copies[id].copy.attempt < MAX_ATTEMPTS
    case AckOriginal(id) => At(s, id, CopySent)
    case Nack(id) => At(s, id, CopySent) || (At(s, id, Failed) && s.copies[id].copy.attempt < MAX_ATTEMPTS)
    case Reject(id) =>
      || (At(s, id, Fetched) && s.copies[id].copy.order.Unreadable?)
      || (At(s, id, Failed) && s.copies[id].copy.attempt >= MAX_ATTEMPTS)
    case Die(_) => true
  }

  function SetStage(s: System, id: nat, stage: Stage): System
    requires id in s.copies && s.copies[id].place.Unacked?
  {
    s.(copies := s.copies[id := s.copies[id].(place := s.copies[id].place.(stage := stage))])
  }

  function Requeued(e: Entry, worker: nat): Entry {
    if e.place.Unacked? && e.place.worker == worker then e.(place := Ready) else e
  }

  function Next(s: System, a: Action): System
    requires Enabled(s, a)
  {
    match a
    case Publish(order) =>
      s.(copies := s.copies[s.nextId := Entry(Copy(|s.orders|, order, 1), Ready)], nextId := s.nextId + 1,
         orders := s.orders + [order], fails := s.fails + [0])
    case Deliver(id, worker) => s.(copies := s.copies[id := s.copies[id].(place := Unacked(worker, Fetched))])
    case Process(id) => SetStage(s, id, Processed)
    case AckDone(id) => s.(copies := s.copies - {id}, done := s.done + {s.copies[id].copy.lineage})
    case FailToProcess(id) =>
      var l := s.copies[id].copy.lineage;
      SetStage(s, id, Failed).(fails := s.fails[l := s.fails[l] + 1])
    case StoreCopy(id) =>
      var copy := s.copies[id].copy;
      var sent := SetStage(s, id, CopySent);
      sent.(copies := sent.copies[s.nextId := Entry(copy.(attempt := copy.attempt + 1), Ready)], nextId := s.nextId + 1)
    case AckOriginal(id) => s.(copies := s.copies - {id})
    case Nack(id) => s.(copies := s.copies[id := s.copies[id].(place := Ready)])
    case Reject(id) => s.(copies := s.copies - {id}, dead := s.dead + [s.copies[id].copy])
    case Die(worker) => s.(copies := map id | id in s.copies :: Requeued(s.copies[id], worker))
  }

  predicate CanRun(s: System, actions: seq<Action>)
    decreases |actions|
  {
    actions == [] || (Enabled(s, actions[0]) && CanRun(Next(s, actions[0]), actions[1..]))
  }

  function Run(s: System, actions: seq<Action>): System
    requires CanRun(s, actions)
    decreases |actions|
  {
    if actions == [] then s else Run(Next(s, actions[0]), actions[1..])
  }

  // ---- what the broker does ----

  // A publication joins the queue ready, with attempt one, under a new id; nothing else on the queue changes.
  lemma PublishExactly(s: System, order: Order)
    ensures var t := Next(s, Publish(order));
            && t.copies == s.copies[s.nextId := Entry(Copy(|s.orders|, order, 1), Ready)] && t.nextId == s.nextId + 1
            && t.orders == s.orders + [order] && t.dead == s.dead && t.done == s.done
  {
  }

  // A delivery hands a ready copy to one worker, as it is.
  lemma DeliverExactly(s: System, id: nat, worker: nat)
    requires Enabled(s, Deliver(id, worker))
    ensures Next(s, Deliver(id, worker)) ==
            s.(copies := s.copies[id := Entry(s.copies[id].copy, Unacked(worker, Fetched))])
  {
  }

  // When a worker dies the broker gives back exactly the deliveries it had not acknowledged, each as it was.
  lemma DieExactly(s: System, worker: nat)
    ensures var t := Next(s, Die(worker));
            && t == s.(copies := t.copies) && t.copies.Keys == s.copies.Keys
            && (forall id :: id in s.copies ==>
                  t.copies[id] == if s.copies[id].place.Unacked? && s.copies[id].place.worker == worker
                                  then Entry(s.copies[id].copy, Ready) else s.copies[id])
  {
  }

  // ---- no order is lost ----

  /** A copy of this publication with an attempt above `attempt` is on the queue, or the publication is settled. */
  ghost predicate Ahead(s: System, lineage: nat, attempt: int) {
    || (exists id :: id in s.copies && s.copies[id].copy.lineage == lineage && s.copies[id].copy.attempt > attempt)
    || lineage in s.done
    || (exists i :: 0 <= i < |s.dead| && s.dead[i].lineage == lineage)
  }

  /** The copy is on the queue, ready or unacknowledged; or processed and acknowledged; or in the dead letter queue. */
  ghost predicate Accounted(s: System, lineage: nat) {
    Ahead(s, lineage, -1)
  }

  predicate CopyOk(s: System, copy: Copy) {
    copy.lineage < |s.orders| && copy.order == s.orders[copy.lineage] && 1 <= copy.attempt <= MAX_ATTEMPTS
  }

  /** The failures that brought the copy here really happened. */
  predicate FailsOk(s: System, e: Entry)
    requires |s.fails| == |s.orders| && CopyOk(s, e.copy)
  {
    && (e.copy.attempt > 1 ==> e.copy.order.Poison?)
    && s.fails[e.copy.lineage] >= e.copy.attempt - 1
    && (e.place.Unacked? && (e.place.stage.Failed? || e.place.stage.CopySent?) ==>
          e.copy.order.Poison? && s.fails[e.copy.lineage] >= e.copy.attempt)
    && (e.place.Unacked? && e.place.stage.Processed? ==> e.copy.order.Good?)
  }

  ghost predicate Inv(s: System) {
    && |s.fails| == |s.orders|
    && (forall id :: id in s.copies ==> id < s.nextId && CopyOk(s, s.copies[id].copy) && FailsOk(s, s.copies[id]))
    && (forall i :: 0 <= i < |s.dead| ==> CopyOk(s, s.dead[i]) && DeadOk(s, s.dead[i]))
    && (forall l :: 0 <= l < |s.orders| ==> Accounted(s, l))
    && (forall id :: At(s, id, CopySent) ==> Ahead(s, s.copies[id].copy.lineage, s.copies[id].copy.attempt))
    && (forall l :: l in s.done ==> l < |s.orders| && s.orders[l].Good?)
  }

  /** A dead letter is unreadable, or its order failed at every attempt it was allowed. */
  predicate DeadOk(s: System, copy: Copy)
    requires |s.fails| == |s.orders| && CopyOk(s, copy)
  {
    copy.order.Unreadable? || (copy.order.Poison? && copy.attempt == MAX_ATTEMPTS && s.fails[copy.lineage] >= MAX_ATTEMPTS)
  }

  /** Nothing that mattered is gone: copies may be added, moved, or removed when something stays ahead of them. */
  ghost predicate KeepsAhead(s: System, t: System) {
    forall l, a: int :: Ahead(s, l, a) ==> Ahead(t, l, a)
  }

  lemma AddingKeepsAhead(s: System, t: System)
    requires s.done <= t.done && |s.dead| <= |t.dead| && t.dead[..|s.dead|] == s.dead
    requires forall id :: id in s.copies ==> id in t.copies && t.copies[id].copy == s.copies[id].copy
    ensures KeepsAhead(s, t)
  {
    forall l, a: int | Ahead(s, l, a) ensures Ahead(t, l, a) {
      if i :| 0 <= i < |s.dead| && s.dead[i].lineage == l {
        assert t.dead[i] == t.dead[..|s.dead|][i];
      }
    }
  }

  lemma RemovingKeepsAhead(s: System, t: System, id: nat)
    requires id in s.copies && t.copies == s.copies - {id}
    requires s.done <= t.done && |s.dead| <= |t.dead| && t.dead[..|s.dead|] == s.dead
    requires Ahead(t, s.copies[id].copy.lineage, s.copies[id].copy.attempt)
    ensures KeepsAhead(s, t)
  {
    forall l, a: int | Ahead(s, l, a) ensures Ahead(t, l, a) {
      if i :| 0 <= i < |s.dead| && s.dead[i].lineage == l {
        assert t.dead[i] == t.dead[..|s.dead|][i];
      } else if l !in s.done {
        var j :| j in s.copies && s.copies[j].copy.lineage == l && s.copies[j].copy.attempt > a;
        if j != id {
          assert j in t.copies && t.copies[j] == s.copies[j];
        } else if j2 :| j2 in t.copies && t.copies[j2].copy.lineage == l && t.copies[j2].copy.attempt > s.copies[id].copy.attempt {
          assert t.copies[j2].copy.attempt > a;
        }
      }
    }
  }

  lemma AheadCarriesOver(s: System, t: System)
    requires Inv(s) && KeepsAhead(s, t) && |t.orders| == |s.orders|
    requires forall id :: At(t, id, CopySent) ==>
                            Ahead(t, t.copies[id].copy.lineage, t.copies[id].copy.attempt)
                            || (At(s, id, CopySent) && t.copies[id] == s.copies[id])
    ensures forall l :: 0 <= l < |t.orders| ==> Accounted(t, l)
    ensures forall id :: At(t, id, CopySent) ==> Ahead(t, t.copies[id].copy.lineage, t.copies[id].copy.attempt)
  {
    forall l | 0 <= l < |t.orders| ensures Accounted(t, l) {
      assert Accounted(s, l);
    }
  }

  lemma PublishKeepsInv(s: System, order: Order)
    requires Inv(s)
    ensures Inv(Next(s, Publish(order)))
  {
    var t := Next(s, Publish(order));
    AddingKeepsAhead(s, t);
    forall l | 0 <= l < |t.orders| ensures Accounted(t, l) {
      if l == |s.orders| {
        assert t.copies[s.nextId].copy.lineage == l;
      } else {
        assert Accounted(s, l);
      }
    }
    forall id | At(t, id, CopySent) ensures Ahead(t, t.copies[id].copy.lineage, t.copies[id].copy.attempt) {
      assert At(s, id, CopySent);
    }
  }

  lemma CopiesStayOk(s: System, t: System)
    requires Inv(s) && t.orders == s.orders && t.fails == s.fails && t.dead == s.dead && t.done == s.done
    requires t.nextId == s.nextId && t.copies.Keys == s.copies.Keys
    requires forall id :: id in s.copies ==> t.copies[id].copy == s.copies[id].copy && FailsOk(s, t.copies[id])
    requires forall id :: At(t, id, CopySent) ==> At(s, id, CopySent) && t.copies[id] == s.copies[id]
    ensures Inv(t)
  {
    AddingKeepsAhead(s, t);
    AheadCarriesOver(s, t);
  }

  // Steps that move one delivery on without touching any other copy or the history.
  lemma MoveKeepsInv(s: System, id: nat, place: Place)
    requires Inv(s) && id in s.copies && FailsOk(s, Entry(s.copies[id].copy, place))
    requires !(place.Unacked? && place.stage.CopySent?)
    ensures Inv(s.(copies := s.copies[id := Entry(s.copies[id].copy, place)]))
  {
    CopiesStayOk(s, s.(copies := s.copies[id := Entry(s.copies[id].copy, place)]));
  }

  lemma RemoveKeepsInv(s: System, id: nat, done: set<nat>, dead: seq<Copy>)
    requires Inv(s) && id in s.copies
    requires s.done <= done && forall l :: l in done ==> l < |s.orders| && s.orders[l].Good?
    requires |s.dead| <= |dead| && dead[..|s.dead|] == s.dead
    requires forall i :: 0 <= i < |dead| ==> CopyOk(s, dead[i]) && DeadOk(s, dead[i])
    requires Ahead(s.(copies := s.copies - {id}, done := done, dead := dead), s.copies[id].copy.lineage, s.copies[id].copy.attempt)
    ensures Inv(s.(copies := s.copies - {id}, done := done, dead := dead))
  {
    var t := s.(copies := s.copies - {id}, done := done, dead := dead);
    RemovingKeepsAhead(s, t, id);
    AheadCarriesOver(s, t);
  }

  lemma FailKeepsInv(s: System, id: nat)
    requires Inv(s) && Enabled(s, FailToProcess(id))
    ensures Inv(Next(s, FailToProcess(id)))
  {
    var t := Next(s, FailToProcess(id));
    var l := s.copies[id].copy.lineage;
    assert forall m :: 0 <= m < |s.fails| ==> t.fails[m] >= s.fails[m];
    forall j | j in t.copies ensures FailsOk(t, t.copies[j]) {
      assert FailsOk(s, s.copies[j]);
    }
    AddingKeepsAhead(s, t);
    AheadCarriesOver(s, t);
  }

  lemma StoreCopyKeepsInv(s: System, id: nat)
    requires Inv(s) && Enabled(s, StoreCopy(id))
    ensures Inv(Next(s, StoreCopy(id)))
  {
    var t := Next(s, StoreCopy(id));
    var copy := s.copies[id].copy;
    assert id != s.nextId;
    assert t.copies[s.nextId] == Entry(copy.(attempt := copy.attempt + 1), Ready);
    forall j | j in t.copies ensures j < t.nextId && CopyOk(t, t.copies[j].copy) && FailsOk(t, t.copies[j]) {
      assert FailsOk(s, s.copies[id]);
      assert j in s.copies || j == s.nextId;
    }
    AddingKeepsAhead(s, t);
    AheadCarriesOver(s, t);
  }

  lemma DieKeepsInv(s: System, worker: nat)
    requires Inv(s)
    ensures Inv(Next(s, Die(worker)))
  {
    var t := Next(s, Die(worker));
    forall j | j in t.copies ensures FailsOk(s, t.copies[j]) {
      assert FailsOk(s, s.copies[j]);
    }
    CopiesStayOk(s, t);
  }

  lemma NextKeepsInv(s: System, a: Action)
    requires Inv(s) && Enabled(s, a)
    ensures Inv(Next(s, a))
  {
    match a
    case Publish(order) => PublishKeepsInv(s, order);
    case Deliver(id, worker) => MoveKeepsInv(s, id, Unacked(worker, Fetched));
    case Process(id) => MoveKeepsInv(s, id, s.copies[id].place.(stage := Processed));
    case AckDone(id) => RemoveKeepsInv(s, id, s.done + {s.copies[id].copy.lineage}, s.dead);
    case FailToProcess(id) => FailKeepsInv(s, id);
    case StoreCopy(id) => StoreCopyKeepsInv(s, id);
    case AckOriginal(id) => AckOriginalKeepsInv(s, id);
    case Nack(id) => MoveKeepsInv(s, id, Ready);
    case Reject(id) => RejectKeepsInv(s, id);
    case Die(worker) => DieKeepsInv(s, worker);
  }

  lemma AckOriginalKeepsInv(s: System, id: nat)
    requires Inv(s) && Enabled(s, AckOriginal(id))
    ensures Inv(Next(s, AckOriginal(id)))
  {
    var t := Next(s, AckOriginal(id));
    var copy := s.copies[id].copy;
    assert Ahead(s, copy.lineage, copy.attempt);
    if j :| j in s.copies && s.copies[j].copy.lineage == copy.lineage && s.copies[j].copy.attempt > copy.attempt {
      assert t.copies[j] == s.copies[j];
    }
    RemoveKeepsInv(s, id, s.done, s.dead);
  }

  lemma RejectKeepsInv(s: System, id: nat)
    requires Inv(s) && Enabled(s, Reject(id))
    ensures Inv(Next(s, Reject(id)))
  {
    var t := Next(s, Reject(id));
    assert FailsOk(s, s.copies[id]);
    assert t.dead[|s.dead|] == s.copies[id].copy;
    RemoveKeepsInv(s, id, s.done, t.dead);
  }

  lemma {:induction false} RunKeepsInv(s: System, actions: seq<Action>)
    requires Inv(s) && CanRun(s, actions)
    ensures Inv(Run(s, actions))
    decreases |actions|
  {
    if actions != [] {
      NextKeepsInv(s, actions[0]);
      RunKeepsInv(Next(s, actions[0]), actions[1..]);
    }
  }

  // In every run, with workers dying at any point, retry copies unconfirmed and messages redelivered: each published
  // order is on the queue (ready or unacknowledged), or was processed and acknowledged, or is a dead letter.
  lemma NoOrderIsLost(actions: seq<Action>, lineage: nat)
    requires CanRun(Start(), actions) && lineage < |Run(Start(), actions).orders|
    ensures Accounted(Run(Start(), actions), lineage)
  {
    RunKeepsInv(Start(), actions);
  }

  // No copy carries an attempt above the bound; only good orders are acknowledged as processed; a dead letter is
  // unreadable, or is a poison order that failed at least as often as it was allowed to try.
  lemma AttemptsAreBounded(actions: seq<Action>)
    requires CanRun(Start(), actions)
    ensures var s := Run(Start(), actions);
            && |s.fails| == |s.orders|
            && (forall id :: id in s.copies ==> 1 <= s.copies[id].copy.attempt <= MAX_ATTEMPTS)
            && (forall l :: l in s.done ==> l < |s.orders| && s.orders[l].Good?)
            && (forall i :: 0 <= i < |s.dead| ==>
                  && s.dead[i].lineage < |s.orders| && s.dead[i].order == s.orders[s.dead[i].lineage]
                  && (s.dead[i].order.Unreadable?
                      || (s.dead[i].order.Poison? && s.fails[s.dead[i].lineage] >= MAX_ATTEMPTS)))
  {
    RunKeepsInv(Start(), actions);
  }

  // ---- runs without crashes and nacks ----

  predicate Smooth(a: Action) {
    !a.Die? && !a.Nack?
  }

  /** A copy that still stands for its order: any but an original whose retry copy is already stored. */
  predicate Live(s: System, id: nat) {
    id in s.copies && !(s.copies[id].place.Unacked? && s.copies[id].place.stage.CopySent?)
  }

  ghost predicate InDead(s: System, lineage: nat) {
    exists i :: 0 <= i < |s.dead| && s.dead[i].lineage == lineage
  }

  /** How often the order of this live copy has failed so far, exactly. */
  function FailsSoFar(e: Entry): int {
    if e.place.Unacked? && e.place.stage.Failed? then e.copy.attempt else e.copy.attempt - 1
  }

  ghost predicate OnePlace(s: System) {
    && (forall i, j :: Live(s, i) && Live(s, j) && s.copies[i].copy.lineage == s.copies[j].copy.lineage ==> i == j)
    && (forall id :: Live(s, id) ==> s.copies[id].copy.lineage !in s.done && !InDead(s, s.copies[id].copy.lineage))
    && (forall l :: l in s.done ==> !InDead(s, l))
    && (forall i, j :: 0 <= i < j < |s.dead| ==> s.dead[i].lineage != s.dead[j].lineage)
  }

  ghost predicate ExactFails(s: System) {
    && |s.fails| == |s.orders|
    && (forall id :: Live(s, id) ==> s.copies[id].copy.lineage < |s.fails|
                                     && s.fails[s.copies[id].copy.lineage] == FailsSoFar(s.copies[id]))
    && (forall i :: 0 <= i < |s.dead| ==> s.dead[i].lineage < |s.fails|
                                          && s.fails[s.dead[i].lineage] == if s.dead[i].order.Poison? then MAX_ATTEMPTS else 0)
  }

  ghost predicate SmoothInv(s: System) {
    Inv(s) && OnePlace(s) && ExactFails(s)
  }

  lemma MoveKeepsOnePlace(s: System, id: nat, e: Entry)
    requires OnePlace(s) && Live(s, id) && e.copy == s.copies[id].copy
    requires !(e.place.Unacked? && e.place.stage.CopySent?)
    ensures OnePlace(s.(copies := s.copies[id := e]))
  {
    var t := s.(copies := s.copies[id := e]);
    assert forall j :: Live(t, j) <==> Live(s, j);
    assert forall l :: InDead(t, l) <==> InDead(s, l);
  }

  lemma MoveKeepsFails(s: System, id: nat, e: Entry)
    requires ExactFails(s) && Live(s, id) && e.copy == s.copies[id].copy
    requires FailsSoFar(e) == FailsSoFar(s.copies[id]) && !(e.place.Unacked? && e.place.stage.CopySent?)
    ensures ExactFails(s.(copies := s.copies[id := e]))
  {
    var t := s.(copies := s.copies[id := e]);
    assert forall j :: Live(t, j) <==> Live(s, j);
  }

  lemma SmoothMove(s: System, id: nat, e: Entry)
    requires SmoothInv(s) && Live(s, id) && e.copy == s.copies[id].copy
    requires FailsSoFar(e) == FailsSoFar(s.copies[id]) && !(e.place.Unacked? && e.place.stage.CopySent?)
    ensures OnePlace(s.(copies := s.copies[id := e])) && ExactFails(s.(copies := s.copies[id := e]))
  {
    MoveKeepsOnePlace(s, id, e);
    MoveKeepsFails(s, id, e);
  }

  lemma SmoothFail(s: System, id: nat)
    requires SmoothInv(s) && Enabled(s, FailToProcess(id))
    ensures OnePlace(Next(s, FailToProcess(id))) && ExactFails(Next(s, FailToProcess(id)))
  {
    var e := s.copies[id].(place := s.copies[id].place.(stage := Failed));
    MoveKeepsOnePlace(s, id, e);
    FailCountsOnce(s, id, e);
  }

  lemma FailCountsOnce(s: System, id: nat, e: Entry)
    requires ExactFails(s) && OnePlace(s) && At(s, id, Fetched) && s.copies[id].copy.lineage < |s.fails|
    requires e == s.copies[id].(place := s.copies[id].place.(stage := Failed))
    ensures var l := s.copies[id].copy.lineage;
            ExactFails(s.(copies := s.copies[id := e], fails := s.fails[l := s.fails[l] + 1]))
  {
    var l := s.copies[id].copy.lineage;
    var t := s.(copies := s.copies[id := e], fails := s.fails[l := s.fails[l] + 1]);
    assert Live(s, id);
    forall i | 0 <= i < |s.dead| ensures s.dead[i].lineage != l {
      assert InDead(s, s.dead[i].lineage);
    }
    forall j | Live(t, j)
      ensures t.copies[j].copy.lineage < |t.fails| && t.fails[t.copies[j].copy.lineage] == FailsSoFar(t.copies[j])
    {
      assert Live(s, j);
    }
  }

  lemma StoreCopyMovesLife(s: System, id: nat)
    requires SmoothInv(s) && Enabled(s, StoreCopy(id))
    ensures var t := Next(s, StoreCopy(id));
            && Live(s, id) && !Live(s, s.nextId) && !Live(t, id)
            && Live(t, s.nextId) && t.copies[s.nextId] == Entry(s.copies[id].copy.(attempt := s.copies[id].copy.attempt + 1), Ready)
            && forall j :: Live(t, j) && j != s.nextId ==> Live(s, j) && j != id && t.copies[j] == s.copies[j]
  {
  }

  lemma SmoothStoreCopy(s: System, id: nat)
    requires SmoothInv(s) && Enabled(s, StoreCopy(id))
    ensures OnePlace(Next(s, StoreCopy(id))) && ExactFails(Next(s, StoreCopy(id)))
  {
    var t := Next(s, StoreCopy(id));
    StoreCopyMovesLife(s, id);
    assert t.dead == s.dead && t.done == s.done && t.fails == s.fails && t.orders == s.orders;
    assert forall l :: InDead(t, l) <==> InDead(s, l);
    forall i, j | Live(t, i) && Live(t, j) && t.copies[i].copy.lineage == t.copies[j].copy.lineage ensures i == j {
      var i' := if i == s.nextId then id else i;
      var j' := if j == s.nextId then id else j;
      assert Live(s, i') && Live(s, j');
    }
    forall j | Live(t, j)
      ensures t.copies[j].copy.lineage < |t.fails| && t.fails[t.copies[j].copy.lineage] == FailsSoFar(t.copies[j])
    {
      assert Live(s, if j == s.nextId then id else j);
    }
  }

  lemma RemoveKeepsFails(s: System, id: nat, t: System)
    requires ExactFails(s) && t.copies == s.copies - {id} && t.fails == s.fails && t.orders == s.orders && t.dead == s.dead
    ensures ExactFails(t)
  {
    forall j | Live(t, j)
      ensures t.copies[j].copy.lineage < |t.fails| && t.fails[t.copies[j].copy.lineage] == FailsSoFar(t.copies[j])
    {
      assert Live(s, j);
    }
  }

  lemma SmoothAckOriginal(s: System, id: nat)
    requires SmoothInv(s) && Enabled(s, AckOriginal(id))
    ensures OnePlace(Next(s, AckOriginal(id))) && ExactFails(Next(s, AckOriginal(id)))
  {
    var t := Next(s, AckOriginal(id));
    assert forall j :: Live(t, j) ==> Live(s, j);
    assert forall l :: InDead(t, l) <==> InDead(s, l);
    RemoveKeepsFails(s, id, t);
  }

  lemma SmoothAckDone(s: System, id: nat)
    requires SmoothInv(s) && Enabled(s, AckDone(id))
    ensures OnePlace(Next(s, AckDone(id))) && ExactFails(Next(s, AckDone(id)))
  {
    var t := Next(s, AckDone(id));
    assert Live(s, id);
    assert forall j :: Live(t, j) ==> Live(s, j) && j != id && t.copies[j] == s.copies[j];
    assert forall l :: InDead(t, l) <==> InDead(s, l);
    RemoveKeepsFails(s, id, t);
  }

  lemma RejectKeepsOnePlace(s: System, id: nat)
    requires OnePlace(s) && Live(s, id)
    ensures OnePlace(s.(copies := s.copies - {id}, dead := s.dead + [s.copies[id].copy]))
  {
    var t := s.(copies := s.copies - {id}, dead := s.dead + [s.copies[id].copy]);
    var l := s.copies[id].copy.lineage;
    assert forall j :: Live(t, j) ==> Live(s, j) && j != id && t.copies[j] == s.copies[j];
    forall m | InDead(t, m) ensures InDead(s, m) || m == l {
      var i :| 0 <= i < |t.dead| && t.dead[i].lineage == m;
      assert i < |s.dead| ==> s.dead[i].lineage == m;
    }
    forall i | 0 <= i < |s.dead| ensures s.dead[i].lineage != l {
      assert InDead(s, s.dead[i].lineage);
    }
  }

  lemma RejectKeepsFails(s: System, id: nat)
    requires ExactFails(s) && Live(s, id) && s.fails[s.copies[id].copy.lineage]
                                             == if s.copies[id].copy.order.Poison? then MAX_ATTEMPTS else 0
    ensures ExactFails(s.(copies := s.copies - {id}, dead := s.dead + [s.copies[id].copy]))
  {
    var t := s.(copies := s.copies - {id}, dead := s.dead + [s.copies[id].copy]);
    forall j | Live(t, j)
      ensures t.copies[j].copy.lineage < |t.fails| && t.fails[t.copies[j].copy.lineage] == FailsSoFar(t.copies[j])
    {
      assert Live(s, j);
    }
  }

  lemma SmoothReject(s: System, id: nat)
    requires SmoothInv(s) && Enabled(s, Reject(id))
    ensures OnePlace(Next(s, Reject(id))) && ExactFails(Next(s, Reject(id)))
  {
    assert Live(s, id);
    assert FailsOk(s, s.copies[id]) && CopyOk(s, s.copies[id].copy);
    RejectKeepsOnePlace(s, id);
    RejectKeepsFails(s, id);
  }

  lemma SmoothPublish(s: System, order: Order)
    requires SmoothInv(s)
    ensures OnePlace(Next(s, Publish(order))) && ExactFails(Next(s, Publish(order)))
  {
    var t := Next(s, Publish(order));
    assert forall j :: Live(t, j) <==> Live(s, j) || j == s.nextId;
    assert forall l :: InDead(t, l) <==> InDead(s, l);
    forall j | Live(s, j) ensures s.copies[j].copy.lineage < |s.orders| {}
    assert !InDead(s, |s.orders|);
  }

  lemma NextKeepsSmoothInv(s: System, a: Action)
    requires SmoothInv(s) && Enabled(s, a) && Smooth(a)
    ensures SmoothInv(Next(s, a))
  {
    NextKeepsInv(s, a);
    match a
    case Publish(order) => SmoothPublish(s, order);
    case Deliver(id, worker) => SmoothMove(s, id, s.copies[id].(place := Unacked(worker, Fetched)));
    case Process(id) => SmoothMove(s, id, Next(s, a).copies[id]);
    case AckDone(id) => SmoothAckDone(s, id);
    case FailToProcess(id) => SmoothFail(s, id);
    case StoreCopy(id) => SmoothStoreCopy(s, id);
    case AckOriginal(id) => SmoothAckOriginal(s, id);
    case Reject(id) => SmoothReject(s, id);
  }

  lemma {:induction false} RunKeepsSmoothInv(s: System, actions: seq<Action>)
    requires SmoothInv(s) && CanRun(s, actions) && forall i :: 0 <= i < |actions| ==> Smooth(actions[i])
    ensures SmoothInv(Run(s, actions))
    decreases |actions|
  {
    if actions != [] {
      NextKeepsSmoothInv(s, actions[0]);
      RunKeepsSmoothInv(Next(s, actions[0]), actions[1..]);
    }
  }

  lemma {:induction false} SomeLiveCopy(s: System, lineage: nat, attempt: int)
    requires Inv(s) && Ahead(s, lineage, attempt) && attempt <= MAX_ATTEMPTS
    ensures (exists id :: Live(s, id) && s.copies[id].copy.lineage == lineage) || lineage in s.done || InDead(s, lineage)
    decreases MAX_ATTEMPTS - attempt
  {
    if lineage !in s.done && !InDead(s, lineage) {
      var id :| id in s.copies && s.copies[id].copy.lineage == lineage && s.copies[id].copy.attempt > attempt;
      if !Live(s, id) {
        assert At(s, id, CopySent);
        SomeLiveCopy(s, lineage, s.copies[id].copy.attempt);
      }
    }
  }

  // Without crashes and nacks each published order is in exactly one place: one live copy on the queue, or done, or
  // one dead letter; and a poison order fails exactly three times before it is dead-lettered.
  lemma SmoothRunsKeepOneCopy(actions: seq<Action>, lineage: nat)
    requires CanRun(Start(), actions) && forall i :: 0 <= i < |actions| ==> Smooth(actions[i])
    requires lineage < |Run(Start(), actions).orders|
    ensures var s := Run(Start(), actions);
            var live := exists id :: Live(s, id) && s.copies[id].copy.lineage == lineage;
            && OnePlace(s)
            && |s.fails| == |s.orders|
            && (live || lineage in s.done || InDead(s, lineage))
            && !(live && lineage in s.done) && !(live && InDead(s, lineage)) && !(lineage in s.done && InDead(s, lineage))
            && (InDead(s, lineage) && s.orders[lineage].Poison? ==> s.fails[lineage] == MAX_ATTEMPTS)
  {
    RunKeepsSmoothInv(Start(), actions);
    var s := Run(Start(), actions);
    assert Accounted(s, lineage);
    SomeLiveCopy(s, lineage, -1);
    if InDead(s, lineage) {
      var i :| 0 <= i < |s.dead| && s.dead[i].lineage == lineage;
      assert CopyOk(s, s.dead[i]);
    }
  }

  // ---- the handler ----

  /** What the broker does with a retry copy: it confirms it, or it does not (a nack, or no queue took it). */
  datatype Confirm = Confirmed | NotConfirmed

  /** The broker operations that handling one delivery amounts to when the worker survives it. */
  function Script(id: nat, copy: Copy, confirm: Confirm): seq<Action> {
    match copy.order
    case Unreadable => [Reject(id)]
    case Good => [Process(id), AckDone(id)]
    case Poison =>
      if copy.attempt >= MAX_ATTEMPTS then [FailToProcess(id), Reject(id)]
      else if confirm.Confirmed? then [FailToProcess(id), StoreCopy(id), AckOriginal(id)]
      else [FailToProcess(id), Nack(id)]
  }

  /** What handling a delivery leaves: on the queue, in the dead letter queue, and as done. */
  ghost predicate Handled(s: System, t: System, id: nat, confirm: Confirm)
    requires id in s.copies
  {
    var copy := s.copies[id].copy;
    match copy.order
    case Unreadable => t.copies == s.copies - {id} && t.dead == s.dead + [copy] && t.done == s.done
    case Good => t.copies == s.copies - {id} && t.dead == s.dead && t.done == s.done + {copy.lineage}
    case Poison =>
      && t.done == s.done
      && (copy.attempt >= 3 ==> t.copies == s.copies - {id} && t.dead == s.dead + [copy])
      && (copy.attempt < 3 && confirm.Confirmed? ==>
            && t.copies == (s.copies - {id})[s.nextId := Entry(Copy(copy.lineage, Poison, copy.attempt + 1), Ready)]
            && t.dead == s.dead)
      && (copy.attempt < 3 && confirm.NotConfirmed? ==> t.copies == s.copies[id := Entry(copy, Ready)] && t.dead == s.dead)
  }

  // A delivery that the worker survives: an unreadable message is dead-lettered, a good order is done, a poison order
  // is dead-lettered at its third attempt and before that replaced by a copy with the next attempt number, or given
  // back if the copy was not confirmed.
  lemma HandlingExactly(s: System, id: nat, confirm: Confirm)
    requires Inv(s) && At(s, id, Fetched)
    ensures CanRun(s, Script(id, s.copies[id].copy, confirm))
    ensures Handled(s, Run(s, Script(id, s.copies[id].copy, confirm)), id, confirm)
  {
    match s.copies[id].copy.order
    case Unreadable => UnreadableScriptRuns(s, id, confirm);
    case Good => GoodScriptRuns(s, id, confirm);
    case Poison => PoisonIsHandled(s, id, confirm);
  }

  lemma PoisonIsHandled(s: System, id: nat, confirm: Confirm)
    requires Inv(s) && At(s, id, Fetched) && s.copies[id].copy.order.Poison?
    ensures CanRun(s, Script(id, s.copies[id].copy, confirm))
    ensures Handled(s, Run(s, Script(id, s.copies[id].copy, confirm)), id, confirm)
  {
    PoisonScriptRuns(s, id, confirm);
    PoisonEnds(s, Run(s, Script(id, s.copies[id].copy, confirm)), id, confirm);
  }

  lemma PoisonEnds(s: System, t: System, id: nat, confirm: Confirm)
    requires Inv(s) && At(s, id, Fetched) && s.copies[id].copy.order.Poison? && s.copies[id].copy.lineage < |s.fails|
    requires var copy := s.copies[id].copy;
             var failed := Next(s, FailToProcess(id));
             t == if copy.attempt >= MAX_ATTEMPTS then Next(failed, Reject(id))
                  else if confirm.Confirmed? then Next(Next(failed, StoreCopy(id)), AckOriginal(id))
                  else Next(failed, Nack(id))
    ensures Handled(s, t, id, confirm)
  {
    PoisonCopies(s, id, confirm);
  }

  lemma PoisonCopies(s: System, id: nat, confirm: Confirm)
    requires Inv(s) && At(s, id, Fetched) && s.copies[id].copy.order.Poison?
    ensures var copy := s.copies[id].copy;
            var failed := Next(s, FailToProcess(id));
            && failed.copies - {id} == s.copies - {id} && failed.dead == s.dead && failed.done == s.done
            && failed.copies[id].copy == copy && failed.nextId == s.nextId
            && (copy.attempt < MAX_ATTEMPTS ==>
                  && Next(Next(failed, StoreCopy(id)), AckOriginal(id)).copies ==
                     (s.copies - {id})[s.nextId := Entry(copy.(attempt := copy.attempt + 1), Ready)]
                  && Next(failed, Nack(id)).copies == s.copies[id := Entry(copy, Ready)])
  {
    assert id != s.nextId;
  }

  /** The queue as one worker's channel sees it; the ghost fields are the history. */
  class Channel {
    var copies: map<nat, Entry>
    var nextId: nat
    var dead: seq<Copy>
    var processed: nat
    ghost var orders: seq<Order>
    ghost var done: set<nat>
    ghost var fails: seq<nat>

    constructor ()
      ensures State() == Start() && processed == 0
    {
      copies, nextId, dead, processed := map[], 0, [], 0;
      orders, done, fails := [], {}, [];
    }

    ghost function State(): System
      reads this
    {
      System(copies, nextId, dead, orders, done, fails)
    }

    method BasicReject(id: nat)
      requires Enabled(State(), Reject(id))
      modifies this
      ensures State() == Next(old(State()), Reject(id)) && processed == old(processed)
    {
      dead := dead + [copies[id].copy];
      copies := copies - {id};
    }

    /** Publishes a copy with the next attempt number and acknowledges the original once the copy is confirmed. */
    method RetryLater(id: nat, confirm: Confirm)
      requires Enabled(State(), StoreCopy(id)) && id != nextId
      modifies this
      ensures processed == old(processed)
      ensures confirm.Confirmed? ==> Enabled(Next(old(State()), StoreCopy(id)), AckOriginal(id))
                                     && State() == Next(Next(old(State()), StoreCopy(id)), AckOriginal(id))
      ensures confirm.NotConfirmed? ==> State() == Next(old(State()), Nack(id))
    {
      var copy := copies[id].copy;
      if confirm.NotConfirmed? {
        copies := copies[id := copies[id].(place := Ready)];
        return;
      }
      copies := copies[nextId := Entry(copy.(attempt := copy.attempt + 1), Ready)];
      nextId := nextId + 1;
      copies := copies - {id};
      assert copies == Next(Next(old(State()), StoreCopy(id)), AckOriginal(id)).copies;
    }

    /** The order cannot be processed: another attempt, or the dead letter queue. */
    method OnPoison(id: nat, confirm: Confirm)
      requires Inv(State()) && At(State(), id, Fetched) && copies[id].copy.order.Poison?
      modifies this
      ensures CanRun(old(State()), Script(id, old(copies)[id].copy, confirm))
      ensures State() == Run(old(State()), Script(id, old(copies)[id].copy, confirm))
      ensures processed == old(processed)
    {
      var copy := copies[id].copy;
      PoisonScriptRuns(State(), id, confirm);
      fails := fails[copy.lineage := fails[copy.lineage] + 1];
      copies := copies[id := copies[id].(place := copies[id].place.(stage := Failed))];
      assert State() == Next(old(State()), FailToProcess(id));
      if copy.attempt < MAX_ATTEMPTS {
        RetryLater(id, confirm);
      } else {
        BasicReject(id);
      }
    }

    method OnMessage(id: nat, confirm: Confirm)
      requires Inv(State()) && At(State(), id, Fetched)
      modifies this
      ensures CanRun(old(State()), Script(id, old(copies)[id].copy, confirm))
      ensures State() == Run(old(State()), Script(id, old(copies)[id].copy, confirm))
      ensures processed == old(processed) + if old(copies)[id].copy.order.Good? then 1 else 0
      ensures Handled(old(State()), State(), id, confirm)
    {
      HandlingExactly(State(), id, confirm);
      var copy := copies[id].copy;
      match copy.order {
        case Unreadable =>
          UnreadableScriptRuns(State(), id, confirm);
          BasicReject(id);
        case Poison =>
          OnPoison(id, confirm);
        case Good =>
          GoodScriptRuns(State(), id, confirm);
          copies := copies - {id};
          done := done + {copy.lineage};
          processed := processed + 1;
      }
    }
  }

  lemma UnreadableScriptRuns(s: System, id: nat, confirm: Confirm)
    requires At(s, id, Fetched) && s.copies[id].copy.order.Unreadable?
    ensures CanRun(s, Script(id, s.copies[id].copy, confirm))
    ensures Run(s, Script(id, s.copies[id].copy, confirm)) == Next(s, Reject(id))
  {
    var script := Script(id, s.copies[id].copy, confirm);
    assert script[1..] == [] && CanRun(Next(s, Reject(id)), []);
  }

  lemma GoodScriptRuns(s: System, id: nat, confirm: Confirm)
    requires At(s, id, Fetched) && s.copies[id].copy.order.Good?
    ensures CanRun(s, Script(id, s.copies[id].copy, confirm))
    ensures Run(s, Script(id, s.copies[id].copy, confirm)) ==
            s.(copies := s.copies - {id}, done := s.done + {s.copies[id].copy.lineage})
  {
    var script := Script(id, s.copies[id].copy, confirm);
    var processed := Next(s, Process(id));
    assert script[1..] == [AckDone(id)] && [AckDone(id)][1..] == [];
    assert CanRun(Next(processed, AckDone(id)), []);
    assert CanRun(processed, [AckDone(id)]) && Run(processed, [AckDone(id)]) == Next(processed, AckDone(id));
    assert processed.copies - {id} == s.copies - {id};
  }

  lemma PoisonScriptRuns(s: System, id: nat, confirm: Confirm)
    requires Inv(s) && At(s, id, Fetched) && s.copies[id].copy.order.Poison?
    ensures var copy := s.copies[id].copy;
            var failed := Next(s, FailToProcess(id));
            && CanRun(s, Script(id, copy, confirm))
            && Run(s, Script(id, copy, confirm)) ==
               if copy.attempt >= MAX_ATTEMPTS then Next(failed, Reject(id))
               else if confirm.Confirmed? then Next(Next(failed, StoreCopy(id)), AckOriginal(id))
               else Next(failed, Nack(id))
  {
    var copy := s.copies[id].copy;
    var failed := Next(s, FailToProcess(id));
    var script := Script(id, copy, confirm);
    if copy.attempt >= MAX_ATTEMPTS || confirm.NotConfirmed? {
      var last := script[1];
      assert script[1..] == [last] && [last][1..] == [];
      assert CanRun(Next(failed, last), []);
      assert CanRun(failed, [last]) && Run(failed, [last]) == Next(failed, last);
    } else {
      var sent := Next(failed, StoreCopy(id));
      assert script[1..] == [StoreCopy(id), AckOriginal(id)];
      assert [StoreCopy(id), AckOriginal(id)][1..] == [AckOriginal(id)] && [AckOriginal(id)][1..] == [];
      assert CanRun(Next(sent, AckOriginal(id)), []);
      assert CanRun(sent, [AckOriginal(id)]) && Run(sent, [AckOriginal(id)]) == Next(sent, AckOriginal(id));
      assert CanRun(failed, [StoreCopy(id), AckOriginal(id)]);
    }
  }
}
