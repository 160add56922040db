/** Without interleaving, the step system does what the poller, the queue and the handler do in one piece. */
module PollRefinement {
  import opened Basics
  import opened Sqs
  import opened Processor
  import opened Poller
  import opened EffectivelyOnce
  import SqsRuns

  lemma {:induction false} RunOfAppend(cfg: Config, s: System, xs: seq<Action>, ys: seq<Action>)
    requires CanRun(cfg, s, xs) && CanRun(cfg, Run(cfg, s, xs), ys)
    ensures CanRun(cfg, s, xs + ys) && Run(cfg, s, xs + ys) == Run(cfg, Run(cfg, s, xs), ys)
    decreases |xs|
  {
    if xs == [] {
      assert xs + ys == ys;
    } else {
      assert (xs + ys)[1..] == xs[1..] + ys;
      RunOfAppend(cfg, Next(cfg, s, xs[0]), xs[1..], ys);
    }
  }

  /** `d` is `s` after the function `i` ended with this answer and this table. */
  ghost predicate Ended(s: System, d: System, i: nat, result: (Table, Option<seq<MessageId>>))
    requires i < |s.runs|
  {
    && |d.runs| == |s.runs| && d.table == result.0
    && d.q == s.q && d.poller == s.poller && d.sent == s.sent && d.deletedIds == s.deletedIds
    && (match result.1
        case None => d.runs[i].status.Dead?
        case Some(more) => d.runs[i].status.Done? && d.runs[i].failures == s.runs[i].failures + more)
  }

  // A function that is left alone computes what the handler computes on the records it still has.
  lemma {:induction false} AloneIsHandler(cfg: Config, s: System, i: nat) returns (actions: seq<Action>)
    requires i < |s.runs| && s.runs[i].status.Running? && s.runs[i].next <= |s.runs[i].records|
    ensures CanRun(cfg, s, actions)
    ensures Ended(s, Run(cfg, s, actions), i, HandleAll(s.table, true, s.runs[i].records[s.runs[i].next..]))
    decreases |s.runs[i].records| - s.runs[i].next
  {
    var run := s.runs[i];
    var next := Next(cfg, s, Work(i));
    var left := run.records[run.next..];
    if next.runs[i].status.Running? {
      assert left[1..] == run.records[run.next + 1..];
      var rest := AloneIsHandler(cfg, next, i);
      Prepend(cfg, s, Work(i), rest);
      actions := [Work(i)] + rest;
      if Parse(left[0].body).Invalid? {
        var (after, more) := HandleAll(s.table, true, left[1..]);
        if more.Some? {
          assert run.failures + [left[0].id] + more.value == run.failures + ([left[0].id] + more.value);
        }
      }
    } else {
      assert CanRun(cfg, next, []) && Run(cfg, next, []) == next;
      Prepend(cfg, s, Work(i), []);
      actions := [Work(i)] + [];
      if left == [] {
        assert run.failures + [] == run.failures;
      }
    }
  }

  lemma {:induction false} SettleStepsAreSettleAll(cfg: Config, s: System) returns (actions: seq<Action>)
    requires s.poller.Settling? && s.poller.ids != []
    ensures CanRun(cfg, s, actions)
    ensures var d := Run(cfg, s, actions);
            d.q == SettleAll(cfg, s.q, s.poller.ids, s.poller.failed) && d.poller.Idle? && d.table == s.table
    decreases |s.poller.ids|
  {
    var next := Next(cfg, s, Settle);
    if |s.poller.ids| == 1 {
      assert s.poller.ids[1..] == [];
      assert CanRun(cfg, next, []) && Run(cfg, next, []) == next;
      Prepend(cfg, s, Settle, []);
      actions := [Settle] + [];
    } else {
      var rest := SettleStepsAreSettleAll(cfg, next);
      Prepend(cfg, s, Settle, rest);
      actions := [Settle] + rest;
    }
  }

  /** What the poller learns from a handler that ran alone: its failures, or that it crashed. */
  function OutcomeOf(answer: Option<seq<MessageId>>): Outcome {
    match answer
    case None => InvokeError
    case Some(failures) => Reported(Members(failures))
  }

  // One poll that nothing interleaves with leaves the queue as the poller's method does, and the table as the handler
  // does, with the handler's answer as the outcome of the invocation.
  lemma AlonePollIsPollOnce(cfg: Config, s: System, batchSize: int, now: int) returns (actions: seq<Action>)
    requires s.poller.Idle?
    ensures CanRun(cfg, s, actions)
    ensures var (out, batch) := ReceiveFrom(s.q.messages, batchSize, now, cfg.timeout);
            var (table, answer) := HandleAll(s.table, true, RecordsOf(batch));
            var d := Run(cfg, s, actions);
            && d.q == Poll(cfg, s.q, batchSize, now, OutcomeOf(answer)).0
            && d.table == table && d.poller.Idle?
  {
    var (out, batch) := ReceiveFrom(s.q.messages, batchSize, now, cfg.timeout);
    var received := Next(cfg, s, PollReceive(batchSize, now));
    if batch == [] {
      assert RecordsOf(batch) == [];
      assert CanRun(cfg, received, []) && Run(cfg, received, []) == received;
      Prepend(cfg, s, PollReceive(batchSize, now), []);
      return [PollReceive(batchSize, now)] + [];
    }
    var i := |s.runs|;
    var work := AloneIsHandler(cfg, received, i);
    assert received.runs[i].records[0..] == RecordsOf(batch);
    var ended := Run(cfg, received, work);
    var answer := HandleAll(s.table, true, RecordsOf(batch)).1;
    var learn := if answer.None? then Lose else Answer;
    if answer.Some? {
      assert [] + answer.value == answer.value;
    }
    var learned := Next(cfg, ended, learn);
    assert |BatchIds(batch)| == |batch|;
    var settle := SettleStepsAreSettleAll(cfg, learned);
    Prepend(cfg, ended, learn, settle);
    RunOfAppend(cfg, received, work, [learn] + settle);
    Prepend(cfg, s, PollReceive(batchSize, now), work + ([learn] + settle));
    actions := [PollReceive(batchSize, now)] + (work + ([learn] + settle));
  }
}
