/** What each operation of the game does to the attempt, in terms of tiles, slots and answers. */
module PuzzleRules {
  import opened Basics
  import opened Puzzle
  import opened PuzzleGame

  // ---- what a submission does ----

  /** How many hints a slot had. */
  function HintsOf(hints: map<string, nat>, slot: string): nat {
    if slot in hints then hints[slot] else 0
  }

  predicate Holds(att: Attempt, answers: map<string, string>, slot: string) {
    slot in answers && slot in att.placements && att.placements[slot] == answers[slot]
  }

  /** The result that a submission gives an open slot. */
  predicate MarkedAs(r: Result, att: Attempt, answers: map<string, string>, slot: string)
    requires slot in answers
  {
    && r.attempt == att.attempt
    && r.got == (if slot in att.placements then Some(att.placements[slot]) else None)
    && (r.status.Correct? <==> Holds(att, answers, slot))
    && (r.status.Empty? <==> slot !in att.placements)
    && !r.status.Revealed?
    && (r.points == if Holds(att, answers, slot) then SlotPoints(att.attempt, HintsOf(att.hints, slot)) else 0)
  }

  ghost predicate LockedExactly(before: Attempt, after: Attempt, answers: map<string, string>) {
    forall s :: s in after.locked <==> s in before.locked || Holds(before, answers, s)
  }

  ghost predicate ResultsExactly(before: Attempt, after: Attempt, answers: map<string, string>) {
    && after.results.Keys == before.results.Keys + (answers.Keys - before.locked)
    && (forall s :: s in answers && s !in before.locked ==> MarkedAs(after.results[s], before, answers, s))
    && (forall s :: s in before.results && (s in before.locked || s !in answers) ==> after.results[s] == before.results[s])
  }

  /** After marking some slots: the open ones with their answer are locked, each open one has its result. */
  ghost predicate MarkedExactly(before: Attempt, after: Attempt, answers: map<string, string>) {
    && after == before.(locked := after.locked, results := after.results)
    && LockedExactly(before, after, answers) && ResultsExactly(before, after, answers)
  }

  lemma HoldsWithMore(att: Attempt, answers: map<string, string>, s: Slot)
    requires s.id !in answers
    ensures forall t :: Holds(att, answers[s.id := s.answer], t) <==>
                        if t == s.id then At(att.placements, t) == Some(s.answer) else Holds(att, answers, t)
  {
  }

  lemma NewMark(before: Attempt, s: Slot, answers: map<string, string>, mid: Attempt)
    requires s.id in answers && answers[s.id] == s.answer && s.id !in before.locked
    ensures var after := MarkSlot(mid, before, s);
            && s.id in after.results && MarkedAs(after.results[s.id], before, answers, s.id)
            && after.results == mid.results[s.id := after.results[s.id]]
            && after.locked == mid.locked + (if Holds(before, answers, s.id) then {s.id} else {})
            && after == mid.(locked := after.locked, results := after.results)
  {
  }

  lemma MarkedWithMore(r: Result, att: Attempt, answers: map<string, string>, s: Slot, slot: string)
    requires slot in answers && s.id !in answers && MarkedAs(r, att, answers, slot)
    ensures MarkedAs(r, att, answers[s.id := s.answer], slot)
  {
    assert Holds(att, answers[s.id := s.answer], slot) <==> Holds(att, answers, slot);
  }

  lemma ResultsGrow(before: Attempt, mid: Attempt, after: Attempt, answers: map<string, string>, s: Slot)
    requires ResultsExactly(before, mid, answers) && s.id !in answers && s.id !in before.locked
    requires s.id in after.results && after.results == mid.results[s.id := after.results[s.id]]
    requires MarkedAs(after.results[s.id], before, answers[s.id := s.answer], s.id)
    ensures ResultsExactly(before, after, answers[s.id := s.answer])
  {
    forall t | t in answers && t !in before.locked ensures MarkedAs(after.results[t], before, answers[s.id := s.answer], t) {
      MarkedWithMore(mid.results[t], before, answers, s, t);
    }
  }

  lemma ResultsStay(before: Attempt, mid: Attempt, answers: map<string, string>, s: Slot)
    requires ResultsExactly(before, mid, answers) && s.id !in answers && s.id in before.locked
    ensures ResultsExactly(before, mid, answers[s.id := s.answer])
  {
    forall t | t in answers && t !in before.locked ensures MarkedAs(mid.results[t], before, answers[s.id := s.answer], t) {
      MarkedWithMore(mid.results[t], before, answers, s, t);
    }
  }

  lemma MarkOneExactly(before: Attempt, mid: Attempt, s: Slot, answers: map<string, string>)
    requires MarkedExactly(before, mid, answers) && s.id !in answers
    ensures MarkedExactly(before, MarkSlot(mid, before, s), answers[s.id := s.answer])
  {
    HoldsWithMore(before, answers, s);
    if s.id in before.locked {
      ResultsStay(before, mid, answers, s);
    } else {
      NewMark(before, s, answers[s.id := s.answer], mid);
      ResultsGrow(before, mid, MarkSlot(mid, before, s), answers, s);
    }
  }

  lemma {:induction false} MarkAllExactly(before: Attempt, slots: seq<Slot>)
    requires DistinctSlots(slots)
    ensures MarkedExactly(before, MarkAll(before, slots), AnswersOf(slots))
  {
    if slots != [] {
      var init := slots[..|slots| - 1];
      LastIsNew(slots);
      MarkAllExactly(before, init);
      MarkOneExactly(before, MarkAll(before, init), slots[|slots| - 1], AnswersOf(init));
    }
  }

  // A submission counts iff the attempt is not over and an open slot holds a tile. It locks exactly the open slots that
  // hold their answer and gives each open slot its result; nothing else changes. The attempt is over iff every slot
  // was locked before or holds its answer.
  lemma SubmitExactly(p: Puzzle, att: Attempt)
    requires DistinctSlots(p.slots)
    ensures Submit(p, att).Some? <==>
              !att.done && exists s :: s in AnswersOf(p.slots) && s !in att.locked && s in att.placements
    ensures Submit(p, att).Some? ==>
              var next := Submit(p, att).value;
              && MarkedExactly(att, next.(done := att.done), AnswersOf(p.slots))
              && (next.done <==> forall s :: s in AnswersOf(p.slots) ==> s in att.locked || Holds(att, AnswersOf(p.slots), s))
  {
    IdsOfSlots(p.slots);
    MarkAllExactly(att, p.slots);
    if HasOpenTile(att, p.slots) {
      var i :| 0 <= i < |p.slots| && p.slots[i].id !in att.locked && p.slots[i].id in att.placements;
      assert p.slots[i].id in AnswersOf(p.slots);
    }
    if s :| s in AnswersOf(p.slots) && s !in att.locked && s in att.placements {
      assert s in IdsOf(p.slots);
      var i :| 0 <= i < |p.slots| && p.slots[i].id == s;
      assert HasOpenTile(att, p.slots);
    }
  }

  // The verdict lists each open slot once, in the order of the puzzle: correct iff it holds its answer, wrong iff it
  // holds another tile, empty iff it holds none.
  lemma {:induction false} VerdictLists(att: Attempt, slots: seq<Slot>, id: string)
    requires DistinctSlots(slots)
    ensures var answers := AnswersOf(slots);
            && (id in OpenWith(att, slots, Correct) <==> id !in att.locked && Holds(att, answers, id))
            && (id in OpenWith(att, slots, Wrong) <==>
                  id in answers && id !in att.locked && id in att.placements && att.placements[id] != answers[id])
            && (id in OpenWith(att, slots, Empty) <==> id in answers && id !in att.locked && id !in att.placements)
  {
    if slots != [] {
      var init, last := slots[..|slots| - 1], slots[|slots| - 1];
      LastIsNew(slots);
      VerdictLists(att, init, id);
    }
  }

  ghost predicate Subsequence(xs: seq<string>, ys: seq<string>)
    decreases |ys|
  {
    xs == []
    || (ys != [] && Subsequence(xs, ys[..|ys| - 1]))
    || (ys != [] && xs[|xs| - 1] == ys[|ys| - 1] && Subsequence(xs[..|xs| - 1], ys[..|ys| - 1]))
  }

  function SlotIds(slots: seq<Slot>): seq<string> {
    seq(|slots|, i requires 0 <= i < |slots| => slots[i].id)
  }

  lemma {:induction false} VerdictInOrder(att: Attempt, slots: seq<Slot>, status: Status)
    ensures Subsequence(OpenWith(att, slots, status), SlotIds(slots))
  {
    if slots != [] {
      var init, last := slots[..|slots| - 1], slots[|slots| - 1];
      VerdictInOrder(att, init, status);
      assert SlotIds(slots)[..|slots| - 1] == SlotIds(init);
      var ids := OpenWith(att, slots, status);
      if ids != OpenWith(att, init, status) {
        assert ids[..|ids| - 1] == OpenWith(att, init, status);
      }
    }
  }

  // ---- what the tile operations do ----

  // A tile can be placed iff slot and service exist, the slot is open and the attempt not over, and the service is
  // there already or has a use left. Then the slot holds it and nothing else changes; the tile it replaces is returned.
  lemma PlaceExactly(p: Puzzle, att: Attempt, slot: string, service: string)
    ensures var r := Place(p, att, slot, service);
            var there := slot in att.placements && att.placements[slot] == service;
            && (r.Done? <==>
                  && (exists i :: 0 <= i < |p.slots| && p.slots[i].id == slot)
                  && service in UsesOf(p.palette) && !att.done && slot !in att.locked
                  && (there || |SlotsWith(att.placements, service)| < UsesOf(p.palette)[service]))
            && (r.Done? ==>
                  && r.att == att.(placements := att.placements[slot := service])
                  && r.returned == if there || slot !in att.placements then None else Some(att.placements[slot]))
  {
    if slot in att.placements && att.placements[slot] == service {
      assert att.placements[slot := service] == att.placements;
    }
  }

  // A tile can be moved iff both slots exist and are open, the attempt is not over and the first slot holds one. Then
  // the first slot is empty, the second holds the tile, and the tile that was there is returned.
  lemma MoveExactly(p: Puzzle, att: Attempt, from: string, to: string)
    ensures var r := Move(p, att, from, to);
            && (r.Done? <==>
                  && (exists i :: 0 <= i < |p.slots| && p.slots[i].id == from)
                  && (exists i :: 0 <= i < |p.slots| && p.slots[i].id == to)
                  && !att.done && from !in att.locked && to !in att.locked && from in att.placements)
            && (r.Done? && from == to ==> r.att == att && r.returned.None?)
            && (r.Done? && from != to ==>
                  && r.att == att.(placements := r.att.placements)
                  && r.att.placements.Keys == att.placements.Keys - {from} + {to}
                  && r.att.placements[to] == att.placements[from]
                  && (forall s :: s in r.att.placements && s != to ==> r.att.placements[s] == att.placements[s])
                  && r.returned == if to in att.placements then Some(att.placements[to]) else None)
  {
  }

  /** The tiles of this service that `after` has on the diagram beyond those of `before`. */
  function MoreTiles(before: map<string, string>, after: map<string, string>, service: string): int {
    |SlotsWith(after, service)| - |SlotsWith(before, service)|
  }

  lemma SlotsAfterSet(placements: map<string, string>, slot: string, service: string, v: string)
    ensures SlotsWith(placements[slot := service], v) ==
            SlotsWith(placements, v) - {slot} + if v == service then {slot} else {}
  {
  }

  lemma TilesAfterSet(placements: map<string, string>, slot: string, service: string, v: string)
    ensures MoreTiles(placements, placements[slot := service], v) ==
            (if v == service then 1 else 0) - (if slot in placements && placements[slot] == v then 1 else 0)
  {
    SlotsAfterSet(placements, slot, service, v);
    assert slot in SlotsWith(placements, v) <==> slot in placements && placements[slot] == v;
  }

  lemma TilesAfterClear(placements: map<string, string>, slot: string, v: string)
    ensures MoreTiles(placements, placements - {slot}, v) == if slot in placements && placements[slot] == v then -1 else 0
  {
    assert SlotsWith(placements - {slot}, v) == SlotsWith(placements, v) - {slot};
  }

  // What goes onto the diagram and what comes back: one tile of the service placed, one of the service returned.
  lemma PlaceBalances(p: Puzzle, att: Attempt, slot: string, service: string, v: string)
    requires Place(p, att, slot, service).Done?
    ensures var r := Place(p, att, slot, service);
            var there := slot in att.placements && att.placements[slot] == service;
            MoreTiles(att.placements, r.att.placements, v) ==
            (if v == service && !there then 1 else 0) - (if r.returned == Some(v) then 1 else 0)
  {
    PlaceExactly(p, att, slot, service);
    TilesAfterSet(att.placements, slot, service, v);
  }

  // A move brings nothing onto the diagram; it takes off the tile that it returns.
  lemma MoveBalances(p: Puzzle, att: Attempt, from: string, to: string, v: string)
    requires Move(p, att, from, to).Done?
    ensures var r := Move(p, att, from, to);
            MoreTiles(att.placements, r.att.placements, v) == if r.returned == Some(v) then -1 else 0
  {
    if from != to {
      TilesAfterClear(att.placements, from, v);
      TilesAfterSet(att.placements - {from}, to, att.placements[from], v);
    }
  }

  // Taking a tile off empties its slot and nothing else; it can be taken off iff the slot is open and the attempt not
  // over. Placing on an empty slot and taking off again changes nothing.
  lemma RemoveExactly(att: Attempt, slot: string)
    ensures Remove(att, slot) != att <==> !att.done && slot !in att.locked && slot in att.placements
    ensures Remove(att, slot) != att ==> Remove(att, slot) == att.(placements := att.placements - {slot})
  {
    if slot in att.placements {
      assert slot !in (att.placements - {slot});
    }
  }

  lemma PlaceThenRemove(p: Puzzle, att: Attempt, slot: string, service: string)
    requires Place(p, att, slot, service).Done? && slot !in att.placements
    ensures Remove(Place(p, att, slot, service).att, slot) == att
  {
    assert att.placements[slot := service] - {slot} == att.placements;
  }

  // A reset leaves exactly the tiles on locked slots; after it, resetting again changes nothing.
  lemma ResetExactly(att: Attempt)
    requires !att.done
    ensures var next := Reset(att);
            && next == att.(placements := next.placements)
            && next.placements.Keys == att.placements.Keys * att.locked
            && (forall s :: s in next.placements ==> next.placements[s] == att.placements[s])
            && Reset(next) == next
  {
    assert Reset(Reset(att)).placements == Reset(att).placements;
  }

  // Trying again keeps exactly the tiles and results of slots that are locked or not of the puzzle, and counts.
  lemma RetryExactly(p: Puzzle, att: Attempt)
    requires !att.done
    ensures var next := Retry(p, att);
            && next == att.(attempt := att.attempt + 1, placements := next.placements, results := next.results)
            && (forall s :: s in next.placements <==> s in att.placements && (s in att.locked || s !in AnswersOf(p.slots)))
            && (forall s :: s in next.placements ==> next.placements[s] == att.placements[s])
            && (forall s :: s in next.results <==> s in att.results && (s in att.locked || s !in AnswersOf(p.slots)))
            && (forall s :: s in next.results ==> next.results[s] == att.results[s])
  {
  }

  // An attempt that is over is changed by nothing but showing the answers.
  lemma OverMeansOver(p: Puzzle, att: Attempt, a: Action)
    requires att.done && !a.ShowAnswers?
    ensures Next(p, att, a) == att
  {
  }

  // A hint counts up by one to at most three, for an open slot of an attempt in practice that is not over.
  lemma HintExactly(att: Attempt, slot: string, challenge: bool)
    ensures var next := UseHint(att, slot, challenge);
            && (att.done || challenge || slot in att.locked ==> next == att)
            && (!att.done && !challenge && slot !in att.locked ==>
                  && next == att.(hints := next.hints) && next.hints.Keys == att.hints.Keys + {slot}
                  && (forall s :: s in att.hints && s != slot ==> next.hints[s] == att.hints[s])
                  && (HintsOf(att.hints, slot) <= 2 ==> next.hints[slot] == HintsOf(att.hints, slot) + 1)
                  && (HintsOf(att.hints, slot) >= 3 ==> next.hints[slot] == 3))
  {
  }

  // ---- showing the answers, and the end of a challenge ----

  /** The result that showing the answers gives an open slot: no points, and the last choice. */
  predicate ShownAs(r: Result, att: Attempt, slot: string) {
    && r.status.Revealed? && r.points == 0 && r.attempt == att.attempt
    && r.got == if slot in att.results then att.results[slot].got
                else if slot in att.placements then Some(att.placements[slot]) else None
  }

  ghost predicate ShownExactly(before: Attempt, after: Attempt, answers: map<string, string>) {
    && after.results.Keys == before.results.Keys + (answers.Keys - before.locked)
    && (forall s :: s in answers && s !in before.locked ==> ShownAs(after.results[s], before, s))
    && (forall s :: s in before.results && (s in before.locked || s !in answers) ==> after.results[s] == before.results[s])
    && after.locked == before.locked + answers.Keys && after.attempt == before.attempt
  }

  lemma NewShown(before: Attempt, mid: Attempt, s: Slot)
    requires s.id !in mid.locked && mid.attempt == before.attempt
    requires s.id in mid.results <==> s.id in before.results
    requires s.id in mid.results ==> mid.results[s.id] == before.results[s.id]
    ensures var after := RevealSlot(mid, before, s);
            && s.id in after.results && ShownAs(after.results[s.id], before, s.id)
            && after.results == mid.results[s.id := after.results[s.id]]
            && after.locked == mid.locked + {s.id} && after.attempt == mid.attempt
  {
  }

  lemma ShownGrows(before: Attempt, mid: Attempt, after: Attempt, answers: map<string, string>, s: Slot)
    requires ShownExactly(before, mid, answers) && s.id !in answers && s.id !in before.locked
    requires s.id in after.results && ShownAs(after.results[s.id], before, s.id)
    requires after.results == mid.results[s.id := after.results[s.id]]
    requires after.locked == mid.locked + {s.id} && after.attempt == mid.attempt
    ensures ShownExactly(before, after, answers[s.id := s.answer])
  {
    forall t | t in answers && t !in before.locked ensures ShownAs(after.results[t], before, t) {
      assert ShownAs(mid.results[t], before, t);
    }
  }

  lemma RevealOneExactly(before: Attempt, mid: Attempt, s: Slot, answers: map<string, string>)
    requires ShownExactly(before, mid, answers) && s.id !in answers
    ensures ShownExactly(before, RevealSlot(mid, before, s), answers[s.id := s.answer])
  {
    if s.id !in before.locked {
      NewShown(before, mid, s);
      ShownGrows(before, mid, RevealSlot(mid, before, s), answers, s);
    }
  }

  lemma {:induction false} RevealAllExactly(before: Attempt, slots: seq<Slot>)
    requires DistinctSlots(slots)
    ensures ShownExactly(before, RevealAll(before, slots), AnswersOf(slots))
  {
    if slots != [] {
      var init := slots[..|slots| - 1];
      LastIsNew(slots);
      RevealAllExactly(before, init);
      RevealOneExactly(before, RevealAll(before, init), slots[|slots| - 1], AnswersOf(init));
    }
  }

  // Showing the answers ends the attempt; it gives every slot that was not solved its answer and no points, keeps its
  // last choice, and keeps the results of the solved ones.
  lemma RevealExactly(p: Puzzle, att: Attempt)
    requires PuzzleOk(p) && AttemptOk(p, att) && !(att.done && att.revealed)
    ensures var next := Reveal(p, att);
            && next.done && next.revealed && next.placements == AnswersOf(p.slots)
            && ShownExactly(att, next, AnswersOf(p.slots)) && next.hints == att.hints
  {
    RevealAllExactly(att, p.slots);
    RevealAllShows(att, p.slots);
    ShownIsAnswers(p, att, RevealAll(att, p.slots));
  }

  /** The slots of the puzzle that are neither locked nor hold their answer. */
  ghost predicate Unsolved(p: Puzzle, att: Attempt, slot: string) {
    slot in AnswersOf(p.slots) && slot !in att.locked && !Holds(att, AnswersOf(p.slots), slot)
  }

  // When the time is up the attempt ends: what is on the diagram is submitted, an open slot that holds its answer gets
  // its points, and every other open slot is shown for none.
  lemma TimeUpExactly(p: Puzzle, att: Attempt, slot: string)
    requires PuzzleOk(p) && AttemptOk(p, att) && !att.done && slot in AnswersOf(p.slots) && slot !in att.locked
    ensures var next := TimeUp(p, att);
            && next.done && slot in next.results && next.placements == AnswersOf(p.slots)
            && (Holds(att, AnswersOf(p.slots), slot) ==>
                  next.results[slot].status.Correct? && next.results[slot].points == SlotPoints(att.attempt, HintsOf(att.hints, slot)))
            && (Unsolved(p, att, slot) ==> next.results[slot].status.Revealed? && next.results[slot].points == 0 && next.revealed)
            && (next.revealed ==> exists s :: Unsolved(p, att, s))
  {
    SubmitExactly(p, att);
    match Submit(p, att) {
      case None =>
        RevealExactly(p, att);
        assert Unsolved(p, att, slot);
      case Some(next) =>
        SubmitKeepsOk(p, att);
        assert MarkedAs(next.results[slot], att, AnswersOf(p.slots), slot);
        if !next.done {
          RevealExactly(p, next);
          var s :| s in AnswersOf(p.slots) && !(s in att.locked || Holds(att, AnswersOf(p.slots), s));
          assert Unsolved(p, att, s);
        } else {
          OverShowsAnswers(p, next);
        }
    }
  }

  lemma OverShowsAnswers(p: Puzzle, att: Attempt)
    requires AttemptOk(p, att) && att.done
    ensures att.placements == AnswersOf(p.slots)
  {
  }

  // A challenge allows one submission that counts; it ends as when the time is up. One that does not count is ignored.
  lemma ChallengeIsOneSubmission(p: Puzzle, att: Attempt)
    requires DistinctSlots(p.slots)
    ensures Submit(p, att).Some? ==> ChallengeSubmit(p, att) == TimeUp(p, att)
    ensures Submit(p, att).None? ==> ChallengeSubmit(p, att) == att
  {
  }

  // ---- points ----

  // Ten, five and two points for the first, second and any later submission, halved for each hint, never below two.
  lemma SlotPointsTable(attempt: nat, hints: nat)
    requires attempt >= 1
    ensures SlotPoints(attempt, hints) ==
            if attempt == 1 && hints == 0 then 10
            else if (attempt == 1 && hints == 1) || (attempt == 2 && hints == 0) then 5
            else 2
  {
    PowerIsLarge(hints);
  }

  lemma {:induction false} PowerIsLarge(n: nat)
    ensures n == 0 ==> Pow2(n) == 1
    ensures n == 1 ==> Pow2(n) == 2
    ensures n >= 2 ==> Pow2(n) >= 4
  {
    if n >= 1 {
      PowerIsLarge(n - 1);
    }
  }

  // A slot that holds its answer in the first submission, without a hint, is locked for ten points.
  lemma FirstTryPaysTen(p: Puzzle, att: Attempt, slot: string)
    requires DistinctSlots(p.slots) && Submit(p, att).Some? && att.attempt == 1 && HintsOf(att.hints, slot) == 0
    requires slot !in att.locked && Holds(att, AnswersOf(p.slots), slot)
    ensures var next := Submit(p, att).value;
            slot in next.locked && slot in next.results
            && next.results[slot] == Result(Correct, 10, 1, Some(AnswersOf(p.slots)[slot]))
  {
    SubmitExactly(p, att);
    SlotPointsTable(1, 0);
    var next := Submit(p, att).value;
    assert MarkedAs(next.results[slot], att, AnswersOf(p.slots), slot);
  }

  // ---- a perfect attempt ----

  /** Puts its answer on each slot, in order. */
  function PlaceAll(slots: seq<Slot>): seq<Action> {
    if slots == [] then []
    else PlaceAll(slots[..|slots| - 1]) + [PlaceTile(slots[|slots| - 1].id, slots[|slots| - 1].answer)]
  }

  lemma {:induction false} RunOfAppend(p: Puzzle, att: Attempt, xs: seq<Action>, a: Action)
    ensures Run(p, att, xs + [a]) == Next(p, Run(p, att, xs), a)
    decreases |xs|
  {
    if xs == [] {
      assert xs + [a] == [a] && [a][1..] == [];
      assert Run(p, Next(p, att, a), []) == Next(p, att, a);
    } else {
      assert (xs + [a])[1..] == xs[1..] + [a];
      RunOfAppend(p, Next(p, att, xs[0]), xs[1..], a);
    }
  }

  lemma {:induction false} NeedGrows(slots: seq<Slot>, i: nat, service: string)
    requires i < |slots|
    ensures NeedOf(slots[..i], service) + (if slots[i].answer == service then 1 else 0) <= NeedOf(slots, service)
    decreases |slots|
  {
    var init := slots[..|slots| - 1];
    if i < |init| {
      assert init[..i] == slots[..i] && init[i] == slots[i];
      NeedGrows(init, i, service);
    } else {
      assert slots[..i] == init;
    }
  }

  lemma PrefixIsDistinct(slots: seq<Slot>, i: nat)
    requires DistinctSlots(slots) && i <= |slots|
    ensures DistinctSlots(slots[..i])
  {
  }

  function WithTiles(placements: map<string, string>): Attempt {
    Attempt(placements, {}, 1, map[], map[], false, false)
  }

  // The tiles of the first slots leave one for the next.
  lemma NextAnswerIsLeft(p: Puzzle, i: nat)
    requires PuzzleOk(p) && i < |p.slots|
    ensures p.slots[i].answer in UsesOf(p.palette)
    ensures |SlotsWith(AnswersOf(p.slots[..i]), p.slots[i].answer)| < UsesOf(p.palette)[p.slots[i].answer]
  {
    var service := p.slots[i].answer;
    CheckedUsesFitAnswers(p);
    NeedIsPositive(p.slots, service);
    NeedGrows(p.slots, i, service);
    PrefixIsDistinct(p.slots, i);
    AnswersMeetTheNeed(p.slots[..i], service);
  }

  lemma PlaceNextAnswer(p: Puzzle, i: nat)
    requires PuzzleOk(p) && i < |p.slots|
    ensures Next(p, WithTiles(AnswersOf(p.slots[..i])), PlaceTile(p.slots[i].id, p.slots[i].answer)) ==
            WithTiles(AnswersOf(p.slots[..i + 1]))
  {
    var s := p.slots[i];
    NextAnswerIsLeft(p, i);
    assert p.slots[..i + 1][..i] == p.slots[..i] && p.slots[..i + 1][i] == s;
    PrefixIsDistinct(p.slots, i + 1);
    LastIsNew(p.slots[..i + 1]);
    assert IsSlot(p, s.id);
  }

  lemma {:induction false} AnswersCanBePlaced(p: Puzzle, i: nat)
    requires PuzzleOk(p) && i <= |p.slots|
    ensures Run(p, NewAttempt(), PlaceAll(p.slots[..i])) == WithTiles(AnswersOf(p.slots[..i]))
  {
    if i > 0 {
      var before, s := p.slots[..i - 1], p.slots[i - 1];
      assert p.slots[..i][..i - 1] == before && p.slots[..i][i - 1] == s;
      AnswersCanBePlaced(p, i - 1);
      RunOfAppend(p, NewAttempt(), PlaceAll(before), PlaceTile(s.id, s.answer));
      PlaceNextAnswer(p, i - 1);
    }
  }

  // On a checked puzzle a new attempt can be solved: every answer can be placed, and submitting then locks every slot
  // for ten points and ends the attempt.
  lemma SolvedAtOnce(p: Puzzle, slot: string)
    requires PuzzleOk(p) && slot in AnswersOf(p.slots)
    ensures var att := Run(p, NewAttempt(), PlaceAll(p.slots) + [SubmitTiles]);
            && att.done && !att.revealed && att.placements == AnswersOf(p.slots) && att.hints == map[]
            && slot in att.locked && slot in att.results
            && att.results[slot] == Result(Correct, 10, 1, Some(AnswersOf(p.slots)[slot]))
  {
    AnswersCanBePlaced(p, |p.slots|);
    assert p.slots[..|p.slots|] == p.slots;
    RunOfAppend(p, NewAttempt(), PlaceAll(p.slots), SubmitTiles);
    var att := Run(p, NewAttempt(), PlaceAll(p.slots));
    SubmitExactly(p, att);
    assert slot !in att.locked && slot in att.placements;
    FirstTryPaysTen(p, att, slot);
  }
}
