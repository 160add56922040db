/** What the game promises over every run, and what an attempt is worth. */
module PuzzleScore {
  import opened Puzzle
  import opened PuzzleGame
  import opened PuzzleRules

  // ---- tiles ----

  lemma NewAttemptOk(p: Puzzle)
    ensures AttemptOk(p, NewAttempt())
  {
    assert forall v :: SlotsWith(NewAttempt().placements, v) == {};
  }

  // Over every run on a checked puzzle no service is placed more often than its uses, every locked slot holds its
  // answer, and no later operation unlocks it or moves its tile.
  lemma RunsKeepTilesAndLocks(p: Puzzle, before: seq<Action>, after: seq<Action>, service: string, slot: string)
    requires PuzzleOk(p)
    ensures var att := Run(p, NewAttempt(), before);
            var later := Run(p, att, after);
            && (service in UsesOf(p.palette) ==> |SlotsWith(att.placements, service)| <= UsesOf(p.palette)[service])
            && (slot in att.locked ==>
                  && slot in AnswersOf(p.slots) && slot in att.placements && att.placements[slot] == AnswersOf(p.slots)[slot]
                  && slot in later.locked && slot in later.placements && later.placements[slot] == att.placements[slot])
  {
    NewAttemptOk(p);
    RunKeepsOk(p, NewAttempt(), before);
    RunKeepsOk(p, Run(p, NewAttempt(), before), after);
  }

  // An attempt that is over, solved or revealed, shows every answer and uses every answer tile exactly up; no other
  // tile is left on the diagram.
  lemma OverUsesTilesUp(p: Puzzle, actions: seq<Action>, service: string)
    requires PuzzleOk(p) && Run(p, NewAttempt(), actions).done && service in UsesOf(p.palette)
    ensures var att := Run(p, NewAttempt(), actions);
            && att.placements == AnswersOf(p.slots)
            && |SlotsWith(att.placements, service)| == NeedOf(p.slots, service)
            && (NeedOf(p.slots, service) > 0 ==> Left(p, att.placements, service) == 0)
  {
    NewAttemptOk(p);
    RunKeepsOk(p, NewAttempt(), actions);
    CheckedUsesFitAnswers(p);
    AnswersMeetTheNeed(p.slots, service);
  }

  /** The slots whose tile comes from this part of the palette. */
  function PlacedFrom(palette: seq<Tile>, placements: map<string, string>): set<string> {
    set s | s in placements && InPalette(palette, placements[s])
  }

  function TotalUses(palette: seq<Tile>): nat {
    if palette == [] then 0 else TotalUses(palette[..|palette| - 1]) + TileUses(palette[|palette| - 1])
  }

  /** The tiles left in the palette, summed over its services. */
  function TotalLeft(palette: seq<Tile>, placements: map<string, string>): int {
    if palette == [] then 0
    else
      var last := palette[|palette| - 1];
      TotalLeft(palette[..|palette| - 1], placements) + TileUses(last) - |SlotsWith(placements, last.service)|
  }

  lemma {:induction false} LeftPlusPlaced(palette: seq<Tile>, placements: map<string, string>)
    requires DistinctTiles(palette)
    ensures TotalLeft(palette, placements) + |PlacedFrom(palette, placements)| == TotalUses(palette)
  {
    if palette == [] {
      assert PlacedFrom(palette, placements) == {};
    } else {
      var init, last := palette[..|palette| - 1], palette[|palette| - 1];
      LeftPlusPlaced(init, placements);
      assert palette == init + [last];
      InPaletteOfAppend(init, last);
      var now := SlotsWith(placements, last.service);
      assert PlacedFrom(palette, placements) == PlacedFrom(init, placements) + now;
      assert !InPalette(init, last.service) by {
        forall i | 0 <= i < |init| ensures init[i].service != last.service {
          assert palette[i] == init[i];
        }
      }
      assert |PlacedFrom(init, placements) + now| == |PlacedFrom(init, placements)| + |now|;
    }
  }

  lemma AllPlacedAreTiles(p: Puzzle, placements: map<string, string>)
    requires PuzzleOk(p) && forall s :: s in placements ==> placements[s] in UsesOf(p.palette)
    ensures PlacedFrom(p.palette, placements) == placements.Keys
  {
    UsesAreTiles(p.palette);
  }

  // Tiles in the palette plus tiles on the diagram are always the total number of uses.
  lemma TilesAreConserved(p: Puzzle, actions: seq<Action>)
    requires PuzzleOk(p)
    ensures var att := Run(p, NewAttempt(), actions);
            TotalLeft(p.palette, att.placements) + |att.placements| == TotalUses(p.palette)
  {
    NewAttemptOk(p);
    RunKeepsOk(p, NewAttempt(), actions);
    var att := Run(p, NewAttempt(), actions);
    LeftPlusPlaced(p.palette, att.placements);
    AllPlacedAreTiles(p, att.placements);
  }

  // ---- points ----

  lemma {:induction false} Pow2Grows(m: nat, n: nat)
    requires m <= n
    ensures Pow2(m) <= Pow2(n)
  {
    if m < n {
      Pow2Grows(m, n - 1);
    }
  }

  lemma MultiplyKeepsOrder(a: nat, m: int, n: int)
    requires m <= n
    ensures a * m <= a * n
  {
  }

  lemma QuotientAtLeast(x: nat, a: nat, q: nat)
    requires a >= 1 && a * q <= x
    ensures q <= x / a
  {
    if q > x / a {
      MultiplyKeepsOrder(a, x / a + 1, q);
      assert false;
    }
  }

  lemma DivideLessByMore(x: nat, y: nat, a: nat, b: nat)
    requires y <= x && 1 <= a <= b
    ensures y / b <= x / a
  {
    var q := y / b;
    assert b * q <= y;
    MultiplyKeepsOrder(q, a, b);
    QuotientAtLeast(x, a, q);
  }

  // Between two and ten points, and never more for a later submission or for more hints.
  lemma SlotPointsBounds(attempt: nat, hints: nat, later: nat, more: nat)
    requires 1 <= attempt <= later && hints <= more
    ensures 2 <= SlotPoints(later, more) <= SlotPoints(attempt, hints) <= 10
    ensures SlotPoints(1, 0) == 10
  {
    Pow2Grows(hints, more);
    DivideLessByMore(Base(attempt), Base(later), Pow2(hints), Pow2(more));
    DivideLessByMore(10, Base(attempt), 1, Pow2(hints));
  }

  function PointsOf(slots: seq<Slot>, results: map<string, Result>): nat {
    if slots == [] then 0
    else
      var id := slots[|slots| - 1].id;
      PointsOf(slots[..|slots| - 1], results) + if id in results then results[id].points else 0
  }

  function FirstTryOf(slots: seq<Slot>, results: map<string, Result>): nat {
    if slots == [] then 0
    else
      var id := slots[|slots| - 1].id;
      FirstTryOf(slots[..|slots| - 1], results)
      + if id in results && results[id].status.Correct? && results[id].attempt == 1 then 1 else 0
  }

  predicate NoHints(att: Attempt) {
    forall s :: s in att.hints ==> att.hints[s] == 0
  }

  predicate Perfect(p: Puzzle, att: Attempt) {
    att.done && !att.revealed && FirstTryOf(p.slots, att.results) == |p.slots| && NoHints(att)
  }

  /** `Math.round` of a number that is not negative. */
  function Round(x: real): int {
    (x + 0.5).Floor
  }

  /** `timed` says that the attempt is a challenge and its time, within the budget, is known. */
  method Score(p: Puzzle, att: Attempt, timed: bool) returns (points: int, perfect: bool)
    ensures perfect <==> Perfect(p, att)
    ensures points == PointsOf(p.slots, att.results) + (if perfect then Round(0.2 * (10 * |p.slots|) as real) else 0)
                      + (if timed && att.done then Round(0.1 * (10 * |p.slots|) as real) else 0)
  {
    var max := 10 * |p.slots|;
    points := 0;
    var firstTry := 0;
    for i := 0 to |p.slots|
      invariant points == PointsOf(p.slots[..i], att.results)
      invariant firstTry == FirstTryOf(p.slots[..i], att.results)
    {
      assert p.slots[..i + 1][..i] == p.slots[..i];
      var id := p.slots[i].id;
      if id in att.results {
        points := points + att.results[id].points;
        if att.results[id].status.Correct? && att.results[id].attempt == 1 {
          firstTry := firstTry + 1;
        }
      }
    }
    assert p.slots[..|p.slots|] == p.slots;
    perfect := att.done && !att.revealed && firstTry == |p.slots| && NoHints(att);
    points := points + (if perfect then Round(0.2 * max as real) else 0)
              + (if timed && att.done then Round(0.1 * max as real) else 0);
  }

  // The points are a sum over the slots: a slot that gets another result changes them by the difference.
  lemma {:induction false} EachSlotPays(slots: seq<Slot>, results: map<string, Result>, slot: string, r: Result)
    requires DistinctSlots(slots)
    ensures PointsOf(slots, map[]) == 0
    ensures PointsOf(slots, results[slot := r]) + (if slot in IdsOf(slots) && slot in results then results[slot].points else 0)
            == PointsOf(slots, results) + if slot in IdsOf(slots) then r.points else 0
  {
    if slots != [] {
      LastIsNew(slots);
      EachSlotPays(slots[..|slots| - 1], results, slot, r);
    }
  }

  predicate SolvedFirst(results: map<string, Result>, id: string) {
    id in results && results[id].status.Correct? && results[id].attempt == 1
  }

  lemma {:induction false} AllFirstTry(slots: seq<Slot>, results: map<string, Result>)
    ensures FirstTryOf(slots, results) <= |slots|
    ensures FirstTryOf(slots, results) == |slots| <==> forall i :: 0 <= i < |slots| ==> SolvedFirst(results, slots[i].id)
  {
    if slots != [] {
      var init, last := slots[..|slots| - 1], slots[|slots| - 1];
      AllFirstTry(init, results);
      assert forall i :: 0 <= i < |init| ==> init[i] == slots[i];
      assert (forall i :: 0 <= i < |slots| ==> SolvedFirst(results, slots[i].id)) <==>
             (forall i :: 0 <= i < |init| ==> SolvedFirst(results, init[i].id)) && SolvedFirst(results, last.id);
    }
  }

  // Perfect is an attempt that ended by solving every slot in the first submission, without a hint anywhere.
  lemma PerfectMeans(p: Puzzle, att: Attempt)
    ensures Perfect(p, att) <==>
              && att.done && !att.revealed
              && (forall i :: 0 <= i < |p.slots| ==> SolvedFirst(att.results, p.slots[i].id))
              && (forall s :: s in att.hints ==> att.hints[s] == 0)
  {
    AllFirstTry(p.slots, att.results);
  }

  // The bonuses are a fifth and a tenth of the ten points a slot, the tenth being one a slot.
  lemma BonusesAre(slots: nat)
    ensures Round(0.2 * (10 * slots) as real) == 2 * slots
    ensures Round(0.1 * (10 * slots) as real) == slots
  {
    assert 0.2 * (10 * slots) as real == (2 * slots) as real;
    assert 0.1 * (10 * slots) as real == slots as real;
  }

  lemma {:induction false} PointsAreBounded(slots: seq<Slot>, att: Attempt)
    requires ResultsOk(att)
    ensures PointsOf(slots, att.results) <= 10 * |slots|
    ensures FirstTryOf(slots, att.results) <= |slots|
    ensures FirstTryOf(slots, att.results) == |slots| && NoHints(att) ==> PointsOf(slots, att.results) == 10 * |slots|
  {
    if slots != [] {
      PointsAreBounded(slots[..|slots| - 1], att);
      var id := slots[|slots| - 1].id;
      if id in att.results {
        var r := att.results[id];
        assert ResultOk(r, HintsAt(att, id), id in att.locked);
        SlotPointsBounds(1, 0, r.attempt, HintsAt(att, id));
      }
    }
  }

  // Whatever the run, the slots are worth at most ten points each; a perfect attempt is worth all of them and a fifth
  // more, and a revealed attempt is never perfect.
  lemma PerfectIsFullMarks(p: Puzzle, actions: seq<Action>)
    requires PuzzleOk(p)
    ensures var att := Run(p, NewAttempt(), actions);
            && PointsOf(p.slots, att.results) <= 10 * |p.slots|
            && (Perfect(p, att) ==> PointsOf(p.slots, att.results) == 10 * |p.slots|)
            && Round(0.2 * (10 * |p.slots|) as real) == 2 * |p.slots|
            && (att.revealed ==> !Perfect(p, att))
  {
    NewAttemptOk(p);
    RunKeepsOk(p, NewAttempt(), actions);
    PointsAreBounded(p.slots, Run(p, NewAttempt(), actions));
    BonusesAre(|p.slots|);
  }

  // And it is perfect: all ten points a slot.
  lemma PerfectIsPossible(p: Puzzle)
    requires PuzzleOk(p) && p.slots != []
    ensures var att := Run(p, NewAttempt(), PlaceAll(p.slots) + [SubmitTiles]);
            Perfect(p, att) && PointsOf(p.slots, att.results) == 10 * |p.slots|
  {
    var actions := PlaceAll(p.slots) + [SubmitTiles];
    var att := Run(p, NewAttempt(), actions);
    IdsOfSlots(p.slots);
    forall i | 0 <= i < |p.slots| ensures SolvedFirst(att.results, p.slots[i].id) {
      SolvedAtOnce(p, p.slots[i].id);
    }
    SolvedAtOnce(p, p.slots[0].id);
    PerfectMeans(p, att);
    PerfectIsFullMarks(p, actions);
  }
}
