/** The attempt: each operation returns a new one, and what every run of them keeps. */
module PuzzleGame {
  import opened Basics
  import opened Puzzle

  // ---- tiles ----

  /** `t.uses || 1`: an absent number or zero counts as one. */
  function TileUses(t: Tile): nat {
    if t.uses.None? || t.uses.value == 0 then 1 else t.uses.value
  }

  function UsesOf(palette: seq<Tile>): map<string, nat> {
    if palette == [] then map[]
    else UsesOf(palette[..|palette| - 1])[palette[|palette| - 1].service := TileUses(palette[|palette| - 1])]
  }

  /** The slots that hold this service. */
  function SlotsWith(placements: map<string, string>, service: string): set<string> {
    set s | s in placements && placements[s] == service
  }

  function Left(p: Puzzle, placements: map<string, string>, service: string): int
    requires service in UsesOf(p.palette)
  {
    UsesOf(p.palette)[service] - |SlotsWith(placements, service)|
  }

  method Uses(p: Puzzle) returns (out: map<string, nat>)
    ensures out == UsesOf(p.palette)
  {
    out := map[];
    for i := 0 to |p.palette|
      invariant out == UsesOf(p.palette[..i])
    {
      assert p.palette[..i + 1][..i] == p.palette[..i];
      out := out[p.palette[i].service := TileUses(p.palette[i])];
    }
    assert p.palette[..|p.palette|] == p.palette;
  }

  /** How often each service can still be placed. */
  method Remaining(p: Puzzle, placements: map<string, string>) returns (out: map<string, int>)
    ensures out.Keys == UsesOf(p.palette).Keys
    ensures forall v :: v in out ==> out[v] == Left(p, placements, v)
  {
    var uses := Uses(p);
    out := SubtractPlaced(uses, placements);
    AllSeen(placements, placements.Keys);
  }

  method SubtractPlaced(uses: map<string, nat>, placements: map<string, string>) returns (out: map<string, int>)
    ensures Counted(uses, placements, placements.Keys, out)
  {
    out := map v | v in uses :: uses[v] as int;
    var todo := placements.Keys;
    NothingSeen(placements, placements.Keys - todo);
    while todo != {}
      invariant todo <= placements.Keys
      invariant Counted(uses, placements, placements.Keys - todo, out)
      decreases |todo|
    {
      var s :| s in todo;
      CountOneMore(uses, placements, todo, s, out);
      todo := todo - {s};
      out := if placements[s] in out then out[placements[s] := out[placements[s]] - 1] else out;
    }
    assert placements.Keys - todo == placements.Keys;
  }

  ghost predicate Counted(uses: map<string, nat>, placements: map<string, string>, seen: set<string>, out: map<string, int>) {
    out.Keys == uses.Keys && forall v :: v in out ==> out[v] == uses[v] - |SeenWith(placements, seen, v)|
  }

  lemma AllSeen(placements: map<string, string>, seen: set<string>)
    requires seen == placements.Keys
    ensures forall v :: SeenWith(placements, seen, v) == SlotsWith(placements, v)
  {
  }

  lemma CountOneMore(uses: map<string, nat>, placements: map<string, string>, todo: set<string>, s: string,
                     out: map<string, int>)
    requires s in todo && todo <= placements.Keys && Counted(uses, placements, placements.Keys - todo, out)
    ensures var v := placements[s];
            Counted(uses, placements, placements.Keys - (todo - {s}), if v in out then out[v := out[v] - 1] else out)
  {
    SeenOneMore(placements, todo, s);
  }

  function SeenWith(placements: map<string, string>, seen: set<string>, service: string): set<string> {
    set s | s in seen && s in placements && placements[s] == service
  }

  lemma NothingSeen(placements: map<string, string>, seen: set<string>)
    requires seen == {}
    ensures forall v :: SeenWith(placements, seen, v) == {}
  {
  }

  lemma SeenOneMore(placements: map<string, string>, todo: set<string>, s: string)
    requires s in todo && s in placements
    ensures var before, after := placements.Keys - todo, placements.Keys - (todo - {s});
            forall v :: |SeenWith(placements, after, v)| ==
                        |SeenWith(placements, before, v)| + if v == placements[s] then 1 else 0
  {
    var before, after := placements.Keys - todo, placements.Keys - (todo - {s});
    forall v ensures |SeenWith(placements, after, v)| ==
                     |SeenWith(placements, before, v)| + if v == placements[s] then 1 else 0
    {
      assert SeenWith(placements, after, v) == SeenWith(placements, before, v) + if v == placements[s] then {s} else {};
    }
  }

  // ---- placing ----

  predicate IsSlot(p: Puzzle, id: string) {
    exists i :: 0 <= i < |p.slots| && p.slots[i].id == id
  }

  datatype Reason = NoSlot | NoService | Locked | Used | NothingThere

  datatype Placing = Refused(reason: Reason) | Done(att: Attempt, returned: Option<string>)

  function NewAttempt(): Attempt {
    Attempt(map[], {}, 1, map[], map[], false, false)
  }

  function At(placements: map<string, string>, slot: string): Option<string> {
    if slot in placements then Some(placements[slot]) else None
  }

  function Place(p: Puzzle, att: Attempt, slot: string, service: string): Placing {
    if !IsSlot(p, slot) then Refused(NoSlot)
    else if service !in UsesOf(p.palette) then Refused(NoService)
    else if att.done || slot in att.locked then Refused(Locked)
    else if At(att.placements, slot) == Some(service) then Done(att, None)
    else if Left(p, att.placements, service) <= 0 then Refused(Used)
    else Done(att.(placements := att.placements[slot := service]), At(att.placements, slot))
  }

  function Move(p: Puzzle, att: Attempt, from: string, to: string): Placing {
    if !IsSlot(p, from) || !IsSlot(p, to) then Refused(NoSlot)
    else if att.done || from in att.locked || to in att.locked then Refused(Locked)
    else if from !in att.placements then Refused(NothingThere)
    else if from == to then Done(att, None)
    else Done(att.(placements := (att.placements - {from})[to := att.placements[from]]), At(att.placements, to))
  }

  function Remove(att: Attempt, slot: string): Attempt {
    if att.done || slot in att.locked || slot !in att.placements then att
    else att.(placements := att.placements - {slot})
  }

  function Reset(att: Attempt): Attempt {
    if att.done then att else att.(placements := map s | s in att.placements && s in att.locked :: att.placements[s])
  }

  method ResetAttempt(att: Attempt) returns (next: Attempt)
    ensures next == Reset(att)
  {
    next := att;
    if att.done {
      return;
    }
    var todo := att.placements.Keys;
    while todo != {}
      invariant todo <= att.placements.Keys
      invariant next == att.(placements := next.placements)
      invariant next.placements == map s | s in att.placements && (s in todo || s in att.locked) :: att.placements[s]
      decreases |todo|
    {
      var s :| s in todo;
      todo := todo - {s};
      if s !in next.locked {
        next := next.(placements := next.placements - {s});
      }
    }
  }

  // ---- checking ----

  function Pow2(n: nat): (r: nat)
    ensures r >= 1
  {
    if n == 0 then 1 else 2 * Pow2(n - 1)
  }

  function Base(attempt: nat): nat {
    if attempt <= 1 then 10 else if attempt == 2 then 5 else 2
  }

  /** Fewer points for each further submission, half for each hint, never below two. */
  function SlotPoints(attempt: nat, hints: nat): nat {
    var points := Base(attempt) / Pow2(hints);
    if points < 2 then 2 else points
  }

  function HintsAt(att: Attempt, slot: string): nat {
    if slot in att.hints then att.hints[slot] else 0
  }

  function StatusOf(s: Slot, placements: map<string, string>): Status {
    if s.id !in placements then Empty else if placements[s.id] == s.answer then Correct else Wrong
  }

  /** What each slot accepts; ids are unique in a puzzle. */
  function AnswersOf(slots: seq<Slot>): map<string, string> {
    if slots == [] then map[] else AnswersOf(slots[..|slots| - 1])[slots[|slots| - 1].id := slots[|slots| - 1].answer]
  }

  function IdsOf(slots: seq<Slot>): set<string> {
    AnswersOf(slots).Keys
  }

  function MarkSlot(att: Attempt, before: Attempt, s: Slot): Attempt {
    if s.id in before.locked then att
    else
      var status := StatusOf(s, before.placements);
      var got := At(before.placements, s.id);
      if status == Correct
      then att.(locked := att.locked + {s.id},
                results := att.results[s.id := Result(status, SlotPoints(before.attempt, HintsAt(before, s.id)), before.attempt, got)])
      else att.(results := att.results[s.id := Result(status, 0, before.attempt, got)])
  }

  function MarkAll(before: Attempt, slots: seq<Slot>): Attempt {
    if slots == [] then before else MarkSlot(MarkAll(before, slots[..|slots| - 1]), before, slots[|slots| - 1])
  }

  predicate HasOpenTile(att: Attempt, slots: seq<Slot>) {
    exists i :: 0 <= i < |slots| && slots[i].id !in att.locked && slots[i].id in att.placements
  }

  /** None when the submission does not count: the attempt is over, or no open slot holds a tile. */
  function Submit(p: Puzzle, att: Attempt): Option<Attempt> {
    if att.done || !HasOpenTile(att, p.slots) then None
    else
      var next := MarkAll(att, p.slots);
      Some(next.(done := IdsOf(p.slots) <= next.locked))
  }

  datatype Verdict = Verdict(correct: seq<string>, wrong: seq<string>, empty: seq<string>)

  function OpenWith(att: Attempt, slots: seq<Slot>, status: Status): seq<string> {
    if slots == [] then []
    else
      var last := slots[|slots| - 1];
      OpenWith(att, slots[..|slots| - 1], status)
      + if last.id !in att.locked && StatusOf(last, att.placements) == status then [last.id] else []
  }

  method SubmitAttempt(p: Puzzle, att: Attempt) returns (next: Attempt, verdict: Option<Verdict>)
    ensures Submit(p, att).None? ==> next == att && verdict.None?
    ensures Submit(p, att).Some? ==>
              && next == Submit(p, att).value
              && verdict == Some(Verdict(OpenWith(att, p.slots, Correct), OpenWith(att, p.slots, Wrong),
                                         OpenWith(att, p.slots, Empty)))
  {
    if att.done || !HasOpenTile(att, p.slots) {
      return att, None;
    }
    next := att;
    var v := Verdict([], [], []);
    for i := 0 to |p.slots|
      invariant next == MarkAll(att, p.slots[..i])
      invariant v == Verdict(OpenWith(att, p.slots[..i], Correct), OpenWith(att, p.slots[..i], Wrong),
                             OpenWith(att, p.slots[..i], Empty))
    {
      assert p.slots[..i + 1][..i] == p.slots[..i];
      var s := p.slots[i];
      if s.id !in att.locked {
        match StatusOf(s, att.placements) {
          case Correct => v := v.(correct := v.correct + [s.id]);
          case Wrong => v := v.(wrong := v.wrong + [s.id]);
          case Empty => v := v.(empty := v.empty + [s.id]);
        }
      }
      next := MarkSlot(next, att, s);
    }
    assert p.slots[..|p.slots|] == p.slots;
    var all := true;
    for i := 0 to |p.slots|
      invariant all <==> forall j :: 0 <= j < i ==> p.slots[j].id in next.locked
    {
      all := all && p.slots[i].id in next.locked;
    }
    IdsOfSlots(p.slots);
    assert all <==> IdsOf(p.slots) <= next.locked;
    return next.(done := all), Some(v);
  }

  /** The slots solved so far stay; every other slot is cleared, and the next submission pays less. */
  function Retry(p: Puzzle, att: Attempt): Attempt {
    if att.done then att
    else
      var open := IdsOf(p.slots) - att.locked;
      att.(attempt := att.attempt + 1, placements := att.placements - open, results := att.results - open)
  }

  method RetryAttempt(p: Puzzle, att: Attempt) returns (next: Attempt)
    ensures next == Retry(p, att)
  {
    if att.done {
      return att;
    }
    next := att.(attempt := att.attempt + 1);
    for i := 0 to |p.slots|
      invariant next == att.(attempt := att.attempt + 1, placements := att.placements - (IdsOf(p.slots[..i]) - att.locked),
                             results := att.results - (IdsOf(p.slots[..i]) - att.locked))
    {
      IdsOfPrefix(p.slots, i);
      var id := p.slots[i].id;
      if id !in next.locked {
        next := next.(placements := next.placements - {id}, results := next.results - {id});
      }
      assert next.placements == att.placements - (IdsOf(p.slots[..i + 1]) - att.locked);
      assert next.results == att.results - (IdsOf(p.slots[..i + 1]) - att.locked);
    }
    assert p.slots[..|p.slots|] == p.slots;
  }

  lemma IdsOfPrefix(slots: seq<Slot>, i: nat)
    requires i < |slots|
    ensures IdsOf(slots[..i + 1]) == IdsOf(slots[..i]) + {slots[i].id}
  {
    assert slots[..i + 1][..i] == slots[..i];
  }

  lemma {:induction false} IdsOfSlots(slots: seq<Slot>)
    ensures forall i :: 0 <= i < |slots| ==> slots[i].id in IdsOf(slots)
    ensures forall s :: s in IdsOf(slots) ==> exists i :: 0 <= i < |slots| && slots[i].id == s
  {
    if slots != [] {
      var init, last := slots[..|slots| - 1], slots[|slots| - 1];
      IdsOfSlots(init);
      forall i | 0 <= i < |slots| ensures slots[i].id in IdsOf(slots) {
        if i < |init| { assert init[i] == slots[i]; }
      }
      forall s | s in IdsOf(slots) ensures exists i :: 0 <= i < |slots| && slots[i].id == s {
        if s == last.id {
          assert slots[|slots| - 1].id == s;
        } else {
          assert s in IdsOf(init);
          var i :| 0 <= i < |init| && init[i].id == s;
          assert slots[i].id == s;
        }
      }
    }
  }

  function RevealSlot(att: Attempt, before: Attempt, s: Slot): Attempt {
    if s.id in att.locked then att
    else
      var got := if s.id in att.results then att.results[s.id].got else At(before.placements, s.id);
      att.(results := att.results[s.id := Result(Revealed, 0, att.attempt, got)],
           placements := att.placements[s.id := s.answer],
           locked := att.locked + {s.id})
  }

  function RevealAll(before: Attempt, slots: seq<Slot>): Attempt {
    if slots == [] then before else RevealSlot(RevealAll(before, slots[..|slots| - 1]), before, slots[|slots| - 1])
  }

  function Reveal(p: Puzzle, att: Attempt): Attempt {
    if att.done && att.revealed then att else RevealAll(att, p.slots).(done := true, revealed := true)
  }

  method RevealAttempt(p: Puzzle, att: Attempt) returns (next: Attempt)
    ensures next == Reveal(p, att)
  {
    if att.done && att.revealed {
      return att;
    }
    next := att;
    for i := 0 to |p.slots|
      invariant next == RevealAll(att, p.slots[..i])
    {
      assert p.slots[..i + 1][..i] == p.slots[..i];
      next := RevealSlot(next, att, p.slots[i]);
    }
    assert p.slots[..|p.slots|] == p.slots;
    next := next.(done := true, revealed := true);
  }

  function ChallengeSubmit(p: Puzzle, att: Attempt): Attempt {
    match Submit(p, att)
    case None => att
    case Some(next) => if next.done then next else Reveal(p, next)
  }

  function TimeUp(p: Puzzle, att: Attempt): Attempt {
    if att.done then att
    else
      match Submit(p, att)
      case Some(next) => if next.done then next else Reveal(p, next)
      case None => Reveal(p, att)
  }

  function UseHint(att: Attempt, slot: string, challenge: bool): Attempt {
    if att.done || slot in att.locked || challenge then att
    else
      var n := HintsAt(att, slot) + 1;
      att.(hints := att.hints[slot := if n > 3 then 3 else n])
  }

  // ---- runs ----

  datatype Action =
    | PlaceTile(slot: string, service: string)
    | MoveTile(from: string, to: string)
    | RemoveTile(slot: string)
    | ResetTiles
    | SubmitTiles
    | TryAgain
    | Hint(slot: string, challenge: bool)
    | ShowAnswers
    | ChallengeSubmission
    | TimeRunsOut

  function AfterPlacing(att: Attempt, r: Placing): Attempt {
    if r.Done? then r.att else att
  }

  function Next(p: Puzzle, att: Attempt, a: Action): Attempt {
    match a
    case PlaceTile(slot, service) => AfterPlacing(att, Place(p, att, slot, service))
    case MoveTile(from, to) => AfterPlacing(att, Move(p, att, from, to))
    case RemoveTile(slot) => Remove(att, slot)
    case ResetTiles => Reset(att)
    case SubmitTiles => if Submit(p, att).Some? then Submit(p, att).value else att
    case TryAgain => Retry(p, att)
    case Hint(slot, challenge) => UseHint(att, slot, challenge)
    case ShowAnswers => Reveal(p, att)
    case ChallengeSubmission => ChallengeSubmit(p, att)
    case TimeRunsOut => TimeUp(p, att)
  }

  function Run(p: Puzzle, att: Attempt, actions: seq<Action>): Attempt
    decreases |actions|
  {
    if actions == [] then att else Run(p, Next(p, att, actions[0]), actions[1..])
  }

  // ---- the invariant ----

  ghost predicate WithinUses(p: Puzzle, placements: map<string, string>) {
    forall v :: v in UsesOf(p.palette) ==> |SlotsWith(placements, v)| <= UsesOf(p.palette)[v]
  }

  /** Tiles lie on slots of the puzzle, come from its palette, and none is placed more often than its uses. */
  ghost predicate TilesOk(p: Puzzle, placements: map<string, string>) {
    && placements.Keys <= IdsOf(p.slots)
    && (forall s :: s in placements ==> placements[s] in UsesOf(p.palette))
    && WithinUses(p, placements)
  }

  ghost predicate LockedHoldsAnswer(answers: map<string, string>, att: Attempt) {
    forall s :: s in att.locked ==> s in answers && s in att.placements && att.placements[s] == answers[s]
  }

  /** Points are those of the submission that solved the slot, under the hints it had, and zero otherwise. */
  predicate ResultOk(r: Result, hints: nat, locked: bool) {
    && r.attempt >= 1
    && (locked <==> r.status.Correct? || r.status.Revealed?)
    && r.points == if r.status.Correct? then SlotPoints(r.attempt, hints) else 0
  }

  ghost predicate ResultsOk(att: Attempt) {
    && att.locked <= att.results.Keys
    && forall s :: s in att.results ==> ResultOk(att.results[s], HintsAt(att, s), s in att.locked)
  }

  ghost predicate AttemptOk(p: Puzzle, att: Attempt) {
    && TilesOk(p, att.placements)
    && LockedHoldsAnswer(AnswersOf(p.slots), att)
    && ResultsOk(att)
    && att.attempt >= 1
    && (att.done ==> IdsOf(p.slots) <= att.locked)
    && (att.revealed ==> att.done)
  }

  /** What no operation undoes: a locked slot stays locked with its tile, and an attempt that is over stays over. */
  ghost predicate NothingUnlocked(before: Attempt, after: Attempt) {
    && before.locked <= after.locked
    && (forall s :: s in before.locked && s in before.placements ==>
                      s in after.placements && after.placements[s] == before.placements[s])
    && (before.done ==> after.done) && (before.revealed ==> after.revealed)
  }

  // ---- the palette check makes the uses fit the answers ----

  lemma {:induction false} UsesAreTiles(palette: seq<Tile>)
    requires DistinctTiles(palette)
    ensures forall i :: 0 <= i < |palette| ==> palette[i].service in UsesOf(palette)
                                               && UsesOf(palette)[palette[i].service] == TileUses(palette[i])
    ensures forall v :: v in UsesOf(palette) ==> InPalette(palette, v)
  {
    if palette != [] {
      var init, last := palette[..|palette| - 1], palette[|palette| - 1];
      UsesAreTiles(init);
      forall v | v in UsesOf(palette) ensures InPalette(palette, v) {
        if v == last.service {
          assert palette[|palette| - 1].service == v;
        } else {
          assert InPalette(init, v);
          var i :| 0 <= i < |init| && init[i].service == v;
          assert palette[i].service == v;
        }
      }
      forall i | 0 <= i < |init| ensures palette[i].service != last.service && palette[i] == init[i] {}
    }
  }

  lemma {:induction false} AnswersAreTheSlots(slots: seq<Slot>)
    requires DistinctSlots(slots)
    ensures forall i :: 0 <= i < |slots| ==> slots[i].id in AnswersOf(slots) && AnswersOf(slots)[slots[i].id] == slots[i].answer
  {
    if slots != [] {
      var init, last := slots[..|slots| - 1], slots[|slots| - 1];
      AnswersAreTheSlots(init);
      forall i | 0 <= i < |init| ensures slots[i].id != last.id && slots[i] == init[i] {}
    }
  }

  lemma LastIsNew(slots: seq<Slot>)
    requires DistinctSlots(slots) && slots != []
    ensures slots[|slots| - 1].id !in IdsOf(slots[..|slots| - 1])
    ensures DistinctSlots(slots[..|slots| - 1])
  {
    IdsOfSlots(slots[..|slots| - 1]);
  }

  lemma {:induction false} AnswersMeetTheNeed(slots: seq<Slot>, service: string)
    requires DistinctSlots(slots)
    ensures |SlotsWith(AnswersOf(slots), service)| == NeedOf(slots, service)
  {
    if slots == [] {
      assert SlotsWith(AnswersOf(slots), service) == {};
    } else {
      var init, last := slots[..|slots| - 1], slots[|slots| - 1];
      AnswersMeetTheNeed(init, service);
      LastIsNew(slots);
      assert SlotsWith(AnswersOf(slots), service) ==
             SlotsWith(AnswersOf(init), service) + if last.answer == service then {last.id} else {};
    }
  }

  // The palette check is what makes the tiles suffice: each service has exactly as many uses as answers, or one use
  // and no answer.
  lemma CheckedUsesFitAnswers(p: Puzzle)
    requires PaletteOk(p)
    ensures forall v :: v in UsesOf(p.palette) ==>
                          UsesOf(p.palette)[v] == if NeedOf(p.slots, v) > 0 then NeedOf(p.slots, v) else 1
    ensures forall v :: NeedOf(p.slots, v) > 0 ==> v in UsesOf(p.palette)
  {
    UsesAreTiles(p.palette);
    forall v | v in UsesOf(p.palette)
      ensures UsesOf(p.palette)[v] == if NeedOf(p.slots, v) > 0 then NeedOf(p.slots, v) else 1
    {
      var i :| 0 <= i < |p.palette| && p.palette[i].service == v;
      assert TileOk(p.slots, p.palette[i]);
    }
    forall v | NeedOf(p.slots, v) > 0 ensures v in UsesOf(p.palette) {
      NeedIsPositive(p.slots, v);
      var i :| 0 <= i < |p.slots| && p.slots[i].answer == v;
      assert InPalette(p.palette, v);
    }
  }

  lemma AnswersAreWithinUses(p: Puzzle)
    requires PuzzleOk(p)
    ensures TilesOk(p, AnswersOf(p.slots))
  {
    CheckedUsesFitAnswers(p);
    AnswersAreTheSlots(p.slots);
    IdsOfSlots(p.slots);
    forall s | s in AnswersOf(p.slots) ensures AnswersOf(p.slots)[s] in UsesOf(p.palette) {
      var i :| 0 <= i < |p.slots| && p.slots[i].id == s;
      NeedIsPositive(p.slots, p.slots[i].answer);
    }
    forall v | v in UsesOf(p.palette) ensures |SlotsWith(AnswersOf(p.slots), v)| <= UsesOf(p.palette)[v] {
      AnswersMeetTheNeed(p.slots, v);
    }
  }

  // ---- every operation keeps the invariant ----

  lemma FewerTiles(p: Puzzle, before: map<string, string>, after: map<string, string>)
    requires TilesOk(p, before) && after.Keys <= before.Keys && forall s :: s in after ==> after[s] == before[s]
    ensures TilesOk(p, after)
  {
    forall v | v in UsesOf(p.palette) ensures |SlotsWith(after, v)| <= UsesOf(p.palette)[v] {
      SubsetIsSmaller(SlotsWith(after, v), SlotsWith(before, v));
    }
  }

  lemma PlaceKeepsTiles(p: Puzzle, placements: map<string, string>, slot: string, service: string)
    requires TilesOk(p, placements) && slot in IdsOf(p.slots)
    requires service in UsesOf(p.palette) && Left(p, placements, service) > 0
    ensures TilesOk(p, placements[slot := service])
  {
    var after := placements[slot := service];
    forall v | v in UsesOf(p.palette) ensures |SlotsWith(after, v)| <= UsesOf(p.palette)[v] {
      if v == service {
        SubsetIsSmaller(SlotsWith(after, v), SlotsWith(placements, v) + {slot});
      } else {
        SubsetIsSmaller(SlotsWith(after, v), SlotsWith(placements, v));
      }
    }
  }

  lemma MovedTile(placements: map<string, string>, from: string, to: string, v: string)
    requires from in placements && from != to
    ensures |SlotsWith((placements - {from})[to := placements[from]], v)| <= |SlotsWith(placements, v)|
  {
    var before, after := SlotsWith(placements, v), SlotsWith((placements - {from})[to := placements[from]], v);
    if v == placements[from] {
      assert |before - {from}| == |before| - 1;
      SubsetIsSmaller(after, before - {from} + {to});
    } else {
      SubsetIsSmaller(after, before);
    }
  }

  lemma MoveKeepsTiles(p: Puzzle, placements: map<string, string>, from: string, to: string)
    requires TilesOk(p, placements) && from in placements && to in IdsOf(p.slots) && from != to
    ensures TilesOk(p, (placements - {from})[to := placements[from]])
  {
    forall v { MovedTile(placements, from, to, v); }
  }

  lemma PlacingKeepsOk(p: Puzzle, att: Attempt, placements: map<string, string>)
    requires AttemptOk(p, att) && TilesOk(p, placements)
    requires forall s :: s in att.locked ==> s in placements && placements[s] == att.placements[s]
    ensures AttemptOk(p, att.(placements := placements)) && NothingUnlocked(att, att.(placements := placements))
  {
  }

  lemma PlaceKeepsOk(p: Puzzle, att: Attempt, slot: string, service: string)
    requires AttemptOk(p, att) && Place(p, att, slot, service).Done?
    ensures AttemptOk(p, Place(p, att, slot, service).att) && NothingUnlocked(att, Place(p, att, slot, service).att)
  {
    IdsOfSlots(p.slots);
    if At(att.placements, slot) != Some(service) {
      PlaceKeepsTiles(p, att.placements, slot, service);
      PlacingKeepsOk(p, att, att.placements[slot := service]);
    }
  }

  lemma MoveKeepsOk(p: Puzzle, att: Attempt, from: string, to: string)
    requires AttemptOk(p, att) && Move(p, att, from, to).Done?
    ensures AttemptOk(p, Move(p, att, from, to).att) && NothingUnlocked(att, Move(p, att, from, to).att)
  {
    IdsOfSlots(p.slots);
    if from != to {
      MoveKeepsTiles(p, att.placements, from, to);
      PlacingKeepsOk(p, att, (att.placements - {from})[to := att.placements[from]]);
    }
  }

  lemma RemoveKeepsOk(p: Puzzle, att: Attempt, slot: string)
    requires AttemptOk(p, att)
    ensures AttemptOk(p, Remove(att, slot)) && NothingUnlocked(att, Remove(att, slot))
  {
    if Remove(att, slot) != att {
      FewerTiles(p, att.placements, att.placements - {slot});
      PlacingKeepsOk(p, att, att.placements - {slot});
    }
  }

  lemma ResetKeepsOk(p: Puzzle, att: Attempt)
    requires AttemptOk(p, att)
    ensures AttemptOk(p, Reset(att)) && NothingUnlocked(att, Reset(att))
  {
    FewerTiles(p, att.placements, Reset(att).placements);
    PlacingKeepsOk(p, att, Reset(att).placements);
  }

  /** What marking some slots leaves: new locks on right answers only. */
  ghost predicate Marked(before: Attempt, after: Attempt, answers: map<string, string>) {
    && after == before.(locked := after.locked, results := after.results)
    && before.locked <= after.locked
    && (forall s :: s in after.locked && s !in before.locked ==>
                      s in answers && s in before.placements && before.placements[s] == answers[s])
    && ResultsOk(after)
  }

  lemma SetResultOk(att: Attempt, slot: string, r: Result)
    requires ResultsOk(att) && ResultOk(r, HintsAt(att, slot), r.status.Correct? || r.status.Revealed?)
    requires slot !in att.locked
    ensures ResultsOk(att.(results := att.results[slot := r],
                           locked := if r.status.Correct? || r.status.Revealed? then att.locked + {slot} else att.locked))
  {
  }

  lemma MarkOne(before: Attempt, mid: Attempt, s: Slot, answers: map<string, string>)
    requires Marked(before, mid, answers) && s.id !in answers && before.attempt >= 1
    ensures Marked(before, MarkSlot(mid, before, s), answers[s.id := s.answer])
  {
    if s.id !in before.locked {
      assert s.id !in mid.locked;
      SetResultOk(mid, s.id, MarkSlot(mid, before, s).results[s.id]);
    }
  }

  lemma {:induction false} MarkAllMarks(before: Attempt, slots: seq<Slot>)
    requires ResultsOk(before) && DistinctSlots(slots) && before.attempt >= 1
    ensures Marked(before, MarkAll(before, slots), AnswersOf(slots))
  {
    if slots != [] {
      var init := slots[..|slots| - 1];
      LastIsNew(slots);
      MarkAllMarks(before, init);
      MarkOne(before, MarkAll(before, init), slots[|slots| - 1], AnswersOf(init));
    }
  }

  lemma SubmitKeepsOk(p: Puzzle, att: Attempt)
    requires PuzzleOk(p) && AttemptOk(p, att) && Submit(p, att).Some?
    ensures AttemptOk(p, Submit(p, att).value) && NothingUnlocked(att, Submit(p, att).value)
    ensures !Submit(p, att).value.revealed
  {
    MarkAllMarks(att, p.slots);
  }

  lemma RetryKeepsResults(att: Attempt, open: set<string>)
    requires ResultsOk(att) && open !! att.locked
    ensures ResultsOk(att.(attempt := att.attempt + 1, placements := att.placements - open, results := att.results - open))
  {
  }

  lemma RetryKeepsOk(p: Puzzle, att: Attempt)
    requires PuzzleOk(p) && AttemptOk(p, att)
    ensures AttemptOk(p, Retry(p, att)) && NothingUnlocked(att, Retry(p, att))
  {
    FewerTiles(p, att.placements, Retry(p, att).placements);
    RetryKeepsResults(att, IdsOf(p.slots) - att.locked);
  }

  /** What revealing some slots leaves: all of them locked, the open ones with their answer. */
  ghost predicate Shown(before: Attempt, after: Attempt, answers: map<string, string>) {
    && after == before.(locked := after.locked, results := after.results, placements := after.placements)
    && after.locked == before.locked + answers.Keys
    && (forall s :: s in after.placements <==> s in before.placements || (s in answers && s !in before.locked))
    && (forall s :: s in after.placements ==>
                      after.placements[s] == if s in answers && s !in before.locked then answers[s] else before.placements[s])
    && ResultsOk(after)
  }

  lemma RevealOne(before: Attempt, mid: Attempt, s: Slot, answers: map<string, string>)
    requires Shown(before, mid, answers) && s.id !in answers && before.attempt >= 1
    ensures Shown(before, RevealSlot(mid, before, s), answers[s.id := s.answer])
  {
    var after := RevealSlot(mid, before, s);
    if s.id !in before.locked {
      SetResultOk(mid, s.id, after.results[s.id]);
    }
    assert ResultsOk(after);
  }

  lemma {:induction false} RevealAllShows(before: Attempt, slots: seq<Slot>)
    requires ResultsOk(before) && DistinctSlots(slots) && before.attempt >= 1
    ensures Shown(before, RevealAll(before, slots), AnswersOf(slots))
  {
    if slots != [] {
      var init := slots[..|slots| - 1];
      LastIsNew(slots);
      RevealAllShows(before, init);
      RevealOne(before, RevealAll(before, init), slots[|slots| - 1], AnswersOf(init));
    }
  }

  lemma ShownIsAnswers(p: Puzzle, before: Attempt, after: Attempt)
    requires AttemptOk(p, before) && Shown(before, after, AnswersOf(p.slots))
    ensures after.placements == AnswersOf(p.slots) && after.locked == IdsOf(p.slots)
  {
  }

  lemma RevealKeepsOk(p: Puzzle, att: Attempt)
    requires PuzzleOk(p) && AttemptOk(p, att)
    ensures AttemptOk(p, Reveal(p, att)) && NothingUnlocked(att, Reveal(p, att))
    ensures Reveal(p, att).done && Reveal(p, att).revealed
  {
    if !(att.done && att.revealed) {
      RevealAllShows(att, p.slots);
      ShownIsAnswers(p, att, RevealAll(att, p.slots));
      AnswersAreWithinUses(p);
    }
  }

  lemma NextKeepsOk(p: Puzzle, att: Attempt, a: Action)
    requires PuzzleOk(p) && AttemptOk(p, att)
    ensures AttemptOk(p, Next(p, att, a)) && NothingUnlocked(att, Next(p, att, a))
  {
    match a
    case PlaceTile(slot, service) => if Place(p, att, slot, service).Done? { PlaceKeepsOk(p, att, slot, service); }
    case MoveTile(from, to) => if Move(p, att, from, to).Done? { MoveKeepsOk(p, att, from, to); }
    case RemoveTile(slot) => RemoveKeepsOk(p, att, slot);
    case ResetTiles => ResetKeepsOk(p, att);
    case SubmitTiles => if Submit(p, att).Some? { SubmitKeepsOk(p, att); }
    case TryAgain => RetryKeepsOk(p, att);
    case Hint(slot, challenge) =>
    case ShowAnswers => RevealKeepsOk(p, att);
    case ChallengeSubmission => EndKeepsOk(p, att);
    case TimeRunsOut => EndKeepsOk(p, att);
  }

  lemma EndKeepsOk(p: Puzzle, att: Attempt)
    requires PuzzleOk(p) && AttemptOk(p, att)
    ensures AttemptOk(p, ChallengeSubmit(p, att)) && NothingUnlocked(att, ChallengeSubmit(p, att))
    ensures AttemptOk(p, TimeUp(p, att)) && NothingUnlocked(att, TimeUp(p, att))
    ensures TimeUp(p, att).done && (Submit(p, att).Some? ==> ChallengeSubmit(p, att).done)
  {
    if Submit(p, att).Some? {
      SubmitKeepsOk(p, att);
      RevealKeepsOk(p, Submit(p, att).value);
    }
    RevealKeepsOk(p, att);
  }

  lemma {:induction false} RunKeepsOk(p: Puzzle, att: Attempt, actions: seq<Action>)
    requires PuzzleOk(p) && AttemptOk(p, att)
    ensures AttemptOk(p, Run(p, att, actions)) && NothingUnlocked(att, Run(p, att, actions))
    decreases |actions|
  {
    if actions != [] {
      NextKeepsOk(p, att, actions[0]);
      RunKeepsOk(p, Next(p, att, actions[0]), actions[1..]);
      UnlockedNever(att, Next(p, att, actions[0]), Run(p, att, actions));
    }
  }

  lemma UnlockedNever(x: Attempt, y: Attempt, z: Attempt)
    requires NothingUnlocked(x, y) && NothingUnlocked(y, z)
    ensures NothingUnlocked(x, z)
  {
  }
}
