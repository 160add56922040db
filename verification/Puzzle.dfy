/** The "complete the diagram" game: a puzzle, its palette check, and an attempt as every operation leaves it. */
module Puzzle {
  import opened Basics

  /** A slot and the service it accepts. */
  datatype Slot = Slot(id: string, answer: string)

  datatype Tile = Tile(service: string, uses: Option<nat>, role: Option<string>)

  datatype Puzzle = Puzzle(slots: seq<Slot>, palette: seq<Tile>)

  datatype Status = Correct | Wrong | Empty | Revealed

  datatype Result = Result(status: Status, points: nat, attempt: nat, got: Option<string>)

  datatype Attempt = Attempt(
    placements: map<string, string>,
    locked: set<string>,
    attempt: nat,
    hints: map<string, nat>,
    results: map<string, Result>,
    done: bool,
    revealed: bool)

  // ---- the palette check of the puzzle validator ----

  function NeedOf(slots: seq<Slot>, service: string): nat {
    if slots == [] then 0
    else NeedOf(slots[..|slots| - 1], service) + if slots[|slots| - 1].answer == service then 1 else 0
  }

  predicate InPalette(palette: seq<Tile>, service: string) {
    exists i :: 0 <= i < |palette| && palette[i].service == service
  }

  /** `t.get("uses", 1)`: only an absent number defaults to one. */
  function DeclaredUses(t: Tile): nat {
    if t.uses.None? then 1 else t.uses.value
  }

  predicate TileOk(slots: seq<Slot>, t: Tile) {
    var n := NeedOf(slots, t.service);
    if n > 0 then DeclaredUses(t) == n && (t.role.None? || t.role.value == "answer")
    else DeclaredUses(t) == 1 && t.role.Some?
  }

  ghost predicate DistinctTiles(palette: seq<Tile>) {
    forall i, j :: 0 <= i < j < |palette| ==> palette[i].service != palette[j].service
  }

  ghost predicate DistinctSlots(slots: seq<Slot>) {
    forall i, j :: 0 <= i < j < |slots| ==> slots[i].id != slots[j].id
  }

  /** Every answer has a tile, used exactly as often as it answers; every other tile is used once and has a role. */
  ghost predicate PaletteOk(p: Puzzle) {
    && DistinctTiles(p.palette)
    && (forall i :: 0 <= i < |p.slots| ==> InPalette(p.palette, p.slots[i].answer))
    && (forall i :: 0 <= i < |p.palette| ==> TileOk(p.slots, p.palette[i]))
  }

  ghost predicate PuzzleOk(p: Puzzle) {
    DistinctSlots(p.slots) && PaletteOk(p)
  }

  lemma {:induction false} NeedIsPositive(slots: seq<Slot>, service: string)
    ensures NeedOf(slots, service) > 0 <==> exists i :: 0 <= i < |slots| && slots[i].answer == service
  {
    if slots != [] {
      var init := slots[..|slots| - 1];
      NeedIsPositive(init, service);
      if i :| 0 <= i < |slots| && slots[i].answer == service {
        assert i < |init| ==> init[i] == slots[i];
      }
    }
  }

  /** Counts, per service, the slots it answers. */
  method CountAnswers(slots: seq<Slot>) returns (need: map<string, nat>)
    ensures forall s :: s in need <==> NeedOf(slots, s) > 0
    ensures forall s :: s in need ==> need[s] == NeedOf(slots, s)
  {
    need := map[];
    for i := 0 to |slots|
      invariant forall s :: s in need <==> NeedOf(slots[..i], s) > 0
      invariant forall s :: s in need ==> need[s] == NeedOf(slots[..i], s)
    {
      assert slots[..i + 1][..i] == slots[..i];
      var a := slots[i].answer;
      need := need[a := (if a in need then need[a] else 0) + 1];
    }
    assert slots[..|slots|] == slots;
  }

  /** The palette as a dictionary, and how many services appear twice. */
  method FillPalette(palette: seq<Tile>) returns (errors: nat, seen: map<string, Tile>)
    ensures errors == 0 <==> DistinctTiles(palette)
    ensures forall s :: s in seen <==> InPalette(palette, s)
    ensures forall s :: s in seen ==> seen[s] in palette && seen[s].service == s
    ensures errors == 0 ==> forall j :: 0 <= j < |palette| ==> palette[j].service in seen && seen[palette[j].service] == palette[j]
  {
    errors, seen := 0, map[];
    for i := 0 to |palette|
      invariant forall s :: s in seen <==> InPalette(palette[..i], s)
      invariant errors == 0 <==> DistinctTiles(palette[..i])
      invariant forall s :: s in seen ==> seen[s] in palette && seen[s].service == s
      invariant errors == 0 ==> forall j :: 0 <= j < i ==> palette[j].service in seen && seen[palette[j].service] == palette[j]
    {
      ghost var before := palette[..i];
      var t := palette[i];
      assert palette[..i + 1] == before + [t];
      InPaletteOfAppend(before, t);
      if t.service in seen {
        errors := errors + 1;
        ghost var j :| 0 <= j < |before| && before[j].service == t.service;
        assert palette[..i + 1][j].service == palette[..i + 1][i].service;
      }
      seen := seen[t.service := t];
    }
    assert palette[..|palette|] == palette;
  }

  lemma InPaletteOfAppend(palette: seq<Tile>, t: Tile)
    ensures forall s :: InPalette(palette + [t], s) <==> InPalette(palette, s) || s == t.service
  {
    assert (palette + [t])[|palette|] == t;
    forall s | InPalette(palette, s) ensures InPalette(palette + [t], s) {
      var j :| 0 <= j < |palette| && palette[j].service == s;
      assert (palette + [t])[j].service == s;
    }
  }

  /** The palette part of the validator: how many errors it reports. */
  method CheckPalette(p: Puzzle) returns (errors: nat)
    ensures errors == 0 <==> PaletteOk(p)
  {
    var twice, seen := FillPalette(p.palette);
    var need := CountAnswers(p.slots);
    var answers := CheckAnswers(p, need, seen);
    var others := CheckOthers(p, need, seen);
    errors := twice + answers + others;
    if twice == 0 {
      CheckMeansOk(p, need, seen);
    }
  }

  lemma CheckMeansOk(p: Puzzle, need: map<string, nat>, seen: map<string, Tile>)
    requires forall s :: s in need <==> NeedOf(p.slots, s) > 0
    requires forall s :: s in need ==> need[s] == NeedOf(p.slots, s)
    requires forall s :: s in seen <==> InPalette(p.palette, s)
    requires forall s :: s in seen ==> seen[s] in p.palette && seen[s].service == s
    requires forall j :: 0 <= j < |p.palette| ==> p.palette[j].service in seen && seen[p.palette[j].service] == p.palette[j]
    ensures (forall s :: s in need ==> AnswerFits(need, seen, s)) && (forall s :: s in seen ==> OtherFits(need, seen, s))
            <==> (forall i :: 0 <= i < |p.slots| ==> InPalette(p.palette, p.slots[i].answer))
                 && (forall i :: 0 <= i < |p.palette| ==> TileOk(p.slots, p.palette[i]))
  {
    if (forall s :: s in need ==> AnswerFits(need, seen, s)) && (forall s :: s in seen ==> OtherFits(need, seen, s)) {
      forall i | 0 <= i < |p.slots| ensures InPalette(p.palette, p.slots[i].answer) {
        NeedIsPositive(p.slots, p.slots[i].answer);
        assert AnswerFits(need, seen, p.slots[i].answer);
      }
      forall i | 0 <= i < |p.palette| ensures TileOk(p.slots, p.palette[i]) {
        var s := p.palette[i].service;
        assert InPalette(p.palette, s) && OtherFits(need, seen, s);
        if s in need {
          assert AnswerFits(need, seen, s);
        }
      }
    }
    if (forall i :: 0 <= i < |p.slots| ==> InPalette(p.palette, p.slots[i].answer))
       && (forall i :: 0 <= i < |p.palette| ==> TileOk(p.slots, p.palette[i])) {
      forall s | s in need ensures AnswerFits(need, seen, s) {
        NeedIsPositive(p.slots, s);
        var i :| 0 <= i < |p.slots| && p.slots[i].answer == s;
        assert InPalette(p.palette, s);
        var j :| 0 <= j < |p.palette| && p.palette[j] == seen[s];
        assert TileOk(p.slots, p.palette[j]);
      }
      forall s | s in seen ensures OtherFits(need, seen, s) {
        var j :| 0 <= j < |p.palette| && p.palette[j] == seen[s];
        assert TileOk(p.slots, p.palette[j]);
      }
    }
  }

  predicate AnswerFits(need: map<string, nat>, seen: map<string, Tile>, s: string)
    requires s in need
  {
    s in seen && DeclaredUses(seen[s]) == need[s] && (seen[s].role.None? || seen[s].role.value == "answer")
  }

  predicate OtherFits(need: map<string, nat>, seen: map<string, Tile>, s: string)
    requires s in seen
  {
    s !in need ==> DeclaredUses(seen[s]) == 1 && seen[s].role.Some?
  }

  method CheckAnswers(p: Puzzle, need: map<string, nat>, seen: map<string, Tile>) returns (errors: nat)
    ensures errors == 0 <==> forall s :: s in need ==> AnswerFits(need, seen, s)
  {
    errors := 0;
    var left := need.Keys;
    while left != {}
      invariant left <= need.Keys
      invariant errors == 0 <==> forall s :: s in need && s !in left ==> AnswerFits(need, seen, s)
      decreases |left|
    {
      var s :| s in left;
      left := left - {s};
      if s !in seen {
        errors := errors + 1;
      } else if DeclaredUses(seen[s]) != need[s] {
        errors := errors + 1;
      } else if seen[s].role.Some? && seen[s].role.value != "answer" {
        errors := errors + 1;
      }
    }
  }

  method CheckOthers(p: Puzzle, need: map<string, nat>, seen: map<string, Tile>) returns (errors: nat)
    ensures errors == 0 <==> forall s :: s in seen ==> OtherFits(need, seen, s)
  {
    errors := 0;
    var left := seen.Keys;
    while left != {}
      invariant left <= seen.Keys
      invariant errors == 0 <==> forall s :: s in seen && s !in left ==> OtherFits(need, seen, s)
      decreases |left|
    {
      var s :| s in left;
      left := left - {s};
      if s !in need && seen[s].role.None? {
        errors := errors + 1;
      }
      if s !in need && DeclaredUses(seen[s]) != 1 {
        errors := errors + 1;
      }
    }
  }
}
