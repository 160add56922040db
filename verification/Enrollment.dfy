/** Moving a student between two courses in one transaction, and the reset of the demo database. */
module Enrollment {

  type Code = string

  datatype Course = Course(id: nat, enrolled: int)

  /** The tables the transfer touches: students, courses by their unique code, and enrollment rows (student, course). */
  datatype Db = Db(students: set<nat>, courses: map<Code, Course>, rows: set<(nat, nat)>)

  datatype Outcome = Committed | CourseNotFound | NotEnrolled | AlreadyEnrolled | Failed

  function RowsFor(rows: set<(nat, nat)>, course: nat): set<(nat, nat)> {
    set r | r in rows && r.1 == course
  }

  // ---- the statements ----

  function DeleteRow(db: Db, student: nat, course: nat): Db {
    db.(rows := db.rows - {(student, course)})
  }

  /** `UPDATE ... SET enrolled = enrolled - 1 WHERE course_id = ... AND enrolled > 0`. */
  function CountDown(db: Db, course: nat): Db {
    db.(courses := map c | c in db.courses ::
                     if db.courses[c].id == course && db.courses[c].enrolled > 0
                     then db.courses[c].(enrolled := db.courses[c].enrolled - 1) else db.courses[c])
  }

  function InsertRow(db: Db, student: nat, course: nat): Db {
    db.(rows := db.rows + {(student, course)})
  }

  function CountUp(db: Db, course: nat): Db {
    db.(courses := map c | c in db.courses ::
                     if db.courses[c].id == course then db.courses[c].(enrolled := db.courses[c].enrolled + 1)
                     else db.courses[c])
  }

  /** The four statements of a transfer that reaches its commit. */
  function Moved(db: Db, student: nat, from: nat, to: nat): Db {
    CountUp(InsertRow(CountDown(DeleteRow(db, student, from), from), student, to), to)
  }

  /** What a transfer does when no statement fails. */
  function Transfer(db: Db, student: nat, from: Code, to: Code): (Db, Outcome) {
    if from !in db.courses || to !in db.courses then (db, CourseNotFound)
    else
      var f, t := db.courses[from].id, db.courses[to].id;
      if (student, f) !in db.rows then (db, NotEnrolled)
      else if (student, t) in db.rows - {(student, f)} then (db, AlreadyEnrolled)
      else (Moved(db, student, f, t), Committed)
  }

  /** The database after a transfer in which the statement `failAt` raised: moved exactly if the COMMIT took place. */
  function AfterTransfer(db: Db, student: nat, from: Code, to: Code, failAt: nat): Db {
    if failAt <= 5 then db else Transfer(db, student, from, to).0
  }

  const SEED_CODES: set<Code> := {"CS101", "CS201", "MATH101", "PHYS101"}

  function SeedCount(code: Code): int {
    if code == "CS101" then 4 else 2
  }

  function SeedRows(): set<(nat, nat)> {
    {(1, 1), (3, 1), (5, 1), (8, 1), (1, 2), (3, 2), (2, 3), (6, 3), (4, 4), (9, 4)}
  }

  function SeedId(code: Code): nat {
    if code == "CS101" then 1 else if code == "CS201" then 2 else if code == "MATH101" then 3 else 4
  }

  function SeedCourses(): map<Code, Course> {
    map code | code in SEED_CODES :: Course(SeedId(code), SeedCount(code))
  }

  function SeedStudents(): set<nat> {
    set n: nat | n <= 10 && IsStudent(n)
  }

  predicate IsStudent(n: nat) {
    1 <= n <= 10
  }

  function SeedDb(): Db {
    Db(SeedStudents(), SeedCourses(), SeedRows())
  }

  /** The reset statement with this number; the last two touch other tables. */
  function ResetStatement(db: Db, i: nat): Db {
    if i == 0 then db.(rows := {})
    else if i == 1 then db.(students := set n | n in db.students && n <= 10)
    else if i == 2 then db.(courses := map c | c in db.courses && c in SEED_CODES :: db.courses[c])
    else if i == 3 then db.(courses := map c | c in db.courses :: db.courses[c].(enrolled := SeedCount(c)))
    else if i == 4 then db.(rows := db.rows + SeedRows())
    else db
  }

  const RESET_STATEMENTS: nat := 7

  /** The database after the first `n` reset statements; each one commits by itself. */
  function ResetPrefix(db: Db, n: nat): Db {
    if n == 0 then db else ResetStatement(ResetPrefix(db, n - 1), n - 1)
  }

  class Database {
    var students: set<nat>
    var courses: map<Code, Course>
    var rows: set<(nat, nat)>

    constructor ()
      ensures State() == SeedDb()
    {
      students := SeedStudents();
      courses, rows := SeedCourses(), SeedRows();
    }

    function State(): Db
      reads this
    {
      Db(students, courses, rows)
    }

    method Rollback(before: Db)
      modifies this
      ensures State() == before
    {
      students, courses, rows := before.students, before.courses, before.rows;
    }

    /**
     * One transfer. `failAt` names the statement that raises: 0 the lookups, 1 the DELETE, 2 the first UPDATE, 3 the
     * INSERT, 4 the second UPDATE, 5 a COMMIT that did not happen, 6 a COMMIT that happened and whose acknowledgement
     * was lost; with any other number all of them succeed.
     */
    method TransferStudent(student: nat, from: Code, to: Code, failAt: nat) returns (outcome: Outcome)
      modifies this
      ensures State() == AfterTransfer(old(State()), student, from, to, failAt)
      ensures outcome != Failed ==> (State(), outcome) == Transfer(old(State()), student, from, to)
      ensures outcome == Failed ==> failAt <= 6
      ensures failAt <= 6 ==> outcome != Committed
    {
      var before := State();
      if failAt == 0 {
        return Failed;
      }
      if from !in courses || to !in courses {
        Rollback(before);
        return CourseNotFound;
      }
      var f, t := courses[from].id, courses[to].id;
      if failAt == 1 {
        Rollback(before);
        return Failed;
      }
      var affected := (student, f) in rows;
      rows := rows - {(student, f)};
      if !affected {
        Rollback(before);
        return NotEnrolled;
      }
      if failAt == 2 {
        Rollback(before);
        return Failed;
      }
      courses := CountDown(State(), f).courses;
      if failAt == 3 {
        Rollback(before);
        return Failed;
      }
      if (student, t) in rows {
        Rollback(before);
        return AlreadyEnrolled;
      }
      rows := rows + {(student, t)};
      if failAt == 4 {
        Rollback(before);
        return Failed;
      }
      courses := CountUp(State(), t).courses;
      if failAt == 5 {
        Rollback(before);
        return Failed;
      }
      if failAt == 6 {
        // The rollback that follows finds no open transaction.
        return Failed;
      }
      return Committed;
    }

    /** Runs the reset statements in order; the connection breaks after `stopAfter` of them. */
    method Reset(stopAfter: nat)
      modifies this
      ensures State() == ResetPrefix(old(State()), if stopAfter < RESET_STATEMENTS then stopAfter else RESET_STATEMENTS)
    {
      var n := if stopAfter < RESET_STATEMENTS then stopAfter else RESET_STATEMENTS;
      for i := 0 to n
        invariant State() == ResetPrefix(old(State()), i)
      {
        var next := ResetStatement(State(), i);
        students, courses, rows := next.students, next.courses, next.rows;
      }
    }
  }

  // ---- counters equal the real counts ----

  ghost predicate UniqueCourseIds(courses: map<Code, Course>) {
    forall c, d :: c in courses && d in courses && courses[c].id == courses[d].id ==> c == d
  }

  ghost predicate CountersMatch(db: Db) {
    forall c :: c in db.courses ==> db.courses[c].enrolled == |RowsFor(db.rows, db.courses[c].id)|
  }

  lemma DeleteCounts(rows: set<(nat, nat)>, student: nat, course: nat, other: nat)
    requires (student, course) in rows
    ensures |RowsFor(rows - {(student, course)}, other)| == |RowsFor(rows, other)| - if other == course then 1 else 0
  {
    assert RowsFor(rows - {(student, course)}, other) ==
           RowsFor(rows, other) - if other == course then {(student, course)} else {};
  }

  lemma InsertCounts(rows: set<(nat, nat)>, student: nat, course: nat, other: nat)
    requires (student, course) !in rows
    ensures |RowsFor(rows + {(student, course)}, other)| == |RowsFor(rows, other)| + if other == course then 1 else 0
  {
    assert RowsFor(rows + {(student, course)}, other) ==
           RowsFor(rows, other) + if other == course then {(student, course)} else {};
  }

  // A transfer keeps every counter equal to its number of rows and keeps the number of rows, also between a course and
  // itself; its effect is that exactly one student's row moves.
  lemma TransferKeepsCounters(db: Db, student: nat, from: Code, to: Code)
    requires UniqueCourseIds(db.courses) && CountersMatch(db)
    ensures var (after, outcome) := Transfer(db, student, from, to);
            && UniqueCourseIds(after.courses) && CountersMatch(after)
            && |after.rows| == |db.rows|
            && after.students == db.students && after.courses.Keys == db.courses.Keys
            && (forall c :: c in db.courses ==> after.courses[c].id == db.courses[c].id)
            && (outcome == Committed ==>
                  after.rows == db.rows - {(student, db.courses[from].id)} + {(student, db.courses[to].id)})
  {
    if Transfer(db, student, from, to).1 == Committed {
      MoveKeepsCounters(db, student, from, to);
    }
  }

  /** The transfer can be made: both courses exist, the student is in the first and not already in the second. */
  predicate CanMove(db: Db, student: nat, from: Code, to: Code) {
    && from in db.courses && to in db.courses && (student, db.courses[from].id) in db.rows
    && (db.courses[from].id == db.courses[to].id || (student, db.courses[to].id) !in db.rows)
  }

  /** A counter after a transfer: one less in the course left (never below zero), one more in the course joined. */
  function CountAfter(enrolled: int, id: nat, from: nat, to: nat): int {
    enrolled - (if id == from && enrolled > 0 then 1 else 0) + (if id == to then 1 else 0)
  }

  // A transfer commits iff it can be made. Then exactly the student's row moves and exactly the two counters follow;
  // otherwise nothing changes, and the outcome names the first thing that is missing.
  lemma TransferExactly(db: Db, student: nat, from: Code, to: Code)
    ensures var (after, outcome) := Transfer(db, student, from, to);
            && (outcome == Committed <==> CanMove(db, student, from, to))
            && (outcome != Committed ==> after == db)
            && (outcome == CourseNotFound <==> from !in db.courses || to !in db.courses)
            && (from in db.courses && to in db.courses ==>
                  var f, t := db.courses[from].id, db.courses[to].id;
                  && (outcome == NotEnrolled <==> (student, f) !in db.rows)
                  && (outcome == AlreadyEnrolled <==> (student, f) in db.rows && f != t && (student, t) in db.rows)
                  && (outcome == Committed ==>
                        && after.students == db.students && after.rows == db.rows - {(student, f)} + {(student, t)}
                        && after.courses.Keys == db.courses.Keys
                        && forall c :: c in db.courses ==>
                             && after.courses[c].id == db.courses[c].id
                             && after.courses[c].enrolled == CountAfter(db.courses[c].enrolled, db.courses[c].id, f, t)))
  {
  }

  // The transfer takes place iff it can be made and no statement failed, or only the acknowledgement of the COMMIT did.
  lemma MovedIffCommitted(db: Db, student: nat, from: Code, to: Code, failAt: nat)
    ensures var after := AfterTransfer(db, student, from, to, failAt);
            if failAt >= 6 && CanMove(db, student, from, to)
            then after.rows == db.rows - {(student, db.courses[from].id)} + {(student, db.courses[to].id)}
                 && forall c :: c in db.courses ==>
                      c in after.courses
                      && after.courses[c].enrolled ==
                         CountAfter(db.courses[c].enrolled, db.courses[c].id, db.courses[from].id, db.courses[to].id)
            else after == db
  {
    TransferExactly(db, student, from, to);
  }

  lemma MoveKeepsCounters(db: Db, student: nat, from: Code, to: Code)
    requires UniqueCourseIds(db.courses) && CountersMatch(db) && from in db.courses && to in db.courses
    requires (student, db.courses[from].id) in db.rows
    requires (student, db.courses[to].id) !in db.rows - {(student, db.courses[from].id)}
    ensures var f, t := db.courses[from].id, db.courses[to].id;
            var after := Moved(db, student, f, t);
            && CountersMatch(after)
            && after.rows == db.rows - {(student, f)} + {(student, t)} && |after.rows| == |db.rows|
  {
    var f, t := db.courses[from].id, db.courses[to].id;
    var after := Moved(db, student, f, t);
    var less := db.rows - {(student, f)};
    assert |less| == |db.rows| - 1 && |less + {(student, t)}| == |less| + 1;
    forall c | c in db.courses ensures after.courses[c].enrolled == |RowsFor(after.rows, after.courses[c].id)| {
      var id := db.courses[c].id;
      DeleteCounts(db.rows, student, f, id);
      InsertCounts(less, student, t, id);
      assert id == f ==> (student, f) in RowsFor(db.rows, id);
    }
  }

  // ---- every run of transfers and resets ----

  datatype Action = TransferAction(student: nat, from: Code, to: Code, failAt: nat) | ResetAction

  function Next(db: Db, a: Action): Db {
    match a
    case TransferAction(student, from, to, failAt) => AfterTransfer(db, student, from, to, failAt)
    case ResetAction => ResetPrefix(db, RESET_STATEMENTS)
  }

  function Run(db: Db, actions: seq<Action>): Db
    decreases |actions|
  {
    if actions == [] then db else Run(Next(db, actions[0]), actions[1..])
  }

  ghost predicate Inv(db: Db) {
    && db.students == SeedStudents()
    && db.courses.Keys == SEED_CODES && SeedIds(db.courses)
    && CountersMatch(db)
    && |db.rows| == 10
    && RowsAreSeedCourses(db.rows)
  }

  /** The original courses have kept their ids. */
  ghost predicate SeedIds(courses: map<Code, Course>) {
    forall c :: c in SEED_CODES ==> c in courses && courses[c].id == SeedId(c)
  }

  ghost predicate RowsAreSeedCourses(rows: set<(nat, nat)>) {
    forall r :: r in rows ==> 1 <= r.1 <= 4
  }

  lemma SeedCounts()
    ensures Inv(SeedDb())
  {
    assert RowsFor(SeedRows(), 1) == {(1, 1), (3, 1), (5, 1), (8, 1)};
    assert RowsFor(SeedRows(), 2) == {(1, 2), (3, 2)};
    assert RowsFor(SeedRows(), 3) == {(2, 3), (6, 3)};
    assert RowsFor(SeedRows(), 4) == {(4, 4), (9, 4)};
    assert |SeedRows()| == 10;
  }

  lemma ResetUnrolls(db: Db)
    ensures ResetPrefix(db, 1) == ResetStatement(db, 0)
    ensures ResetPrefix(db, 2) == ResetStatement(ResetPrefix(db, 1), 1)
    ensures ResetPrefix(db, 3) == ResetStatement(ResetPrefix(db, 2), 2)
    ensures ResetPrefix(db, 4) == ResetStatement(ResetPrefix(db, 3), 3)
    ensures ResetPrefix(db, 5) == ResetStatement(ResetPrefix(db, 4), 4)
    ensures ResetPrefix(db, 6) == ResetPrefix(db, 5) && ResetPrefix(db, 7) == ResetPrefix(db, 5)
  {
  }

  lemma ResetCourses(db: Db)
    requires SeedIds(db.courses)
    ensures ResetPrefix(db, 5).courses == SeedCourses()
  {
    ResetUnrolls(db);
    var kept := ResetPrefix(db, 3).courses;
    assert kept.Keys == SEED_CODES;
    forall c | c in SEED_CODES ensures kept[c].id == SeedId(c) {}
    var counted := ResetPrefix(db, 4).courses;
    assert counted == SeedCourses();
  }

  lemma OriginalStudents(students: set<nat>)
    requires SeedStudents() <= students && 0 !in students
    ensures (set n | n in students && n <= 10) == SeedStudents()
  {
    forall n: nat | n in students && n <= 10 ensures n in SeedStudents() {
      assert IsStudent(n);
    }
  }

  lemma ResetStudents(db: Db)
    requires SeedStudents() <= db.students && 0 !in db.students
    ensures ResetPrefix(db, 5).students == SeedStudents()
  {
    OriginalStudents(db.students);
    ResetKeepsStudents(db);
  }

  lemma ResetKeepsStudents(db: Db)
    ensures ResetPrefix(db, 5).students == set n | n in db.students && n <= 10
  {
    ResetUnrolls(db);
    assert ResetPrefix(db, 1).students == db.students;
  }

  lemma ResetRows(db: Db)
    ensures ResetPrefix(db, 5).rows == SeedRows()
  {
    ResetUnrolls(db);
    assert ResetPrefix(db, 1).rows == {} && ResetPrefix(db, 4).rows == {};
  }

  // A full reset repairs the database whatever happened to the counters and the rows, as long as the original courses
  // and students are still there.
  lemma ResetRestoresTheSeed(db: Db)
    requires SeedIds(db.courses) && SeedStudents() <= db.students && 0 !in db.students
    ensures ResetPrefix(db, 5) == SeedDb() && ResetPrefix(db, 6) == SeedDb() && ResetPrefix(db, RESET_STATEMENTS) == SeedDb()
  {
    ResetCourses(db);
    ResetStudents(db);
    ResetRows(db);
    ResetUnrolls(db);
  }

  lemma SeedIdsAreUnique(courses: map<Code, Course>)
    requires courses.Keys == SEED_CODES && SeedIds(courses)
    ensures UniqueCourseIds(courses)
  {
    forall c, d | c in courses && d in courses && courses[c].id == courses[d].id ensures c == d {
      assert c in SEED_CODES && d in SEED_CODES;
      assert courses[c].id == SeedId(c) && courses[d].id == SeedId(d);
    }
  }

  lemma MovedRowsAreSeed(db: Db, student: nat, from: Code, to: Code)
    requires SeedIds(db.courses) && db.courses.Keys == SEED_CODES && RowsAreSeedCourses(db.rows)
    ensures RowsAreSeedCourses(Transfer(db, student, from, to).0.rows)
  {
    if to in db.courses {
      assert db.courses[to].id == SeedId(to);
    }
  }

  lemma TransferKeepsInv(db: Db, student: nat, from: Code, to: Code)
    requires Inv(db)
    ensures Inv(Transfer(db, student, from, to).0)
  {
    SeedIdsAreUnique(db.courses);
    TransferKeepsCounters(db, student, from, to);
    MovedRowsAreSeed(db, student, from, to);
  }

  lemma NextKeepsInv(db: Db, a: Action)
    requires Inv(db)
    ensures Inv(Next(db, a))
  {
    match a
    case TransferAction(student, from, to, failAt) => TransferKeepsInv(db, student, from, to);
    case ResetAction =>
      ResetRestoresTheSeed(db);
      SeedCounts();
  }

  lemma {:induction false} RunKeepsInv(db: Db, actions: seq<Action>)
    requires Inv(db)
    ensures Inv(Run(db, actions))
    decreases |actions|
  {
    if actions != [] {
      NextKeepsInv(db, actions[0]);
      RunKeepsInv(Next(db, actions[0]), actions[1..]);
    }
  }

  // Over any run of transfers, failing at any statement or not, and of resets: each counter equals its number of
  // enrollment rows, and the total stays ten.
  lemma CountersAlwaysMatch(actions: seq<Action>)
    ensures CountersMatch(Run(SeedDb(), actions)) && |Run(SeedDb(), actions).rows| == 10
  {
    SeedCounts();
    RunKeepsInv(SeedDb(), actions);
  }

  lemma NoRowsNoMatch(db: Db)
    requires db.rows == {} && CountersMatch(db)
    ensures forall c :: c in db.courses ==> db.courses[c].enrolled == 0
  {
    assert forall id :: RowsFor(db.rows, id) == {};
  }

  lemma SomeCounterIsPositive(db: Db) returns (code: Code)
    requires Inv(db)
    ensures code in db.courses && db.courses[code].enrolled > 0
  {
    var r :| r in db.rows;
    code := CodeOf(r.1);
    assert db.courses[code].id == SeedId(code);
    assert r in RowsFor(db.rows, r.1);
  }

  lemma CutCounters(db: Db, n: nat)
    requires Inv(db) && 1 <= n <= 4
    ensures ResetPrefix(db, n).rows == {}
    ensures ResetPrefix(db, n).courses.Keys == db.courses.Keys
    ensures n <= 3 ==> ResetPrefix(db, n).courses == db.courses
    ensures n == 4 ==> forall c :: c in db.courses ==> ResetPrefix(db, n).courses[c].enrolled == SeedCount(c)
  {
    ResetUnrolls(db);
    assert ResetPrefix(db, 1).courses == db.courses && ResetPrefix(db, 2).courses == db.courses;
    assert ResetPrefix(db, 3).courses == db.courses;
  }

  // The reset is not one transaction: cut short, it leaves the counters wrong exactly when it stops after its first
  // statement and before the rows are back.
  lemma InterruptedResetIff(actions: seq<Action>, n: nat)
    requires n <= RESET_STATEMENTS
    ensures CountersMatch(ResetPrefix(Run(SeedDb(), actions), n)) <==> n == 0 || n >= 5
  {
    SeedCounts();
    RunKeepsInv(SeedDb(), actions);
    CutResetIff(Run(SeedDb(), actions), n);
  }

  lemma CutResetIff(db: Db, n: nat)
    requires Inv(db) && n <= RESET_STATEMENTS
    ensures CountersMatch(ResetPrefix(db, n)) <==> n == 0 || n >= 5
  {
    if n >= 5 {
      ResetRestoresTheSeed(db);
      SeedCounts();
    } else if n >= 1 {
      CutCounters(db, n);
      var code := SomeCounterIsPositive(db);
      var cut := ResetPrefix(db, n);
      assert code in cut.courses && cut.courses[code].enrolled > 0;
      if CountersMatch(cut) {
        NoRowsNoMatch(cut);
      }
    }
  }

  function CodeOf(id: nat): (code: Code)
    requires 1 <= id <= 4
    ensures code in SEED_CODES && SeedId(code) == id
  {
    if id == 1 then "CS101" else if id == 2 then "CS201" else if id == 3 then "MATH101" else "PHYS101"
  }
}
