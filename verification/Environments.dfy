/** Which execution environments are busy, and the synchronous invocation that reserves one and gives it back. */
module Environments {
  import opened Basics

  type Address = string

  datatype Acquired = Got(address: Address, environments: nat) | NoAddress | AllBusy(environments: nat)

  /** What the reverse DNS lookup does: an OSError is caught where it happens, any other exception is not. */
  datatype Lookup = HostName(name: string) | LookupFailed | LookupRaises

  /** How the `try` block ends: with an error of the connection, with any other exception, or with a response. */
  datatype Exchange = Unreachable | OtherException | Response(status: nat, functionError: bool)

  datatype Error = NoError | Unhandled | NoEnvironment | TooManyRequests | ConnectionError

  /** What `invoke` gives its caller; Escapes is an exception that leaves it, StillWaiting a caller that never got in. */
  datatype Result = Result(status: nat, error: Error) | Escapes | StillWaiting

  /** The result once the address is reserved and named; `lateError` is an exception in the last statements. */
  function ResultOf(exchange: Exchange, lateError: bool): Result {
    match exchange
    case Unreachable => if lateError then Escapes else Result(502, ConnectionError)
    case OtherException => Escapes
    case Response(status, functionError) =>
      if lateError then Escapes else Result(200, if status != 200 || functionError then Unhandled else NoError)
  }

  // A response is a success exactly when its status is 200 and it is no function error; any other response is the
  // function's failure, and a connection that failed is the platform's.
  lemma ResultMeans(exchange: Exchange, lateError: bool)
    ensures var r := ResultOf(exchange, lateError);
            && (r == Result(200, NoError) <==> exchange == Response(200, false) && !lateError)
            && (r == Result(200, Unhandled) <==> exchange.Response? && exchange != Response(200, false) && !lateError)
            && (r == Result(502, ConnectionError) <==> exchange.Unreachable? && !lateError)
            && (r == Escapes <==> exchange.OtherException? || lateError)
  {
  }

  lemma {:induction false} FirstLabelIs(name: string)
    ensures '.' !in FirstLabel(name)
    ensures FirstLabel(name) == name || FirstLabel(name) + "." <= name
  {
    if name != "" && name[0] != '.' {
      FirstLabelIs(name[1..]);
      assert name == [name[0]] + name[1..];
    }
  }

  /** The part of a host name before its first dot. */
  function FirstLabel(name: string): string {
    if name == "" || name[0] == '.' then "" else [name[0]] + FirstLabel(name[1..])
  }

  /** A name is looked up once; asking for it can only raise while it is not known. */
  predicate NameRaises(names: map<Address, string>, address: Address, lookup: Lookup) {
    address !in names && lookup.LookupRaises?
  }

  function WithName(names: map<Address, string>, address: Address, lookup: Lookup): map<Address, string> {
    if address in names || lookup.LookupRaises? then names
    else names[address := if lookup.HostName? then FirstLabel(lookup.name) else address]
  }

  // The first lookup decides: a host name gives its first label, an OSError the address; a known name is kept.
  lemma NameExactly(names: map<Address, string>, address: Address, lookup: Lookup)
    ensures var after := WithName(names, address, lookup);
            && (address in names ==> after == names && !NameRaises(names, address, lookup))
            && (address !in names ==>
                  && (NameRaises(names, address, lookup) <==> lookup.LookupRaises?)
                  && (lookup.HostName? ==> after == names[address := FirstLabel(lookup.name)])
                  && (lookup.LookupFailed? ==> after == names[address := address])
                  && (lookup.LookupRaises? ==> after == names))
  {
  }

  class EnvironmentPool {
    var busy: set<Address>
    var order: map<Address, int>
    var names: map<Address, string>

    constructor ()
      ensures busy == {} && order == map[] && names == map[]
    {
      busy, order, names := {}, map[], map[];
    }

    /** The addresses DNS returned, the ones seen first in front; a new address is stamped with the time. */
    method Addresses(infos: set<Address>, now: int) returns (sorted: seq<Address>)
      modifies this`order
      ensures infos <= order.Keys && forall a :: a in old(order) ==> a in order && order[a] == old(order)[a]
      ensures forall a :: a in order && a !in old(order) ==> a in infos && order[a] == now
      ensures |sorted| == |infos| && infos == set a | a in sorted
      ensures forall i, j :: 0 <= i < j < |sorted| ==> sorted[i] != sorted[j]
      ensures forall i, j :: 0 <= i < j < |sorted| ==> order[sorted[i]] <= order[sorted[j]]
    {
      var stamps := (map a | a in infos :: now) + order;
      order := stamps;
      sorted := [];
      var left := infos;
      while left != {}
        invariant order == stamps && infos <= stamps.Keys && left <= infos
        invariant forall a :: a in sorted <==> a in infos - left
        invariant |sorted| + |left| == |infos|
        invariant forall i :: 0 <= i < |sorted| ==> sorted[i] in infos
        invariant forall i, j :: 0 <= i < j < |sorted| ==> sorted[i] != sorted[j]
        invariant forall i, j :: 0 <= i < j < |sorted| ==> stamps[sorted[i]] <= stamps[sorted[j]]
        invariant forall i, b :: 0 <= i < |sorted| && b in left ==> sorted[i] != b && stamps[sorted[i]] <= stamps[b]
        decreases |left|
      {
        ghost var _ := EarliestOf(left, stamps);
        var a :| a in left && forall b :: b in left ==> stamps[a] <= stamps[b];
        left := left - {a};
        sorted := sorted + [a];
      }
    }

    /** False when the lookup raised an exception that nothing catches. */
    method Name(address: Address, lookup: Lookup) returns (named: bool)
      modifies this`names
      ensures names == WithName(old(names), address, lookup)
      ensures named <==> !NameRaises(old(names), address, lookup)
      ensures named <==> address in old(names) || !lookup.LookupRaises?
      ensures named ==> names == if address in old(names) then old(names)
                                 else old(names)[address := if lookup.HostName? then FirstLabel(lookup.name) else address]
      ensures !named ==> names == old(names)
    {
      if address !in names {
        if lookup.LookupRaises? {
          return false;
        }
        names := names[address := if lookup.HostName? then FirstLabel(lookup.name) else address];
      }
      return true;
    }

    /** One look at the pool, taken under its lock: the idle environment seen first, if any. */
    method TryAcquire(infos: set<Address>, now: int) returns (result: Acquired)
      modifies this`busy, this`order
      ensures result.Got? ==>
                && result.address in infos && result.address !in old(busy)
                && busy == old(busy) + {result.address} && result.environments == |infos|
                && infos <= order.Keys
                && forall b :: b in infos && b !in old(busy) ==> order[result.address] <= order[b]
      ensures !result.Got? ==> busy == old(busy)
      ensures result.NoAddress? <==> infos == {}
      ensures result.AllBusy? <==> infos != {} && infos <= old(busy)
    {
      var sorted := Addresses(infos, now);
      if |sorted| == 0 {
        return NoAddress;
      }
      for i := 0 to |sorted|
        invariant busy == old(busy)
        invariant forall j :: 0 <= j < i ==> sorted[j] in busy
      {
        if sorted[i] !in busy {
          busy := busy + {sorted[i]};
          return Got(sorted[i], |sorted|);
        }
      }
      assert sorted[0] in infos;
      return AllBusy(|sorted|);
    }

    method Release(address: Address)
      modifies this`busy
      ensures busy == old(busy) - {address}
    {
      busy := busy - {address};
    }

    /**
     * One invocation that runs alone; `answers` are the DNS answers of its successive looks at the pool, and only a
     * waiting caller looks more than once. Of the ways out, one keeps the address: an exception of the name lookup,
     * which stands between the reservation and the `try`.
     */
    method Invoke(answers: seq<set<Address>>, now: int, wait: bool, lookup: Lookup, exchange: Exchange, lateError: bool)
      returns (result: Result, ghost reserved: Option<Address>)
      modifies this
      ensures reserved.Some? ==> reserved.value !in old(busy) && exists infos :: infos in answers && reserved.value in infos
      ensures busy == old(busy) + if reserved.Some? && NameRaises(old(names), reserved.value, lookup) then {reserved.value} else {}
      ensures reserved.Some? ==>
                result == if NameRaises(old(names), reserved.value, lookup) then Escapes else ResultOf(exchange, lateError)
      ensures reserved.Some? ==>
                var named := reserved.value in old(names) || !lookup.LookupRaises?;
                && (result == Result(200, NoError) <==> named && exchange == Response(200, false) && !lateError)
                && (result == Result(200, Unhandled) <==>
                      named && exchange.Response? && (exchange.status != 200 || exchange.functionError) && !lateError)
                && (result == Result(502, ConnectionError) <==> named && exchange.Unreachable? && !lateError)
                && (result == Escapes <==> !named || exchange.OtherException? || lateError)
      ensures reserved.None? ==>
                result.StillWaiting? || result == Result(502, NoEnvironment) || result == Result(429, TooManyRequests)
      ensures result == Result(502, NoEnvironment) ==> {} in answers
      ensures result == Result(429, TooManyRequests) ==>
                !wait && exists infos :: infos in answers && infos != {} && infos <= busy
      ensures result.StillWaiting? ==> forall infos :: infos in answers ==> infos != {} && infos <= busy
    {
      reserved := None;
      for i := 0 to |answers|
        invariant busy == old(busy) && names == old(names)
        invariant forall infos :: infos in answers[..i] ==> infos != {} && infos <= busy
      {
        assert answers[..i + 1] == answers[..i] + [answers[i]];
        var got := TryAcquire(answers[i], now);
        if got.NoAddress? {
          return Result(502, NoEnvironment), None;
        }
        if got.Got? {
          result := Exchanged(got.address, lookup, exchange, lateError);
          reserved := Some(got.address);
          return;
        }
        if !wait {
          return Result(429, TooManyRequests), None;
        }
      }
      assert answers[..|answers|] == answers;
      return StillWaiting, None;
    }

    /** The part of an invocation that has its address: the name, the `try` with its clauses, and the report. */
    method Exchanged(address: Address, lookup: Lookup, exchange: Exchange, lateError: bool) returns (result: Result)
      requires address in busy
      modifies this`busy, this`names
      ensures busy == old(busy) - if NameRaises(old(names), address, lookup) then {} else {address}
      ensures result == if NameRaises(old(names), address, lookup) then Escapes else ResultOf(exchange, lateError)
    {
      var named := Name(address, lookup);
      if !named {
        return Escapes;
      }
      if exchange.Unreachable? {
        // The except clause; the finally clause releases the address whether or not it raises itself.
        result := if lateError then Escapes else Result(502, ConnectionError);
        Release(address);
        return;
      }
      if exchange.OtherException? {
        Release(address);
        return Escapes;
      }
      Release(address);
      if lateError {
        return Escapes;
      }
      return Result(200, if exchange.status != 200 || exchange.functionError then Unhandled else NoError);
    }
  }

  lemma {:induction false} EarliestOf(s: set<Address>, order: map<Address, int>) returns (a: Address)
    requires s != {} && s <= order.Keys
    ensures a in s && forall b :: b in s ==> order[a] <= order[b]
    decreases |s|
  {
    a :| a in s;
    if s != {a} {
      var rest := s - {a};
      assert s == rest + {a};
      var b := EarliestOf(rest, order);
      a := if order[a] <= order[b] then a else b;
    }
  }

  // ---- every interleaving of invocations ----

  /** What follows once the `finally` clause released the address. */
  datatype After = ReturnError | Continue | Raise

  /** Where an invocation is. Ended says whether it got into its `try`; Returned and Escaped how it left. */
  datatype Call =
    | Waiting(wait: bool)
    | Throttled
    | NoContainer
    | Naming(address: Address)
    | Trying(address: Address, done: nat)
    | Catching(address: Address)
    | Leaving(address: Address, after: After)
    | Reporting(address: Address)
    | Ended(address: Address, entered: bool, escaped: bool)

  datatype Pool = Pool(busy: set<Address>, names: map<Address, string>, calls: seq<Call>)

  /** How one statement of the `try` block ends. */
  datatype Outcome = Fine | PlatformRaises | OtherRaises

  datatype Step =
    | Begin(wait: bool)
    | Look(call: nat, infos: set<Address>, pick: Address)
    | AskName(call: nat, lookup: Lookup)
    | TryNext(call: nat, outcome: Outcome)
    | Catch(call: nat, raises: bool)
    | Finally(call: nat)
    | Report(call: nat, raises: bool)

  /** Connect, request, response, read, close, status. */
  const TRY_STATEMENTS: nat := 6

  /** DNS may answer anything at each look: containers appear and vanish. `pick` is the idle address it reserves. */
  predicate Enabled(p: Pool, s: Step) {
    match s
    case Begin(_) => true
    case Look(i, infos, pick) =>
      i < |p.calls| && p.calls[i].Waiting? && (infos - p.busy != {} ==> pick in infos - p.busy)
    case AskName(i, _) => i < |p.calls| && p.calls[i].Naming?
    case TryNext(i, _) => i < |p.calls| && p.calls[i].Trying?
    case Catch(i, _) => i < |p.calls| && p.calls[i].Catching?
    case Finally(i) => i < |p.calls| && p.calls[i].Leaving?
    case Report(i, _) => i < |p.calls| && p.calls[i].Reporting?
  }

  function Looked(p: Pool, wait: bool, infos: set<Address>, pick: Address): Call {
    if infos == {} then NoContainer
    else if infos - p.busy != {} then Naming(pick)
    else if wait then Waiting(wait)
    else Throttled
  }

  function Tried(address: Address, done: nat, outcome: Outcome): Call {
    match outcome
    case Fine => if done + 1 < TRY_STATEMENTS then Trying(address, done + 1) else Leaving(address, Continue)
    case PlatformRaises => Catching(address)
    case OtherRaises => Leaving(address, Raise)
  }

  function Left(address: Address, after: After): Call {
    match after
    case Continue => Reporting(address)
    case ReturnError => Ended(address, true, false)
    case Raise => Ended(address, true, true)
  }

  function Next(p: Pool, s: Step): Pool
    requires Enabled(p, s)
  {
    match s
    case Begin(wait) => p.(calls := p.calls + [Waiting(wait)])
    case Look(i, infos, pick) =>
      var call := Looked(p, p.calls[i].wait, infos, pick);
      p.(busy := if call.Naming? then p.busy + {pick} else p.busy, calls := p.calls[i := call])
    case AskName(i, lookup) =>
      var a := p.calls[i].address;
      p.(names := WithName(p.names, a, lookup),
         calls := p.calls[i := if NameRaises(p.names, a, lookup) then Ended(a, false, true) else Trying(a, 0)])
    case TryNext(i, outcome) => p.(calls := p.calls[i := Tried(p.calls[i].address, p.calls[i].done, outcome)])
    case Catch(i, raises) =>
      p.(calls := p.calls[i := Leaving(p.calls[i].address, if raises then Raise else ReturnError)])
    case Finally(i) =>
      p.(busy := p.busy - {p.calls[i].address}, calls := p.calls[i := Left(p.calls[i].address, p.calls[i].after)])
    case Report(i, raises) => p.(calls := p.calls[i := Ended(p.calls[i].address, true, raises)])
  }

  // One look at the pool: without a container the call ends; with an idle one it reserves it; with all busy a caller
  // that waits looks again later, unchanged, and one that does not is throttled.
  lemma LookExactly(p: Pool, i: nat, infos: set<Address>, pick: Address)
    requires Enabled(p, Look(i, infos, pick))
    ensures var q := Next(p, Look(i, infos, pick));
            && q.names == p.names
            && (infos == {} ==> q.busy == p.busy && q.calls == p.calls[i := NoContainer])
            && (infos != {} && !(infos <= p.busy) ==>
                  pick in infos && pick !in p.busy && q.busy == p.busy + {pick} && q.calls == p.calls[i := Naming(pick)])
            && (infos != {} && infos <= p.busy ==>
                  if p.calls[i].wait then q == p else q.busy == p.busy && q.calls == p.calls[i := Throttled])
  {
    if infos <= p.busy {
      assert infos - p.busy == {};
    } else {
      var a :| a in infos && a !in p.busy;
      assert a in infos - p.busy;
    }
  }

  predicate CanRun(p: Pool, steps: seq<Step>)
    decreases |steps|
  {
    steps == [] || (Enabled(p, steps[0]) && CanRun(Next(p, steps[0]), steps[1..]))
  }

  function Run(p: Pool, steps: seq<Step>): Pool
    requires CanRun(p, steps)
    decreases |steps|
  {
    if steps == [] then p else Run(Next(p, steps[0]), steps[1..])
  }

  const EMPTY_POOL: Pool := Pool({}, map[], [])

  predicate InFlight(c: Call) {
    c.Naming? || c.Trying? || c.Catching? || c.Leaving?
  }

  /** It ended with an exception before its `try`, so nothing will release its address. */
  predicate Leaked(c: Call) {
    c.Ended? && !c.entered
  }

  predicate Keeps(c: Call) {
    InFlight(c) || Leaked(c)
  }

  /** The addresses of the invocations in flight, and of those that leaked theirs. */
  function Held(calls: seq<Call>): set<Address> {
    set c | c in calls && Keeps(c) :: c.address
  }

  ghost predicate Exclusive(calls: seq<Call>) {
    forall i, j :: 0 <= i < j < |calls| && Keeps(calls[i]) && Keeps(calls[j]) ==> calls[i].address != calls[j].address
  }

  ghost predicate Consistent(p: Pool) {
    p.busy == Held(p.calls) && Exclusive(p.calls)
  }

  lemma HeldAfterUpdate(calls: seq<Call>, i: nat, call: Call)
    requires i < |calls| && Exclusive(calls)
    ensures Held(calls[i := call]) ==
            (Held(calls) - if Keeps(calls[i]) then {calls[i].address} else {}) + if Keeps(call) then {call.address} else {}
  {
    var after := calls[i := call];
    forall a | a in Held(calls) && !(Keeps(calls[i]) && calls[i].address == a) ensures a in Held(after) {
      var j :| 0 <= j < |calls| && Keeps(calls[j]) && calls[j].address == a;
      assert after[j] == calls[j];
      assert after[j] in after;
    }
    assert after[i] in after;
    forall a | a in Held(after) ensures a in Held(calls) || (Keeps(call) && call.address == a) {
      var j :| 0 <= j < |after| && Keeps(after[j]) && after[j].address == a;
      if j != i { assert calls[j] in calls; }
    }
    forall a | a in Held(after) && Keeps(calls[i]) && calls[i].address == a ensures Keeps(call) && call.address == a {
      var j :| 0 <= j < |after| && Keeps(after[j]) && after[j].address == a;
      assert j == i;
    }
  }

  lemma KeptIsHeld(calls: seq<Call>, j: nat)
    requires j < |calls| && Keeps(calls[j])
    ensures calls[j].address in Held(calls)
  {
    assert calls[j] in calls;
  }

  /** One call changes, to something that keeps the address it has, or a free one, or none. */
  lemma CallChange(p: Pool, i: nat, call: Call, busy: set<Address>, names: map<Address, string>)
    requires Consistent(p) && i < |p.calls|
    requires Keeps(call) && !Keeps(p.calls[i]) ==> call.address !in p.busy
    requires Keeps(call) && Keeps(p.calls[i]) ==> call.address == p.calls[i].address
    requires busy == (p.busy - if Keeps(p.calls[i]) then {p.calls[i].address} else {}) + if Keeps(call) then {call.address} else {}
    ensures Consistent(Pool(busy, names, p.calls[i := call]))
  {
    HeldAfterUpdate(p.calls, i, call);
    forall j | 0 <= j < |p.calls| && Keeps(p.calls[j]) ensures p.calls[j].address in p.busy {
      KeptIsHeld(p.calls, j);
    }
  }

  lemma NextKeepsConsistent(p: Pool, s: Step)
    requires Consistent(p) && Enabled(p, s)
    ensures Consistent(Next(p, s))
  {
    if s.Begin? {
      var after := p.calls + [Waiting(s.wait)];
      assert forall c :: c in after <==> c in p.calls || c == Waiting(s.wait);
    } else {
      var next := Next(p, s);
      if Keeps(p.calls[s.call]) {
        KeptIsHeld(p.calls, s.call);
      }
      assert next.calls == p.calls[s.call := next.calls[s.call]];
      CallChange(p, s.call, next.calls[s.call], next.busy, next.names);
    }
  }

  // In every interleaving, with an exception possible at every statement: the busy set is exactly the addresses of the
  // invocations in flight and of those that leaked theirs, and no address is held twice.
  lemma {:induction false} RunKeepsConsistent(p: Pool, steps: seq<Step>)
    requires Consistent(p) && CanRun(p, steps)
    ensures Consistent(Run(p, steps))
    decreases |steps|
  {
    if steps != [] {
      NextKeepsConsistent(p, steps[0]);
      RunKeepsConsistent(Next(p, steps[0]), steps[1..]);
    }
  }

  // A throttle happens only when another invocation keeps each address DNS returns.
  lemma ThrottledMeansAllHeld(steps: seq<Step>, i: nat, infos: set<Address>, pick: Address)
    requires CanRun(EMPTY_POOL, steps)
    requires Enabled(Run(EMPTY_POOL, steps), Look(i, infos, pick))
    requires Next(Run(EMPTY_POOL, steps), Look(i, infos, pick)).calls[i].Throttled?
    ensures var p := Run(EMPTY_POOL, steps);
            infos != {} && forall a :: a in infos ==> KeptBySome(p.calls, a)
  {
    RunKeepsConsistent(EMPTY_POOL, steps);
    var p := Run(EMPTY_POOL, steps);
    assert infos - p.busy == {};
    forall a | a in infos ensures KeptBySome(p.calls, a) {
      assert a !in infos - p.busy;
      var c :| c in p.calls && Keeps(c) && c.address == a;
      var j :| 0 <= j < |p.calls| && p.calls[j] == c;
    }
  }

  ghost predicate KeptBySome(calls: seq<Call>, a: Address) {
    exists j :: 0 <= j < |calls| && Keeps(calls[j]) && calls[j].address == a
  }

  // ---- when an invocation gives its address back ----

  /** With this step an invocation that has an address is no longer in flight. */
  predicate Lands(p: Pool, s: Step)
    requires Enabled(p, s)
  {
    !s.Begin? && InFlight(p.calls[s.call]) && !InFlight(Next(p, s).calls[s.call])
  }

  /** It ends before its `try`: its name was not known, and the lookup raised something that nothing catches. */
  predicate EndsUnnamed(p: Pool, s: Step)
    requires Enabled(p, s)
  {
    s.AskName? && NameRaises(p.names, p.calls[s.call].address, s.lookup)
  }

  // However an invocation lands, its own address is in nobody's hands afterwards, except in one case: it ends before
  // its `try`, and then the address stays busy. What the other invocations hold stays as it is.
  lemma AddressReturnedIff(steps: seq<Step>, s: Step)
    requires CanRun(EMPTY_POOL, steps) && Enabled(Run(EMPTY_POOL, steps), s) && Lands(Run(EMPTY_POOL, steps), s)
    ensures var p := Run(EMPTY_POOL, steps);
            var q := Next(p, s);
            && (p.calls[s.call].address !in q.busy <==> !EndsUnnamed(p, s))
            && (q.calls[s.call] == Ended(p.calls[s.call].address, false, true) <==> EndsUnnamed(p, s))
            && (forall j :: 0 <= j < |p.calls| && j != s.call && Keeps(p.calls[j]) ==> p.calls[j].address in q.busy)
  {
    RunKeepsConsistent(EMPTY_POOL, steps);
    var p := Run(EMPTY_POOL, steps);
    KeptIsHeld(p.calls, s.call);
    forall j | 0 <= j < |p.calls| && Keeps(p.calls[j]) ensures p.calls[j].address in p.busy {
      KeptIsHeld(p.calls, j);
    }
  }

  predicate NothingInFlight(calls: seq<Call>) {
    forall i :: 0 <= i < |calls| ==> !InFlight(calls[i])
  }

  predicate SomeLeaked(calls: seq<Call>) {
    exists i :: 0 <= i < |calls| && Leaked(calls[i])
  }

  // Once every invocation is over, all addresses are free again iff none ended before its `try`.
  lemma AllReturnedIff(steps: seq<Step>)
    requires CanRun(EMPTY_POOL, steps) && NothingInFlight(Run(EMPTY_POOL, steps).calls)
    ensures Run(EMPTY_POOL, steps).busy == {} <==> !SomeLeaked(Run(EMPTY_POOL, steps).calls)
  {
    RunKeepsConsistent(EMPTY_POOL, steps);
    var p := Run(EMPTY_POOL, steps);
    if SomeLeaked(p.calls) {
      var i :| 0 <= i < |p.calls| && Leaked(p.calls[i]);
      KeptIsHeld(p.calls, i);
    }
  }

  // A leaked address is lost for good: no later step frees it or hands it out.
  lemma {:induction false} LeakedForever(p: Pool, steps: seq<Step>, i: nat)
    requires Consistent(p) && CanRun(p, steps) && i < |p.calls| && Leaked(p.calls[i])
    ensures var q := Run(p, steps);
            i < |q.calls| && q.calls[i] == p.calls[i] && p.calls[i].address in q.busy
    decreases |steps|
  {
    KeptIsHeld(p.calls, i);
    if steps != [] {
      NextKeepsConsistent(p, steps[0]);
      LeakedForever(Next(p, steps[0]), steps[1..], i);
    }
  }

  // ---- an invocation by itself ----

  lemma Extend(p: Pool, steps: seq<Step>, s: Step)
    requires CanRun(p, steps) && Enabled(Run(p, steps), s)
    ensures CanRun(p, steps + [s]) && Run(p, steps + [s]) == Next(Run(p, steps), s)
    decreases |steps|
  {
    if steps == [] {
      assert steps + [s] == [s] && [s][1..] == [];
      assert CanRun(Next(p, s), []);
    } else {
      assert (steps + [s])[1..] == steps[1..] + [s];
      Extend(Next(p, steps[0]), steps[1..], s);
    }
  }

  /** From `p` to `q` only call `i` moved, and nothing was released. */
  predicate OnlyMoved(p: Pool, q: Pool, i: nat, call: Call) {
    i < |p.calls| && q == p.(names := q.names, calls := p.calls[i := call])
  }

  // `done` statements of the `try` block succeed.
  lemma {:induction false} Tries(p: Pool, i: nat, done: nat) returns (steps: seq<Step>)
    requires i < |p.calls| && p.calls[i].Trying? && p.calls[i].done == 0 && done < TRY_STATEMENTS
    ensures CanRun(p, steps) && OnlyMoved(p, Run(p, steps), i, Trying(p.calls[i].address, done))
    decreases done
  {
    if done == 0 {
      steps := [];
      assert p.calls[i := p.calls[i]] == p.calls;
    } else {
      steps := Tries(p, i, done - 1);
      Extend(p, steps, TryNext(i, Fine));
      steps := steps + [TryNext(i, Fine)];
    }
  }

  /** How the `try` block ends in this exchange: all statements succeed, or one raises. */
  function LastOutcome(exchange: Exchange): Outcome {
    match exchange
    case Unreachable => PlatformRaises
    case OtherException => OtherRaises
    case Response(_, _) => Fine
  }

  lemma TryEnds(p: Pool, i: nat, done: nat, exchange: Exchange, lateError: bool) returns (steps: seq<Step>)
    requires i < |p.calls| && p.calls[i].Trying? && p.calls[i].done == done
    requires done < TRY_STATEMENTS && (exchange.Response? ==> done == TRY_STATEMENTS - 1)
    ensures CanRun(p, steps)
    ensures var a := p.calls[i].address;
            && Run(p, steps).busy == p.busy - {a}
            && Run(p, steps).calls == p.calls[i := Ended(a, true, ResultOf(exchange, lateError) == Escapes)]
  {
    var a := p.calls[i].address;
    assert CanRun(p, []) && Run(p, []) == p;
    Extend(p, [], TryNext(i, LastOutcome(exchange)));
    steps := [] + [TryNext(i, LastOutcome(exchange))];
    if exchange.Unreachable? {
      Extend(p, steps, Catch(i, lateError));
      steps := steps + [Catch(i, lateError)];
    }
    Extend(p, steps, Finally(i));
    steps := steps + [Finally(i)];
    if exchange.Response? {
      Extend(p, steps, Report(i, lateError));
      steps := steps + [Report(i, lateError)];
    }
  }

  lemma {:induction false} RunOfAppend(p: Pool, xs: seq<Step>, ys: seq<Step>)
    requires CanRun(p, xs) && CanRun(Run(p, xs), ys)
    ensures CanRun(p, xs + ys) && Run(p, xs + ys) == Run(Run(p, xs), ys)
    decreases |xs|
  {
    if xs == [] {
      assert xs + ys == ys;
    } else {
      assert (xs + ys)[1..] == xs[1..] + ys;
      RunOfAppend(Next(p, xs[0]), xs[1..], ys);
    }
  }

  // An invocation that has its address, left alone, ends as the method's result says: with an exception exactly when
  // the result is one, and with its address released exactly when it was named. An exception may come at any statement.
  lemma InvocationAlone(p: Pool, i: nat, lookup: Lookup, at: nat, exchange: Exchange, lateError: bool)
    returns (steps: seq<Step>)
    requires i < |p.calls| && p.calls[i].Naming?
    requires at < TRY_STATEMENTS && (exchange.Response? ==> at == TRY_STATEMENTS - 1)
    ensures CanRun(p, steps)
    ensures var a := p.calls[i].address;
            var d := Run(p, steps);
            if a in p.names || !lookup.LookupRaises?
            then d.busy == p.busy - {a} && d.calls == p.calls[i := Ended(a, true, ResultOf(exchange, lateError) == Escapes)]
            else d.busy == p.busy && d.calls == p.calls[i := Ended(a, false, true)]
  {
    var a := p.calls[i].address;
    assert CanRun(p, []) && Run(p, []) == p;
    Extend(p, [], AskName(i, lookup));
    steps := [] + [AskName(i, lookup)];
    if a in p.names || !lookup.LookupRaises? {
      var named := Run(p, steps);
      var tries := Tries(named, i, at);
      var tried := Run(named, tries);
      var rest := TryEnds(tried, i, at, exchange, lateError);
      RunOfAppend(named, tries, rest);
      RunOfAppend(p, steps, tries + rest);
      steps := steps + (tries + rest);
    }
  }
}
