/** Last-writer-wins records: versions, their order, and what a sequence of `apply` calls leaves behind. */
module Lww {
  import opened Basics

  /** A node is named by the rank of its id in the string order of the cluster's ids: ids are only ever compared. */
  type NodeId = nat
  type Key = string

  datatype Version = Version(counter: nat, node: NodeId)
  datatype Record = Record(value: string, version: Version)

  /** One item of a replication request: a key and the record written to it. */
  datatype Write = Write(key: Key, record: Record)

  /** The strict order of the version pairs: Lamport counter first, node id breaks ties. */
  predicate Older(a: Version, b: Version) {
    a.counter < b.counter || (a.counter == b.counter && a.node < b.node)
  }

  predicate AtMost(a: Version, b: Version) {
    !Older(b, a)
  }

  function Lookup(data: map<Key, Record>, key: Key): Option<Record> {
    if key in data then Some(data[key]) else None
  }

  predicate IsNewer(record: Record, current: Option<Record>) {
    current.None? || Older(current.value.version, record.version)
  }

  /** The data map after one `apply`. */
  function Merge(data: map<Key, Record>, w: Write): map<Key, Record> {
    if IsNewer(w.record, Lookup(data, w.key)) then data[w.key := w.record] else data
  }

  function MergeAll(data: map<Key, Record>, writes: seq<Write>): map<Key, Record>
    decreases |writes|
  {
    if writes == [] then data else MergeAll(Merge(data, writes[0]), writes[1..])
  }

  /** How many of these `apply` calls store their record. */
  function AppliedCount(data: map<Key, Record>, writes: seq<Write>): nat
    decreases |writes|
  {
    if writes == [] then 0
    else (if IsNewer(writes[0].record, Lookup(data, writes[0].key)) then 1 else 0)
         + AppliedCount(Merge(data, writes[0]), writes[1..])
  }

  /** `data` holds `key` at version `v` or newer. */
  predicate HoldsAtLeast(data: map<Key, Record>, key: Key, v: Version) {
    key in data && AtMost(v, data[key].version)
  }

  /** `after` holds everything `before` held, at the same version or newer. */
  ghost predicate NoOlder(before: map<Key, Record>, after: map<Key, Record>) {
    forall k :: k in before ==> HoldsAtLeast(after, k, before[k].version)
  }

  /** Two writes to a key that carry the same version carry the same record. */
  ghost predicate UniqueVersions(writes: set<Write>) {
    forall a, b :: a in writes && b in writes && a.key == b.key && a.record.version == b.record.version ==> a == b
  }

  function WritesOf(data: map<Key, Record>): set<Write> {
    set k | k in data :: Write(k, data[k])
  }

  function WritesIn(writes: seq<Write>): set<Write> {
    set w | w in writes
  }

  /** `data` is the pointwise newest of `writes`: it holds exactly the keys written, each at a write nothing beats. */
  ghost predicate IsPointwiseNewest(data: map<Key, Record>, writes: set<Write>) {
    && (forall k :: k in data ==> Write(k, data[k]) in writes)
    && (forall w :: w in writes ==> HoldsAtLeast(data, w.key, w.record.version))
  }

  // The tie-break makes the order total, so two replicas never disagree on which of two records wins.
  lemma VersionOrderIsTotal(a: Version, b: Version, c: Version)
    ensures !Older(a, a)
    ensures a == b || Older(a, b) || Older(b, a)
    ensures Older(a, b) && Older(b, c) ==> Older(a, c)
    ensures AtMost(a, b) && AtMost(b, a) ==> a == b
  {
  }

  lemma {:induction false} MergeAllOfAppend(data: map<Key, Record>, xs: seq<Write>, ys: seq<Write>)
    ensures MergeAll(data, xs + ys) == MergeAll(MergeAll(data, xs), ys)
    decreases |xs|
  {
    if xs == [] {
      assert xs + ys == ys;
    } else {
      assert (xs + ys)[1..] == xs[1..] + ys;
      MergeAllOfAppend(Merge(data, xs[0]), xs[1..], ys);
    }
  }

  // Whatever the order and the repetitions, a sequence of applies leaves the newest of what it started with and
  // what it was given.
  lemma {:induction false} MergeAllIsPointwiseNewest(data: map<Key, Record>, writes: seq<Write>, seen: set<Write>)
    requires IsPointwiseNewest(data, seen)
    ensures IsPointwiseNewest(MergeAll(data, writes), seen + WritesIn(writes))
    decreases |writes|
  {
    if writes == [] {
      assert seen + WritesIn(writes) == seen;
    } else {
      MergeIsPointwiseNewest(data, writes[0], seen);
      MergeAllIsPointwiseNewest(Merge(data, writes[0]), writes[1..], seen + {writes[0]});
      HeadAndTail(writes);
      assert seen + {writes[0]} + WritesIn(writes[1..]) == seen + WritesIn(writes);
    }
  }

  lemma HeadAndTail(writes: seq<Write>)
    requires writes != []
    ensures WritesIn(writes) == {writes[0]} + WritesIn(writes[1..])
  {
    assert writes == [writes[0]] + writes[1..];
  }

  lemma MergeIsPointwiseNewest(data: map<Key, Record>, w: Write, seen: set<Write>)
    requires IsPointwiseNewest(data, seen)
    ensures IsPointwiseNewest(Merge(data, w), seen + {w})
  {
  }

  lemma PointwiseNewestIsUnique(a: map<Key, Record>, b: map<Key, Record>, writes: set<Write>)
    requires UniqueVersions(writes)
    requires IsPointwiseNewest(a, writes) && IsPointwiseNewest(b, writes)
    ensures a == b
  {
    forall k | k in a ensures k in b && a[k] == b[k] {
      assert Write(k, a[k]) in writes;
      assert Write(k, b[k]) in writes;
    }
    forall k | k in b ensures k in a {
      assert Write(k, b[k]) in writes;
    }
  }

  // The map depends only on the set of writes applied: not on their order, repetition or batching.
  lemma ApplyOrderDoesNotMatter(data: map<Key, Record>, xs: seq<Write>, ys: seq<Write>)
    requires WritesIn(xs) == WritesIn(ys)
    requires UniqueVersions(WritesOf(data) + WritesIn(xs))
    ensures MergeAll(data, xs) == MergeAll(data, ys)
  {
    var start := WritesOf(data);
    assert IsPointwiseNewest(data, start);
    MergeAllIsPointwiseNewest(data, xs, start);
    MergeAllIsPointwiseNewest(data, ys, start);
    PointwiseNewestIsUnique(MergeAll(data, xs), MergeAll(data, ys), start + WritesIn(xs));
  }

  // Without unique versions the order does matter: the first of two tied records stays.
  lemma TiedVersionsKeepTheFirst(key: Key, a: Record, b: Record)
    requires a.version == b.version
    ensures MergeAll(map[], [Write(key, a), Write(key, b)]) == map[key := a]
  {
    var once := Merge(map[], Write(key, a));
    assert [Write(key, a), Write(key, b)][1..] == [Write(key, b)];
    assert [Write(key, b)][1..] == [];
    assert MergeAll(once, [Write(key, b)]) == MergeAll(Merge(once, Write(key, b)), []);
  }

  // Of two records for a key the higher counter wins, and among equal counters the greater node id, in either order.
  lemma WinnerOfTwo(key: Key, a: Record, b: Record)
    requires a.version.counter < b.version.counter
             || (a.version.counter == b.version.counter && a.version.node < b.version.node)
    ensures MergeAll(map[], [Write(key, a), Write(key, b)]) == map[key := b]
    ensures MergeAll(map[], [Write(key, b), Write(key, a)]) == map[key := b]
  {
    TwoApplies(map[], Write(key, a), Write(key, b));
    TwoApplies(map[], Write(key, b), Write(key, a));
  }

  lemma TwoApplies(data: map<Key, Record>, v: Write, w: Write)
    ensures MergeAll(data, [v, w]) == Merge(Merge(data, v), w)
  {
    assert [v, w][1..] == [w] && [w][1..] == [];
    assert MergeAll(Merge(data, v), [w]) == MergeAll(Merge(Merge(data, v), w), []);
  }

  /** The positions at which applying the writes one by one changes the data. */
  function Changes(data: map<Key, Record>, writes: seq<Write>): set<nat> {
    set i: nat | i < |writes| && ChangesAt(data, writes, i)
  }

  predicate ChangesAt(data: map<Key, Record>, writes: seq<Write>, i: nat)
    requires i < |writes|
  {
    Merge(MergeAll(data, writes[..i]), writes[i]) != MergeAll(data, writes[..i])
  }

  lemma {:induction false} CountOfAppend(data: map<Key, Record>, xs: seq<Write>, w: Write)
    ensures AppliedCount(data, xs + [w]) ==
            AppliedCount(data, xs) + if Merge(MergeAll(data, xs), w) != MergeAll(data, xs) then 1 else 0
    decreases |xs|
  {
    if xs == [] {
      assert xs + [w] == [w] && [w][1..] == [];
      assert AppliedCount(Merge(data, w), []) == 0;
      assert Merge(data, w) != data <==> IsNewer(w.record, Lookup(data, w.key));
    } else {
      assert (xs + [w])[1..] == xs[1..] + [w];
      CountOfAppend(Merge(data, xs[0]), xs[1..], w);
    }
  }

  // The number a replication request answers with is how many of its records changed the data.
  lemma {:induction false} AppliedCountsChanges(data: map<Key, Record>, writes: seq<Write>)
    ensures AppliedCount(data, writes) == |Changes(data, writes)|
    decreases |writes|
  {
    if writes != [] {
      var init, last := writes[..|writes| - 1], writes[|writes| - 1];
      assert writes == init + [last];
      AppliedCountsChanges(data, init);
      CountOfAppend(data, init, last);
      ChangesOfAppend(data, init, last);
    }
  }

  lemma ChangesOfAppend(data: map<Key, Record>, xs: seq<Write>, w: Write)
    ensures Changes(data, xs + [w]) ==
            Changes(data, xs) + if Merge(MergeAll(data, xs), w) != MergeAll(data, xs) then {|xs|} else {}
  {
    var all := xs + [w];
    forall i: nat | i < |xs| ensures ChangesAt(data, all, i) <==> ChangesAt(data, xs, i) {
      assert all[..i] == xs[..i];
    }
    assert all[..|xs|] == xs;
  }

  // Replaying a batch that was already applied changes nothing.
  lemma ReplayChangesNothing(data: map<Key, Record>, xs: seq<Write>)
    requires UniqueVersions(WritesOf(data) + WritesIn(xs))
    ensures MergeAll(MergeAll(data, xs), xs) == MergeAll(data, xs)
  {
    MergeAllOfAppend(data, xs, xs);
    assert WritesIn(xs + xs) == WritesIn(xs);
    ApplyOrderDoesNotMatter(data, xs + xs, xs);
  }
}
