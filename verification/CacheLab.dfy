/** The caching lab: a Redis cache with a set of dirty keys in front of a slow product service. */
module CacheLab {
  import opened Basics

  type Key = string
  type Id = string

  /** A JSON object: field names and encoded values. */
  type Fields = map<string, string>

  datatype World = World(products: map<Id, Fields>, cache: map<Key, Fields>, dirty: set<Key>)

  function KeyOf(id: Id): Key {
    "product:" + id
  }

  /** The part after the first colon. */
  function IdOf(key: Key): Id {
    if key == "" then "" else if key[0] == ':' then key[1..] else IdOf(key[1..])
  }

  lemma {:induction false} AfterColon(prefix: string, id: Id)
    requires ':' !in prefix
    ensures IdOf(prefix + ":" + id) == id
  {
    var key := prefix + ":" + id;
    if prefix == "" {
      assert key == ":" + id && key[1..] == id;
    } else {
      assert key[0] == prefix[0] && prefix[0] in prefix;
      assert key[1..] == prefix[1..] + ":" + id;
      AfterColon(prefix[1..], id);
    }
  }

  // A flush finds the product again from its key, also when the id holds a colon.
  lemma KeyRoundTrip(id: Id)
    ensures IdOf(KeyOf(id)) == id
  {
    AfterColon("product", id);
    assert "product" + ":" + id == KeyOf(id);
  }

  // ---- the operations ----

  /** The service merges the given fields into the product; an unknown product is refused. */
  function PutProduct(products: map<Id, Fields>, id: Id, body: Fields): map<Id, Fields> {
    if id in products then products[id := products[id] + body] else products
  }

  /** The read path of cache-aside and of read-through: None is an error from the service. */
  function Read(w: World, id: Id): (World, Option<Fields>) {
    if KeyOf(id) in w.cache then (w, Some(w.cache[KeyOf(id)]))
    else if id in w.products then (w.(cache := w.cache[KeyOf(id) := w.products[id]]), Some(w.products[id]))
    else (w, None)
  }

  /** `accepted` is whether the request reaches a service that answers; a failed PUT changes nothing. */
  function WriteThrough(w: World, id: Id, body: Fields, accepted: bool): (World, bool) {
    if !accepted || id !in w.products then (w, false)
    else
      var products := PutProduct(w.products, id, body);
      (w.(products := products, cache := w.cache[KeyOf(id) := products[id]]), true)
  }

  function WriteBack(w: World, id: Id, body: Fields): World {
    w.(cache := w.cache[KeyOf(id) := body], dirty := w.dirty + {KeyOf(id)})
  }

  function FlushOne(w: World, key: Key): World {
    var products := if key in w.cache then PutProduct(w.products, IdOf(key), w.cache[key]) else w.products;
    w.(products := products, dirty := w.dirty - {key})
  }

  predicate CanFlush(w: World, key: Key, accepted: set<Key>) {
    key in w.cache ==> key in accepted && IdOf(key) in w.products
  }

  /** The PUTs of a flush: those that are answered, and those that the service applies although the answer is lost. */
  datatype Replies = Replies(accepted: set<Key>, lost: set<Key>)

  /** A PUT that fails leaves its key dirty; with its answer lost, the service has the fields all the same. */
  function FlushStopped(w: World, key: Key, replies: Replies): World {
    if key in w.cache && key in replies.lost then w.(products := PutProduct(w.products, IdOf(key), w.cache[key])) else w
  }

  /** Flushes the keys in order; false when a PUT failed, which ends the flush there. */
  function FlushAll(w: World, order: seq<Key>, replies: Replies): (World, bool)
    decreases |order|
  {
    if order == [] then (w, true)
    else if !CanFlush(w, order[0], replies.accepted) then (FlushStopped(w, order[0], replies), false)
    else FlushAll(FlushOne(w, order[0]), order[1..], replies)
  }

  /** `order` lists the dirty keys, each once, as sorting the set does. */
  ghost predicate Lists(order: seq<Key>, dirty: set<Key>) {
    Members(order) == dirty && forall i, j :: 0 <= i < j < |order| ==> order[i] != order[j]
  }

  class CachedStore {
    var products: map<Id, Fields>
    var cache: map<Key, Fields>
    var dirty: set<Key>

    constructor (products: map<Id, Fields>)
      ensures State() == World(products, map[], {})
    {
      this.products := products;
      cache, dirty := map[], {};
    }

    function State(): World
      reads this
    {
      World(products, cache, dirty)
    }

    method GetProduct(id: Id) returns (data: Option<Fields>)
      modifies this`cache
      ensures (State(), data) == Read(old(State()), id)
      ensures KeyOf(id) in old(cache) ==> data == Some(old(cache)[KeyOf(id)]) && cache == old(cache)
      ensures KeyOf(id) !in old(cache) && id in products ==>
                data == Some(products[id]) && cache == old(cache)[KeyOf(id) := products[id]]
      ensures KeyOf(id) !in old(cache) && id !in products ==> data.None? && cache == old(cache)
    {
      var key := KeyOf(id);
      if key in cache {
        return Some(cache[key]);
      }
      if id !in products {
        return None;
      }
      data := Some(products[id]);
      cache := cache[key := products[id]];
    }

    method UpdateProduct(id: Id, body: Fields, accepted: bool) returns (ok: bool)
      modifies this`products, this`cache
      ensures (State(), ok) == WriteThrough(old(State()), id, body, accepted)
      ensures ok <==> accepted && id in old(products)
      ensures ok ==> products == old(products)[id := old(products)[id] + body] && cache == old(cache)[KeyOf(id) := products[id]]
      ensures !ok ==> products == old(products) && cache == old(cache)
    {
      if !accepted || id !in products {
        return false;
      }
      products := products[id := products[id] + body];
      cache := cache[KeyOf(id) := products[id]];
      return true;
    }

    method UpdateProductAsync(id: Id, body: Fields)
      modifies this`cache, this`dirty
      ensures State() == WriteBack(old(State()), id, body)
      ensures cache == old(cache)[KeyOf(id) := body] && dirty == old(dirty) + {KeyOf(id)}
    {
      cache := cache[KeyOf(id) := body];
      dirty := dirty + {KeyOf(id)};
    }

    method FlushDirty(order: seq<Key>, replies: Replies) returns (completed: bool)
      requires Lists(order, dirty)
      modifies this`products, this`dirty
      ensures (State(), completed) == FlushAll(old(State()), order, replies)
    {
      for i := 0 to |order|
        invariant cache == old(cache)
        invariant FlushAll(State(), order[i..], replies) == FlushAll(old(State()), order, replies)
      {
        var key := order[i];
        assert order[i..][1..] == order[i + 1..];
        if key !in cache {
          dirty := dirty - {key};
          continue;
        }
        var id := IdOf(key);
        if id !in products {
          return false;
        }
        if key !in replies.accepted {
          if key in replies.lost {
            products := products[id := products[id] + cache[key]];
          }
          return false;
        }
        products := products[id := products[id] + cache[key]];
        dirty := dirty - {key};
      }
      return true;
    }
  }

  // ---- every run ----

  datatype Action =
    | Get(id: Id)
    | Update(id: Id, body: Fields, accepted: bool)
    | UpdateLater(id: Id, body: Fields)
    | Flush(order: seq<Key>, replies: Replies)
    | Drop(key: Key)
    | Clear

  ghost predicate Enabled(w: World, a: Action) {
    a.Flush? ==> Lists(a.order, w.dirty)
  }

  /** Drop is expiry or eviction of any entry. */
  function Next(w: World, a: Action): World {
    match a
    case Get(id) => Read(w, id).0
    case Update(id, body, accepted) => WriteThrough(w, id, body, accepted).0
    case UpdateLater(id, body) => WriteBack(w, id, body)
    case Flush(order, replies) => FlushAll(w, order, replies).0
    case Drop(key) => w.(cache := w.cache - {key})
    case Clear => w.(cache := map[], dirty := {})
  }

  ghost predicate CanRun(w: World, actions: seq<Action>)
    decreases |actions|
  {
    actions == [] || (Enabled(w, actions[0]) && CanRun(Next(w, actions[0]), actions[1..]))
  }

  function Run(w: World, actions: seq<Action>): World
    decreases |actions|
  {
    if actions == [] then w else Run(Next(w, actions[0]), actions[1..])
  }

  /** Every field of the entry has the value the service has. */
  predicate Agrees(entry: Fields, product: Fields) {
    forall f :: f in entry ==> f in product && product[f] == entry[f]
  }

  predicate EntryOk(w: World, key: Key) {
    key in w.cache && key !in w.dirty ==> IdOf(key) in w.products && Agrees(w.cache[key], w.products[IdOf(key)])
  }

  /** Keys are those of products, and every entry that is not dirty agrees with the service on all its fields. */
  ghost predicate Coherent(w: World) {
    && (forall key :: key in w.cache || key in w.dirty ==> key == KeyOf(IdOf(key)))
    && (forall key :: key in w.cache ==> EntryOk(w, key))
  }

  lemma KeysAreInjective(a: Key, b: Key)
    requires a == KeyOf(IdOf(a)) && b == KeyOf(IdOf(b)) && IdOf(a) == IdOf(b)
    ensures a == b
  {
  }

  lemma FlushOneKeeps(w: World, key: Key, accepted: set<Key>)
    requires Coherent(w) && key in w.dirty && CanFlush(w, key, accepted)
    ensures Coherent(FlushOne(w, key))
  {
    var after := FlushOne(w, key);
    forall k | k in after.cache ensures EntryOk(after, k) {
      if k != key {
        if IdOf(k) == IdOf(key) {
          KeysAreInjective(k, key);
        }
        assert EntryOk(w, k);
      }
    }
  }

  // A PUT that was applied but not answered does no harm in a flush: the key stays dirty.
  lemma StoppedKeeps(w: World, key: Key, replies: Replies)
    requires Coherent(w) && key in w.dirty
    ensures Coherent(FlushStopped(w, key, replies))
  {
    var after := FlushStopped(w, key, replies);
    forall k | k in after.cache ensures EntryOk(after, k) {
      if k != key && IdOf(k) == IdOf(key) {
        KeysAreInjective(k, key);
      }
      assert EntryOk(w, k);
    }
  }

  lemma RestOfOrder(order: seq<Key>, dirty: set<Key>)
    requires order != [] && Lists(order, dirty)
    ensures Lists(order[1..], dirty - {order[0]}) && order[0] in dirty && order[0] !in order[1..]
  {
    assert order == [order[0]] + order[1..];
    forall k | k in order[1..] ensures k != order[0] {
      var i :| 0 <= i < |order[1..]| && order[1..][i] == k;
      assert order[i + 1] == k;
    }
  }

  lemma {:induction false} FlushKeeps(w: World, order: seq<Key>, replies: Replies)
    requires Coherent(w) && Lists(order, w.dirty)
    ensures var after := FlushAll(w, order, replies).0;
            Coherent(after) && after.cache == w.cache && after.products.Keys == w.products.Keys
    decreases |order|
  {
    if order != [] {
      RestOfOrder(order, w.dirty);
      if CanFlush(w, order[0], replies.accepted) {
        FlushOneKeeps(w, order[0], replies.accepted);
        FlushKeeps(FlushOne(w, order[0]), order[1..], replies);
      } else {
        StoppedKeeps(w, order[0], replies);
      }
    }
  }

  /** What is left of a flush: exactly the keys from the failed one on are still dirty, or none. */
  lemma {:induction false} FlushLeaves(w: World, order: seq<Key>, replies: Replies)
    requires Lists(order, w.dirty)
    ensures var (after, completed) := FlushAll(w, order, replies);
            if completed then after.dirty == {}
            else exists i :: 0 <= i < |order| && after.dirty == Members(order[i..])
                             && !CanFlush(after, order[i], replies.accepted)
    decreases |order|
  {
    if order != [] {
      if CanFlush(w, order[0], replies.accepted) {
        RestOfOrder(order, w.dirty);
        FlushLeaves(FlushOne(w, order[0]), order[1..], replies);
        var (after, completed) := FlushAll(w, order, replies);
        if !completed {
          var i :| 0 <= i < |order[1..]| && after.dirty == Members(order[1..][i..])
                   && !CanFlush(after, order[1..][i], replies.accepted);
          assert order[1..][i..] == order[i + 1..];
        }
      } else {
        assert order[0..] == order;
      }
    }
  }

  lemma WritesKeep(w: World, id: Id, body: Fields, accepted: bool)
    requires Coherent(w)
    ensures Coherent(WriteThrough(w, id, body, accepted).0) && Coherent(WriteBack(w, id, body)) && Coherent(Read(w, id).0)
  {
    KeyRoundTrip(id);
    var key := KeyOf(id);
    var through, back, read := WriteThrough(w, id, body, accepted).0, WriteBack(w, id, body), Read(w, id).0;
    forall k | k in through.cache ensures EntryOk(through, k) {
      if k != key {
        if IdOf(k) == id { KeysAreInjective(k, key); }
        assert EntryOk(w, k);
      }
    }
    forall k | k in back.cache ensures EntryOk(back, k) {
      if k != key { assert EntryOk(w, k); }
    }
    forall k | k in read.cache ensures EntryOk(read, k) {
      if k in w.cache { assert EntryOk(w, k); }
    }
  }

  lemma NextKeepsCoherent(w: World, a: Action)
    requires Coherent(w) && Enabled(w, a)
    ensures Coherent(Next(w, a))
  {
    match a
    case Get(id) => WritesKeep(w, id, map[], false);
    case Update(id, body, accepted) => WritesKeep(w, id, body, accepted);
    case UpdateLater(id, body) => WritesKeep(w, id, body, false);
    case Flush(order, replies) => FlushKeeps(w, order, replies);
    case Drop(key) =>
      forall k | k in Next(w, a).cache ensures EntryOk(Next(w, a), k) {
        assert EntryOk(w, k);
      }
    case Clear =>
  }

  lemma {:induction false} RunKeepsCoherent(w: World, actions: seq<Action>)
    requires Coherent(w) && CanRun(w, actions)
    ensures Coherent(Run(w, actions))
    decreases |actions|
  {
    if actions != [] {
      NextKeepsCoherent(w, actions[0]);
      RunKeepsCoherent(Next(w, actions[0]), actions[1..]);
    }
  }

  // Over any run from an empty cache, with entries evicted or expired at any time, an entry that is not dirty agrees
  // with the service on all its fields.
  lemma CleanEntriesAgree(products: map<Id, Fields>, actions: seq<Action>, id: Id)
    requires CanRun(World(products, map[], {}), actions)
    ensures var w := Run(World(products, map[], {}), actions);
            KeyOf(id) in w.cache && KeyOf(id) !in w.dirty ==> id in w.products && Agrees(w.cache[KeyOf(id)], w.products[id])
  {
    RunKeepsCoherent(World(products, map[], {}), actions);
    KeyRoundTrip(id);
    var w := Run(World(products, map[], {}), actions);
    if KeyOf(id) in w.cache {
      assert EntryOk(w, KeyOf(id));
    }
  }

  // What a read returns. Over every run: the cached entry if there is one, else the product, which is then cached, else
  // nothing; unless the key is dirty, the service has every field returned.
  lemma ReadsAgree(products: map<Id, Fields>, actions: seq<Action>, id: Id)
    requires CanRun(World(products, map[], {}), actions)
    ensures var w := Run(World(products, map[], {}), actions);
            var (after, data) := Read(w, id);
            && (data.Some? <==> KeyOf(id) in w.cache || id in w.products)
            && (KeyOf(id) in w.cache ==> data == Some(w.cache[KeyOf(id)]) && after == w)
            && (KeyOf(id) !in w.cache && id in w.products ==>
                  data == Some(w.products[id]) && after == w.(cache := w.cache[KeyOf(id) := w.products[id]]))
            && (data.Some? && KeyOf(id) !in w.dirty ==> id in w.products && Agrees(data.value, w.products[id]))
            && (data.Some? ==> Read(after, id) == (after, data))
  {
    CleanEntriesAgree(products, actions, id);
  }

  // What was written is what is read: a write-through that succeeds gives the merged product, a write-back its body.
  lemma WriteThenRead(w: World, id: Id, body: Fields)
    ensures id in w.products ==> Read(WriteThrough(w, id, body, true).0, id).1 == Some(w.products[id] + body)
    ensures Read(WriteBack(w, id, body), id).1 == Some(body)
    ensures Read(WriteThrough(w, id, body, false).0, id) == Read(w, id)
  {
  }

  // After a flush that completes no key is dirty and the service has every field of every cached entry; after one
  // that fails, exactly the failed key and the ones behind it are still dirty.
  lemma FlushOutcome(products: map<Id, Fields>, actions: seq<Action>, order: seq<Key>, replies: Replies)
    requires CanRun(World(products, map[], {}), actions)
    requires Lists(order, Run(World(products, map[], {}), actions).dirty)
    ensures var w := Run(World(products, map[], {}), actions);
            var (after, completed) := FlushAll(w, order, replies);
            if completed
            then after.dirty == {} && forall key :: key in w.cache ==>
                   IdOf(key) in after.products && Agrees(w.cache[key], after.products[IdOf(key)])
            else exists i :: 0 <= i < |order| && after.dirty == Members(order[i..])
                             && !CanFlush(after, order[i], replies.accepted)
  {
    RunKeepsCoherent(World(products, map[], {}), actions);
    var w := Run(World(products, map[], {}), actions);
    FlushKeeps(w, order, replies);
    FlushLeaves(w, order, replies);
    var after := FlushAll(w, order, replies).0;
    if FlushAll(w, order, replies).1 {
      forall key | key in w.cache ensures IdOf(key) in after.products && Agrees(w.cache[key], after.products[IdOf(key)]) {
        assert EntryOk(after, key);
      }
    }
  }

  // ---- where the agreement ends ----

  // A write-through PUT that the service applied but whose answer was lost leaves the cache behind: the agreement
  // survives exactly when the key is dirty, or not cached, or the update repeats the fields the entry has.
  lemma LostAnswerIff(w: World, id: Id, body: Fields)
    requires Coherent(w) && id in w.products
    ensures var after := w.(products := PutProduct(w.products, id, body));
            var key := KeyOf(id);
            Coherent(after) <==>
              key in w.dirty || key !in w.cache || forall f :: f in body && f in w.cache[key] ==> w.cache[key][f] == body[f]
  {
    KeyRoundTrip(id);
    var after := w.(products := PutProduct(w.products, id, body));
    var key := KeyOf(id);
    if key in w.cache && key !in w.dirty {
      assert EntryOk(w, key);
      if f :| f in body && f in w.cache[key] && w.cache[key][f] != body[f] {
        assert after.products[id][f] == body[f];
        assert !EntryOk(after, key);
      }
    }
    forall k | k in w.cache && k != key ensures EntryOk(after, k) {
      if IdOf(k) == id { KeysAreInjective(k, key); }
      assert EntryOk(w, k);
    }
  }

  // ---- which updates reach the service ----

  /** This step replaces or removes the cache entry of the product, whatever was still to be flushed. */
  predicate Overwrites(w: World, a: Action, id: Id) {
    match a
    case Update(x, _, accepted) => x == id && accepted && id in w.products
    case UpdateLater(x, _) => x == id
    case Drop(key) => key == KeyOf(id)
    case Clear => true
    case _ => false
  }

  /** This flush gets as far as a PUT of the key that the service applies. */
  predicate Delivers(w: World, order: seq<Key>, replies: Replies, key: Key)
    decreases |order|
  {
    order != [] &&
    if !CanFlush(w, order[0], replies.accepted) then order[0] == key && IdOf(key) in w.products && key in replies.lost
    else (order[0] == key && key in w.cache) || Delivers(FlushOne(w, order[0]), order[1..], replies, key)
  }

  predicate Sends(w: World, a: Action, id: Id) {
    a.Flush? && Delivers(w, a.order, a.replies, KeyOf(id))
  }

  /** A flush sends what is in the cache now before anything overwrites it. */
  predicate Arrives(w: World, actions: seq<Action>, id: Id)
    decreases |actions|
  {
    actions != [] && !Overwrites(w, actions[0], id)
    && (Sends(w, actions[0], id) || Arrives(Next(w, actions[0]), actions[1..], id))
  }

  /** The updates of the product that this step gets to the service: an accepted write-through, a write-back that arrives. */
  function Adds(w: World, a: Action, rest: seq<Action>, id: Id): seq<Fields> {
    match a
    case Update(x, body, accepted) => if x == id && accepted && id in w.products then [body] else []
    case UpdateLater(x, body) => if x == id && Arrives(Next(w, a), rest, id) then [body] else []
    case _ => []
  }

  function Received(w: World, actions: seq<Action>, id: Id): seq<Fields>
    decreases |actions|
  {
    if actions == [] then [] else Adds(w, actions[0], actions[1..], id) + Received(Next(w, actions[0]), actions[1..], id)
  }

  function MergeAll(product: Fields, bodies: seq<Fields>): Fields
    decreases |bodies|
  {
    if bodies == [] then product else MergeAll(product + bodies[0], bodies[1..])
  }

  predicate Unsent(w: World, id: Id) {
    KeyOf(id) in w.dirty && KeyOf(id) in w.cache
  }

  /** The product once the entry that is still to be flushed got through, if it does. */
  function Settled(w: World, actions: seq<Action>, id: Id): Fields
    requires id in w.products
  {
    if Unsent(w, id) && Arrives(w, actions, id) then w.products[id] + w.cache[KeyOf(id)] else w.products[id]
  }

  // A flush changes a product exactly when it delivers its key, and then by the cached fields.
  lemma {:induction false} FlushMerges(w: World, order: seq<Key>, replies: Replies, id: Id)
    requires Coherent(w) && Lists(order, w.dirty) && id in w.products
    ensures var after := FlushAll(w, order, replies).0;
            && id in after.products && after.dirty <= w.dirty
            && (Delivers(w, order, replies, KeyOf(id)) ==> Unsent(w, id))
            && (Unsent(w, id) && !Delivers(w, order, replies, KeyOf(id)) ==> KeyOf(id) in after.dirty)
            && after.products[id] ==
               if Delivers(w, order, replies, KeyOf(id)) then w.products[id] + w.cache[KeyOf(id)] else w.products[id]
    decreases |order|
  {
    if order != [] {
      var key := order[0];
      KeyRoundTrip(id);
      RestOfOrder(order, w.dirty);
      assert key == KeyOf(IdOf(key));
      if CanFlush(w, key, replies.accepted) {
        var next := FlushOne(w, key);
        FlushOneKeeps(w, key, replies.accepted);
        FlushMerges(next, order[1..], replies, id);
      }
    }
  }

  lemma MergeTwice(product: Fields, entry: Fields)
    ensures product + entry + entry == product + entry
    ensures Agrees(entry, product) ==> product + entry == product
  {
  }

  lemma FlushStep(w: World, a: Action, rest: seq<Action>, id: Id)
    requires Coherent(w) && Enabled(w, a) && id in w.products && a.Flush?
    ensures id in Next(w, a).products
    ensures Settled(Next(w, a), rest, id) == Settled(w, [a] + rest, id)
  {
    assert ([a] + rest)[1..] == rest;
    FlushMerges(w, a.order, a.replies, id);
    FlushKeeps(w, a.order, a.replies);
    if Unsent(w, id) {
      MergeTwice(w.products[id], w.cache[KeyOf(id)]);
    }
  }

  ghost predicate StepSettles(w: World, a: Action, rest: seq<Action>, id: Id) {
    && id in w.products && id in Next(w, a).products
    && Settled(Next(w, a), rest, id) == MergeAll(Settled(w, [a] + rest, id), Adds(w, a, rest, id))
  }

  lemma ReadSettles(w: World, a: Action, rest: seq<Action>, id: Id)
    requires id in w.products && (a.Get? || a.Drop? || a.Clear?)
    ensures StepSettles(w, a, rest, id)
  {
    assert ([a] + rest)[1..] == rest;
    MergeTwice(w.products[id], w.products[id]);
    if a.Get? {
      KeyRoundTrip(id);
      KeyRoundTrip(a.id);
    }
  }

  lemma WriteSettles(w: World, a: Action, rest: seq<Action>, id: Id)
    requires id in w.products && (a.Update? || a.UpdateLater?)
    ensures StepSettles(w, a, rest, id)
  {
    assert ([a] + rest)[1..] == rest;
    KeyRoundTrip(id);
    KeyRoundTrip(a.id);
    assert [a.body][1..] == [];
    MergeTwice(w.products[id] + a.body, w.products[id] + a.body);
  }

  lemma StepReceives(w: World, a: Action, rest: seq<Action>, id: Id)
    requires Coherent(w) && Enabled(w, a) && id in w.products
    ensures StepSettles(w, a, rest, id)
  {
    if a.Flush? {
      FlushStep(w, a, rest, id);
    } else if a.Update? || a.UpdateLater? {
      WriteSettles(w, a, rest, id);
    } else {
      ReadSettles(w, a, rest, id);
    }
  }

  lemma MergeAfterAdds(product: Fields, adds: seq<Fields>, rest: seq<Fields>)
    requires |adds| <= 1
    ensures MergeAll(product, adds + rest) == MergeAll(MergeAll(product, adds), rest)
  {
    if adds == [] {
      assert adds + rest == rest;
    } else {
      assert (adds + rest)[1..] == rest && adds[1..] == [];
    }
  }

  // Over any run from any coherent state, a product ends as what it was, merged with exactly the updates received, in
  // order: a write-back that does not arrive leaves no trace in the service.
  lemma {:induction false} ServiceReceives(w: World, actions: seq<Action>, id: Id)
    requires Coherent(w) && CanRun(w, actions) && id in w.products
    ensures id in Run(w, actions).products
    ensures Run(w, actions).products[id] == MergeAll(Settled(w, actions, id), Received(w, actions, id))
    decreases |actions|
  {
    if actions != [] {
      var next := Next(w, actions[0]);
      NextKeepsCoherent(w, actions[0]);
      assert actions == [actions[0]] + actions[1..];
      StepReceives(w, actions[0], actions[1..], id);
      ServiceReceives(next, actions[1..], id);
      var adds := Adds(w, actions[0], actions[1..], id);
      MergeAfterAdds(Settled(w, actions, id), adds, Received(next, actions[1..], id));
    }
  }

  /** Something in the run overwrites the entry, and no flush before it sends the entry. */
  ghost predicate OverwrittenUnsent(w: World, actions: seq<Action>, id: Id) {
    exists i :: 0 <= i < |actions| && Overwrites(Run(w, actions[..i]), actions[i], id) && NotSentBefore(w, actions, id, i)
  }

  ghost predicate NotSentBefore(w: World, actions: seq<Action>, id: Id, i: nat)
    requires i <= |actions|
  {
    forall j :: 0 <= j < i ==> !Sends(Run(w, actions[..j]), actions[j], id)
  }

  lemma LaterState(w: World, actions: seq<Action>, i: nat)
    requires actions != [] && i < |actions|
    ensures Run(w, actions[..i + 1]) == Run(Next(w, actions[0]), actions[1..][..i])
  {
    assert actions[..i + 1][1..] == actions[1..][..i];
  }

  lemma OverwrittenUnsentUnrolls(w: World, actions: seq<Action>, id: Id)
    requires actions != []
    ensures OverwrittenUnsent(w, actions, id) <==>
            Overwrites(w, actions[0], id)
            || (!Sends(w, actions[0], id) && OverwrittenUnsent(Next(w, actions[0]), actions[1..], id))
  {
    var next, rest := Next(w, actions[0]), actions[1..];
    assert Run(w, actions[..0]) == w;
    forall i | 0 <= i < |rest| ensures Run(w, actions[..i + 1]) == Run(next, rest[..i]) {
      LaterState(w, actions, i);
    }
    if OverwrittenUnsent(w, actions, id) && !Overwrites(w, actions[0], id) {
      var i :| 0 <= i < |actions| && Overwrites(Run(w, actions[..i]), actions[i], id) && NotSentBefore(w, actions, id, i);
      assert Overwrites(Run(next, rest[..i - 1]), rest[i - 1], id);
      forall j | 0 <= j < i - 1 ensures !Sends(Run(next, rest[..j]), rest[j], id) {
        assert !Sends(Run(w, actions[..j + 1]), actions[j + 1], id);
      }
      assert NotSentBefore(next, rest, id, i - 1);
      assert !Sends(Run(w, actions[..0]), actions[0], id);
    }
    if !Sends(w, actions[0], id) && OverwrittenUnsent(next, rest, id) {
      var i :| 0 <= i < |rest| && Overwrites(Run(next, rest[..i]), rest[i], id) && NotSentBefore(next, rest, id, i);
      forall j | 0 <= j < i + 1 ensures !Sends(Run(w, actions[..j]), actions[j], id) {
        if j > 0 {
          assert !Sends(Run(next, rest[..j - 1]), rest[j - 1], id);
        }
      }
      assert NotSentBefore(w, actions, id, i + 1);
    }
    if Overwrites(w, actions[0], id) {
      assert NotSentBefore(w, actions, id, 0);
    }
  }

  lemma StaysUnsent(w: World, a: Action, id: Id)
    requires Coherent(w) && Enabled(w, a) && id in w.products && Unsent(w, id)
    requires !Overwrites(w, a, id) && !Sends(w, a, id)
    ensures id in Next(w, a).products && Unsent(Next(w, a), id)
  {
    if a.Flush? {
      FlushMerges(w, a.order, a.replies, id);
      FlushKeeps(w, a.order, a.replies);
    } else if a.Get? || a.Update? || a.UpdateLater? {
      KeyRoundTrip(id);
      KeyRoundTrip(a.id);
    }
  }

  lemma CompletedFlushSends(w: World, order: seq<Key>, replies: Replies, id: Id)
    requires Coherent(w) && Lists(order, w.dirty) && id in w.products && Unsent(w, id)
    requires FlushAll(w, order, replies).1
    ensures Delivers(w, order, replies, KeyOf(id))
  {
    FlushMerges(w, order, replies, id);
    FlushLeaves(w, order, replies);
  }

  // With a flush that completes at the end, an entry arrives unless something overwrites it before it is sent.
  lemma {:induction false} ArrivesIff(w: World, actions: seq<Action>, order: seq<Key>, replies: Replies, id: Id)
    requires Coherent(w) && id in w.products && Unsent(w, id) && CanRun(w, actions)
    requires Lists(order, Run(w, actions).dirty) && FlushAll(Run(w, actions), order, replies).1
    ensures Arrives(w, actions + [Flush(order, replies)], id) <==> !OverwrittenUnsent(w, actions, id)
    decreases |actions|
  {
    var all := actions + [Flush(order, replies)];
    if actions == [] {
      CompletedFlushSends(w, order, replies, id);
    } else {
      var a := actions[0];
      assert all[0] == a && all[1..] == actions[1..] + [Flush(order, replies)];
      OverwrittenUnsentUnrolls(w, actions, id);
      NextKeepsCoherent(w, a);
      if !Overwrites(w, a, id) && !Sends(w, a, id) {
        StaysUnsent(w, a, id);
        ArrivesIff(Next(w, a), actions[1..], order, replies, id);
      }
    }
  }

  lemma {:induction false} MergeAllIsOneMerge(product: Fields, first: Fields, bodies: seq<Fields>)
    ensures MergeAll(product + first, bodies) == product + MergeAll(first, bodies)
    decreases |bodies|
  {
    if bodies != [] {
      assert product + first + bodies[0] == product + (first + bodies[0]);
      MergeAllIsOneMerge(product, first + bodies[0], bodies[1..]);
    }
  }

  lemma {:induction false} RunOfFlush(w: World, actions: seq<Action>, flush: Action)
    requires CanRun(w, actions) && Enabled(Run(w, actions), flush)
    ensures CanRun(w, actions + [flush]) && Run(w, actions + [flush]) == Next(Run(w, actions), flush)
    decreases |actions|
  {
    if actions == [] {
      assert [flush][1..] == [];
    } else {
      assert (actions + [flush])[1..] == actions[1..] + [flush];
      RunOfFlush(Next(w, actions[0]), actions[1..], flush);
    }
  }

  /** What later updates of the product, received since this state, leave in its fields. */
  function LaterFields(w: World, actions: seq<Action>, id: Id): Fields {
    MergeAll(map[], Received(w, actions, id))
  }

  lemma ProductAfter(w: World, actions: seq<Action>, id: Id)
    requires Coherent(w) && CanRun(w, actions) && id in w.products
    ensures id in Run(w, actions).products
    ensures Run(w, actions).products[id] == Settled(w, actions, id) + LaterFields(w, actions, id)
  {
    ServiceReceives(w, actions, id);
    var base := Settled(w, actions, id);
    MergeAllIsOneMerge(base, map[], Received(w, actions, id));
    assert base + map[] == base;
  }

  lemma AgreesIff(product: Fields, body: Fields, later: Fields, lost: bool)
    ensures Agrees(body, (if lost then product else product + body) + later) <==>
            forall f :: f in body ==> if f in later then later[f] == body[f]
                                      else !lost || (f in product && product[f] == body[f])
  {
  }

  // When a write-back gets through. After it, anything may happen, with flushes that fail, and then a flush completes:
  // the service has every field of the update exactly when each field that no later received update set was sent
  // before the entry was overwritten (by an eviction, a clear, or a later update of the product, whatever its fields),
  // or had that value before; and a field that was set later was set to the same value.
  lemma WriteBackArrivesIff(w: World, id: Id, body: Fields, between: seq<Action>, order: seq<Key>, replies: Replies)
    requires Coherent(w) && id in w.products
    requires CanRun(WriteBack(w, id, body), between)
    requires Lists(order, Run(WriteBack(w, id, body), between).dirty)
    requires FlushAll(Run(WriteBack(w, id, body), between), order, replies).1
    ensures var start := WriteBack(w, id, body);
            var later := LaterFields(start, between + [Flush(order, replies)], id);
            var after := FlushAll(Run(start, between), order, replies).0;
            && id in after.products
            && after.products[id] ==
               (if OverwrittenUnsent(start, between, id) then w.products[id] else w.products[id] + body) + later
            && (Agrees(body, after.products[id]) <==>
                forall f :: f in body ==>
                  if f in later then later[f] == body[f]
                  else !OverwrittenUnsent(start, between, id) || (f in w.products[id] && w.products[id][f] == body[f]))
  {
    var start := WriteBack(w, id, body);
    var flush := Flush(order, replies);
    KeyRoundTrip(id);
    NextKeepsCoherent(w, UpdateLater(id, body));
    ArrivesIff(start, between, order, replies, id);
    RunOfFlush(start, between, flush);
    ProductAfter(start, between + [flush], id);
    AgreesIff(w.products[id], body, LaterFields(start, between + [flush], id), OverwrittenUnsent(start, between, id));
  }

  // An eviction, a clear, or a later update of the product right after a write-back loses all of it: the flush
  // completes, and the service has at most the fields of the later update.
  lemma OverwrittenUpdateIsLost(w: World, id: Id, body: Fields, a: Action, order: seq<Key>, replies: Replies)
    requires Coherent(w) && id in w.products && Overwrites(WriteBack(w, id, body), a, id)
    requires Lists(order, Next(WriteBack(w, id, body), a).dirty)
    requires FlushAll(Next(WriteBack(w, id, body), a), order, replies).1
    ensures var after := FlushAll(Next(WriteBack(w, id, body), a), order, replies).0;
            id in after.products
            && after.products[id] == w.products[id] + (if a.Update? || a.UpdateLater? then a.body else map[])
  {
    KeyRoundTrip(id);
    NextKeepsCoherent(w, UpdateLater(id, body));
    var next := Next(WriteBack(w, id, body), a);
    NextKeepsCoherent(WriteBack(w, id, body), a);
    FlushMerges(next, order, replies, id);
    if Unsent(next, id) {
      CompletedFlushSends(next, order, replies, id);
    }
    if a.Update? {
      MergeTwice(w.products[id] + a.body, w.products[id] + a.body);
    }
  }
}
