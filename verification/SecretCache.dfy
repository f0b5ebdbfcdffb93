/**
 The secret cache (app/secrets.py): an insertion-ordered dictionary with expiry
 and FIFO eviction behind a lock, and `get_secret`, whose fetch runs outside it.

 The class is the cache under its lock. The state machine below it interleaves
 any number of threads; both the clock reading of a lookup and that of a store
 happen before the lock is taken, and so are steps of their own.
 */
module SecretCache {
  import opened Options

  datatype Key = Key(secret: string, env: Option<string>)

  /** One dictionary item; a cache is its items in insertion order. */
  datatype Slot = Slot(key: Key, value: string, expires: real)

  const MAX_ENTRIES := 64

  // ------------------------------------------------- the locked operations

  predicate Has(c: seq<Slot>, k: Key) {
    exists i :: 0 <= i < |c| && c[i].key == k
  }

  ghost predicate DistinctKeys(c: seq<Slot>) {
    forall i, j :: 0 <= i < j < |c| ==> c[i].key != c[j].key
  }

  /** The dictionary without one key, in the same order. */
  function Without(c: seq<Slot>, k: Key): seq<Slot> {
    if c == [] then [] else if c[0].key == k then c[1..] else [c[0]] + Without(c[1..], k)
  }

  /** Assignment: an existing key keeps its place, a new one goes last. */
  function Assigned(c: seq<Slot>, s: Slot): seq<Slot> {
    if c == [] then [s] else if c[0].key == s.key then [s] + c[1..] else [c[0]] + Assigned(c[1..], s)
  }

  function Lookup(c: seq<Slot>, k: Key): Option<Slot> {
    if c == [] then None else if c[0].key == k then Some(c[0]) else Lookup(c[1..], k)
  }

  /** _cache_get: a hit, or a miss that drops an expired item. */
  function GetValue(c: seq<Slot>, k: Key, now: real): Option<string> {
    match Lookup(c, k)
    case Some(s) => if now >= s.expires then None else Some(s.value)
    case None => None
  }

  function AfterGet(c: seq<Slot>, k: Key, now: real): seq<Slot> {
    match Lookup(c, k)
    case Some(s) => if now >= s.expires then Without(c, k) else c
    case None => c
  }

  /** _cache_put: make room by dropping the oldest insertion, unless the key is there. */
  function AfterPut(c: seq<Slot>, s: Slot): seq<Slot> {
    Assigned(if |c| >= MAX_ENTRIES && Lookup(c, s.key).None? then c[1..] else c, s)
  }

  lemma {:induction false} LookupFinds(c: seq<Slot>, k: Key)
    ensures Lookup(c, k).Some? ==> Lookup(c, k).value in c && Lookup(c, k).value.key == k
    ensures Lookup(c, k).None? <==> !Has(c, k)
  {
    if c != [] {
      LookupFinds(c[1..], k);
      if Has(c[1..], k) {
        var i :| 0 <= i < |c[1..]| && c[1..][i].key == k;
      }
      if Has(c, k) && c[0].key != k {
        var i :| 0 <= i < |c| && c[i].key == k;
      }
    }
  }

  lemma {:induction false} WithoutMembers(c: seq<Slot>, k: Key)
    requires DistinctKeys(c)
    ensures DistinctKeys(Without(c, k)) && |Without(c, k)| <= |c|
    ensures forall x :: x in Without(c, k) <==> x in c && x.key != k
  {
    if c != [] {
      WithoutMembers(c[1..], k);
      if c[0].key != k {
        var rest := Without(c[1..], k);
        assert forall j :: 0 <= j < |rest| ==> rest[j].key != c[0].key;
      }
    }
  }

  lemma {:induction false} AssignedMembers(c: seq<Slot>, s: Slot)
    requires DistinctKeys(c)
    ensures DistinctKeys(Assigned(c, s))
    ensures |Assigned(c, s)| == if Lookup(c, s.key).Some? then |c| else |c| + 1
    ensures forall x :: x in Assigned(c, s) <==> x == s || (x in c && x.key != s.key)
  {
    if c != [] {
      if c[0].key != s.key {
        AssignedMembers(c[1..], s);
        var rest := Assigned(c[1..], s);
        assert forall j :: 0 <= j < |rest| ==> rest[j].key != c[0].key;
      }
    }
  }

  ghost predicate Bounded(c: seq<Slot>) {
    DistinctKeys(c) && |c| <= MAX_ENTRIES
  }

  /** A store leaves its own value, keeps the bound, and evicts at most the oldest item. */
  lemma PutKeepsBound(c: seq<Slot>, s: Slot)
    requires Bounded(c)
    ensures Bounded(AfterPut(c, s)) && s in AfterPut(c, s)
    ensures forall x :: x in AfterPut(c, s) ==> x == s || x in c
    ensures forall i :: 0 < i < |c| && c[i].key != s.key ==> c[i] in AfterPut(c, s)
    ensures |c| < MAX_ENTRIES || Has(c, s.key) ==> forall x :: x in c && x.key != s.key ==> x in AfterPut(c, s)
  {
    var d := if |c| >= MAX_ENTRIES && Lookup(c, s.key).None? then c[1..] else c;
    LookupFinds(c, s.key);
    AssignedMembers(d, s);
  }

  /** What a store does to later lookups: its key hits until it expires, the evicted oldest
      key misses, and every other key answers as before. */
  lemma PutThenGet(c: seq<Slot>, s: Slot, k: Key, now: real)
    requires Bounded(c)
    ensures GetValue(AfterPut(c, s), k, now) ==
            if k == s.key then (if now < s.expires then Some(s.value) else None)
            else if |c| == 64 && !Has(c, s.key) && c[0].key == k then None
            else GetValue(c, k, now)
  {
    PutKeepsBound(c, s);
    var d := AfterPut(c, s);
    LookupFinds(d, k);
    LookupFinds(c, k);
    if k != s.key && Lookup(c, k).Some? {
      var x := Lookup(c, k).value;
      EvictedIsGone(c, s, x);
    }
  }

  /** What a lookup leaves: its own key is gone exactly if it had expired, and every other key
      answers as before, now and later. */
  lemma LookupDropsOnlyTheExpired(c: seq<Slot>, k: Key, now: real, j: Key, later: real)
    requires Bounded(c)
    ensures Has(AfterGet(c, k, now), j) <==>
            Has(c, j) && !(j == k && exists x :: x in c && x.key == k && now >= x.expires)
    ensures GetValue(AfterGet(c, k, now), j, later) ==
            if j == k && GetValue(c, k, now).None? then None else GetValue(c, j, later)
    ensures GetValue(c, k, now) == None <==> forall x :: x in c && x.key == k ==> now >= x.expires
    ensures GetValue(c, k, now).Some? ==> Slot(k, GetValue(c, k, now).value, Lookup(c, k).value.expires) in c
  {
    LookupFinds(c, k);
    LookupFinds(c, j);
    LookupFinds(AfterGet(c, k, now), j);
    WithoutMembers(c, k);
    HasMembers(c, j);
    HasMembers(AfterGet(c, k, now), j);
    forall x | x in c && x.key == k
      ensures Lookup(c, k) == Some(x)
    {
      HasMembers(c, k);
      SameKeySameItem(c, x, Lookup(c, k).value);
    }
    if Lookup(c, j).Some? && Lookup(AfterGet(c, k, now), j).Some? {
      SameKeySameItem(c, Lookup(c, j).value, Lookup(AfterGet(c, k, now), j).value);
    }
  }

  /** The order of insertion: a known key keeps its place, a new one goes last, and only the
      first place is ever given up to make room. */
  lemma PutKeepsOrder(c: seq<Slot>, s: Slot)
    requires Bounded(c)
    ensures forall i :: 0 <= i < |c| && c[i].key == s.key ==> AfterPut(c, s) == c[i := s]
    ensures (forall i :: 0 <= i < |c| ==> c[i].key != s.key) ==>
              AfterPut(c, s) == (if |c| >= 64 then c[1..] else c) + [s]
  {
    LookupFinds(c, s.key);
    AssignedInOrder(c, s);
    AssignedInOrder(c[if |c| >= 64 then 1 else 0..], s);
  }

  lemma {:induction false} AssignedInOrder(c: seq<Slot>, s: Slot)
    requires DistinctKeys(c)
    ensures forall i :: 0 <= i < |c| && c[i].key == s.key ==> Assigned(c, s) == c[i := s]
    ensures (forall i :: 0 <= i < |c| ==> c[i].key != s.key) ==> Assigned(c, s) == c + [s]
  {
    if c != [] {
      AssignedInOrder(c[1..], s);
      forall i | 0 <= i < |c| && c[i].key == s.key
        ensures Assigned(c, s) == c[i := s]
      {
        if i > 0 {
          assert c[1..][i - 1].key == s.key;
        }
      }
    }
  }

  /** And a lookup takes out at most the expired item itself. */
  lemma GetKeepsOrder(c: seq<Slot>, k: Key, now: real)
    requires Bounded(c)
    ensures forall i :: 0 <= i < |c| && c[i].key == k ==>
              AfterGet(c, k, now) == if now >= c[i].expires then c[..i] + c[i + 1..] else c
    ensures (forall i :: 0 <= i < |c| ==> c[i].key != k) ==> AfterGet(c, k, now) == c
  {
    LookupFinds(c, k);
    WithoutInOrder(c, k);
    forall i | 0 <= i < |c| && c[i].key == k
      ensures Lookup(c, k) == Some(c[i])
    {
      SameKeySameItem(c, c[i], Lookup(c, k).value);
    }
  }

  lemma {:induction false} WithoutInOrder(c: seq<Slot>, k: Key)
    requires DistinctKeys(c)
    ensures forall i :: 0 <= i < |c| && c[i].key == k ==> Without(c, k) == c[..i] + c[i + 1..]
  {
    if c != [] {
      WithoutInOrder(c[1..], k);
      forall i | 0 <= i < |c| && c[i].key == k
        ensures Without(c, k) == c[..i] + c[i + 1..]
      {
        if i > 0 {
          assert c[1..][i - 1].key == k;
          assert c[..i] == [c[0]] + c[1..][..i - 1] && c[i + 1..] == c[1..][i..];
        }
      }
    }
  }

  lemma HasMembers(c: seq<Slot>, k: Key)
    ensures Has(c, k) <==> exists x :: x in c && x.key == k
  {
    if x :| x in c && x.key == k {
      var i :| 0 <= i < |c| && c[i] == x;
    }
  }

  lemma SameKeySameItem(c: seq<Slot>, x: Slot, y: Slot)
    requires DistinctKeys(c) && x in c && y in c && x.key == y.key
    ensures x == y
  {
    var i :| 0 <= i < |c| && c[i] == x;
    var j :| 0 <= j < |c| && c[j] == y;
  }

  /** An item other than the new one survives a store unless it is the oldest and had to go. */
  lemma EvictedIsGone(c: seq<Slot>, s: Slot, x: Slot)
    requires Bounded(c) && x in c && x.key != s.key
    ensures x in AfterPut(c, s) <==> !(|c| == MAX_ENTRIES && !Has(c, s.key) && c[0] == x)
    ensures forall y :: y in AfterPut(c, s) && y.key == x.key ==> y == x
    ensures c[0].key == x.key ==> c[0] == x
  {
    LookupFinds(c, s.key);
    PutKeepsBound(c, s);
    if c[0].key == x.key {
      SameKeySameItem(c, c[0], x);
    }
    forall y | y in AfterPut(c, s) && y.key == x.key
      ensures y == x
    {
      SameKeySameItem(c, x, y);
    }
    if |c| == MAX_ENTRIES && !Has(c, s.key) {
      AssignedMembers(c[1..], s);
      var i :| 0 <= i < |c| && c[i] == x;
      assert i > 0 ==> c[1..][i - 1] == x;
    }
  }

  class Cache {
    var slots: seq<Slot>

    ghost predicate Valid()
      reads this
    {
      Bounded(slots)
    }

    constructor ()
      ensures Valid() && slots == []
    {
      slots := [];
    }

    method Get(k: Key, now: real) returns (r: Option<string>)
      requires Valid()
      modifies this
      ensures Valid() && r == GetValue(old(slots), k, now) && slots == AfterGet(old(slots), k, now)
    {
      var entry := Lookup(slots, k);
      if entry.None? {
        return None;
      }
      if now >= entry.value.expires {
        WithoutMembers(slots, k);
        slots := Without(slots, k);
        return None;
      }
      return Some(entry.value.value);
    }

    method Put(k: Key, value: string, expires: real)
      requires Valid()
      modifies this
      ensures Valid() && |slots| <= 64 && slots == AfterPut(old(slots), Slot(k, value, expires))
    {
      PutKeepsBound(slots, Slot(k, value, expires));
      if |slots| >= MAX_ENTRIES && Lookup(slots, k).None? {
        slots := slots[1..];
      }
      slots := Assigned(slots, Slot(k, value, expires));
    }

    /** _cache_clear: every lookup misses, whatever the clock says, until something is stored. */
    method Clear()
      modifies this
      ensures Valid() && slots == []
      ensures forall k, now :: GetValue(slots, k, now) == None && AfterGet(slots, k, now) == []
    {
      slots := [];
    }
  }

  // ------------------------------------------------------------- the threads

  /** Where a call of get_secret is. */
  datatype Phase =
    | Idle
    | Looking(key: Key, now: real)                  // clock read, lock not yet taken
    | Missed(key: Key)
    | Fetched(key: Key, value: string)
    | Storing(key: Key, value: string, now: real)   // clock read, lock not yet taken

  datatype Fetch = Fetch(key: Key, value: string, at: real)
  datatype Store = Store(key: Key, value: string, at: real)
  datatype Hit = Hit(key: Key, value: string, at: real)

  /** Threads are numbered; the logs record what happened. */
  datatype World = World(slots: seq<Slot>, clock: real, threads: map<nat, Phase>,
                         fetches: set<Fetch>, stores: set<Store>, hits: set<Hit>)

  datatype Action =
    | Tick(delta: real)
    | StartGet(thread: nat, key: Key)
    | LockedGet(thread: nat)
    | FetchValue(thread: nat, value: string)
    | StartPut(thread: nat)
    | LockedPut(thread: nat)
    | ClearAll

  function PhaseOf(w: World, t: nat): Phase {
    if t in w.threads then w.threads[t] else Idle
  }

  /** One step of one thread; a step the thread is not ready for does nothing. */
  function Next(ttl: real, w: World, a: Action): World {
    match a
    case Tick(delta) => if delta < 0.0 then w else w.(clock := w.clock + delta)
    case ClearAll => w.(slots := [])
    case StartGet(t, k) =>
      if PhaseOf(w, t).Idle? then w.(threads := w.threads[t := Looking(k, w.clock)]) else w
    case LockedGet(t) => NextGet(w, t, PhaseOf(w, t))
    case FetchValue(t, v) => NextFetch(w, t, PhaseOf(w, t), v)
    case StartPut(t) =>
      var p := PhaseOf(w, t);
      if p.Fetched? then w.(threads := w.threads[t := Storing(p.key, p.value, w.clock)]) else w
    case LockedPut(t) => NextPut(ttl, w, t, PhaseOf(w, t))
  }

  function NextGet(w: World, t: nat, p: Phase): World {
    if !p.Looking? then w
    else
      match GetValue(w.slots, p.key, p.now)
      case Some(v) =>
        w.(slots := AfterGet(w.slots, p.key, p.now), threads := w.threads[t := Idle],
           hits := w.hits + {Hit(p.key, v, p.now)})
      case None =>
        w.(slots := AfterGet(w.slots, p.key, p.now), threads := w.threads[t := Missed(p.key)])
  }

  function NextFetch(w: World, t: nat, p: Phase, v: string): World {
    if !p.Missed? then w
    else w.(threads := w.threads[t := Fetched(p.key, v)], fetches := w.fetches + {Fetch(p.key, v, w.clock)})
  }

  function NextPut(ttl: real, w: World, t: nat, p: Phase): World {
    if !p.Storing? then w
    else w.(slots := AfterPut(w.slots, Slot(p.key, p.value, p.now + ttl)), threads := w.threads[t := Idle],
            stores := w.stores + {Store(p.key, p.value, p.now)})
  }

  function Run(ttl: real, w: World, actions: seq<Action>): World
    decreases |actions|
  {
    if actions == [] then w else Run(ttl, Next(ttl, w, actions[0]), actions[1..])
  }

  const START := World([], 0.0, map[], {}, {}, {})

  /** Some fetch obtained this value for this key no later than the given time. */
  ghost predicate WasFetched(w: World, k: Key, v: string, latest: real) {
    exists f :: f in w.fetches && f.key == k && f.value == v && f.at <= latest
  }

  ghost predicate GoodPhase(w: World, p: Phase) {
    match p
    case Fetched(k, v) => WasFetched(w, k, v, w.clock)
    case Storing(k, v, now) => now <= w.clock && WasFetched(w, k, v, now)
    case Looking(_, now) => now <= w.clock
    case _ => true
  }

  /** The value was fetched, then stored, and stored less than the TTL before `at`. */
  ghost predicate FreshAt(ttl: real, w: World, k: Key, v: string, at: real) {
    exists s :: s in w.stores && s.key == k && s.value == v && at - s.at < ttl && WasFetched(w, k, v, s.at)
  }

  ghost predicate GoodSlot(ttl: real, w: World, s: Slot) {
    Store(s.key, s.value, s.expires - ttl) in w.stores && WasFetched(w, s.key, s.value, s.expires - ttl)
  }

  ghost predicate Inv(ttl: real, w: World) {
    && Bounded(w.slots)
    && (forall s :: s in w.slots ==> GoodSlot(ttl, w, s))
    && (forall t :: t in w.threads ==> GoodPhase(w, w.threads[t]))
    && (forall h :: h in w.hits ==> FreshAt(ttl, w, h.key, h.value, h.at))
  }

  /** The logs and the clock only grow. */
  ghost predicate Grows(w: World, w': World) {
    w.clock <= w'.clock && w.fetches <= w'.fetches && w.stores <= w'.stores && w.hits <= w'.hits
  }

  lemma GrowthKeeps(ttl: real, w: World, w': World)
    requires Grows(w, w')
    ensures forall s :: GoodSlot(ttl, w, s) ==> GoodSlot(ttl, w', s)
    ensures forall p :: GoodPhase(w, p) ==> GoodPhase(w', p)
    ensures forall k, v, at :: FreshAt(ttl, w, k, v, at) ==> FreshAt(ttl, w', k, v, at)
  {
  }

  lemma GetKeepsInv(ttl: real, w: World, t: nat, p: Phase)
    requires Inv(ttl, w) && p == PhaseOf(w, t) && p.Looking?
    ensures Inv(ttl, NextGet(w, t, p))
  {
    var w' := NextGet(w, t, p);
    GrowthKeeps(ttl, w, w');
    LookupFinds(w.slots, p.key);
    WithoutMembers(w.slots, p.key);
    if GetValue(w.slots, p.key, p.now).Some? {
      var s := Lookup(w.slots, p.key).value;
      assert GoodSlot(ttl, w, s);
      var store := Store(s.key, s.value, s.expires - ttl);
      assert store in w'.stores && p.now - store.at < ttl && WasFetched(w, s.key, s.value, store.at);
      assert GoodSlot(ttl, w', s);
    }
  }

  lemma FetchKeepsInv(ttl: real, w: World, t: nat, p: Phase, v: string)
    requires Inv(ttl, w) && p == PhaseOf(w, t) && p.Missed?
    ensures Inv(ttl, NextFetch(w, t, p, v))
  {
  }

  lemma PutKeepsInv(ttl: real, w: World, t: nat, p: Phase)
    requires Inv(ttl, w) && p == PhaseOf(w, t) && p.Storing?
    ensures Inv(ttl, NextPut(ttl, w, t, p))
  {
    PutKeepsBound(w.slots, Slot(p.key, p.value, p.now + ttl));
  }

  lemma StepKeepsInv(ttl: real, w: World, a: Action)
    requires Inv(ttl, w)
    ensures Inv(ttl, Next(ttl, w, a))
  {
    var w' := Next(ttl, w, a);
    match a {
      case LockedGet(t) => if PhaseOf(w, t).Looking? { GetKeepsInv(ttl, w, t, PhaseOf(w, t)); }
      case FetchValue(t, v) => if PhaseOf(w, t).Missed? { FetchKeepsInv(ttl, w, t, PhaseOf(w, t), v); }
      case LockedPut(t) => if PhaseOf(w, t).Storing? { PutKeepsInv(ttl, w, t, PhaseOf(w, t)); }
      case _ => GrowthKeeps(ttl, w, w');
    }
  }

  lemma {:induction false} RunKeepsInv(ttl: real, w: World, actions: seq<Action>)
    requires Inv(ttl, w)
    ensures Inv(ttl, Run(ttl, w, actions))
    decreases |actions|
  {
    if actions != [] {
      StepKeepsInv(ttl, w, actions[0]);
      RunKeepsInv(ttl, Next(ttl, w, actions[0]), actions[1..]);
    }
  }

  /** Bounded staleness: over every interleaving the cache holds at most 64 items, one per
      key, and every hit returned a value that some fetch obtained for that key and
      that was stored strictly less than the TTL before the lookup read its clock. */
  lemma BoundedStaleness(ttl: real, actions: seq<Action>, h: Hit)
    ensures var w := Run(ttl, START, actions);
            && DistinctKeys(w.slots) && |w.slots| <= 64
            && (h in w.hits ==> FreshAt(ttl, w, h.key, h.value, h.at))
  {
    RunKeepsInv(ttl, START, actions);
  }

  /** An undisturbed lookup: a value that has not expired is returned and recorded as a hit, and
      the call is over; otherwise the call goes on to fetch. */
  lemma UndisturbedLookup(ttl: real, w: World, t: nat, k: Key)
    requires PhaseOf(w, t).Idle?
    ensures var v := Next(ttl, Next(ttl, w, StartGet(t, k)), LockedGet(t));
            && v.fetches == w.fetches && v.stores == w.stores && v.clock == w.clock
            && v.slots == AfterGet(w.slots, k, w.clock)
            && match GetValue(w.slots, k, w.clock)
               case Some(found) => v.hits == w.hits + {Hit(k, found, w.clock)} && PhaseOf(v, t).Idle?
               case None => v.hits == w.hits && PhaseOf(v, t) == Missed(k)
  {
  }

  /** After a miss, the fetched value is stored under the key for the TTL from then on. */
  lemma UndisturbedFetch(ttl: real, w: World, t: nat, k: Key, v: string, later: real)
    requires Bounded(w.slots) && PhaseOf(w, t) == Missed(k)
    ensures var done := Next(ttl, Next(ttl, Next(ttl, w, FetchValue(t, v)), StartPut(t)), LockedPut(t));
            && done.fetches == w.fetches + {Fetch(k, v, w.clock)} && done.stores == w.stores + {Store(k, v, w.clock)}
            && PhaseOf(done, t).Idle? && done.hits == w.hits
            && GetValue(done.slots, k, later) == if later < w.clock + ttl then Some(v) else None
  {
    PutThenGet(w.slots, Slot(k, v, w.clock + ttl), k, later);
  }
}
