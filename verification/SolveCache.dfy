/**
 The byte-budgeted cache of solved spots (server-integration/gto_solve.rs): a map, a FIFO
 queue of its keys and a byte accountant kept in lock-step.
 */
module SolveCache {
  import opened Outcomes

  const MAX_CACHE_BYTES: nat := 96 * 1024 * 1024

  type Key = nat        // the 64-bit hash of a spot
  type Repr = nat       // the canonical spot itself
  type Instant = nat

  datatype Spot = Spot(
    repr: Repr,
    body: nat,
    exploitability: real,
    provisionalUntil: Option<Instant>,
    bytes: nat)

  datatype Cache = Cache(entries: map<Key, Spot>, order: seq<Key>, used: nat)

  // ---- Precedence ----

  datatype Supersede = Replace | KeepExisting | RefreshExisting(until: Instant)

  function Supersedes(existing: Spot, next: Spot): Supersede {
    if next.provisionalUntil.None? then Replace
    else if existing.provisionalUntil.None? then KeepExisting
    else if next.exploitability < existing.exploitability then Replace
    else RefreshExisting(next.provisionalUntil.value)
  }

  /** A final entry is always served; a provisional one until its cooldown ends. */
  predicate Servable(s: Spot, now: Instant) {
    s.provisionalUntil.None? || now < s.provisionalUntil.value
  }

  /** The cache-hit check: the stored spot must be the requested one, not merely share its hash. */
  function Lookup(c: Cache, key: Key, repr: Repr, now: Instant): Option<Spot> {
    if key in c.entries && c.entries[key].repr == repr && Servable(c.entries[key], now)
    then Some(c.entries[key]) else None
  }

  // ---- Insertion ----

  function Without(order: seq<Key>, key: Key): seq<Key> {
    if order == [] then []
    else Without(order[..|order| - 1], key) + if order[|order| - 1] == key then [] else [order[|order| - 1]]
  }

  function Remove(c: Cache, key: Key): Cache {
    if key in c.entries
    then Cache(c.entries - {key}, Without(c.order, key), Monus(c.used, c.entries[key].bytes)) else c
  }

  /** Evict the oldest entries until `bytes` more fit. */
  function EvictFor(c: Cache, bytes: nat): Cache
    decreases |c.order|
  {
    if c.used + bytes <= MAX_CACHE_BYTES || c.order == [] then c
    else
      var victim := c.order[0];
      var rest := c.(order := c.order[1..]);
      EvictFor(if victim in c.entries
               then rest.(entries := c.entries - {victim}, used := Monus(c.used, c.entries[victim].bytes)) else rest,
               bytes)
  }

  function Append(c: Cache, key: Key, s: Spot, bytes: nat): Cache {
    Cache(c.entries[key := s.(bytes := bytes)], c.order + [key], c.used + bytes)
  }

  /** The same spot is cached and its entry stays, perhaps with a new cooldown. */
  predicate Keeps(c: Cache, key: Key, s: Spot) {
    key in c.entries && c.entries[key].repr == s.repr && !Supersedes(c.entries[key], s).Replace?
  }

  /** `cache_insert` of a spot whose footprint is `bytes`. */
  function Insert(c: Cache, key: Key, s: Spot, bytes: nat): Cache {
    if bytes > MAX_CACHE_BYTES then c
    else if key in c.entries && c.entries[key].repr == s.repr && Supersedes(c.entries[key], s).KeepExisting? then c
    else if key in c.entries && c.entries[key].repr == s.repr && Supersedes(c.entries[key], s).RefreshExisting? then
      c.(entries := c.entries[key := c.entries[key].(provisionalUntil := s.provisionalUntil)])
    else Append(EvictFor(Remove(c, key), bytes), key, s, bytes)
  }

  // ---- Lock-step ----

  ghost function Sum(entries: map<Key, Spot>, order: seq<Key>): nat
    requires forall k :: k in order ==> k in entries
  {
    if order == [] then 0 else Sum(entries, order[..|order| - 1]) + entries[order[|order| - 1]].bytes
  }

  /** No key is queued twice. */
  ghost predicate Distinct(order: seq<Key>) {
    order == [] || (Distinct(order[..|order| - 1]) && order[|order| - 1] !in order[..|order| - 1])
  }

  lemma {:induction false} DistinctTail(order: seq<Key>)
    requires Distinct(order) && order != []
    ensures Distinct(order[1..]) && order[0] !in order[1..]
  {
    if |order| > 1 {
      var front, rest := order[..|order| - 1], order[1..];
      DistinctTail(front);
      assert rest[..|rest| - 1] == front[1..];
      assert rest == front[1..] + [order[|order| - 1]];
      assert order[0] == front[0] && front[0] in front;
    }
  }

  /** The queue lists the map's keys once each; the accountant is the sum of their bytes, within budget. */
  ghost predicate Valid(c: Cache) {
    && Distinct(c.order)
    && (forall k :: k in c.order <==> k in c.entries)
    && c.used == Sum(c.entries, c.order)
    && c.used <= MAX_CACHE_BYTES
  }

  lemma {:induction false} SumAgrees(a: map<Key, Spot>, b: map<Key, Spot>, order: seq<Key>)
    requires forall k :: k in order ==> k in a && k in b && a[k].bytes == b[k].bytes
    ensures Sum(a, order) == Sum(b, order)
  {
    if order != [] { SumAgrees(a, b, order[..|order| - 1]); }
  }

  lemma {:induction false} SumFront(entries: map<Key, Spot>, order: seq<Key>)
    requires order != [] && forall k :: k in order ==> k in entries
    ensures Sum(entries, order) == entries[order[0]].bytes + Sum(entries, order[1..])
  {
    if |order| == 1 {
      assert order[1..] == [] && order[..0] == [];
    } else {
      SumFront(entries, order[..|order| - 1]);
      assert order[1..][..|order| - 2] == order[..|order| - 1][1..];
    }
  }

  lemma {:induction false} WithoutMeans(order: seq<Key>, key: Key)
    ensures forall k :: k in Without(order, key) <==> k in order && k != key
    ensures Distinct(order) ==> Distinct(Without(order, key))
  {
    if order != [] {
      var front, last := order[..|order| - 1], order[|order| - 1];
      WithoutMeans(front, key);
      assert order == front + [last];
      if last != key { assert Without(order, key)[..|Without(order, key)| - 1] == Without(front, key); }
      else { assert Without(order, key) == Without(front, key); }
    }
  }

  lemma {:induction false} SumWithout(entries: map<Key, Spot>, order: seq<Key>, key: Key)
    requires Distinct(order) && (forall k :: k in order ==> k in entries)
    ensures forall k :: k in Without(order, key) ==> k in entries
    ensures Sum(entries, Without(order, key)) == Sum(entries, order) - (if key in order then entries[key].bytes else 0)
  {
    WithoutMeans(order, key);
    if order != [] {
      var front, last := order[..|order| - 1], order[|order| - 1];
      assert order == front + [last];
      assert last !in front;
      SumWithout(entries, front, key);
      if last != key {
        assert Without(order, key)[..|Without(order, key)| - 1] == Without(front, key);
      } else {
        assert Without(order, key) == Without(front, key);
      }
    }
  }

  lemma RemoveKeeps(c: Cache, key: Key)
    requires Valid(c)
    ensures Valid(Remove(c, key)) && key !in Remove(c, key).entries
  {
    if key in c.entries {
      WithoutMeans(c.order, key);
      SumWithout(c.entries, c.order, key);
      SumAgrees(c.entries, c.entries - {key}, Without(c.order, key));
    }
  }

  lemma EvictOne(c: Cache)
    requires Valid(c) && c.order != []
    ensures Valid(Cache(c.entries - {c.order[0]}, c.order[1..], Monus(c.used, c.entries[c.order[0]].bytes)))
  {
    var victim, rest := c.order[0], c.order[1..];
    assert c.order == [victim] + rest;
    SumFront(c.entries, c.order);
    DistinctTail(c.order);
    SumAgrees(c.entries, c.entries - {victim}, rest);
  }

  /** Eviction ends with room for the new entry, having dropped only the oldest ones. */
  lemma {:induction false} EvictKeeps(c: Cache, bytes: nat)
    requires Valid(c) && bytes <= MAX_CACHE_BYTES
    ensures Valid(EvictFor(c, bytes)) && EvictFor(c, bytes).used + bytes <= MAX_CACHE_BYTES
    ensures exists n :: 0 <= n <= |c.order| && EvictFor(c, bytes).order == c.order[n..]
    ensures forall k :: k in EvictFor(c, bytes).entries ==> k in c.entries && EvictFor(c, bytes).entries[k] == c.entries[k]
    decreases |c.order|
  {
    if c.used + bytes <= MAX_CACHE_BYTES {
      assert c.order[0..] == c.order;
    } else if c.order != [] {
      EvictOne(c);
      var next := Cache(c.entries - {c.order[0]}, c.order[1..], Monus(c.used, c.entries[c.order[0]].bytes));
      EvictKeeps(next, bytes);
      var n :| 0 <= n <= |next.order| && EvictFor(next, bytes).order == next.order[n..];
      assert c.order[n + 1..] == next.order[n..];
    }
  }

  lemma SumAppend(entries: map<Key, Spot>, order: seq<Key>, key: Key, s: Spot)
    requires (forall k :: k in order ==> k in entries) && key !in order
    ensures forall k :: k in order + [key] ==> k in entries[key := s]
    ensures Sum(entries[key := s], order + [key]) == Sum(entries, order) + s.bytes
  {
    var longer := order + [key];
    assert longer[..|longer| - 1] == order;
    SumAgrees(entries, entries[key := s], order);
  }

  lemma AppendKeeps(c: Cache, key: Key, s: Spot, bytes: nat)
    requires Valid(c) && key !in c.entries && c.used + bytes <= MAX_CACHE_BYTES
    ensures Valid(Append(c, key, s, bytes))
  {
    OrderAppend(c.order, key);
    SumAppend(c.entries, c.order, key, s.(bytes := bytes));
  }

  lemma OrderAppend(order: seq<Key>, key: Key)
    requires Distinct(order) && key !in order
    ensures Distinct(order + [key]) && forall k :: k in order + [key] <==> k in order || k == key
  {
    assert (order + [key])[..|order|] == order;
  }

  lemma InsertKeeps(c: Cache, key: Key, s: Spot, bytes: nat)
    requires Valid(c)
    ensures Valid(Insert(c, key, s, bytes))
  {
    var d := Insert(c, key, s, bytes);
    if bytes <= MAX_CACHE_BYTES {
      if d == Append(EvictFor(Remove(c, key), bytes), key, s, bytes) {
        RemoveKeeps(c, key);
        EvictKeeps(Remove(c, key), bytes);
        AppendKeeps(EvictFor(Remove(c, key), bytes), key, s, bytes);
      } else if d != c {
        SumAgrees(c.entries, d.entries, c.order);
      }
    }
  }

  datatype Request = Request(key: Key, spot: Spot, bytes: nat)

  function InsertAll(rs: seq<Request>): Cache {
    if rs == [] then Cache(map[], [], 0)
    else
      var r := rs[|rs| - 1];
      Insert(InsertAll(rs[..|rs| - 1]), r.key, r.spot, r.bytes)
  }

  /** Over any sequence of inserts, map, queue and accountant agree and stay within the budget. */
  lemma {:induction false} CacheStaysInStep(rs: seq<Request>)
    ensures Valid(InsertAll(rs))
  {
    if rs != [] {
      CacheStaysInStep(rs[..|rs| - 1]);
      InsertKeeps(InsertAll(rs[..|rs| - 1]), rs[|rs| - 1].key, rs[|rs| - 1].spot, rs[|rs| - 1].bytes);
    }
  }

  // ---- Final beats provisional ----

  ghost predicate HoldsFinal(c: Cache, key: Key, repr: Repr) {
    key in c.entries && c.entries[key].repr == repr && c.entries[key].provisionalUntil.None?
  }

  /**
   A final entry is displaced only by eviction, by a colliding spot under the same key, or by
   another final solve of the same spot; a provisional result for its spot changes nothing.
   */
  lemma FinalIsNeverDemoted(c: Cache, key: Key, repr: Repr, k: Key, s: Spot, bytes: nat)
    requires Valid(c) && HoldsFinal(c, key, repr)
    ensures k == key && s.repr == repr && s.provisionalUntil.Some? ==> Insert(c, k, s, bytes) == c
    ensures var d := Insert(c, k, s, bytes);
            key in d.entries && d.entries[key].repr == repr ==> HoldsFinal(d, key, repr)
    ensures var d := Insert(c, k, s, bytes);
            k != key && key in d.entries ==> d.entries[key] == c.entries[key]
  {
    if k != key && key in Insert(c, k, s, bytes).entries { InsertSparesOthers(c, k, s, bytes, key); }
  }

  /** An insert leaves every other entry as it was, or evicts it. */
  lemma InsertSparesOthers(c: Cache, k: Key, s: Spot, bytes: nat, other: Key)
    requires Valid(c) && other != k && other in Insert(c, k, s, bytes).entries
    ensures other in c.entries && Insert(c, k, s, bytes).entries[other] == c.entries[other]
  {
    if bytes <= MAX_CACHE_BYTES {
      RemoveKeeps(c, k);
      EvictKeeps(Remove(c, k), bytes);
    }
  }

  /** Among provisional results for a spot the better approximation stays, with a fresh cooldown. */
  lemma ProvisionalImproves(c: Cache, key: Key, s: Spot, bytes: nat)
    requires Valid(c) && key in c.entries && c.entries[key].repr == s.repr
    requires c.entries[key].provisionalUntil.Some? && s.provisionalUntil.Some? && bytes <= MAX_CACHE_BYTES
    ensures var d := Insert(c, key, s, bytes);
            && key in d.entries && d.entries[key].repr == s.repr
            && d.entries[key].provisionalUntil == s.provisionalUntil
            && d.entries[key].exploitability ==
                 (if s.exploitability < c.entries[key].exploitability then s.exploitability else c.entries[key].exploitability)
            && (s.exploitability >= c.entries[key].exploitability ==> d.entries[key].body == c.entries[key].body)
  {
  }

  /** The spot has a cached entry that is not simply replaced by a new provisional result. */
  ghost predicate Competes(c: Cache, key: Key, s: Spot) {
    key in c.entries && c.entries[key].repr == s.repr && s.provisionalUntil.Some?
  }

  /**
   A final result, or the first one for its spot, is stored as it is and queued last, unless it is
   larger than the whole budget: then nothing changes.
   */
  lemma InsertStores(c: Cache, key: Key, s: Spot, bytes: nat)
    requires Valid(c) && !Competes(c, key, s)
    ensures var d := Insert(c, key, s, bytes);
            if bytes > MAX_CACHE_BYTES then d == c
            else && key in d.entries && d.entries[key] == s.(bytes := bytes)
                 && d.order != [] && d.order[|d.order| - 1] == key
  {
  }

  /** A result that fits the budget is served right after it was inserted, itself or the better one it met. */
  lemma InsertIsServed(c: Cache, key: Key, s: Spot, bytes: nat, now: Instant)
    requires Valid(c) && bytes <= MAX_CACHE_BYTES && Servable(s, now)
    ensures var hit := Lookup(Insert(c, key, s, bytes), key, s.repr, now);
            && hit.Some? && hit.value.repr == s.repr
            && (s.provisionalUntil.None? ==> hit.value == s.(bytes := bytes))
            && (hit.value.body == s.body || (Competes(c, key, s) && hit.value.body == c.entries[key].body))
  {
    if !Competes(c, key, s) { InsertStores(c, key, s, bytes); }
  }

  /** Eviction takes no more than it must: the oldest entry it took was still in the way. */
  lemma {:induction false} EvictIsMinimal(c: Cache, bytes: nat) returns (n: nat)
    requires Valid(c) && bytes <= MAX_CACHE_BYTES
    ensures n <= |c.order| && EvictFor(c, bytes).order == c.order[n..]
    ensures n > 0 ==> Sum(c.entries, c.order[n - 1..]) + bytes > MAX_CACHE_BYTES
    decreases |c.order|
  {
    if c.used + bytes <= MAX_CACHE_BYTES {
      n := 0;
    } else if c.order != [] {
      EvictOne(c);
      var next := Cache(c.entries - {c.order[0]}, c.order[1..], Monus(c.used, c.entries[c.order[0]].bytes));
      var m := EvictIsMinimal(next, bytes);
      n := m + 1;
      assert c.order[n..] == next.order[m..];
      if m == 0 {
        assert c.order[0..] == c.order;
      } else {
        assert c.order[n - 1..] == next.order[m - 1..];
        SumAgrees(c.entries, next.entries, c.order[n - 1..]);
      }
    } else {
      n := 0;
    }
  }

  /** Bodies stored for a spot were solved for that spot. */
  ghost predicate Solved(c: Cache, solve: Repr -> set<nat>) {
    forall k :: k in c.entries ==> c.entries[k].body in solve(c.entries[k].repr)
  }

  lemma InsertKeepsSolved(c: Cache, key: Key, s: Spot, bytes: nat, solve: Repr -> set<nat>)
    requires Valid(c) && Solved(c, solve) && s.body in solve(s.repr)
    ensures Solved(Insert(c, key, s, bytes), solve)
  {
    if bytes <= MAX_CACHE_BYTES {
      RemoveKeeps(c, key);
      EvictKeeps(Remove(c, key), bytes);
    }
  }

  /** Even when hashes collide, a hit returns a body solved for the requested spot, within its cooldown. */
  lemma {:induction false} HitsAreForTheSpot(rs: seq<Request>, solve: Repr -> set<nat>, key: Key, repr: Repr, now: Instant)
    requires forall i :: 0 <= i < |rs| ==> rs[i].spot.body in solve(rs[i].spot.repr)
    ensures Solved(InsertAll(rs), solve)
    ensures Lookup(InsertAll(rs), key, repr, now).Some? ==>
              var hit := Lookup(InsertAll(rs), key, repr, now).value;
              && hit.repr == repr && hit.body in solve(repr)
              && (hit.provisionalUntil.Some? ==> now < hit.provisionalUntil.value)
  {
    if rs != [] {
      HitsAreForTheSpot(rs[..|rs| - 1], solve, key, repr, now);
      CacheStaysInStep(rs[..|rs| - 1]);
      InsertKeepsSolved(InsertAll(rs[..|rs| - 1]), rs[|rs| - 1].key, rs[|rs| - 1].spot, rs[|rs| - 1].bytes, solve);
    }
  }

  // ---- The cache object ----

  class Store {
    var entries: map<Key, Spot>
    var order: seq<Key>
    var used: nat

    ghost function View(): Cache
      reads this
    {
      Cache(entries, order, used)
    }

    constructor ()
      ensures View() == Cache(map[], [], 0) && Valid(View())
    {
      entries, order, used := map[], [], 0;
    }

    /** Evict oldest first until the new entry fits. */
    method Evict(bytes: nat)
      requires Valid(View()) && bytes <= MAX_CACHE_BYTES
      modifies this
      ensures View() == EvictFor(old(View()), bytes) && Valid(View()) && used + bytes <= MAX_CACHE_BYTES
    {
      EvictKeeps(View(), bytes);
      while used + bytes > MAX_CACHE_BYTES
        invariant EvictFor(View(), bytes) == EvictFor(old(View()), bytes)
        decreases |order|
      {
        if order == [] { break; }
        var victim := order[0];
        order := order[1..];
        if victim in entries {
          used := Monus(used, entries[victim].bytes);
          entries := entries - {victim};
        }
      }
    }

    method CacheInsert(key: Key, spot: Spot, bytes: nat) returns (cost: nat)
      requires Valid(View())
      modifies this
      ensures View() == Insert(old(View()), key, spot, bytes) && Valid(View())
      ensures cost == if bytes <= MAX_CACHE_BYTES && Keeps(old(View()), key, spot) then old(entries)[key].bytes else bytes
    {
      InsertKeeps(View(), key, spot, bytes);
      cost := bytes;
      if bytes > MAX_CACHE_BYTES { return; }
      if key in entries && entries[key].repr == spot.repr {
        var decision := Supersedes(entries[key], spot);
        if decision.KeepExisting? { return entries[key].bytes; }
        if decision.RefreshExisting? {
          entries := entries[key := entries[key].(provisionalUntil := Some(decision.until))];
          return entries[key].bytes;
        }
      }
      ReplaceEntry(key, spot, bytes);
    }

    method Forget(key: Key)
      modifies this
      ensures View() == Remove(old(View()), key)
    {
      if key in entries {
        used := Monus(used, entries[key].bytes);
        order := Without(order, key);
        entries := entries - {key};
      }
    }

    /** Drop any old entry for the key, make room, and queue the new one last. */
    method ReplaceEntry(key: Key, spot: Spot, bytes: nat)
      requires Valid(View()) && bytes <= MAX_CACHE_BYTES
      modifies this
      ensures View() == Append(EvictFor(Remove(old(View()), key), bytes), key, spot, bytes)
    {
      RemoveKeeps(View(), key);
      Forget(key);
      Evict(bytes);
      entries := entries[key := spot.(bytes := bytes)];
      order := order + [key];
      used := used + bytes;
    }
  }
}
