/** The zone-ID cache (internal/solver/zonecache.go): a map with expiry, and the history of
    operations it must agree with. Instants and durations are nanosecond counts. */
module ZoneCache {
  import opened Text

  const DEFAULT_TTL: int := 30_000_000_000

  datatype Key = Key(secretRef: string, zone: string)

  datatype Entry = Entry(id: int, expiresAt: int)

  type Store = map<Key, Entry>

  /** One operation on the cache with its clock reading; Idle is a step of the program that
      leaves the cache alone. */
  datatype Event =
    | Lookup(key: Key, now: int)
    | Put(key: Key, id: int, now: int)
    | Invalidate(key: Key, now: int)
    | Idle(now: int)

  /** What Lookup answers. */
  function Answer(store: Store, key: Key, now: int): Option<int> {
    if key !in store then None
    else if now > store[key].expiresAt then None
    else Some(store[key].id)
  }

  /** What an operation leaves in the map; a lookup drops an expired entry. */
  function Apply(ttl: int, store: Store, e: Event): Store {
    match e
    case Lookup(key, now) => if key in store && now > store[key].expiresAt then store - {key} else store
    case Put(key, id, now) => store[key := Entry(id, now + ttl)]
    case Invalidate(key, _) => store - {key}
    case Idle(_) => store
  }

  function Replay(ttl: int, log: seq<Event>): Store {
    if log == [] then map[] else Apply(ttl, Replay(ttl, log[..|log| - 1]), log[|log| - 1])
  }

  // ---- the history a lookup must agree with -----------------------------------------------

  predicate Changes(e: Event, key: Key) {
    (e.Put? || e.Invalidate?) && e.key == key
  }

  /** The latest change of the key decides: a Put of age at most ttl answers its ID. */
  function History(ttl: int, log: seq<Event>, key: Key, now: int): Option<int> {
    if log == [] then None
    else
      var e := log[|log| - 1];
      if !Changes(e, key) then History(ttl, log[..|log| - 1], key, now)
      else if e.Put? && now <= e.now + ttl then Some(e.id)
      else None
  }

  ghost predicate LatestPut(log: seq<Event>, s: nat, key: Key, id: int) {
    s < |log| && log[s].Put? && log[s].key == key && log[s].id == id &&
    forall k :: s < k < |log| ==> !Changes(log[k], key)
  }

  /** A lookup hits exactly when the latest change of its key is a Put of age at most ttl. */
  lemma {:induction false} HistoryMeaning(ttl: int, log: seq<Event>, key: Key, now: int, id: int)
    ensures History(ttl, log, key, now) == Some(id) <==>
            exists s: nat :: LatestPut(log, s, key, id) && now - log[s].now <= ttl
  {
    if log != [] {
      var n := |log| - 1;
      var front := log[..n];
      HistoryMeaning(ttl, front, key, now, id);
      if !Changes(log[n], key) {
        if s: nat :| LatestPut(log, s, key, id) && now - log[s].now <= ttl {
          assert LatestPut(front, s, key, id) && front[s] == log[s];
        }
        if s: nat :| LatestPut(front, s, key, id) && now - front[s].now <= ttl {
          assert LatestPut(log, s, key, id) && front[s] == log[s];
        }
      } else if History(ttl, log, key, now) == Some(id) {
        assert LatestPut(log, n, key, id);
      }
    }
  }

  predicate Monotone(log: seq<Event>) {
    forall i, k :: 0 <= i <= k < |log| ==> log[i].now <= log[k].now
  }

  predicate NotBefore(log: seq<Event>, now: int) {
    log != [] ==> log[|log| - 1].now <= now
  }

  /** The latest change of the key is the Put at s. */
  ghost predicate Latest(log: seq<Event>, s: nat, key: Key) {
    s < |log| && log[s].Put? && log[s].key == key && forall k :: s < k < |log| ==> !Changes(log[k], key)
  }

  /** A lookup of the key at t reads a clock past the expiry of the entry stored at s. */
  predicate LateLookup(ttl: int, log: seq<Event>, s: nat, t: nat, key: Key) {
    s < t < |log| && log[t].Lookup? && log[t].key == key && log[t].now > log[s].now + ttl
  }

  lemma {:induction false} LatestAnswers(ttl: int, log: seq<Event>, s: nat, key: Key, now: int)
    requires Latest(log, s, key)
    ensures key in Replay(ttl, log) <==> forall t: nat :: !LateLookup(ttl, log, s, t, key)
    ensures key in Replay(ttl, log) ==> Replay(ttl, log)[key] == Entry(log[s].id, log[s].now + ttl)
    ensures History(ttl, log, key, now) == if now <= log[s].now + ttl then Some(log[s].id) else None
  {
    var n := |log| - 1;
    if s < n {
      var front := log[..n];
      LatestAnswers(ttl, front, s, key, now);
      assert forall t: nat | t < n :: LateLookup(ttl, front, s, t, key) <==> LateLookup(ttl, log, s, t, key);
      assert LateLookup(ttl, log, s, n, key) <==> log[n].Lookup? && log[n].key == key && log[n].now > log[s].now + ttl;
    }
  }

  lemma {:induction false} NoLatestMisses(ttl: int, log: seq<Event>, key: Key, now: int)
    requires forall s: nat :: !Latest(log, s, key)
    ensures key !in Replay(ttl, log) && History(ttl, log, key, now) == None
  {
    if log != [] {
      var n := |log| - 1;
      assert !Latest(log, n, key);
      if !Changes(log[n], key) {
        forall s: nat ensures !Latest(log[..n], s, key) {
          assert !Latest(log, s, key);
        }
        NoLatestMisses(ttl, log[..n], key, now);
      }
    }
  }

  /** A late lookup dropped the entry that a reading of `now` would still find valid. */
  ghost predicate DroppedEarly(ttl: int, log: seq<Event>, key: Key, now: int) {
    exists s: nat, t: nat :: Latest(log, s, key) && LateLookup(ttl, log, s, t, key) && now <= log[s].now + ttl
  }

  /** On any clock, the map answers what the history answers exactly when no lookup since the
      latest Put has read a clock past the expiry while `now` is not past it. */
  lemma CacheRefinesExactly(ttl: int, log: seq<Event>, key: Key, now: int)
    ensures Answer(Replay(ttl, log), key, now) == History(ttl, log, key, now) <==> !DroppedEarly(ttl, log, key, now)
  {
    hide Replay, History;
    if s: nat :| Latest(log, s, key) {
      LatestAnswers(ttl, log, s, key, now);
      forall r: nat | Latest(log, r, key) ensures r == s {
        assert r < s ==> !Changes(log[s], key);
        assert s < r ==> !Changes(log[r], key);
      }
    } else {
      NoLatestMisses(ttl, log, key, now);
    }
  }

  /** Over every sequence of operations on a monotone clock, the map answers what the history
      answers; dropping expired entries is unobservable. */
  lemma CacheRefinesHistory(ttl: int, log: seq<Event>, key: Key, now: int)
    requires Monotone(log) && NotBefore(log, now)
    ensures Answer(Replay(ttl, log), key, now) == History(ttl, log, key, now)
  {
    hide Replay, History;
    CacheRefinesExactly(ttl, log, key, now);
  }

  /** On a clock that runs backwards the map can miss where the history hits. */
  lemma ClockMustBeMonotone(key: Key)
    ensures var log := [Put(key, 7, 0), Lookup(key, 2)];
            Answer(Replay(1, log), key, 1) == None && History(1, log, key, 1) == Some(7)
  {
    var put := Put(key, 7, 0);
    var log := [put, Lookup(key, 2)];
    assert log[..1] == [put] && [put][..0] == [];
    assert Replay(1, [put]) == map[key := Entry(7, 1)];
    assert Replay(1, log) == Apply(1, Replay(1, [put]), Lookup(key, 2));
    assert History(1, [put], key, 1) == Some(7);
  }

  // ---- the cache object -------------------------------------------------------------------

  class Cache {
    const ttl: int
    var store: Store
    ghost var log: seq<Event>

    ghost predicate Valid()
      reads this
    {
      ttl > 0 && Monotone(log) && store == Replay(ttl, log)
    }

    constructor (ttl: int)
      ensures Valid() && log == [] && store == map[]
      ensures this.ttl == if ttl > 0 then ttl else 30_000_000_000
    {
      this.ttl := if ttl <= 0 then DEFAULT_TTL else ttl;
      store, log := map[], [];
    }

    method Lookup(secretRef: string, zone: string, now: int) returns (r: Option<int>)
      requires Valid() && NotBefore(log, now)
      modifies this
      ensures Valid() && log == old(log) + [Event.Lookup(Key(secretRef, zone), now)]
      ensures store == Apply(ttl, old(store), Event.Lookup(Key(secretRef, zone), now))
      ensures r == Answer(old(store), Key(secretRef, zone), now)
      ensures r == History(ttl, old(log), Key(secretRef, zone), now)
    {
      var key := Key(secretRef, zone);
      CacheRefinesHistory(ttl, log, key, now);
      Append(Event.Lookup(key, now));
      if key !in store {
        return None;
      }
      var entry := store[key];
      if now > entry.expiresAt {
        store := store - {key};
        return None;
      }
      return Some(entry.id);
    }

    method Store(secretRef: string, zone: string, id: int, now: int)
      requires Valid() && NotBefore(log, now)
      modifies this
      ensures Valid() && log == old(log) + [Put(Key(secretRef, zone), id, now)]
      ensures store == Apply(ttl, old(store), Put(Key(secretRef, zone), id, now))
    {
      var key := Key(secretRef, zone);
      Append(Put(key, id, now));
      store := store[key := Entry(id, now + ttl)];
    }

    method Invalidate(secretRef: string, zone: string, ghost now: int)
      requires Valid() && NotBefore(log, now)
      modifies this
      ensures Valid() && log == old(log) + [Event.Invalidate(Key(secretRef, zone), now)]
      ensures store == Apply(ttl, old(store), Event.Invalidate(Key(secretRef, zone), now))
    {
      var key := Key(secretRef, zone);
      Append(Event.Invalidate(key, now));
      store := store - {key};
    }

    /** Records an operation. */
    ghost method Append(e: Event)
      requires Valid() && NotBefore(log, e.now)
      modifies this`log
      ensures log == old(log) + [e] && Monotone(log)
      ensures Replay(ttl, log) == Apply(ttl, store, e)
    {
      log := log + [e];
      assert log[..|log| - 1] == old(log);
    }
  }
}
