/** Any number of Present and CleanUp calls in any number of webhook processes over one server,
    moving step by step in any order. Every process has a zone-ID cache of its own. Whatever the
    server lists when, every zone ID in use goes back to a list answer, and every call is bounded. */
module Processes {
  import opened Text
  import opened RecordNames
  import opened Retry
  import opened ZoneCache
  import opened Api
  import opened Challenge
  import opened Calls

  /** A worker makes one call after the other, each in some process. */
  datatype Worker = Worker(home: nat, run: Run)

  datatype System = System(workers: seq<Worker>, server: Server, caches: map<nat, Store>)

  /** A worker takes up a new call in a process, or makes the next step of its call. */
  datatype Move =
    | Begin(who: nat, home: nat, job: Job)
    | Step(who: nat, choice: Choice)

  function CacheOf(sys: System, home: nat): Store {
    if home in sys.caches then sys.caches[home] else map[]
  }

  function StateOf(sys: System, i: nat): State
    requires i < |sys.workers|
  {
    State(sys.workers[i].run, sys.server, CacheOf(sys, sys.workers[i].home))
  }

  function MakeMove(s: Settings, sys: System, m: Move): (r: System)
    ensures |r.workers| == |sys.workers|
  {
    if m.who >= |sys.workers| then sys
    else
      match m
      case Begin(i, home, job) => sys.(workers := sys.workers[i := Worker(home, NewRun(job))])
      case Step(i, c) =>
        var worker, st := sys.workers[i], Next(s, StateOf(sys, i), c);
        System(sys.workers[i := worker.(run := st.run)], st.server, sys.caches[worker.home := st.cache])
  }

  function Exec(s: Settings, sys: System, moves: seq<Move>): (r: System)
    ensures |r.workers| == |sys.workers|
  {
    if moves == [] then sys else MakeMove(s, Exec(s, sys, moves[..|moves| - 1]), moves[|moves| - 1])
  }

  /** The run of a worker that has made no call yet. */
  const NO_CALL := Run(Job(false, "", "", "", ""), Done(Some(Unsent)), None, Meter(0, 0, 0))

  /** No worker has made a call; the server and the caches are whatever they are. */
  ghost predicate AtRest(sys: System) {
    forall i :: 0 <= i < |sys.workers| ==> sys.workers[i].run == NO_CALL
  }

  lemma StepInProtocol(s: Settings, st: State, c: Choice)
    requires InProtocol(s, st.run)
    ensures Next(s, st, c).run.job == st.run.job && InProtocol(s, Next(s, st, c).run)
  {
    hide Exchange, QuoteTXT, Delay;
  }

  /** Whatever the server lists, every call stays in protocol. */
  lemma {:induction false} ExecInProtocol(s: Settings, sys0: System, moves: seq<Move>)
    requires AtRest(sys0)
    ensures forall i :: 0 <= i < |sys0.workers| ==> InProtocol(s, Exec(s, sys0, moves).workers[i].run)
  {
    if moves != [] {
      hide Next, InProtocol;
      var n := |moves| - 1;
      ExecInProtocol(s, sys0, moves[..n]);
      var at, m := Exec(s, sys0, moves[..n]), moves[n];
      if m.who < |at.workers| {
        if m.Step? {
          StepInProtocol(s, StateOf(at, m.who), m.choice);
        } else {
          NewInProtocol(s, m.job);
        }
      }
    }
  }

  lemma NewInProtocol(s: Settings, job: Job)
    ensures InProtocol(s, NewRun(job))
  {
  }

  // ---- where zone IDs come from -----------------------------------------------------------

  /** Move t is a step of a call, in this process, that has this cache key. */
  ghost predicate StepFor(s: Settings, sys0: System, moves: seq<Move>, t: nat, home: nat, key: Key) {
    t < |moves| && moves[t].Step? &&
    var at := Exec(s, sys0, moves[..t]);
    moves[t].who < |at.workers| &&
    var worker := at.workers[moves[t].who];
    worker.home == home && CacheKey(worker.run.job) == key
  }

  /** At move t the server answers the list request of a call of this process, secret and apex
      with this list. */
  ghost predicate ShownAt(s: Settings, sys0: System, moves: seq<Move>, t: nat, home: nat, key: Key, zones: seq<Zone>) {
    StepFor(s, sys0, moves, t, home, key) && moves[t].choice.listing == zones &&
    ListsNow(Exec(s, sys0, moves[..t]).workers[moves[t].who].run, moves[t].choice)
  }

  ghost predicate ShownBefore(s: Settings, sys0: System, moves: seq<Move>, t: nat, home: nat, key: Key,
                              zones: seq<Zone>) {
    exists u: nat :: u < t && ShownAt(s, sys0, moves, u, home, key, zones)
  }

  /** At move t a call of this process, secret and apex takes up a list answer, shown to it or
      to its like before, in which the apex has this ID. */
  ghost predicate AnswerAt(s: Settings, sys0: System, moves: seq<Move>, t: nat, home: nat, key: Key, id: int) {
    StepFor(s, sys0, moves, t, home, key) &&
    var run := Exec(s, sys0, moves[..t]).workers[moves[t].who].run;
    HoldsList(run) && FindZone(run.pc.outcome.zones, key.zone) == Some(id) &&
    ShownBefore(s, sys0, moves, t, home, key, run.pc.outcome.zones)
  }

  /** Move t stores or invalidates the entry of this key in the cache of this process. */
  ghost predicate ChangesEntry(s: Settings, sys0: System, moves: seq<Move>, t: nat, home: nat, key: Key) {
    StepFor(s, sys0, moves, t, home, key) &&
    Changes(EventOf(Exec(s, sys0, moves[..t]).workers[moves[t].who].run, moves[t].choice), key)
  }

  ghost predicate Unchanged(s: Settings, sys0: System, moves: seq<Move>, from: nat, home: nat, key: Key) {
    forall t: nat :: from <= t < |moves| ==> !ChangesEntry(s, sys0, moves, t, home, key)
  }

  /** The entry was stored at move t, on a list answer, and has not changed since. */
  ghost predicate StoredAt(s: Settings, sys0: System, moves: seq<Move>, t: nat, home: nat, key: Key, e: Entry) {
    && AnswerAt(s, sys0, moves, t, home, key, e.id)
    && e.expiresAt == moves[t].choice.now + s.cacheTtl
    && Unchanged(s, sys0, moves, t + 1, home, key)
  }

  /** The entry was there at the start and has not changed since. */
  ghost predicate Inherited(s: Settings, sys0: System, moves: seq<Move>, home: nat, key: Key, e: Entry) {
    && key in CacheOf(sys0, home) && CacheOf(sys0, home)[key] == e
    && Unchanged(s, sys0, moves, 0, home, key)
  }

  ghost predicate Backed(s: Settings, sys0: System, moves: seq<Move>, home: nat, key: Key, e: Entry) {
    || Inherited(s, sys0, moves, home, key, e)
    || exists t: nat :: StoredAt(s, sys0, moves, t, home, key, e)
  }

  /** A fact about an earlier move stays when moves are added. */
  lemma EarlierMove(s: Settings, sys0: System, moves: seq<Move>, t: nat, home: nat, key: Key)
    requires t < |moves| - 1
    ensures var front := moves[..|moves| - 1];
            && front[t] == moves[t] && front[..t] == moves[..t]
            && (StepFor(s, sys0, front, t, home, key) <==> StepFor(s, sys0, moves, t, home, key))
            && (ChangesEntry(s, sys0, front, t, home, key) <==> ChangesEntry(s, sys0, moves, t, home, key))
  {
    hide Exec, EventOf;
    assert moves[..|moves| - 1][..t] == moves[..t];
  }

  lemma ShownStays(s: Settings, sys0: System, moves: seq<Move>, t: nat, home: nat, key: Key, zones: seq<Zone>)
    requires t <= |moves| - 1 && ShownBefore(s, sys0, moves[..|moves| - 1], t, home, key, zones)
    ensures ShownBefore(s, sys0, moves, t, home, key, zones)
  {
    hide Exec;
    var u: nat :| u < t && ShownAt(s, sys0, moves[..|moves| - 1], u, home, key, zones);
    EarlierMove(s, sys0, moves, u, home, key);
    assert ShownAt(s, sys0, moves, u, home, key, zones);
  }

  /** A list answer in the hands of a call was shown at an earlier move of a call like it. */
  lemma {:induction false} HeldListWasShown(s: Settings, sys0: System, moves: seq<Move>, i: nat)
    requires AtRest(sys0) && i < |sys0.workers|
    ensures var worker := Exec(s, sys0, moves).workers[i];
            HoldsList(worker.run) ==>
              ShownBefore(s, sys0, moves, |moves|, worker.home, CacheKey(worker.run.job), worker.run.pc.outcome.zones)
  {
    if moves != [] {
      hide Next, ShownBefore, StepFor;
      var n := |moves| - 1;
      HeldListWasShown(s, sys0, moves[..n], i);
      var at, m, end := Exec(s, sys0, moves[..n]), moves[n], Exec(s, sys0, moves).workers[i];
      if m.who == i && m.Step? {
        ListComesFrom(s, StateOf(at, i), m.choice);
        if HoldsList(end.run) {
          ShownNow(s, sys0, moves, end.home, CacheKey(end.run.job));
        }
      } else if HoldsList(end.run) {
        ShownStays(s, sys0, moves, n, end.home, CacheKey(end.run.job), end.run.pc.outcome.zones);
        ShownLater(s, sys0, moves, n, end.home, CacheKey(end.run.job), end.run.pc.outcome.zones);
      }
    }
  }

  lemma ListComesFrom(s: Settings, st: State, c: Choice)
    ensures var run := Next(s, st, c).run;
            run.job == st.run.job && (HoldsList(run) ==> ListsNow(st.run, c) && run.pc.outcome.zones == c.listing)
  {
    hide ParseRetryAfter, Delay, QuoteTXT;
  }

  lemma ShownNow(s: Settings, sys0: System, moves: seq<Move>, home: nat, key: Key)
    requires moves != [] && StepFor(s, sys0, moves, |moves| - 1, home, key)
    requires var n := |moves| - 1;
             ListsNow(Exec(s, sys0, moves[..n]).workers[moves[n].who].run, moves[n].choice)
    ensures ShownBefore(s, sys0, moves, |moves|, home, key, moves[|moves| - 1].choice.listing)
  {
    hide Exec;
    assert ShownAt(s, sys0, moves, |moves| - 1, home, key, moves[|moves| - 1].choice.listing);
  }

  lemma ShownLater(s: Settings, sys0: System, moves: seq<Move>, t: nat, home: nat, key: Key, zones: seq<Zone>)
    requires ShownBefore(s, sys0, moves, t, home, key, zones)
    ensures ShownBefore(s, sys0, moves, t + 1, home, key, zones)
  {
    hide ShownAt;
  }

  lemma AnswerStays(s: Settings, sys0: System, moves: seq<Move>, t: nat, home: nat, key: Key, id: int)
    requires t < |moves| - 1 && AnswerAt(s, sys0, moves[..|moves| - 1], t, home, key, id)
    ensures AnswerAt(s, sys0, moves, t, home, key, id)
  {
    hide Exec, ShownBefore;
    EarlierMove(s, sys0, moves, t, home, key);
    ShownStays(s, sys0, moves, t, home, key, Exec(s, sys0, moves[..t]).workers[moves[t].who].run.pc.outcome.zones);
  }

  lemma UnchangedStays(s: Settings, sys0: System, moves: seq<Move>, from: nat, home: nat, key: Key)
    requires moves != [] && Unchanged(s, sys0, moves[..|moves| - 1], from, home, key)
    requires !ChangesEntry(s, sys0, moves, |moves| - 1, home, key)
    ensures Unchanged(s, sys0, moves, from, home, key)
  {
    hide ChangesEntry, StepFor;
    forall t: nat | from <= t < |moves| ensures !ChangesEntry(s, sys0, moves, t, home, key) {
      if t < |moves| - 1 {
        EarlierMove(s, sys0, moves, t, home, key);
      }
    }
  }

  lemma BackedStays(s: Settings, sys0: System, moves: seq<Move>, home: nat, key: Key, e: Entry)
    requires moves != [] && Backed(s, sys0, moves[..|moves| - 1], home, key, e)
    requires !ChangesEntry(s, sys0, moves, |moves| - 1, home, key)
    ensures Backed(s, sys0, moves, home, key, e)
  {
    hide Exec, AnswerAt, Unchanged, ChangesEntry;
    var front := moves[..|moves| - 1];
    if Inherited(s, sys0, front, home, key, e) {
      UnchangedStays(s, sys0, moves, 0, home, key);
    } else {
      var t: nat :| StoredAt(s, sys0, front, t, home, key, e);
      assert t < |front| by {
        AnswerIsEarlier(s, sys0, front, t, home, key, e.id);
      }
      AnswerStays(s, sys0, moves, t, home, key, e.id);
      UnchangedStays(s, sys0, moves, t + 1, home, key);
      assert StoredAt(s, sys0, moves, t, home, key, e);
    }
  }

  lemma AnswerIsEarlier(s: Settings, sys0: System, moves: seq<Move>, t: nat, home: nat, key: Key, id: int)
    requires AnswerAt(s, sys0, moves, t, home, key, id)
    ensures t < |moves|
  {
  }

  lemma NextCache(s: Settings, st: State, c: Choice)
    ensures Next(s, st, c).cache == Apply(s.cacheTtl, st.cache, EventOf(st.run, c))
  {
    hide Exchange, QuoteTXT, Delay;
  }

  lemma EventIsOwn(run: Run, c: Choice, key: Key)
    requires Changes(EventOf(run, c), key)
    ensures CacheKey(run.job) == key
    ensures EventOf(run, c).Put? ==>
              HoldsList(run) && EventOf(run, c).now == c.now &&
              FindZone(run.pc.outcome.zones, key.zone) == Some(EventOf(run, c).id)
  {
  }

  /** Every cache entry of every process is one the cache had at the start, or was stored on a
      list answer; and it has not changed since. */
  lemma {:induction false} EveryEntryIsBacked(s: Settings, sys0: System, moves: seq<Move>, home: nat, key: Key)
    requires AtRest(sys0)
    ensures var cache := CacheOf(Exec(s, sys0, moves), home);
            key in cache ==> Backed(s, sys0, moves, home, key, cache[key])
  {
    if moves != [] {
      hide Next, EventOf, Backed, ChangesEntry;
      var n := |moves| - 1;
      EveryEntryIsBacked(s, sys0, moves[..n], home, key);
      var at, m, cache := Exec(s, sys0, moves[..n]), moves[n], CacheOf(Exec(s, sys0, moves), home);
      if ChangesEntry(s, sys0, moves, n, home, key) {
        if key in cache {
          StoredNow(s, sys0, moves, home, key);
        }
      } else {
        EntryStays(s, sys0, moves, home, key);
        if key in cache {
          BackedStays(s, sys0, moves, home, key, cache[key]);
        }
      }
    }
  }

  /** What a move leaves in each cache. */
  lemma CacheAfter(s: Settings, sys: System, m: Move, home: nat)
    ensures CacheOf(MakeMove(s, sys, m), home) ==
            if m.Step? && m.who < |sys.workers| && sys.workers[m.who].home == home
            then Apply(s.cacheTtl, CacheOf(sys, home), EventOf(sys.workers[m.who].run, m.choice))
            else CacheOf(sys, home)
  {
    hide Next, EventOf, Apply;
    if m.Step? && m.who < |sys.workers| {
      NextCache(s, StateOf(sys, m.who), m.choice);
    }
  }

  lemma EntryStays(s: Settings, sys0: System, moves: seq<Move>, home: nat, key: Key)
    requires moves != [] && !ChangesEntry(s, sys0, moves, |moves| - 1, home, key)
    ensures var before := CacheOf(Exec(s, sys0, moves[..|moves| - 1]), home);
            var cache := CacheOf(Exec(s, sys0, moves), home);
            key in cache ==> key in before && before[key] == cache[key]
  {
    hide MakeMove, EventOf, CacheOf;
    var n := |moves| - 1;
    var at, m := Exec(s, sys0, moves[..n]), moves[n];
    CacheAfter(s, at, m, home);
    hide Exec;
    if m.Step? && m.who < |at.workers| && Changes(EventOf(at.workers[m.who].run, m.choice), key) {
      EventIsOwn(at.workers[m.who].run, m.choice, key);
    }
  }

  lemma StoredNow(s: Settings, sys0: System, moves: seq<Move>, home: nat, key: Key)
    requires AtRest(sys0) && moves != [] && ChangesEntry(s, sys0, moves, |moves| - 1, home, key)
    requires key in CacheOf(Exec(s, sys0, moves), home)
    ensures Backed(s, sys0, moves, home, key, CacheOf(Exec(s, sys0, moves), home)[key])
  {
    hide MakeMove, EventOf, CacheOf, ShownBefore;
    var n := |moves| - 1;
    var at, m, end := Exec(s, sys0, moves[..n]), moves[n], Exec(s, sys0, moves);
    CacheAfter(s, at, m, home);
    hide Exec;
    var run := at.workers[m.who].run;
    EventIsOwn(run, m.choice, key);
    HeldListWasShown(s, sys0, moves[..n], m.who);
    ShownStays(s, sys0, moves, n, home, key, run.pc.outcome.zones);
    assert StoredAt(s, sys0, moves, n, home, key, CacheOf(end, home)[key]);
  }

  /** A list answer taken up at move t gave this ID, at most a ttl before `now`, and the entry has
      not changed since. */
  ghost predicate FreshAnswer(s: Settings, sys0: System, moves: seq<Move>, t: nat, home: nat, key: Key, id: int,
                              now: int) {
    && AnswerAt(s, sys0, moves, t, home, key, id) && now - moves[t].choice.now <= s.cacheTtl
    && Unchanged(s, sys0, moves, t + 1, home, key)
  }

  /** The ID has a fresh list answer behind it, or is that of an unexpired entry that the cache
      has had from the start. */
  ghost predicate HasAnswer(s: Settings, sys0: System, moves: seq<Move>, home: nat, key: Key, id: int, now: int) {
    || (exists t: nat :: FreshAnswer(s, sys0, moves, t, home, key, id, now))
    || (exists expires: int :: now <= expires && Inherited(s, sys0, moves, home, key, Entry(id, expires)))
  }

  /** Whatever the server lists when, and on whatever clocks: a cache hit repeats the ID of a
      list answer shown to a call of the same process, secret and apex, stored at most ttl ago
      with no later change of that entry. */
  lemma HitHasFreshAnswer(s: Settings, sys0: System, moves: seq<Move>, home: nat, key: Key, now: int, id: int)
    requires AtRest(sys0) && Answer(CacheOf(Exec(s, sys0, moves), home), key, now) == Some(id)
    ensures HasAnswer(s, sys0, moves, home, key, id, now)
  {
    hide Exec, AnswerAt, Inherited, Unchanged;
    EveryEntryIsBacked(s, sys0, moves, home, key);
    var e := CacheOf(Exec(s, sys0, moves), home)[key];
    if t: nat :| StoredAt(s, sys0, moves, t, home, key, e) {
      assert FreshAnswer(s, sys0, moves, t, home, key, id, now);
    } else {
      assert Inherited(s, sys0, moves, home, key, Entry(id, e.expiresAt));
    }
  }

  lemma ZoneComesFrom(s: Settings, st: State, c: Choice)
    requires st.run.zone.None? && Next(s, st, c).run.zone.Some? && InProtocol(s, st.run)
    ensures || (st.run.pc.Start? && Answer(st.cache, CacheKey(st.run.job), c.now) == Next(s, st, c).run.zone)
            || (HoldsList(st.run) && FindZone(st.run.pc.outcome.zones, st.run.job.apex) == Next(s, st, c).run.zone)
  {
    hide Exchange, Delay;
  }

  /** Every zone ID that comes into use, at the last move of any schedule, is that of the call's
      own list answer, or one with such an answer behind it in the cache of its process. */
  lemma {:induction false} EveryIdHasAnAnswer(s: Settings, sys0: System, moves: seq<Move>, id: int)
    requires AtRest(sys0) && moves != [] && moves[|moves| - 1].Step? && moves[|moves| - 1].who < |sys0.workers|
    requires Exec(s, sys0, moves[..|moves| - 1]).workers[moves[|moves| - 1].who].run.zone == None
    requires Exec(s, sys0, moves).workers[moves[|moves| - 1].who].run.zone == Some(id)
    ensures var n := |moves| - 1;
            var worker, c := Exec(s, sys0, moves).workers[moves[n].who], moves[n].choice;
            var home, key := worker.home, CacheKey(worker.run.job);
            AnswerAt(s, sys0, moves, n, home, key, id) || HasAnswer(s, sys0, moves[..n], home, key, id, c.now)
  {
    hide Next, InProtocol, ShownBefore, HasAnswer;
    var n := |moves| - 1;
    var at, m := Exec(s, sys0, moves[..n]), moves[n];
    ExecInProtocol(s, sys0, moves[..n]);
    var worker := at.workers[m.who];
    var key := CacheKey(worker.run.job);
    StepInProtocol(s, StateOf(at, m.who), m.choice);
    ZoneComesFrom(s, StateOf(at, m.who), m.choice);
    if worker.run.pc.Start? {
      HitHasFreshAnswer(s, sys0, moves[..n], worker.home, key, m.choice.now, id);
    } else {
      HeldListWasShown(s, sys0, moves[..n], m.who);
      ShownStays(s, sys0, moves, n, worker.home, key, worker.run.pc.outcome.zones);
    }
  }

  // ---- what a call costs among others -----------------------------------------------------

  lemma {:induction false} ExecCost(s: Settings, sys0: System, moves: seq<Move>, i: nat)
    requires AtRest(sys0) && i < |sys0.workers|
    ensures CostInv(s, Exec(s, sys0, moves).workers[i].run)
  {
    if moves != [] {
      hide Next, InProtocol, CostInv;
      var n := |moves| - 1;
      ExecCost(s, sys0, moves[..n], i);
      ExecInProtocol(s, sys0, moves[..n]);
      if moves[n].who == i && moves[n].Step? {
        StepCost(s, StateOf(Exec(s, sys0, moves[..n]), i), moves[n].choice);
      } else if moves[n].who == i {
        NewCostsNothing(s, moves[n].job);
      }
    }
  }

  lemma NewCostsNothing(s: Settings, job: Job)
    ensures CostInv(s, NewRun(job))
  {
  }

  /** The bounds on requests and sleeps of a call hold in every interleaving. */
  lemma InterleavedCost(s: Settings, sys0: System, moves: seq<Move>, i: nat)
    requires AtRest(sys0) && i < |sys0.workers|
    ensures var run := Exec(s, sys0, moves).workers[i].run;
            Affordable(s.retry, run.meter, if run.job.present then 3 else 2)
  {
    hide Exec, CostInv, Affordable;
    ExecCost(s, sys0, moves, i);
    ExecInProtocol(s, sys0, moves);
    InvIsBound(s, Exec(s, sys0, moves).workers[i].run);
  }

  /** How many steps worker i has made since its call began. */
  function StepsOf(moves: seq<Move>, i: nat): nat {
    if moves == [] then 0
    else
      var n := |moves| - 1;
      if moves[n].who != i then StepsOf(moves[..n], i)
      else if moves[n].Begin? then 0
      else StepsOf(moves[..n], i) + 1
  }

  lemma {:induction false} ExecSteps(s: Settings, sys0: System, moves: seq<Move>, i: nat)
    requires AtRest(sys0) && i < |sys0.workers|
    ensures var run := Exec(s, sys0, moves).workers[i].run;
            AttemptInRange(s, run) && 0 <= StepsLeft(s, run) &&
            (run.pc.Done? || StepsLeft(s, run) <= 3 * (s.retry.maxRetries + 2) + 1 - StepsOf(moves, i))
  {
    hide Next, InProtocol;
    if moves != [] {
      var n := |moves| - 1;
      ExecSteps(s, sys0, moves[..n], i);
      if moves[n].who == i && moves[n].Step? {
        ExecInProtocol(s, sys0, moves[..n]);
        ExecInProtocol(s, sys0, moves);
        var st := StateOf(Exec(s, sys0, moves[..n]), i);
        StepsRunOut(s, st, moves[n].choice);
        StepsRunOut(s, StateOf(Exec(s, sys0, moves), i), moves[n].choice);
        if st.run.pc.Done? {
          DoneStaysDone(s, st, moves[n].choice);
        }
      }
    }
  }

  /** In every interleaving a call that has made 3 * maxRetries + 7 steps is finished. */
  lemma InterleavedFinish(s: Settings, sys0: System, moves: seq<Move>, i: nat)
    requires AtRest(sys0) && i < |sys0.workers| && StepsOf(moves, i) > 3 * s.retry.maxRetries + 6
    ensures Exec(s, sys0, moves).workers[i].run.pc.Done?
  {
    hide Exec, Next, StepsOf;
    ExecSteps(s, sys0, moves, i);
    NotDoneHasStep(s, Exec(s, sys0, moves).workers[i].run);
  }
}
