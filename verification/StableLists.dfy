/** While the zone list behind a secret does not change, the cache is transparent, and calls can
    be repeated at will. */
module StableLists {
  import opened Text
  import opened RecordNames
  import opened Retry
  import opened ZoneCache
  import opened Api
  import opened Challenge
  import opened Calls
  import opened Processes
  import opened Interleaving

  /** The zone list behind each secret reference, as one process reads it. */
  type Listings = string -> seq<Zone>

  function Uncached(L: Listings, job: Job): Option<int> {
    FindZone(L(job.secretRef), job.apex)
  }

  /** The record a job is about, if its project has the zone. */
  function Target(L: Listings, job: Job): Option<RecordKey> {
    match Uncached(L, job)
    case None => None
    case Some(id) => Some(TargetKey(job, id))
  }

  /** Every cached ID is the one the uncached lookup finds. */
  ghost predicate CacheSound(L: Listings, cache: Store) {
    forall key :: key in cache ==> FindZone(L(key.secretRef), key.zone) == Some(cache[key].id)
  }

  /** A run knows about zones only what the list says. */
  ghost predicate RunSound(L: Listings, run: Run) {
    && (run.zone.Some? ==> run.zone == Uncached(L, run.job))
    && (run.zone.None? && run.pc == Done(None) ==> Uncached(L, run.job).None?)
    && (run.pc.Returned? && run.pc.req.ListZones? ==>
          match run.pc.outcome
          case Success(zones) => zones == L(run.job.secretRef)
          case Failure(e) => !Is(e, NotFound))
  }

  lemma AttemptSound(s: Settings, L: Listings, run: Run, server: Server, c: Choice)
    requires run.pc.Calling? && RunSound(L, run) && c.listing == L(run.job.secretRef)
    ensures RunSound(L, Attempted(s, run, server, c).0)
  {
    hide Delay, ParseRetryAfter;
  }

  lemma StepSound(s: Settings, L: Listings, st: State, c: Choice)
    requires InProtocol(s, st.run) && RunSound(L, st.run) && CacheSound(L, st.cache)
    requires c.listing == L(st.run.job.secretRef)
    ensures RunSound(L, Next(s, st, c).run) && CacheSound(L, Next(s, st, c).cache)
  {
    hide Attempted, QuoteTXT;
    if st.run.pc.Calling? {
      AttemptSound(s, L, st.run, st.server, c);
    }
  }

  // ---- cache transparency -----------------------------------------------------------------

  /** No step is shown a list other than that of its process and secret. */
  ghost predicate Stable(s: Settings, L: nat -> Listings, sys0: System, moves: seq<Move>) {
    forall t :: 0 <= t < |moves| && moves[t].Step? && moves[t].who < |sys0.workers| ==>
      var worker := Exec(s, sys0, moves[..t]).workers[moves[t].who];
      moves[t].choice.listing == L(worker.home)(worker.run.job.secretRef)
  }

  ghost predicate SystemSound(s: Settings, L: nat -> Listings, sys: System) {
    && (forall i :: 0 <= i < |sys.workers| ==>
          InProtocol(s, sys.workers[i].run) && RunSound(L(sys.workers[i].home), sys.workers[i].run))
    && (forall home: nat :: CacheSound(L(home), CacheOf(sys, home)))
  }

  lemma NewSound(s: Settings, L: Listings, job: Job)
    ensures InProtocol(s, NewRun(job)) && RunSound(L, NewRun(job))
  {
  }

  lemma MoveSound(s: Settings, L: nat -> Listings, sys: System, m: Move)
    requires SystemSound(s, L, sys)
    requires m.Step? && m.who < |sys.workers| ==>
               var worker := sys.workers[m.who]; m.choice.listing == L(worker.home)(worker.run.job.secretRef)
    ensures SystemSound(s, L, MakeMove(s, sys, m))
  {
    if m.who < |sys.workers| {
      hide Next, InProtocol, RunSound, CacheSound;
      if m.Step? {
        StepSound(s, L(sys.workers[m.who].home), StateOf(sys, m.who), m.choice);
        StepInProtocol(s, StateOf(sys, m.who), m.choice);
      } else {
        NewSound(s, L(m.home), m.job);
      }
      var end := MakeMove(s, sys, m);
      forall home: nat ensures CacheSound(L(home), CacheOf(end, home)) {
        assert CacheSound(L(home), CacheOf(sys, home));
      }
    }
  }

  lemma {:induction false} ExecSound(s: Settings, L: nat -> Listings, sys0: System, moves: seq<Move>)
    requires AtRest(sys0) && Stable(s, L, sys0, moves)
    requires forall home: nat :: CacheSound(L(home), CacheOf(sys0, home))
    ensures SystemSound(s, L, Exec(s, sys0, moves))
  {
    if moves != [] {
      hide MakeMove, SystemSound, CacheSound;
      var n := |moves| - 1;
      StablePrefix(s, L, sys0, moves, n);
      ExecSound(s, L, sys0, moves[..n]);
      MoveSound(s, L, Exec(s, sys0, moves[..n]), moves[n]);
    }
  }

  lemma StablePrefix(s: Settings, L: nat -> Listings, sys0: System, moves: seq<Move>, n: nat)
    requires n <= |moves| && Stable(s, L, sys0, moves)
    ensures Stable(s, L, sys0, moves[..n])
  {
    hide Exec;
    forall t | 0 <= t < n ensures moves[..n][..t] == moves[..t] {
    }
  }

  /** Cache transparency: whatever calls are made and however they interleave, every cache hit in
      every process is what the uncached lookup finds, the zone a call uses is too, and a CleanUp
      that found no zone is right about it. */
  lemma CacheIsTransparent(s: Settings, L: nat -> Listings, sys0: System, moves: seq<Move>,
                           home: nat, key: Key, now: int, i: nat)
    requires AtRest(sys0) && Stable(s, L, sys0, moves) && i < |sys0.workers|
    requires forall h: nat :: CacheSound(L(h), CacheOf(sys0, h))
    ensures var end := Exec(s, sys0, moves);
            var hit, worker := Answer(CacheOf(end, home), key, now), end.workers[i];
            && (hit.Some? ==> hit == FindZone(L(home)(key.secretRef), key.zone))
            && (worker.run.zone.Some? ==> worker.run.zone == Uncached(L(worker.home), worker.run.job))
            && (worker.run.zone.None? && worker.run.pc == Done(None) ==> Uncached(L(worker.home), worker.run.job).None?)
  {
    hide Exec, Stable, InProtocol;
    ExecSound(s, L, sys0, moves);
    assert CacheSound(L(home), CacheOf(Exec(s, sys0, moves), home));
  }

  /** While lists are stable the life cycle closes: after Present and CleanUp, both nil, of one
      name, in whatever processes, whose lists show the same zone, all record sets of the name
      are as they were. */
  lemma StableLifeCycle(s: Settings, N: Names, L: nat -> Listings, sys0: System, moves: seq<Move>,
                        a: nat, b: nat, i: nat, up: Job, down: Job, home: nat, home': nat)
    requires AtRest(sys0) && NamesHold(N, sys0, moves) && OneByOne(moves) && i < |sys0.workers|
    requires Stable(s, L, sys0, moves) && forall h: nat :: CacheSound(L(h), CacheOf(sys0, h))
    requires b <= |moves| && LatestCall(moves[..b], a, i, home, up) && LatestCall(moves, b, i, home', down)
    requires up.present && !down.present && SameRecord(up, down) && Uncached(L(home), up) == Uncached(L(home'), down)
    requires var mid, end := Exec(s, sys0, moves[..b]).workers[i].run, Exec(s, sys0, moves).workers[i].run;
             && mid.pc == Done(None) && end.pc == Done(None)
             && (InUse(mid).Some? ==> RecordAt(Exec(s, sys0, moves[..a]).server, InUse(mid).value).None?)
    ensures forall k :: OfName(N, up, k) ==>
              RecordAt(Exec(s, sys0, moves).server, k) == RecordAt(Exec(s, sys0, moves[..a]).server, k)
  {
    StablePrefix(s, L, sys0, moves, b);
    assert NamesHold(N, sys0, moves[..b]);
    assert OneByOne(moves[..b]);
    hide Exec, Stable, NamesHold, OneByOne, CacheSound, Kept, LatestCall, FindZone;
    CacheIsTransparent(s, L, sys0, moves[..b], home, CacheKey(up), 0, i);
    CacheIsTransparent(s, L, sys0, moves, home', CacheKey(down), 0, i);
    CallIsAt(s, N, sys0, moves[..b], a, i, home, up);
    CallIsAt(s, N, sys0, moves, b, i, home', down);
    LifeCycle(s, N, sys0, moves, a, b, i, up, down, home, home');
  }

  /** The latest call of a worker is the one it took up last; Present ends nil only in a zone. */
  lemma CallIsAt(s: Settings, N: Names, sys0: System, moves: seq<Move>, a: nat, i: nat, home: nat, job: Job)
    requires AtRest(sys0) && NamesHold(N, sys0, moves) && OneByOne(moves)
    requires i < |sys0.workers| && LatestCall(moves, a, i, home, job)
    ensures var worker := Exec(s, sys0, moves).workers[i];
            && worker.home == home && worker.run.job == job
            && (job.present && worker.run.pc == Done(None) ==> worker.run.zone.Some?)
  {
    hide Exec, NamesHold, OneByOne, LatestCall, OwnAnswer, Kept;
    InterleavedRuns(s, N, sys0, moves, a, i, home, job);
    CallIsTold(s, sys0, moves, a, i, home, job);
  }

  ghost predicate Sees(cs: seq<Choice>, listing: seq<Zone>) {
    forall t :: 0 <= t < |cs| ==> cs[t].listing == listing
  }

  // ---- the same call again and again ------------------------------------------------------

  /** A call alone under a stable list: its zone is the listed one, and the cache stays sound. */
  lemma {:induction false} SoloSound(s: Settings, L: Listings, st0: State, cs: seq<Choice>)
    requires st0.run == NewRun(st0.run.job) && CacheSound(L, st0.cache) && Sees(cs, L(st0.run.job.secretRef))
    ensures var st := Solo(s, st0, cs);
            st.run.job == st0.run.job && InProtocol(s, st.run) && RunSound(L, st.run) && CacheSound(L, st.cache)
  {
    if cs != [] {
      hide Next, InProtocol, RunSound, CacheSound;
      var n := |cs| - 1;
      SoloSound(s, L, st0, cs[..n]);
      StepInProtocol(s, Solo(s, st0, cs[..n]), cs[n]);
      StepSound(s, L, Solo(s, st0, cs[..n]), cs[n]);
    }
  }

  /** The state in which the next call starts after the same job has been called along each of
      the given choice sequences. */
  function CallAgain(s: Settings, st0: State, css: seq<seq<Choice>>): State {
    if css == [] then st0
    else
      var n := |css| - 1;
      var end := Solo(s, CallAgain(s, st0, css[..n]), css[n]);
      State(NewRun(end.run.job), end.server, end.cache)
  }

  /** Once a record is gone, CleanUp repeated any number of times changes nothing on the server. */
  lemma {:induction false} RepeatedCleanUp(s: Settings, L: Listings, st0: State, css: seq<seq<Choice>>)
    requires st0.run == NewRun(st0.run.job) && !st0.run.job.present && CacheSound(L, st0.cache)
    requires forall n :: 0 <= n < |css| ==> Sees(css[n], L(st0.run.job.secretRef))
    requires Target(L, st0.run.job).Some? ==> RecordAt(st0.server, Target(L, st0.run.job).value).None?
    ensures var st := CallAgain(s, st0, css);
            st.run == st0.run && st.server == st0.server && CacheSound(L, st.cache)
  {
    if css != [] {
      hide Solo, InProtocol, CacheSound;
      var n := |css| - 1;
      RepeatedCleanUp(s, L, st0, css[..n]);
      var st := CallAgain(s, st0, css[..n]);
      SoloSound(s, L, st, css[n]);
      CleanUpOfAbsent(s, st, css[n]);
    }
  }

  /** Once a key is presented, Present of it repeated any number of times changes nothing. */
  lemma {:induction false} RepeatedPresent(s: Settings, L: Listings, st0: State, css: seq<seq<Choice>>)
    requires st0.run == NewRun(st0.run.job) && st0.run.job.present && CacheSound(L, st0.cache)
    requires forall n :: 0 <= n < |css| ==> Sees(css[n], L(st0.run.job.secretRef))
    requires Target(L, st0.run.job).Some? ==>
               var found := RecordAt(st0.server, Target(L, st0.run.job).value);
               found.Some? && found.value.records == Records(st0.run.job)
    ensures var st := CallAgain(s, st0, css);
            st.run == st0.run && st.server == st0.server && CacheSound(L, st.cache)
  {
    if css != [] {
      hide Solo, InProtocol, CacheSound, QuoteTXT;
      var n := |css| - 1;
      RepeatedPresent(s, L, st0, css[..n]);
      var st := CallAgain(s, st0, css[..n]);
      SoloSound(s, L, st, css[n]);
      PresentOfPresented(s, st, css[n]);
    }
  }
}
