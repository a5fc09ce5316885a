/** Calls about different names, interleaved step by step over shared zones in any number of
    processes, while zone lists change at will: each call leaves its own record as if it ran
    alone, and none touches another one's record. All that is asked of the lists is that a zone
    ID never changes its name. */
module Interleaving {
  import opened Text
  import opened RecordNames
  import opened Retry
  import opened ZoneCache
  import opened Api
  import opened Challenge
  import opened Calls
  import opened Processes

  /** The name of the zone with each ID. */
  type Names = int -> string

  // ---- lists change, names of IDs do not --------------------------------------------------

  ghost predicate NamedList(N: Names, zones: seq<Zone>) {
    forall i :: 0 <= i < |zones| ==> N(zones[i].id) == zones[i].name
  }

  ghost predicate NamedCache(N: Names, cache: Store) {
    forall key :: key in cache ==> N(cache[key].id) == key.zone
  }

  /** No list that is shown gives an ID another name, and no cache starts with a wrong one. */
  ghost predicate NamesHold(N: Names, sys0: System, moves: seq<Move>) {
    && (forall home: nat :: NamedCache(N, CacheOf(sys0, home)))
    && (forall t :: 0 <= t < |moves| && moves[t].Step? ==> NamedList(N, moves[t].choice.listing))
  }

  lemma {:induction false} FoundIsNamed(N: Names, zones: seq<Zone>, name: string)
    requires NamedList(N, zones) && FindZone(zones, name).Some?
    ensures N(FindZone(zones, name).value) == name
  {
    if zones[0].name != name {
      FoundIsNamed(N, zones[1..], name);
    }
  }

  /** A call has the right name for the zone in use, and holds a list with right names. */
  ghost predicate RunNamed(N: Names, run: Run) {
    && (run.zone.Some? ==> N(run.zone.value) == run.job.apex)
    && (HoldsList(run) ==> NamedList(N, run.pc.outcome.zones))
  }

  lemma StepNamed(s: Settings, N: Names, st: State, c: Choice)
    requires InProtocol(s, st.run) && RunNamed(N, st.run) && NamedCache(N, st.cache) && NamedList(N, c.listing)
    ensures RunNamed(N, Next(s, st, c).run) && NamedCache(N, Next(s, st, c).cache)
  {
    hide NamedList, ParseRetryAfter, Delay, QuoteTXT;
    ListComesFrom(s, st, c);
    if HoldsList(st.run) && FindZone(st.run.pc.outcome.zones, st.run.job.apex).Some? {
      FoundIsNamed(N, st.run.pc.outcome.zones, st.run.job.apex);
    }
  }

  ghost predicate SystemNamed(s: Settings, N: Names, sys: System) {
    && (forall i :: 0 <= i < |sys.workers| ==> InProtocol(s, sys.workers[i].run) && RunNamed(N, sys.workers[i].run))
    && (forall home: nat :: NamedCache(N, CacheOf(sys, home)))
  }

  lemma MoveNamed(s: Settings, N: Names, sys: System, m: Move)
    requires SystemNamed(s, N, sys) && (m.Step? ==> NamedList(N, m.choice.listing))
    ensures SystemNamed(s, N, MakeMove(s, sys, m))
  {
    if m.who < |sys.workers| {
      hide Next, InProtocol, RunNamed, NamedCache, NamedList;
      if m.Step? {
        StepNamed(s, N, StateOf(sys, m.who), m.choice);
        StepInProtocol(s, StateOf(sys, m.who), m.choice);
      } else {
        NewNamed(s, N, m.job);
      }
      var end := MakeMove(s, sys, m);
      forall home: nat ensures NamedCache(N, CacheOf(end, home)) {
        assert NamedCache(N, CacheOf(sys, home));
      }
    }
  }

  lemma {:induction false} ExecNamed(s: Settings, N: Names, sys0: System, moves: seq<Move>)
    requires AtRest(sys0) && NamesHold(N, sys0, moves)
    ensures SystemNamed(s, N, Exec(s, sys0, moves))
  {
    if moves != [] {
      hide MakeMove, SystemNamed, NamedCache, NamedList;
      var n := |moves| - 1;
      assert NamesHold(N, sys0, moves[..n]);
      ExecNamed(s, N, sys0, moves[..n]);
      MoveNamed(s, N, Exec(s, sys0, moves[..n]), moves[n]);
    }
  }

  lemma NewNamed(s: Settings, N: Names, job: Job)
    ensures InProtocol(s, NewRun(job)) && RunNamed(N, NewRun(job))
  {
  }

  // ---- whose record is whose --------------------------------------------------------------

  predicate SameRecord(a: Job, b: Job) {
    a.apex == b.apex && a.record == b.record
  }

  /** The TXT record set of the job's name, in some zone named like its apex. */
  ghost predicate OfName(N: Names, job: Job, k: RecordKey) {
    N(k.zone) == job.apex && k.name == job.record && k.kind == TXT
  }

  /** The record set a call writes to, once its zone is known. */
  function InUse(run: Run): Option<RecordKey> {
    match run.zone
    case None => None
    case Some(id) => Some(TargetKey(run.job, id))
  }

  /** A step writes at most the record set in use. */
  lemma StepWrites(s: Settings, st: State, c: Choice)
    requires InProtocol(s, st.run)
    ensures var server := Next(s, st, c).server;
            server.live == st.server.live &&
            forall k :: Some(k) != InUse(st.run) ==> RecordAt(server, k) == RecordAt(st.server, k)
  {
    hide ParseRetryAfter, Delay, QuoteTXT, Serve;
    if st.run.pc.Calling? && st.run.zone.None? {
      hide InProtocol;
      StepBeforeZone(s, st, c);
    } else if st.run.pc.Calling? {
      ServeIsLocal(st.run.pc.req, st.server, st.server);
    }
  }

  /** A move of a worker changes no record set but those of the name its call is about. */
  lemma MoveIsLocal(s: Settings, N: Names, sys: System, m: Move, k: RecordKey)
    requires SystemNamed(s, N, sys)
    ensures var end := MakeMove(s, sys, m);
            && end.server.live == sys.server.live
            && (RecordAt(end.server, k) != RecordAt(sys.server, k) ==>
                  m.who < |sys.workers| && m.Step? && OfName(N, sys.workers[m.who].run.job, k) &&
                  !sys.workers[m.who].run.pc.Done?)
  {
    hide Next, InProtocol;
    if m.who < |sys.workers| && m.Step? {
      var st := StateOf(sys, m.who);
      StepWrites(s, st, m.choice);
      if st.run.pc.Done? {
        DoneStaysDone(s, st, m.choice);
      }
    }
  }

  /** No step of one call, Present or CleanUp, changes a record set of another name. */
  lemma NoRunTouchesAnother(s: Settings, N: Names, sys0: System, moves: seq<Move>, m: Move, job: Job, k: RecordKey)
    requires AtRest(sys0) && NamesHold(N, sys0, moves)
    requires m.who < |sys0.workers| && !SameRecord(Exec(s, sys0, moves).workers[m.who].run.job, job)
    requires OfName(N, job, k)
    ensures RecordAt(Exec(s, sys0, moves + [m]).server, k) == RecordAt(Exec(s, sys0, moves).server, k)
  {
    assert (moves + [m])[..|moves|] == moves;
    assert Exec(s, sys0, moves + [m]) == MakeMove(s, Exec(s, sys0, moves), m);
    hide Exec, SystemNamed, MakeMove;
    ExecNamed(s, N, sys0, moves);
    MoveIsLocal(s, N, Exec(s, sys0, moves), m, k);
  }

  /** A call that is under way was begun by its worker. */
  ghost predicate BegunBy(moves: seq<Move>, i: nat, home: nat, job: Job) {
    exists t :: 0 <= t < |moves| && moves[t] == Begin(i, home, job)
  }

  lemma {:induction false} UnderWayWasBegun(s: Settings, sys0: System, moves: seq<Move>, i: nat)
    requires AtRest(sys0) && i < |sys0.workers|
    ensures var worker := Exec(s, sys0, moves).workers[i];
            worker.run.pc.Done? || BegunBy(moves, i, worker.home, worker.run.job)
  {
    if moves != [] {
      hide Next, InProtocol;
      var n := |moves| - 1;
      var at, m := Exec(s, sys0, moves[..n]), moves[n];
      UnderWayWasBegun(s, sys0, moves[..n], i);
      ExecInProtocol(s, sys0, moves[..n]);
      if m.who == i && m.Step? {
        StepInProtocol(s, StateOf(at, i), m.choice);
        if at.workers[i].run.pc.Done? {
          DoneStaysDone(s, StateOf(at, i), m.choice);
        }
      }
      forall home, job | BegunBy(moves[..n], i, home, job) ensures BegunBy(moves, i, home, job) {
        var t :| 0 <= t < n && moves[..n][t] == Begin(i, home, job);
        assert moves[t] == Begin(i, home, job);
      }
    }
  }

  /** A record set that no call is about never changes. */
  lemma {:induction false} OthersNeverChange(s: Settings, N: Names, sys0: System, moves: seq<Move>, k: RecordKey)
    requires AtRest(sys0) && NamesHold(N, sys0, moves)
    requires forall t :: 0 <= t < |moves| && moves[t].Begin? ==> !OfName(N, moves[t].job, k)
    ensures RecordAt(Exec(s, sys0, moves).server, k) == RecordAt(sys0.server, k)
  {
    if moves != [] {
      hide MakeMove, SystemNamed, OfName;
      var n := |moves| - 1;
      assert NamesHold(N, sys0, moves[..n]);
      OthersNeverChange(s, N, sys0, moves[..n], k);
      ExecNamed(s, N, sys0, moves[..n]);
      MoveIsLocal(s, N, Exec(s, sys0, moves[..n]), moves[n], k);
      if moves[n].who < |sys0.workers| {
        UnderWayWasBegun(s, sys0, moves[..n], moves[n].who);
      }
    }
  }

  // ---- as if it ran alone -----------------------------------------------------------------

  /** Calls about the same record are made one after the other, by one worker. */
  ghost predicate OneByOne(moves: seq<Move>) {
    forall t, u | 0 <= t < |moves| && 0 <= u < |moves| && moves[t].Begin? && moves[u].Begin? ::
      SameRecord(moves[t].job, moves[u].job) ==> moves[t].who == moves[u].who
  }

  /** The call that worker i takes up at move a is its latest one. */
  ghost predicate LatestCall(moves: seq<Move>, a: nat, i: nat, home: nat, job: Job) {
    && a < |moves| && moves[a] == Begin(i, home, job)
    && forall t :: a < t < |moves| && moves[t].Begin? ==> moves[t].who != i
  }

  /** A call among others and a call alone that have gone the same way: they are at the same
      point, use the same zone, and see the same record sets of their name. */
  ghost predicate Match(N: Names, run: Run, srv: Server, solo: State) {
    && solo.run.job == run.job && solo.run.pc == run.pc && solo.run.zone == run.zone
    && solo.server.live == srv.live
    && forall k :: OfName(N, run.job, k) ==> RecordAt(solo.server, k) == RecordAt(srv, k)
  }

  /** An exchange on equal records gives equal outcomes and equal records. */
  lemma ExchangeIsLocal(a: Attempt, req: Request, listing: seq<Zone>, now: int, dates: Dates, x: Server, y: Server)
    requires x.live == y.live
    requires !req.ListZones? ==> RecordAt(x, req.key) == RecordAt(y, req.key)
    ensures Exchange(a, req, listing, now, dates, x).0 == Exchange(a, req, listing, now, dates, y).0
    ensures var x', y' := Exchange(a, req, listing, now, dates, x).1, Exchange(a, req, listing, now, dates, y).1;
            && (req.ListZones? ==> x' == x && y' == y)
            && (!req.ListZones? ==> SameElsewhere(x, x', req.key) && SameElsewhere(y, y', req.key) &&
                                    RecordAt(x', req.key) == RecordAt(y', req.key))
  {
    hide ParseRetryAfter;
    if !req.ListZones? {
      ServeIsLocal(req, x, y);
      ServeIsLocal(req, y, x);
    }
  }

  lemma CallingMatches(s: Settings, N: Names, st: State, solo: State, c: Choice)
    requires st.run.pc.Calling? && InProtocol(s, st.run) && RunNamed(N, st.run)
    requires Match(N, st.run, st.server, solo)
    ensures Match(N, Next(s, st, c).run, Next(s, st, c).server, Next(s, solo, c))
  {
    hide Exchange, QuoteTXT, Delay;
    ExchangeIsLocal(c.attempt, st.run.pc.req, c.listing, c.now, s.dates, st.server, solo.server);
  }

  lemma OtherStepMatches(s: Settings, N: Names, st: State, solo: State, c: Choice)
    requires !st.run.pc.Calling? && Match(N, st.run, st.server, solo)
    requires st.run.pc.Start? ==>
               Answer(st.cache, CacheKey(st.run.job), c.now) == Answer(solo.cache, CacheKey(st.run.job), c.now)
    ensures Match(N, Next(s, st, c).run, Next(s, st, c).server, Next(s, solo, c))
  {
    hide QuoteTXT;
  }

  /** A cache hit is matched by a solo call that misses, lists and finds the same zone. */
  lemma HitIsMatched(s: Settings, N: Names, st: State, solo: State, c: Choice, zones: seq<Zone>)
    requires st.run.pc.Start? && Match(N, st.run, st.server, solo)
    requires solo.cache == map[] && Answer(st.cache, CacheKey(st.run.job), c.now).Some?
    requires FindZone(zones, st.run.job.apex) == Answer(st.cache, CacheKey(st.run.job), c.now)
    ensures var l := Listed(zones, c.now);
            Match(N, Next(s, st, c).run, Next(s, st, c).server, Next(s, Next(s, Next(s, solo, c), l), l))
  {
    hide QuoteTXT;
    var l := Listed(zones, c.now);
    var one := Next(s, solo, c);
    assert one.run.pc == Calling(ListZones, 0, Unsent);
    var two := Next(s, one, l);
    assert two.run.pc == Returned(ListZones, Success(zones));
  }

  /** If the solo call is answered with a list, the moves showed that list to a call of this
      process, secret and apex. */
  ghost predicate ListShown(s: Settings, sys0: System, moves: seq<Move>, solo0: State, cs: seq<Choice>,
                            home: nat, key: Key) {
    var answer := ListAnswer(s, solo0, cs);
    answer.Some? ==> ShownBefore(s, sys0, moves, |moves|, home, key, answer.value)
  }

  lemma ListShownStays(s: Settings, sys0: System, moves: seq<Move>, solo0: State, cs: seq<Choice>, home: nat, key: Key)
    requires moves != [] && ListShown(s, sys0, moves[..|moves| - 1], solo0, cs, home, key)
    ensures ListShown(s, sys0, moves, solo0, cs, home, key)
  {
    hide ShownBefore, ListAnswer;
    var answer := ListAnswer(s, solo0, cs);
    if answer.Some? {
      ShownStays(s, sys0, moves, |moves| - 1, home, key, answer.value);
      ShownLater(s, sys0, moves, |moves| - 1, home, key, answer.value);
    }
  }

  lemma ListShownMore(s: Settings, sys0: System, moves: seq<Move>, solo0: State, cs: seq<Choice>, c: Choice,
                      home: nat, key: Key)
    requires ListShown(s, sys0, moves, solo0, cs, home, key)
    requires ListsNow(Solo(s, solo0, cs).run, c) ==> ShownBefore(s, sys0, moves, |moves|, home, key, c.listing)
    ensures ListShown(s, sys0, moves, solo0, cs + [c], home, key)
  {
    hide ShownBefore, Solo, ListsNow;
    assert (cs + [c])[..|cs|] == cs;
  }

  lemma NothingShown(s: Settings, sys0: System, moves: seq<Move>, solo0: State, home: nat, key: Key)
    ensures ListShown(s, sys0, moves, solo0, [], home, key)
  {
  }

  /** As if alone: for every call in every schedule there is a solo call of the same job, from
      the server as the call found it, with the starting cache of its process or none, which is
      answered only with a list that the schedule showed to a call of that process, secret and
      apex, and which is at the same point, with the same zone in use and the same records of its name. */
  lemma {:induction false} AsIfAlone(s: Settings, N: Names, sys0: System, moves: seq<Move>, a: nat, i: nat,
                                     home: nat, job: Job)
    returns (cache: Store, cs: seq<Choice>)
    requires AtRest(sys0) && NamesHold(N, sys0, moves) && OneByOne(moves)
    requires i < |sys0.workers| && LatestCall(moves, a, i, home, job)
    ensures cache == map[] || cache == CacheOf(sys0, home)
    ensures var solo0 := State(NewRun(job), Exec(s, sys0, moves[..a]).server, cache);
            ListShown(s, sys0, moves, solo0, cs, home, CacheKey(job))
    ensures var end := Exec(s, sys0, moves);
            && end.workers[i].home == home && end.workers[i].run.job == job
            && (end.workers[i].run.pc.Start? ==> cs == [])
            && Match(N, end.workers[i].run, end.server,
                     Solo(s, State(NewRun(job), Exec(s, sys0, moves[..a]).server, cache), cs))
  {
    var n := |moves| - 1;
    if a == n {
      cache, cs := map[], [];
    } else {
      hide OneByOne, NamesHold, Match, ListShown, MakeMove, Solo;
      var front, m := moves[..n], moves[n];
      PrefixHypotheses(N, sys0, moves, a, i, home, job);
      cache, cs := AsIfAlone(s, N, sys0, front, a, i, home, job);
      assert front[..a] == moves[..a];
      var srv0 := Exec(s, sys0, moves[..a]).server;
      if m.who == i {
        cache, cs := FollowOwnMove(s, N, sys0, moves, srv0, i, home, job, cache, cs);
      } else {
        OthersKeepMatch(s, N, sys0, moves, a, i, home, job, Solo(s, State(NewRun(job), srv0, cache), cs));
        ListShownStays(s, sys0, moves, State(NewRun(job), srv0, cache), cs, home, CacheKey(job));
      }
    }
  }

  lemma PrefixHypotheses(N: Names, sys0: System, moves: seq<Move>, a: nat, i: nat, home: nat, job: Job)
    requires NamesHold(N, sys0, moves) && OneByOne(moves) && a < |moves| - 1 && LatestCall(moves, a, i, home, job)
    ensures var front := moves[..|moves| - 1];
            NamesHold(N, sys0, front) && OneByOne(front) && LatestCall(front, a, i, home, job)
  {
  }

  lemma OthersKeepMatch(s: Settings, N: Names, sys0: System, moves: seq<Move>, a: nat, i: nat, home: nat, job: Job,
                        solo: State)
    requires AtRest(sys0) && NamesHold(N, sys0, moves) && OneByOne(moves)
    requires i < |sys0.workers| && LatestCall(moves, a, i, home, job) && a < |moves| - 1 && moves[|moves| - 1].who != i
    requires var at := Exec(s, sys0, moves[..|moves| - 1]);
             at.workers[i].run.job == job && Match(N, at.workers[i].run, at.server, solo)
    ensures var at, end := Exec(s, sys0, moves[..|moves| - 1]), Exec(s, sys0, moves);
            end.workers[i] == at.workers[i] && Match(N, end.workers[i].run, end.server, solo)
  {
    var n := |moves| - 1;
    var at, m, end := Exec(s, sys0, moves[..n]), moves[n], Exec(s, sys0, moves);
    hide Exec, Next, SystemNamed, OneByOne, NamesHold, LatestCall, OfName;
    forall k | OfName(N, job, k) ensures RecordAt(end.server, k) == RecordAt(at.server, k) {
      OthersKeepRecord(s, N, sys0, moves, a, i, home, job, k);
    }
    NamedPrefix(N, sys0, moves);
    ExecNamed(s, N, sys0, moves[..n]);
    MoveIsLocal(s, N, at, m, TargetKey(job, 0));
  }

  /** A move of another worker leaves the record sets of this call's name alone. */
  lemma OthersKeepRecord(s: Settings, N: Names, sys0: System, moves: seq<Move>, a: nat, i: nat, home: nat, job: Job,
                         k: RecordKey)
    requires AtRest(sys0) && NamesHold(N, sys0, moves) && OneByOne(moves)
    requires LatestCall(moves, a, i, home, job) && a < |moves| - 1 && moves[|moves| - 1].who != i
    requires OfName(N, job, k)
    ensures RecordAt(Exec(s, sys0, moves).server, k) == RecordAt(Exec(s, sys0, moves[..|moves| - 1]).server, k)
  {
    var n := |moves| - 1;
    var at, m, end := Exec(s, sys0, moves[..n]), moves[n], Exec(s, sys0, moves);
    hide Exec, MakeMove, SystemNamed, NamesHold;
    NamedPrefix(N, sys0, moves);
    ExecNamed(s, N, sys0, moves[..n]);
    MoveIsLocal(s, N, at, m, k);
    if RecordAt(end.server, k) != RecordAt(at.server, k) {
      UnderWayWasBegun(s, sys0, moves[..n], m.who);
    }
  }

  lemma FollowOwnMove(s: Settings, N: Names, sys0: System, moves: seq<Move>, srv0: Server, i: nat, home: nat, job: Job,
                      cache: Store, cs: seq<Choice>)
    returns (cache': Store, ds: seq<Choice>)
    requires AtRest(sys0) && NamesHold(N, sys0, moves) && i < |sys0.workers|
    requires moves != [] && moves[|moves| - 1].Step? && moves[|moves| - 1].who == i
    requires cache == map[] || cache == CacheOf(sys0, home)
    requires ListShown(s, sys0, moves[..|moves| - 1], State(NewRun(job), srv0, cache), cs, home, CacheKey(job))
    requires var at := Exec(s, sys0, moves[..|moves| - 1]);
             && at.workers[i].home == home && at.workers[i].run.job == job
             && (at.workers[i].run.pc.Start? ==> cs == [])
             && Match(N, at.workers[i].run, at.server, Solo(s, State(NewRun(job), srv0, cache), cs))
    ensures cache' == map[] || cache' == CacheOf(sys0, home)
    ensures ListShown(s, sys0, moves, State(NewRun(job), srv0, cache'), ds, home, CacheKey(job))
    ensures var end := Exec(s, sys0, moves);
            && end.workers[i].home == home && end.workers[i].run.job == job && !end.workers[i].run.pc.Start?
            && Match(N, end.workers[i].run, end.server, Solo(s, State(NewRun(job), srv0, cache'), ds))
  {
    hide Next, Match, NamesHold, ListShown, ShownBefore, InProtocol, RunNamed, NamedCache, Backed, ListsNow;
    var n := |moves| - 1;
    var at, c, key := Exec(s, sys0, moves[..n]), moves[n].choice, CacheKey(job);
    var st := StateOf(at, i);
    NamedPrefix(N, sys0, moves);
    ExecNamed(s, N, sys0, moves[..n]);
    StepInProtocol(s, st, c);
    NeverBack(s, st, c);
    ds := cs + [c];
    if st.run.pc.Start? {
      CacheIrrelevant(N, st.run, st.server, State(NewRun(job), srv0, cache), map[]);
      cache', ds := FollowStart(s, N, sys0, moves, srv0, home, job);
    } else {
      cache' := cache;
      var solo0 := State(NewRun(job), srv0, cache);
      var solo := Solo(s, solo0, cs);
      ListShownStays(s, sys0, moves, solo0, cs, home, key);
      MatchLists(N, st.run, st.server, solo, c);
      if ListsNow(st.run, c) {
        ShownNow(s, sys0, moves, home, key);
      }
      ListShownMore(s, sys0, moves, solo0, cs, c, home, key);
      SoloStep(s, solo0, cs, c);
      if st.run.pc.Calling? {
        CallingMatches(s, N, st, solo, c);
      } else {
        OtherStepMatches(s, N, st, solo, c);
      }
    }
  }

  /** The first step of a call, and the steps of a solo call that match it. */
  lemma FollowStart(s: Settings, N: Names, sys0: System, moves: seq<Move>, srv0: Server, home: nat, job: Job)
    returns (cache: Store, ds: seq<Choice>)
    requires AtRest(sys0) && moves != [] && moves[|moves| - 1].Step? && moves[|moves| - 1].who < |sys0.workers|
    requires var st := StateOf(Exec(s, sys0, moves[..|moves| - 1]), moves[|moves| - 1].who);
             && Exec(s, sys0, moves[..|moves| - 1]).workers[moves[|moves| - 1].who].home == home
             && st.run.job == job && st.run.pc.Start?
             && Match(N, st.run, st.server, State(NewRun(job), srv0, map[]))
    ensures cache == map[] || cache == CacheOf(sys0, home)
    ensures ListShown(s, sys0, moves, State(NewRun(job), srv0, cache), ds, home, CacheKey(job))
    ensures var st := Next(s, StateOf(Exec(s, sys0, moves[..|moves| - 1]), moves[|moves| - 1].who),
                           moves[|moves| - 1].choice);
            Match(N, st.run, st.server, Solo(s, State(NewRun(job), srv0, cache), ds))
  {
    var n := |moves| - 1;
    var c, key := moves[n].choice, CacheKey(job);
    var st := StateOf(Exec(s, sys0, moves[..n]), moves[n].who);
    var cold := State(NewRun(job), srv0, map[]);
    hide Exec, Next, Match, ShownBefore, ListShown, Backed, Solo;
    ds := [c];
    assert [] + [c] == [c];
    cache := map[];
    StartsEmpty(s, cold);
    NothingShown(s, sys0, moves, cold, home, key);
    if Answer(st.cache, key, c.now).None? {
      OtherStepMatches(s, N, st, cold, c);
      SoloStep(s, cold, [], c);
      ListShownMore(s, sys0, moves, cold, [], c, home, key);
    } else {
      EveryEntryIsBacked(s, sys0, moves[..n], home, key);
      var warm, zones := SourceOfHit(s, sys0, moves[..n], home, key, st.cache[key]);
      if warm {
        cache := CacheOf(sys0, home);
        var solo := cold.(cache := cache);
        StartsEmpty(s, solo);
        CacheIrrelevant(N, st.run, st.server, cold, cache);
        OtherStepMatches(s, N, st, solo, c);
        SoloStep(s, solo, [], c);
        NothingShown(s, sys0, moves, solo, home, key);
        ListShownMore(s, sys0, moves, solo, [], c, home, key);
      } else {
        ShownStays(s, sys0, moves, n, home, key, zones);
        ShownLater(s, sys0, moves, n, home, key, zones);
        var l := Listed(zones, c.now);
        HitIsMatched(s, N, st, cold, c, zones);
        SoloStep(s, cold, [], c);
        SoloStep(s, cold, ds, l);
        SoloStep(s, cold, ds + [l], l);
        ListShownMore(s, sys0, moves, cold, [], c, home, key);
        ListShownMore(s, sys0, moves, cold, ds, l, home, key);
        ListShownMore(s, sys0, moves, cold, ds + [l], l, home, key);
        ds := ds + [l] + [l];
      }
    }
  }

  lemma StartsEmpty(s: Settings, st: State)
    ensures Solo(s, st, []) == st
  {
  }

  lemma MatchLists(N: Names, run: Run, srv: Server, solo: State, c: Choice)
    requires Match(N, run, srv, solo)
    ensures ListsNow(solo.run, c) <==> ListsNow(run, c)
  {
  }

  lemma NamedPrefix(N: Names, sys0: System, moves: seq<Move>)
    requires moves != [] && NamesHold(N, sys0, moves)
    ensures NamesHold(N, sys0, moves[..|moves| - 1])
  {
  }

  lemma NeverBack(s: Settings, st: State, c: Choice)
    ensures !Next(s, st, c).run.pc.Start?
  {
    hide Exchange, QuoteTXT, Delay;
  }

  lemma CacheIrrelevant(N: Names, run: Run, srv: Server, solo: State, cache: Store)
    requires Match(N, run, srv, solo)
    ensures Match(N, run, srv, solo.(cache := cache))
  {
  }

  /** A cache entry is one from the start, or there is a list that shows its ID. */
  lemma SourceOfHit(s: Settings, sys0: System, moves: seq<Move>, home: nat, key: Key, e: Entry)
    returns (warm: bool, zones: seq<Zone>)
    requires Backed(s, sys0, moves, home, key, e)
    ensures if warm then key in CacheOf(sys0, home) && CacheOf(sys0, home)[key] == e
            else FindZone(zones, key.zone) == Some(e.id) && ShownBefore(s, sys0, moves, |moves|, home, key, zones)
  {
    hide Exec, Unchanged;
    warm, zones := Inherited(s, sys0, moves, home, key, e), [];
    if !warm {
      var t: nat :| StoredAt(s, sys0, moves, t, home, key, e);
      zones := Exec(s, sys0, moves[..t]).workers[moves[t].who].run.pc.outcome.zones;
    }
  }

  // ---- what every call achieves among others ----------------------------------------------

  /** What a call has done to the record sets of its name, from srv0 on: at the zone in use the
      record is as found or as the call is to leave it, nil means the latter, and every other
      record set of that name is as it was. */
  ghost predicate Kept(s: Settings, N: Names, run: Run, srv0: Server, srv: Server) {
    && (forall k :: OfName(N, run.job, k) && Some(k) != InUse(run) ==> RecordAt(srv, k) == RecordAt(srv0, k))
    && (run.zone.Some? ==>
          var k := TargetKey(run.job, run.zone.value);
          var before, now := RecordAt(srv0, k), RecordAt(srv, k);
          && OfName(N, run.job, k)
          && (now == before || now == Final(s, run.job, before))
          && (run.pc == Done(None) ==> now == Final(s, run.job, before)))
  }

  /** Since move a the server has answered the list request of worker i with this list. */
  ghost predicate OwnAnswer(s: Settings, sys0: System, moves: seq<Move>, a: nat, i: nat, home: nat, key: Key,
                            zones: seq<Zone>) {
    exists t: nat :: a < t && ShownAt(s, sys0, moves, t, home, key, zones) && moves[t].who == i
  }

  lemma OwnAnswerStays(s: Settings, sys0: System, moves: seq<Move>, a: nat, i: nat, home: nat, key: Key,
                       zones: seq<Zone>)
    requires moves != [] && OwnAnswer(s, sys0, moves[..|moves| - 1], a, i, home, key, zones)
    ensures OwnAnswer(s, sys0, moves, a, i, home, key, zones)
  {
    hide Exec;
    var front := moves[..|moves| - 1];
    var t: nat :| a < t && ShownAt(s, sys0, front, t, home, key, zones) && front[t].who == i;
    EarlierMove(s, sys0, moves, t, home, key);
    assert ShownAt(s, sys0, moves, t, home, key, zones);
  }

  /** What a call has been told by its list request. */
  ghost predicate Told(s: Settings, sys0: System, moves: seq<Move>, a: nat, i: nat, home: nat, job: Job, run: Run) {
    && run.job == job && ListHonest(run)
    && (HoldsList(run) ==> OwnAnswer(s, sys0, moves, a, i, home, CacheKey(job), run.pc.outcome.zones))
    && (run.zone.None? && run.pc == Done(None) ==>
          exists zones :: OwnAnswer(s, sys0, moves, a, i, home, CacheKey(job), zones) &&
                          FindZone(zones, job.apex).None?)
  }

  lemma ToldStays(s: Settings, sys0: System, moves: seq<Move>, a: nat, i: nat, home: nat, job: Job, run: Run)
    requires moves != [] && Told(s, sys0, moves[..|moves| - 1], a, i, home, job, run)
    ensures Told(s, sys0, moves, a, i, home, job, run)
  {
    hide OwnAnswer, FindZone;
    forall zones | OwnAnswer(s, sys0, moves[..|moves| - 1], a, i, home, CacheKey(job), zones)
      ensures OwnAnswer(s, sys0, moves, a, i, home, CacheKey(job), zones)
    {
      OwnAnswerStays(s, sys0, moves, a, i, home, CacheKey(job), zones);
    }
  }

  lemma StepTold(s: Settings, sys0: System, moves: seq<Move>, a: nat, i: nat, home: nat, job: Job, st: State, c: Choice)
    requires InProtocol(s, st.run) && Told(s, sys0, moves, a, i, home, job, st.run)
    requires ListsNow(st.run, c) ==> OwnAnswer(s, sys0, moves, a, i, home, CacheKey(job), c.listing)
    ensures Told(s, sys0, moves, a, i, home, job, Next(s, st, c).run)
  {
    hide Next, OwnAnswer, FindZone, InProtocol;
    StepLists(s, st, c);
    StepInProtocol(s, st, c);
    if st.run.pc.Done? {
      DoneStaysDone(s, st, c);
    }
  }

  lemma {:induction false} CallIsTold(s: Settings, sys0: System, moves: seq<Move>, a: nat, i: nat, home: nat, job: Job)
    requires AtRest(sys0) && i < |sys0.workers| && LatestCall(moves, a, i, home, job)
    ensures Exec(s, sys0, moves).workers[i].home == home
    ensures Told(s, sys0, moves, a, i, home, job, Exec(s, sys0, moves).workers[i].run)
  {
    var n := |moves| - 1;
    if a < n {
      hide Next, Told, InProtocol, OwnAnswer;
      CallIsTold(s, sys0, moves[..n], a, i, home, job);
      var at, m := Exec(s, sys0, moves[..n]), moves[n];
      var st := StateOf(at, i);
      ToldStays(s, sys0, moves, a, i, home, job, st.run);
      if m.who == i {
        ExecInProtocol(s, sys0, moves[..n]);
        if ListsNow(st.run, m.choice) {
          ToldNow(s, sys0, moves, a, i, home, job);
        }
        StepTold(s, sys0, moves, a, i, home, job, st, m.choice);
      }
    }
  }

  lemma ToldNow(s: Settings, sys0: System, moves: seq<Move>, a: nat, i: nat, home: nat, job: Job)
    requires a < |moves| - 1 && moves[|moves| - 1].Step? && moves[|moves| - 1].who == i < |sys0.workers|
    requires var worker := Exec(s, sys0, moves[..|moves| - 1]).workers[i];
             worker.home == home && Told(s, sys0, moves, a, i, home, job, worker.run) &&
             ListsNow(worker.run, moves[|moves| - 1].choice)
    ensures OwnAnswer(s, sys0, moves, a, i, home, CacheKey(job), moves[|moves| - 1].choice.listing)
  {
    hide Exec, OwnAnswer;
    OwnAnswerNow(s, sys0, moves, a, i, home, CacheKey(job));
  }

  lemma OwnAnswerNow(s: Settings, sys0: System, moves: seq<Move>, a: nat, i: nat, home: nat, key: Key)
    requires a < |moves| - 1 && moves[|moves| - 1].Step? && moves[|moves| - 1].who == i
    requires ShownAt(s, sys0, moves, |moves| - 1, home, key, moves[|moves| - 1].choice.listing)
    ensures OwnAnswer(s, sys0, moves, a, i, home, key, moves[|moves| - 1].choice.listing)
  {
    hide ShownAt;
  }

  /** Interleaving: at every moment of every call in every schedule, the record sets of its name
      are as it found them but for the one in use, and that one is as it was or as the call alone
      would leave it; a nil error means the latter or, for CleanUp, that the list with which this
      very call was answered did not have the apex. */
  lemma InterleavedRuns(s: Settings, N: Names, sys0: System, moves: seq<Move>, a: nat, i: nat, home: nat, job: Job)
    requires AtRest(sys0) && NamesHold(N, sys0, moves) && OneByOne(moves)
    requires i < |sys0.workers| && LatestCall(moves, a, i, home, job)
    ensures var end := Exec(s, sys0, moves);
            var run := end.workers[i].run;
            && run.job == job && Kept(s, N, run, Exec(s, sys0, moves[..a]).server, end.server)
            && (run.zone.None? && run.pc == Done(None) ==>
                  !job.present && exists zones :: OwnAnswer(s, sys0, moves, a, i, home, CacheKey(job), zones) &&
                                                  FindZone(zones, job.apex).None?)
  {
    var cache, cs := AsIfAlone(s, N, sys0, moves, a, i, home, job);
    ExecNamed(s, N, sys0, moves);
    CallIsTold(s, sys0, moves, a, i, home, job);
    var end, srv0 := Exec(s, sys0, moves), Exec(s, sys0, moves[..a]).server;
    hide Exec, Solo, NamesHold, OneByOne, LatestCall, OwnAnswer, InProtocol, NamedCache, Kept, Match, RunNamed,
      ListShown;
    SoloKept(s, N, State(NewRun(job), srv0, cache), cs, end.workers[i].run, end.server);
  }

  /** What holds of a call alone holds of every call that matches it. */
  lemma SoloKept(s: Settings, N: Names, st0: State, cs: seq<Choice>, run: Run, srv: Server)
    requires st0.run == NewRun(run.job) && RunNamed(N, run) && Match(N, run, srv, Solo(s, st0, cs))
    ensures Kept(s, N, run, st0.server, srv)
    ensures run.zone.None? && run.pc == Done(None) ==> !run.job.present
  {
    hide Solo, QuoteTXT, ListAnswer, FindZone;
    if run.job.present {
      PresentUnderLostAnswers(s, st0, cs);
    } else {
      CleanUpUnderLostAnswers(s, st0, cs);
    }
  }

  /** The ID was in the starting cache of the process under this key, or in a list with which a
      call of this process, secret and apex was answered. */
  ghost predicate KnownAs(s: Settings, sys0: System, moves: seq<Move>, home: nat, key: Key, id: int) {
    || (key in CacheOf(sys0, home) && CacheOf(sys0, home)[key].id == id)
    || (exists zones :: ShownBefore(s, sys0, moves, |moves|, home, key, zones) && FindZone(zones, key.zone) == Some(id))
  }

  /** The zone a call uses is known for its own secret and apex. */
  lemma ZoneInUseIsKnown(s: Settings, N: Names, sys0: System, moves: seq<Move>, a: nat, i: nat, home: nat, job: Job)
    requires AtRest(sys0) && NamesHold(N, sys0, moves) && OneByOne(moves)
    requires i < |sys0.workers| && LatestCall(moves, a, i, home, job)
    ensures var zone := Exec(s, sys0, moves).workers[i].run.zone;
            zone.Some? ==> KnownAs(s, sys0, moves, home, CacheKey(job), zone.value)
  {
    var cache, cs := AsIfAlone(s, N, sys0, moves, a, i, home, job);
    hide Exec, Solo, NamesHold, OneByOne, LatestCall, ShownBefore, FindZone, ListAnswer;
    SoloZone(s, State(NewRun(job), Exec(s, sys0, moves[..a]).server, cache), cs);
  }

  /** The life cycle of a challenge among others: a worker's Present and its next call, CleanUp,
      both returned nil, and the name had no record set where Present wrote. Then all record sets
      of the name are as they were if and only if CleanUp used the same zone ID. */
  lemma LifeCycle(s: Settings, N: Names, sys0: System, moves: seq<Move>, a: nat, b: nat, i: nat,
                  up: Job, down: Job, home: nat, home': nat)
    requires AtRest(sys0) && NamesHold(N, sys0, moves) && OneByOne(moves) && i < |sys0.workers|
    requires b <= |moves| && LatestCall(moves[..b], a, i, home, up) && LatestCall(moves, b, i, home', down)
    requires up.present && !down.present && SameRecord(up, down)
    requires var mid, end := Exec(s, sys0, moves[..b]).workers[i].run, Exec(s, sys0, moves).workers[i].run;
             && mid.pc == Done(None) && end.pc == Done(None)
             && (InUse(mid).Some? ==> RecordAt(Exec(s, sys0, moves[..a]).server, InUse(mid).value).None?)
    ensures var first, last := Exec(s, sys0, moves[..a]).server, Exec(s, sys0, moves).server;
            (forall k :: OfName(N, up, k) ==> RecordAt(last, k) == RecordAt(first, k)) <==>
            Exec(s, sys0, moves).workers[i].run.zone == Exec(s, sys0, moves[..b]).workers[i].run.zone
  {
    assert moves[..b][..a] == moves[..a];
    assert NamesHold(N, sys0, moves[..b]);
    assert OneByOne(moves[..b]);
    hide NamesHold, OneByOne, LatestCall, Exec, OwnAnswer, QuoteTXT;
    InterleavedRuns(s, N, sys0, moves[..b], a, i, home, up);
    InterleavedRuns(s, N, sys0, moves, b, i, home', down);
    var mid, end := Exec(s, sys0, moves[..b]).workers[i].run, Exec(s, sys0, moves).workers[i].run;
    var first, last := Exec(s, sys0, moves[..a]).server, Exec(s, sys0, moves).server;
    var k := InUse(mid).value;
    assert RecordAt(first, k).None? && RecordAt(Exec(s, sys0, moves[..b]).server, k).Some?;
    if end.zone == mid.zone {
      forall x | OfName(N, up, x) ensures RecordAt(last, x) == RecordAt(first, x) {
        if x != k {
          assert OfName(N, down, x);
        }
      }
    } else {
      assert OfName(N, up, k) && OfName(N, down, k);
      assert RecordAt(last, k).Some?;
    }
  }
}
