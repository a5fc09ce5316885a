/** Present and CleanUp as a machine that moves request by request (internal/solver/solver.go
    over the retry loop of internal/hcloud/client.go), and what holds at the end of every run
    of it, whatever the network does. */
module Challenge {
  import opened Text
  import opened RecordNames
  import opened Retry
  import opened ZoneCache
  import opened Api

  const TXT := "TXT"

  /** One Present or CleanUp call after prepare. */
  datatype Job = Job(present: bool, secretRef: string, apex: string, record: string, key: string)

  datatype Settings = Settings(retry: Params, cacheTtl: int, rrsetTtl: int, dates: Dates)

  /** Attempts made, sleeps completed and time slept. */
  datatype Meter = Meter(tries: nat, sleeps: nat, waited: nat)

  /** Where a call stands: before the cache lookup; in the retry loop of a request (`last` is
      the error of the previous attempt, if any); holding the outcome of a request; finished
      with a nil error (None) or an error. */
  datatype Pc =
    | Start
    | Calling(req: Request, attempt: nat, last: Error)
    | Returned(req: Request, outcome: Outcome)
    | Done(err: Option<Error>)

  /** zone is the zone ID in use, once known. */
  datatype Run = Run(job: Job, pc: Pc, zone: Option<int>, meter: Meter)

  datatype State = State(run: Run, server: Server, cache: Store)

  /** What the environment decides for one step: the fate of an attempt, whether the sleep
      before it completes, the clock, and the zone list the server would show. */
  datatype Choice = Choice(attempt: Attempt, sleepOk: bool, now: int, listing: seq<Zone>)

  function NewRun(job: Job): Run {
    Run(job, Start, None, Meter(0, 0, 0))
  }

  function CacheKey(job: Job): Key {
    Key(job.secretRef, job.apex)
  }

  function TargetKey(job: Job, zone: int): RecordKey {
    RecordKey(zone, job.record, TXT)
  }

  function Records(job: Job): seq<string> {
    [QuoteTXT(job.key)]
  }

  /** The first request on the record: create for Present, delete for CleanUp. */
  function WriteRequest(s: Settings, job: Job, zone: int): Request {
    if job.present then Create(TargetKey(job, zone), s.rrsetTtl, Records(job))
    else Delete(TargetKey(job, zone))
  }

  function FindZone(zones: seq<Zone>, name: string): Option<int> {
    if zones == [] then None
    else if zones[0].name == name then Some(zones[0].id)
    else FindZone(zones[1..], name)
  }

  function Using(s: Settings, run: Run, zone: int): Run {
    run.(zone := Some(zone), pc := Calling(WriteRequest(s, run.job, zone), 0, Unsent))
  }

  /** The cache operation of a step. */
  function EventOf(run: Run, c: Choice): Event {
    match run.pc
    case Start => Lookup(CacheKey(run.job), c.now)
    case Returned(ListZones, Success(zones)) =>
      (match FindZone(zones, run.job.apex)
       case Some(id) => Put(CacheKey(run.job), id, c.now)
       case None => Idle(c.now))
    case Returned(Create(_, _, _), Failure(e)) =>
      if Is(e, NotFound) then Invalidate(CacheKey(run.job), c.now) else Idle(c.now)
    case _ => Idle(c.now)
  }

  /** One turn of the loop of do, after the sleep. */
  function AfterAttempt(p: Params, req: Request, attempt: nat, out: Outcome): Pc {
    if out.Failure? && IsRetryable(out.error) && attempt < p.maxRetries then Calling(req, attempt + 1, out.error)
    else Returned(req, out)
  }

  /** What Present and CleanUp do with the outcome of a request. */
  function AfterCall(s: Settings, run: Run, req: Request, out: Outcome): Run {
    match req
    case ListZones =>
      (match out
       case Success(zones) =>
         (match FindZone(zones, run.job.apex)
          case Some(id) => Using(s, run, id)
          case None => run.(pc := Done(if run.job.present then Some(Api(404, 0)) else None)))
       case Failure(e) => run.(pc := Done(if !run.job.present && Is(e, NotFound) then None else Some(e))))
    case Create(k, _, records) =>
      (match out
       case Success(_) => run.(pc := Done(None))
       case Failure(e) =>
         if Is(e, Conflict) then run.(pc := Calling(SetRecords(k, records), 0, Unsent))
         else run.(pc := Done(Some(e))))
    case SetRecords(_, _) =>
      run.(pc := Done(if out.Success? then None else Some(out.error)))
    case Delete(_) =>
      run.(pc := Done(if out.Success? || Is(out.error, NotFound) then None else Some(out.error)))
  }

  function Attempted(s: Settings, run: Run, server: Server, c: Choice): (Run, Server)
    requires run.pc.Calling?
  {
    var Calling(req, n, last) := run.pc;
    if n > 0 && !c.sleepOk then (run.(pc := Returned(req, Failure(Cancelled))), server)
    else
      var (out, after) := Exchange(c.attempt, req, c.listing, c.now, s.dates, server);
      var m := run.meter;
      var meter := if n == 0 then m.(tries := m.tries + 1)
                   else Meter(m.tries + 1, m.sleeps + 1, m.waited + Slept(Delay(s.retry, n, last)));
      (run.(pc := AfterAttempt(s.retry, req, n, out), meter := meter), after)
  }

  function Next(s: Settings, st: State, c: Choice): State {
    var run := st.run;
    var cache := Apply(s.cacheTtl, st.cache, EventOf(run, c));
    match run.pc
    case Done(_) => st
    case Start =>
      (match Answer(st.cache, CacheKey(run.job), c.now)
       case Some(id) => State(Using(s, run, id), st.server, cache)
       case None => State(run.(pc := Calling(ListZones, 0, Unsent)), st.server, cache))
    case Calling(_, _, _) =>
      var (run', server) := Attempted(s, run, st.server, c);
      State(run', server, cache)
    case Returned(req, out) => State(AfterCall(s, run, req, out), st.server, cache)
  }

  /** One call alone, along a sequence of choices. */
  function Solo(s: Settings, st: State, cs: seq<Choice>): State {
    if cs == [] then st else Next(s, Solo(s, st, cs[..|cs| - 1]), cs[|cs| - 1])
  }

  lemma {:induction false} SoloConcat(s: Settings, st: State, a: seq<Choice>, b: seq<Choice>)
    ensures Solo(s, st, a + b) == Solo(s, Solo(s, st, a), b)
  {
    hide Next;
    if b == [] {
      assert a + b == a;
    } else {
      var n := |b| - 1;
      assert (a + b)[..|a| + n] == a + b[..n];
      SoloConcat(s, st, a, b[..n]);
    }
  }

  lemma SoloStep(s: Settings, st: State, cs: seq<Choice>, c: Choice)
    ensures Solo(s, st, cs + [c]) == Next(s, Solo(s, st, cs), c)
  {
    hide Next;
    assert (cs + [c])[..|cs|] == cs;
  }

  // ---- what a step does to the record -----------------------------------------------------

  /** The record set the call is to leave behind, given what was there before. */
  function Final(s: Settings, job: Job, before: Option<RRSet>): Option<RRSet> {
    if !job.present then None
    else Some(RRSet(if before.Some? then before.value.ttl else s.rrsetTtl, Records(job)))
  }

  /** The requests of a run are about its own record, in the order of the protocol. */
  predicate InProtocol(s: Settings, run: Run) {
    match run.pc
    case Start => run.zone.None?
    case Calling(req, _, _) => RequestFits(s, run, req)
    case Returned(req, _) => RequestFits(s, run, req)
    case Done(err) => run.zone.None? ==> err.Some? || !run.job.present
  }

  predicate RequestFits(s: Settings, run: Run, req: Request) {
    if run.zone.None? then req.ListZones?
    else
      || req == WriteRequest(s, run.job, run.zone.value)
      || (run.job.present && req == SetRecords(TargetKey(run.job, run.zone.value), Records(run.job)))
  }

  /** Where the run stands, the record it found and the record there is now. */
  predicate Progress(s: Settings, run: Run, before: Option<RRSet>, now: Option<RRSet>) {
    var final := Final(s, run.job, before);
    && (now == before || now == final)
    && match run.pc
       case Start => false
       case Calling(req, _, _) =>
         && (req.Create? ==> before.None? || now == before)
         && (req.SetRecords? ==> now.Some?)
       case Returned(req, out) =>
         && (req.Create? ==> before.None? || now == before)
         && (req.Create? && out.Failure? && Is(out.error, Conflict) ==> now.Some?)
         && (req.SetRecords? ==> now.Some?)
         && (req.Delete? && out.Failure? && Is(out.error, NotFound) ==> now.None?)
         && (out.Success? ==> now == final)
       case Done(err) => err.None? ==> now == final
  }

  lemma AttemptProgress(s: Settings, run: Run, server: Server, c: Choice, before: Option<RRSet>)
    requires run.pc.Calling? && run.zone.Some? && InProtocol(s, run)
    requires Progress(s, run, before, RecordAt(server, TargetKey(run.job, run.zone.value)))
    ensures var (run', server') := Attempted(s, run, server, c);
            && run'.job == run.job && run'.zone == run.zone && InProtocol(s, run')
            && SameElsewhere(server, server', TargetKey(run.job, run.zone.value))
            && Progress(s, run', before, RecordAt(server', TargetKey(run.job, run.zone.value)))
  {
    hide Exchange, ParseRetryAfter, Delay, QuoteTXT, IsRetryable;
    var req := run.pc.req;
    VerdictsAreHonest(c.attempt, req, c.listing, c.now, s.dates, server);
    ServeIsLocal(req, server, server);
  }

  /** One step: the record moves along the protocol, no other record set changes, and a zone in
      use stays in use. */
  lemma StepProgress(s: Settings, st: State, c: Choice, before: Option<RRSet>)
    requires InProtocol(s, st.run) && st.run.zone.Some?
    requires Progress(s, st.run, before, RecordAt(st.server, TargetKey(st.run.job, st.run.zone.value)))
    ensures var st' := Next(s, st, c);
            && st'.run.job == st.run.job && st'.run.zone == st.run.zone && InProtocol(s, st'.run)
            && SameElsewhere(st.server, st'.server, TargetKey(st.run.job, st.run.zone.value))
            && Progress(s, st'.run, before, RecordAt(st'.server, TargetKey(st.run.job, st.run.zone.value)))
  {
    hide QuoteTXT, Attempted;
    if st.run.pc.Calling? {
      AttemptProgress(s, st.run, st.server, c, before);
    }
  }

  /** Before a zone is in use nothing is written; when one comes into use the record is as found. */
  lemma StepBeforeZone(s: Settings, st: State, c: Choice)
    requires InProtocol(s, st.run) && st.run.zone.None?
    ensures var st' := Next(s, st, c);
            && st'.run.job == st.run.job && InProtocol(s, st'.run) && st'.server == st.server
            && (st'.run.zone.Some? ==>
                  var now := RecordAt(st.server, TargetKey(st.run.job, st'.run.zone.value));
                  Progress(s, st'.run, now, now))
  {
    hide ParseRetryAfter, Delay, QuoteTXT;
  }

  // ---- Present and CleanUp under lost answers ---------------------------------------------

  /** A call alone: the zone in use, the record there and everything else. */
  ghost predicate SoloInv(s: Settings, st0: State, st: State) {
    && st.run.job == st0.run.job && InProtocol(s, st.run)
    && (st.run.zone.None? ==> st.server == st0.server)
    && (st.run.zone.Some? ==>
          var k := TargetKey(st.run.job, st.run.zone.value);
          SameElsewhere(st0.server, st.server, k) &&
          Progress(s, st.run, RecordAt(st0.server, k), RecordAt(st.server, k)))
  }

  lemma {:induction false} SoloKeepsInv(s: Settings, st0: State, cs: seq<Choice>)
    requires st0.run == NewRun(st0.run.job)
    ensures SoloInv(s, st0, Solo(s, st0, cs))
  {
    if cs != [] {
      var n := |cs| - 1;
      SoloKeepsInv(s, st0, cs[..n]);
      var st := Solo(s, st0, cs[..n]);
      hide Next, Progress, InProtocol;
      if st.run.zone.Some? {
        StepProgress(s, st, cs[n], RecordAt(st0.server, TargetKey(st.run.job, st.run.zone.value)));
      } else {
        StepBeforeZone(s, st, cs[n]);
      }
    }
  }

  /** Present, for every initial server, cache and fault pattern: a nil error means that the TXT
      record set at the zone in use holds exactly the quoted key, with the TTL it had or else
      the configured one; an error leaves it as it was or in that same state, and is the failure
      of the last attempt; nothing else changes, and with no zone in use nothing at all. */
  lemma PresentUnderLostAnswers(s: Settings, st0: State, cs: seq<Choice>)
    requires st0.run == NewRun(st0.run.job) && st0.run.job.present
    ensures var st := Solo(s, st0, cs);
            && (st.run.zone.None? ==> st.server == st0.server && st.run.pc != Done(None))
            && (st.run.zone.Some? ==>
                  var k := RecordKey(st.run.zone.value, st0.run.job.record, "TXT");
                  var before := RecordAt(st0.server, k);
                  var ttl := if before.Some? then before.value.ttl else s.rrsetTtl;
                  var final := Some(RRSet(ttl, [QuoteTXT(st0.run.job.key)]));
                  && SameElsewhere(st0.server, st.server, k)
                  && (RecordAt(st.server, k) == before || RecordAt(st.server, k) == final)
                  && (st.run.pc == Done(None) ==> RecordAt(st.server, k) == final))
            && (st.run.pc.Done? && st.run.pc.err.Some? ==> Blamed(s, st0, cs, st.run.pc.err.value))
  {
    hide QuoteTXT, Blamed, Solo;
    SoloKeepsInv(s, st0, cs);
    SoloError(s, st0, cs);
  }

  // ---- which zone a call goes by ----------------------------------------------------------

  /** The call holds the successful answer to its list request. */
  predicate HoldsList(run: Run) {
    run.pc.Returned? && run.pc.req.ListZones? && run.pc.outcome.Success?
  }

  /** In this step the server answers the list request of the call. */
  predicate ListsNow(run: Run, c: Choice) {
    run.pc.Calling? && run.pc.req.ListZones? && (run.pc.attempt == 0 || c.sleepOk) &&
    c.attempt.Sent? && c.attempt.reply.Answered?
  }

  /** The list with which the list request of the call has been answered, if it has. */
  function ListAnswer(s: Settings, st0: State, cs: seq<Choice>): Option<seq<Zone>> {
    if cs == [] then None
    else
      var n := |cs| - 1;
      if ListsNow(Solo(s, st0, cs[..n]).run, cs[n]) then Some(cs[n].listing) else ListAnswer(s, st0, cs[..n])
  }

  /** The zone the call goes by: the cached one at its first step, or else the one in the list
      with which it is answered. */
  function GoesBy(s: Settings, st0: State, cs: seq<Choice>): Option<int> {
    if cs == [] then None
    else
      var cached := Answer(st0.cache, CacheKey(st0.run.job), cs[0].now);
      if cached.Some? then cached
      else
        match ListAnswer(s, st0, cs)
        case None => None
        case Some(zones) => FindZone(zones, st0.run.job.apex)
  }

  /** A list request that failed did not fail with 404. */
  predicate ListHonest(run: Run) {
    run.pc.Returned? && run.pc.req.ListZones? && run.pc.outcome.Failure? ==> !Is(run.pc.outcome.error, NotFound)
  }

  /** One step, seen from the list request. */
  lemma StepLists(s: Settings, st: State, c: Choice)
    requires InProtocol(s, st.run) && ListHonest(st.run)
    ensures var run := Next(s, st, c).run;
            && !run.pc.Start? && ListHonest(run)
            && (HoldsList(run) <==> ListsNow(st.run, c))
            && (HoldsList(run) ==> run.pc.outcome.zones == c.listing)
            && (run.pc.Calling? && run.pc.req.ListZones? ==> st.run.pc.Start? || st.run.pc.Calling?)
            && (st.run.pc.Start? ==> run.zone == Answer(st.cache, CacheKey(st.run.job), c.now))
            && (st.run.zone.None? && HoldsList(st.run) ==>
                  run.zone == FindZone(st.run.pc.outcome.zones, st.run.job.apex))
            && (st.run.zone.Some? || (!st.run.pc.Start? && !HoldsList(st.run)) ==> run.zone == st.run.zone)
            && (run.zone.None? && run.pc == Done(None) && st.run.pc != Done(None) ==> HoldsList(st.run))
  {
    hide ParseRetryAfter, Delay, QuoteTXT, FindZone, Apply;
  }

  /** How far the call has come with finding its zone. */
  ghost predicate ZoneInv(s: Settings, st0: State, cs: seq<Choice>, run: Run) {
    && (run.pc.Start? <==> cs == []) && ListHonest(run)
    && (run.zone.Some? ==> run.zone == GoesBy(s, st0, cs))
    && (run.zone.None? && cs != [] ==> Answer(st0.cache, CacheKey(st0.run.job), cs[0].now).None?)
    && (HoldsList(run) ==> ListAnswer(s, st0, cs) == Some(run.pc.outcome.zones))
    && (run.zone.None? && run.pc == Done(None) ==> ListAnswer(s, st0, cs).Some? && GoesBy(s, st0, cs).None?)
  }

  lemma {:induction false} SoloZone(s: Settings, st0: State, cs: seq<Choice>)
    requires st0.run == NewRun(st0.run.job)
    ensures ZoneInv(s, st0, cs, Solo(s, st0, cs).run)
  {
    if cs != [] {
      hide Next, InProtocol, Progress, FindZone, Answer;
      var n := |cs| - 1;
      SoloZone(s, st0, cs[..n]);
      SoloKeepsInv(s, st0, cs[..n]);
      var st := Solo(s, st0, cs[..n]);
      StepLists(s, st, cs[n]);
      assert n > 0 ==> cs[..n][0] == cs[0];
    }
  }

  /** CleanUp, likewise: a nil error means that no TXT record set of that name is left at the
      zone in use, or that the list with which the call was answered did not have the apex; an
      error leaves it absent or untouched. */
  lemma CleanUpUnderLostAnswers(s: Settings, st0: State, cs: seq<Choice>)
    requires st0.run == NewRun(st0.run.job) && !st0.run.job.present
    ensures var st := Solo(s, st0, cs);
            && (st.run.zone.None? ==> st.server == st0.server)
            && (st.run.zone.None? && st.run.pc == Done(None) ==>
                  ListAnswer(s, st0, cs).Some? && FindZone(ListAnswer(s, st0, cs).value, st0.run.job.apex).None?)
            && (st.run.zone.Some? ==>
                  var k := RecordKey(st.run.zone.value, st0.run.job.record, "TXT");
                  && SameElsewhere(st0.server, st.server, k)
                  && (RecordAt(st.server, k) == RecordAt(st0.server, k) || RecordAt(st.server, k) == None)
                  && (st.run.pc == Done(None) ==> RecordAt(st.server, k) == None))
            && (st.run.pc.Done? && st.run.pc.err.Some? ==> Blamed(s, st0, cs, st.run.pc.err.value))
  {
    hide QuoteTXT, Solo, FindZone, ListAnswer, Blamed;
    SoloKeepsInv(s, st0, cs);
    SoloZone(s, st0, cs);
    SoloError(s, st0, cs);
  }

  /** A CleanUp that ended nil has removed the record at zone `id` exactly when that is the zone
      it went by: the cached one or else the one in the list it was answered with. */
  lemma CleanUpRemovesExactly(s: Settings, st0: State, cs: seq<Choice>, id: int)
    requires st0.run == NewRun(st0.run.job) && !st0.run.job.present
    requires Solo(s, st0, cs).run.pc == Done(None)
    requires RecordAt(st0.server, TargetKey(st0.run.job, id)).Some?
    ensures RecordAt(Solo(s, st0, cs).server, TargetKey(st0.run.job, id)).None? <==> GoesBy(s, st0, cs) == Some(id)
  {
    hide Solo, GoesBy, ListAnswer, FindZone, Progress, InProtocol;
    CleanUpUnderLostAnswers(s, st0, cs);
    SoloZone(s, st0, cs);
  }

  /** An honest answer to the list request. */
  function Listed(zones: seq<Zone>, now: int): Choice {
    Choice(Sent(true, Answered), true, now, zones)
  }

  /** On a cold cache, a list answer without zones ends CleanUp with a nil error and every record
      set still there. */
  lemma CleanUpCanMiss(s: Settings, st0: State, id: int, now: int)
    requires st0.run == NewRun(st0.run.job) && !st0.run.job.present && CacheKey(st0.run.job) !in st0.cache
    requires TargetKey(st0.run.job, id) in st0.server.rrsets
    ensures var c := Listed([], now);
            var end := Solo(s, st0, [c, c, c]);
            && end.run.pc == Done(None) && end.server == st0.server
            && TargetKey(st0.run.job, id) in end.server.rrsets
  {
    var c := Listed([], now);
    SoloStep(s, st0, [], c);
    SoloStep(s, st0, [c], c);
    SoloStep(s, st0, [c, c], c);
    assert [] + [c] == [c] && [c] + [c] == [c, c] && [c, c] + [c] == [c, c, c];
    hide Solo, QuoteTXT, Apply, RecordAt;
    var one := Next(s, st0, c);
    assert one.run.pc == Calling(ListZones, 0, Unsent) && one.server == st0.server && one.run.job == st0.run.job;
    var two := Next(s, one, c);
    assert two.run.pc == Returned(ListZones, Success([])) && two.server == st0.server && two.run.job == st0.run.job;
  }

  // ---- which error a call returns ---------------------------------------------------------

  /** The last step at which the call was about to attempt a request. */
  function LastTry(s: Settings, st0: State, cs: seq<Choice>): (r: Option<nat>)
    ensures r.Some? ==> r.value < |cs| && Solo(s, st0, cs[..r.value]).run.pc.Calling?
  {
    if cs == [] then None
    else
      var n := |cs| - 1;
      if Solo(s, st0, cs[..n]).run.pc.Calling? then Some(n)
      else
        var r := LastTry(s, st0, cs[..n]);
        assert r.Some? ==> cs[..n][..r.value] == cs[..r.value];
        r
  }

  /** What comes of an attempt, or of the sleep before it. */
  function TryOutcome(s: Settings, st: State, c: Choice): Outcome
    requires st.run.pc.Calling?
  {
    if st.run.pc.attempt > 0 && !c.sleepOk then Failure(Cancelled)
    else Exchange(c.attempt, st.run.pc.req, c.listing, c.now, s.dates, st.server).0
  }

  /** The error is Cancelled if the last sleep was cut short; the failure of the last attempt; or
      404 if the list with which a Present was answered did not have the apex. */
  ghost predicate Blamed(s: Settings, st0: State, cs: seq<Choice>, e: Error) {
    match LastTry(s, st0, cs)
    case None => false
    case Some(t) =>
      var st, c := Solo(s, st0, cs[..t]), cs[t];
      if st.run.pc.attempt > 0 && !c.sleepOk then e == Cancelled
      else
        e != Cancelled &&
        match Exchange(c.attempt, st.run.pc.req, c.listing, c.now, s.dates, st.server).0
        case Failure(f) => e == f
        case Success(zones) =>
          e == Api(404, 0) && st0.run.job.present && st.run.pc.req.ListZones? && FindZone(zones, st0.run.job.apex).None?
  }

  /** The call holds what came of its last try, or has ended with the error that follows. */
  ghost predicate ErrorInv(s: Settings, st0: State, cs: seq<Choice>, run: Run) {
    && run.job == st0.run.job
    && (run.pc.Returned? ==>
          var t := LastTry(s, st0, cs);
          t.Some? && Solo(s, st0, cs[..t.value]).run.pc.req == run.pc.req &&
          run.pc.outcome == TryOutcome(s, Solo(s, st0, cs[..t.value]), cs[t.value]))
    && (run.pc.Done? && run.pc.err.Some? ==> Blamed(s, st0, cs, run.pc.err.value))
  }

  /** One step, seen from its outcome. */
  lemma StepError(s: Settings, st: State, c: Choice)
    ensures var run := Next(s, st, c).run;
            && run.job == st.run.job
            && (run.pc.Returned? ==>
                  st.run.pc.Calling? && run.pc.req == st.run.pc.req && run.pc.outcome == TryOutcome(s, st, c))
            && (run.pc.Done? && run.pc.err.Some? && !st.run.pc.Done? ==>
                  st.run.pc.Returned? &&
                  match st.run.pc.outcome
                  case Failure(e) => run.pc.err == Some(e)
                  case Success(zones) =>
                    run.pc.err == Some(Api(404, 0)) && st.run.job.present && st.run.pc.req.ListZones? &&
                    FindZone(zones, st.run.job.apex).None?)
            && (st.run.pc.Done? ==> run == st.run)
  {
    hide Exchange, Delay, QuoteTXT, FindZone;
  }

  lemma NeverCancelled(a: Attempt, req: Request, listing: seq<Zone>, now: int, dates: Dates, srv: Server)
    ensures Exchange(a, req, listing, now, dates, srv).0 != Failure(Cancelled)
  {
    hide ParseRetryAfter;
  }

  /** A step that attempts nothing leaves the last try, and the blame, where they were. */
  lemma LastTryStays(s: Settings, st0: State, cs: seq<Choice>)
    requires cs != [] && !Solo(s, st0, cs[..|cs| - 1]).run.pc.Calling?
    ensures var front := cs[..|cs| - 1];
            var t := LastTry(s, st0, cs);
            && t == LastTry(s, st0, front)
            && (t.Some? ==> t.value < |front| && front[..t.value] == cs[..t.value] && front[t.value] == cs[t.value])
            && forall e :: Blamed(s, st0, front, e) <==> Blamed(s, st0, cs, e)
  {
    hide Exchange, FindZone, Solo;
    var t := LastTry(s, st0, cs);
    if t.Some? {
      assert cs[..|cs| - 1][..t.value] == cs[..t.value];
    }
  }

  /** The error that follows from the outcome of the last try is the one to blame. */
  lemma OutcomeIsBlamed(s: Settings, st0: State, cs: seq<Choice>, e: Error)
    requires LastTry(s, st0, cs).Some?
    requires var t := LastTry(s, st0, cs).value;
             var st := Solo(s, st0, cs[..t]);
             match TryOutcome(s, st, cs[t])
             case Failure(f) => e == f
             case Success(zones) =>
               e == Api(404, 0) && st0.run.job.present && st.run.pc.req.ListZones? &&
               FindZone(zones, st0.run.job.apex).None?
    ensures Blamed(s, st0, cs, e)
  {
    hide Exchange, FindZone, Solo, LastTry;
    var t := LastTry(s, st0, cs).value;
    var at, c := Solo(s, st0, cs[..t]), cs[t];
    NeverCancelled(c.attempt, at.run.pc.req, c.listing, c.now, s.dates, at.server);
  }

  lemma {:induction false} SoloError(s: Settings, st0: State, cs: seq<Choice>)
    requires st0.run == NewRun(st0.run.job)
    ensures ErrorInv(s, st0, cs, Solo(s, st0, cs).run)
  {
    if cs != [] {
      hide Next, TryOutcome, FindZone, Blamed;
      var n := |cs| - 1;
      SoloError(s, st0, cs[..n]);
      var st := Solo(s, st0, cs[..n]);
      StepError(s, st, cs[n]);
      if !st.run.pc.Calling? {
        LastTryStays(s, st0, cs);
        hide LastTry;
        var end := Next(s, st, cs[n]).run;
        if !st.run.pc.Done? && end.pc.Done? && end.pc.err.Some? {
          OutcomeIsBlamed(s, st0, cs, end.pc.err.value);
        }
      }
    }
  }

  // ---- what a call leaves in the cache ----------------------------------------------------

  /** The call has ended because the zone it went by is gone. */
  predicate ZoneWasGone(run: Run) {
    run.job.present && run.pc.Done? && run.pc.err.Some? && Is(run.pc.err.value, NotFound)
  }

  ghost predicate CacheInv(st: State) {
    var key := CacheKey(st.run.job);
    st.run.zone.Some? ==>
      if ZoneWasGone(st.run) then key !in st.cache else key in st.cache && st.cache[key].id == st.run.zone.value
  }

  lemma StepCaches(s: Settings, st: State, c: Choice)
    requires InProtocol(s, st.run) && CacheInv(st) && Replaceable(st.run)
    ensures CacheInv(Next(s, st, c))
  {
    hide Exchange, Delay, QuoteTXT, FindZone;
  }

  /** A replacing request is never answered 404: the record is there. */
  predicate Replaceable(run: Run) {
    run.pc.Returned? && run.pc.req.SetRecords? && run.pc.outcome.Failure? ==> !Is(run.pc.outcome.error, NotFound)
  }

  lemma StepReplaces(s: Settings, st: State, c: Choice, before: Option<RRSet>)
    requires InProtocol(s, st.run) && Replaceable(st.run)
    requires st.run.zone.Some? ==>
               Progress(s, st.run, before, RecordAt(st.server, TargetKey(st.run.job, st.run.zone.value)))
    ensures Replaceable(Next(s, st, c).run)
  {
    hide Exchange, Delay, QuoteTXT, FindZone, IsRetryable;
    if st.run.pc.Calling? {
      VerdictsAreHonest(c.attempt, st.run.pc.req, c.listing, c.now, s.dates, st.server);
    }
  }

  /** After every call, at every moment: the zone in use is in the cache, so that the next call
      need not list; unless the zone proved to be gone, and then it is not, so that the next call
      lists again. */
  lemma {:induction false} ZoneIsCached(s: Settings, st0: State, cs: seq<Choice>)
    requires st0.run == NewRun(st0.run.job)
    ensures CacheInv(Solo(s, st0, cs)) && Replaceable(Solo(s, st0, cs).run)
  {
    if cs != [] {
      hide Next, Progress, InProtocol, CacheInv, Replaceable;
      var n := |cs| - 1;
      ZoneIsCached(s, st0, cs[..n]);
      SoloKeepsInv(s, st0, cs[..n]);
      var st := Solo(s, st0, cs[..n]);
      StepCaches(s, st, cs[n]);
      var zone := st.run.zone;
      StepReplaces(s, st, cs[n], if zone.Some? then RecordAt(st0.server, TargetKey(st.run.job, zone.value)) else None);
    }
  }

  /** A call that finds its zone in the cache goes by it and sends no list request. */
  lemma HitNeverLists(s: Settings, st0: State, cs: seq<Choice>)
    requires st0.run == NewRun(st0.run.job) && cs != []
    requires Answer(st0.cache, CacheKey(st0.run.job), cs[0].now).Some?
    ensures var run := Solo(s, st0, cs).run;
            && run.zone == Answer(st0.cache, CacheKey(st0.run.job), cs[0].now)
            && (run.pc.Calling? || run.pc.Returned? ==> !run.pc.req.ListZones?)
  {
    hide Solo, Progress, Answer, ListAnswer;
    SoloZone(s, st0, cs);
    SoloKeepsInv(s, st0, cs);
  }

  // ---- calls one after the other ----------------------------------------------------------

  lemma SameServer(a: Server, b: Server)
    requires a.live == b.live && forall k :: RecordAt(a, k) == RecordAt(b, k)
    ensures a == b
  {
    forall k ensures k in a.rrsets <==> k in b.rrsets {
      assert RecordAt(a, k) == RecordAt(b, k);
    }
    forall k | k in a.rrsets ensures a.rrsets[k] == b.rrsets[k] {
      assert RecordAt(a, k) == RecordAt(b, k);
    }
    assert a.rrsets == b.rrsets;
  }

  /** A CleanUp of a record that is already gone changes nothing, however it ends. */
  lemma CleanUpOfAbsent(s: Settings, st0: State, cs: seq<Choice>)
    requires st0.run == NewRun(st0.run.job) && !st0.run.job.present
    requires var st := Solo(s, st0, cs);
             st.run.zone.Some? ==> RecordAt(st0.server, TargetKey(st0.run.job, st.run.zone.value)).None?
    ensures Solo(s, st0, cs).server == st0.server
  {
    hide Solo, Progress, InProtocol;
    CleanUpUnderLostAnswers(s, st0, cs);
    var st := Solo(s, st0, cs);
    if st.run.zone.Some? {
      var k := TargetKey(st0.run.job, st.run.zone.value);
      forall x ensures RecordAt(st.server, x) == RecordAt(st0.server, x) {
        if x != k {
        }
      }
      SameServer(st.server, st0.server);
    }
  }

  /** A Present of the key that is already there changes nothing, however it ends. */
  lemma PresentOfPresented(s: Settings, st0: State, cs: seq<Choice>)
    requires st0.run == NewRun(st0.run.job) && st0.run.job.present
    requires var st := Solo(s, st0, cs);
             st.run.zone.Some? ==>
               var found := RecordAt(st0.server, TargetKey(st0.run.job, st.run.zone.value));
               found.Some? && found.value.records == Records(st0.run.job)
    ensures Solo(s, st0, cs).server == st0.server
  {
    hide Solo, QuoteTXT;
    PresentUnderLostAnswers(s, st0, cs);
    var st := Solo(s, st0, cs);
    if st.run.zone.Some? {
      var k := TargetKey(st0.run.job, st.run.zone.value);
      forall x ensures RecordAt(st.server, x) == RecordAt(st0.server, x) {
        if x != k {
        }
      }
      SameServer(st.server, st0.server);
    }
  }

  /** Present then CleanUp, both nil and in the same zone, on a record that was absent: the
      server is back where it was. */
  lemma PresentThenCleanUp(s: Settings, up: State, cs: seq<Choice>, down: State, ds: seq<Choice>)
    requires up.run == NewRun(up.run.job) && up.run.job.present
    requires down.run == NewRun(up.run.job.(present := false)) && down.server == Solo(s, up, cs).server
    requires Solo(s, up, cs).run.pc == Done(None) && Solo(s, down, ds).run.pc == Done(None)
    requires Solo(s, up, cs).run.zone.Some? && Solo(s, down, ds).run.zone == Solo(s, up, cs).run.zone
    requires RecordAt(up.server, TargetKey(up.run.job, Solo(s, up, cs).run.zone.value)).None?
    ensures Solo(s, down, ds).server == up.server
  {
    hide Solo, QuoteTXT;
    PresentUnderLostAnswers(s, up, cs);
    CleanUpUnderLostAnswers(s, down, ds);
    var k := TargetKey(up.run.job, Solo(s, up, cs).run.zone.value);
    var end := Solo(s, down, ds).server;
    forall x ensures RecordAt(end, x) == RecordAt(up.server, x) {
      if x != k {
        assert RecordAt(end, x) == RecordAt(down.server, x);
      }
    }
    SameServer(end, up.server);
  }
}
