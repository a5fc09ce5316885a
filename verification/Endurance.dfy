/** Present and CleanUp get through: which faults the retries make up for, exactly, and how bad a
    call that still succeeds can be. */
module Endurance {
  import opened Text
  import opened RecordNames
  import opened Retry
  import opened ZoneCache
  import opened Api
  import opened Challenge
  import opened Calls

  // ---- faults that are made up for --------------------------------------------------------

  /** The server's answer arrives. */
  predicate Answers(c: Choice) {
    c.attempt.Sent? && c.attempt.reply.Answered?
  }

  /** Nothing arrives, or 429 or 5xx, whether the request was applied or not. */
  predicate Transient(c: Choice) {
    c.attempt.Sent? &&
    match c.attempt.reply
    case Lost => true
    case Refused(status, _) => status == 429 || 500 <= status < 600
    case _ => false
  }

  /** The zone is known and exists. */
  predicate Lives(server: Server, zone: Option<int>) {
    zone.Some? && zone.value in server.live
  }

  /** A sleep completes, an attempt is answered or meets a transient fault, and a Present is
      shown its zone and uses a zone that exists. */
  predicate FairStep(st: State, c: Choice) {
    var run := st.run;
    match run.pc
    case Start => run.job.present ==>
                    var cached := Answer(st.cache, CacheKey(run.job), c.now); cached.None? || Lives(st.server, cached)
    case Calling(_, n, _) =>
      && (n == 0 || c.sleepOk) && (Answers(c) || Transient(c))
      && (run.job.present && ListsNow(run, c) ==> Lives(st.server, FindZone(c.listing, run.job.apex)))
    case _ => true
  }

  predicate Fair(s: Settings, st0: State, cs: seq<Choice>) {
    cs == [] || (Fair(s, st0, cs[..|cs| - 1]) && FairStep(Solo(s, st0, cs[..|cs| - 1]), cs[|cs| - 1]))
  }

  /** A transient fault hits the last attempt that a request has. */
  predicate LastFails(s: Settings, run: Run, c: Choice) {
    run.pc.Calling? && run.pc.attempt == s.retry.maxRetries && Transient(c)
  }

  /** Some request has met maxRetries + 1 transient faults in a row. */
  predicate Exhausted(s: Settings, st0: State, cs: seq<Choice>) {
    cs != [] &&
    var n := |cs| - 1;
    (Exhausted(s, st0, cs[..n]) || LastFails(s, Solo(s, st0, cs[..n]).run, cs[n]))
  }

  /** The transient faults that the attempts of the call have met. */
  function Faults(s: Settings, st0: State, cs: seq<Choice>): nat {
    if cs == [] then 0
    else
      var n := |cs| - 1;
      Faults(s, st0, cs[..n]) + if Solo(s, st0, cs[..n]).run.pc.Calling? && Transient(cs[n]) then 1 else 0
  }

  /** What a request that got through has brought. */
  predicate GotThrough(server: Server, run: Run, req: Request, out: Outcome) {
    match req
    case ListZones => out.Success? && (run.job.present ==> Lives(server, FindZone(out.zones, run.job.apex)))
    case Create(_, _, _) => out.Success? || Is(out.error, Conflict)
    case SetRecords(_, _) => out.Success?
    case Delete(_) => out.Success? || Is(out.error, NotFound)
  }

  /** A call that has met transient faults at most, where `exhausted` says whether a request ran
      out of attempts. */
  predicate EnduranceInv(s: Settings, st: State, exhausted: bool) {
    var run := st.run;
    && AttemptInRange(s, run)
    && if exhausted then
         match run.pc
         case Returned(_, out) => Repeats(out)
         case Done(err) => err.Some?
         case _ => false
       else
         && (run.job.present && run.zone.Some? ==> Lives(st.server, run.zone))
         && match run.pc
            case Returned(req, out) => GotThrough(st.server, run, req, out)
            case Done(err) => err.None?
            case _ => true
  }

  /** An attempt on a record that is there to be replaced, in a zone that exists. */
  lemma FairAttempt(s: Settings, st: State, c: Choice)
    requires InProtocol(s, st.run) && st.run.pc.Calling? && EnduranceInv(s, st, false) && FairStep(st, c)
    requires st.run.pc.req.SetRecords? ==> RecordAt(st.server, st.run.pc.req.key).Some?
    ensures EnduranceInv(s, Next(s, st, c), LastFails(s, st.run, c))
  {
    hide ParseRetryAfter, Delay, QuoteTXT, FindZone;
  }

  lemma FairNext(s: Settings, st: State, c: Choice, exhausted: bool)
    requires InProtocol(s, st.run) && EnduranceInv(s, st, exhausted) && FairStep(st, c)
    requires st.run.pc.Calling? && st.run.pc.req.SetRecords? ==> RecordAt(st.server, st.run.pc.req.key).Some?
    ensures EnduranceInv(s, Next(s, st, c), exhausted || LastFails(s, st.run, c))
  {
    if st.run.pc.Calling? {
      hide Next, InProtocol;
      FairAttempt(s, st, c);
    } else {
      hide Attempted, QuoteTXT, FindZone;
    }
  }

  lemma {:induction false} SoloEndures(s: Settings, st0: State, cs: seq<Choice>)
    requires st0.run == NewRun(st0.run.job) && Fair(s, st0, cs)
    ensures EnduranceInv(s, Solo(s, st0, cs), Exhausted(s, st0, cs))
  {
    if cs != [] {
      hide Next, EnduranceInv, FairStep, LastFails;
      var n := |cs| - 1;
      SoloEndures(s, st0, cs[..n]);
      SoloKeepsInv(s, st0, cs[..n]);
      FairNext(s, Solo(s, st0, cs[..n]), cs[n], Exhausted(s, st0, cs[..n]));
    }
  }

  /** When all attempts are answered or meet transient faults, sleeps complete, and a Present
      finds its zone: a call that has had time to finish has ended with a nil error exactly when
      no request met maxRetries + 1 faults in a row. */
  lemma EndsNilExactly(s: Settings, st0: State, cs: seq<Choice>)
    requires st0.run == NewRun(st0.run.job) && Fair(s, st0, cs) && |cs| > 3 * s.retry.maxRetries + 6
    ensures Solo(s, st0, cs).run.pc == Done(None) <==> !Exhausted(s, st0, cs)
  {
    hide Solo, Fair, Exhausted;
    SoloEndures(s, st0, cs);
    EveryCallFinishes(s, st0, cs);
  }

  lemma {:induction false} FaultsCount(s: Settings, st0: State, cs: seq<Choice>)
    requires st0.run == NewRun(st0.run.job) && Fair(s, st0, cs)
    ensures Solo(s, st0, cs).run.pc.Calling? ==> Solo(s, st0, cs).run.pc.attempt <= Faults(s, st0, cs)
    ensures Exhausted(s, st0, cs) ==> Faults(s, st0, cs) > s.retry.maxRetries
  {
    if cs != [] {
      hide Next, FairStep, Transient;
      var n := |cs| - 1;
      FaultsCount(s, st0, cs[..n]);
      AttemptsAreFaults(s, Solo(s, st0, cs[..n]), cs[n]);
    }
  }

  lemma AttemptsAreFaults(s: Settings, st: State, c: Choice)
    requires FairStep(st, c)
    ensures var pc := Next(s, st, c).run.pc;
            pc.Calling? && pc.attempt > 0 ==>
              st.run.pc.Calling? && pc.attempt == st.run.pc.attempt + 1 && Transient(c)
  {
    hide ParseRetryAfter, Delay, QuoteTXT, FindZone;
  }

  /** Up to maxRetries transient faults in the whole call never keep it from ending nil. */
  lemma FewFaultsAreMadeUpFor(s: Settings, st0: State, cs: seq<Choice>)
    requires st0.run == NewRun(st0.run.job) && Fair(s, st0, cs) && |cs| > 3 * s.retry.maxRetries + 6
    requires Faults(s, st0, cs) <= s.retry.maxRetries
    ensures Solo(s, st0, cs).run.pc == Done(None)
  {
    hide Solo, Fair, Exhausted, Faults;
    FaultsCount(s, st0, cs);
    EndsNilExactly(s, st0, cs);
  }

  // ---- the bounds on a call are reached ---------------------------------------------------

  /** A 429 with a Retry-After header, on a request that was not applied. */
  function Throttled(header: string, now: int, zones: seq<Zone>): Choice {
    Choice(Sent(false, Refused(429, header)), true, now, zones)
  }

  /** The server throttles a request as often as it will be repeated, and then answers it. */
  function ThrottledThenAnswered(p: Params, header: string, now: int, zones: seq<Zone>): (cs: seq<Choice>)
    ensures |cs| == p.maxRetries + 1
  {
    seq(p.maxRetries, i => Throttled(header, now, zones)) + [Listed(zones, now)]
  }

  /** The header asks for max or more. */
  predicate AsksForMax(s: Settings, header: string, now: int) {
    0 < s.retry.max <= ParseRetryAfter(header, now, s.dates)
  }

  /** What maxRetries sleeps of max take. */
  function AllSleeps(p: Params): nat {
    Product(p.maxRetries, Slept(p.max))
  }

  lemma ThrottledExchange(s: Settings, req: Request, srv: Server, header: string, now: int, zones: seq<Zone>, n: nat)
    requires AsksForMax(s, header, now) && n >= 1
    ensures var c := Throttled(header, now, zones);
            var (out, after) := Exchange(c.attempt, req, zones, now, s.dates, srv);
            after == srv && Repeats(out) && Slept(Delay(s.retry, n, out.error)) == Slept(s.retry.max)
  {
    hide ParseRetryAfter, Exponential, Serve;
  }

  lemma {:induction false} ThrottledPrefix(s: Settings, req: Request, srv: Server, header: string, now: int,
                                           zones: seq<Zone>, n: nat)
    requires AsksForMax(s, header, now) && n <= s.retry.maxRetries
    ensures var cs := ThrottledThenAnswered(s.retry, header, now, zones);
            ServerAfter(s, req, srv, cs[..n]) == srv && AllRepeat(s, req, srv, cs, n) &&
            Waits(s, req, srv, cs, n) == Product(n, Slept(s.retry.max))
  {
    hide AsksForMax, Exchange, Delay, IsRetryable, Product;
    if n == 0 {
      assert Product(0, Slept(s.retry.max)) == 0 by {
        NoCalls(Slept(s.retry.max));
      }
    } else {
      var cs := ThrottledThenAnswered(s.retry, header, now, zones);
      ThrottledPrefix(s, req, srv, header, now, zones, n - 1);
      assert cs[n - 1] == Throttled(header, now, zones);
      assert cs[..n][..n - 1] == cs[..n - 1];
      ThrottledExchange(s, req, srv, header, now, zones, n);
      OneMoreCall(n - 1, Slept(s.retry.max));
    }
  }

  lemma NoCalls(per: nat)
    ensures Product(0, per) == 0
  {
  }

  function AddMeter(m: Meter, tries: nat, sleeps: nat, waited: nat): Meter {
    Meter(m.tries + tries, m.sleeps + sleeps, m.waited + waited)
  }

  /** Such a request takes maxRetries + 1 attempts and sleeps maxRetries times for max. */
  lemma ThrottledRequest(s: Settings, st: State, header: string, now: int, zones: seq<Zone>)
    requires AsksForMax(s, header, now) && st.run.pc.Calling? && st.run.pc.attempt == 0
    ensures var req, n := st.run.pc.req, s.retry.maxRetries;
            var (verdict, after) := Serve(req, st.server);
            Solo(s, st, ThrottledThenAnswered(s.retry, header, now, zones)) ==
            State(st.run.(pc := Returned(req, FromVerdict(verdict, zones)),
                          meter := AddMeter(st.run.meter, n + 1, n, AllSleeps(s.retry))),
                  after, st.cache)
  {
    hide AsksForMax, Serve, Solo, Waits, Product, IsRetryable, ParseRetryAfter;
    var req, n := st.run.pc.req, s.retry.maxRetries;
    var cs := ThrottledThenAnswered(s.retry, header, now, zones);
    ThrottledPrefix(s, req, st.server, header, now, zones, n);
    assert cs[..n + 1] == cs && cs[n] == Listed(zones, now) && cs[..n + 1][..n] == cs[..n];
    assert forall i :: 0 <= i < n ==> cs[i] == Throttled(header, now, zones);
    DoIsFirstFinal(s, st, cs, n);
  }

  /** A throttled request and the step that takes up its outcome. */
  lemma ThrottledTurn(s: Settings, st: State, header: string, now: int, zones: seq<Zone>)
    requires AsksForMax(s, header, now) && st.run.pc.Calling? && st.run.pc.attempt == 0
    ensures var req, n := st.run.pc.req, s.retry.maxRetries;
            var (verdict, after) := Serve(req, st.server);
            var out := FromVerdict(verdict, zones);
            var run := Run(st.run.job, Returned(req, out), st.run.zone,
                           AddMeter(st.run.meter, n + 1, n, AllSleeps(s.retry)));
            var end := Solo(s, st, ThrottledThenAnswered(s.retry, header, now, zones) + [Listed(zones, now)]);
            end.run == AfterCall(s, run, req, out) && end.server == after
  {
    hide AsksForMax, Solo, Serve, AfterCall, ThrottledThenAnswered, AllSleeps;
    ThrottledRequest(s, st, header, now, zones);
    SoloStep(s, st, ThrottledThenAnswered(s.retry, header, now, zones), Listed(zones, now));
  }

  /** The choices of a whole call whose first so many requests are throttled so. */
  function ThrottledCall(p: Params, header: string, now: int, zones: seq<Zone>, requests: nat): seq<Choice> {
    if requests == 0 then [Listed(zones, now)]
    else ThrottledCall(p, header, now, zones, requests - 1) +
         (ThrottledThenAnswered(p, header, now, zones) + [Listed(zones, now)])
  }

  lemma OneMoreRequest(s: Settings, st0: State, header: string, now: int, zones: seq<Zone>, requests: nat)
    requires requests > 0
    ensures Solo(s, st0, ThrottledCall(s.retry, header, now, zones, requests)) ==
            Solo(s, Solo(s, st0, ThrottledCall(s.retry, header, now, zones, requests - 1)),
                 ThrottledThenAnswered(s.retry, header, now, zones) + [Listed(zones, now)])
  {
    hide Solo, ThrottledThenAnswered;
    SoloConcat(s, st0, ThrottledCall(s.retry, header, now, zones, requests - 1),
               ThrottledThenAnswered(s.retry, header, now, zones) + [Listed(zones, now)]);
  }

  /** The meter after so many throttled requests. */
  function Throttles(p: Params, requests: nat): Meter {
    if requests == 0 then Meter(0, 0, 0)
    else AddMeter(Throttles(p, requests - 1), p.maxRetries + 1, p.maxRetries, AllSleeps(p))
  }

  /** A call on a cold cache about a record that is there, in a zone that is listed. */
  ghost predicate ColdStart(st0: State, id: int) {
    && st0.run == NewRun(st0.run.job) && CacheKey(st0.run.job) !in st0.cache
    && id in st0.server.live && TargetKey(st0.run.job, id) in st0.server.rrsets
  }

  lemma NoneThrottled(s: Settings, st0: State, id: int, header: string, now: int)
    requires ColdStart(st0, id)
    ensures var zones := [Zone(id, st0.run.job.apex)];
            var end := Solo(s, st0, ThrottledCall(s.retry, header, now, zones, 0));
            end.run == Run(st0.run.job, Calling(ListZones, 0, Unsent), None, Throttles(s.retry, 0)) &&
            end.server == st0.server
  {
    hide QuoteTXT;
    var l := Listed([Zone(id, st0.run.job.apex)], now);
    SoloStep(s, st0, [], l);
    assert [] + [l] == [l];
  }

  lemma OneThrottled(s: Settings, st0: State, id: int, header: string, now: int)
    requires ColdStart(st0, id) && AsksForMax(s, header, now)
    ensures var job, zones := st0.run.job, [Zone(id, st0.run.job.apex)];
            var end := Solo(s, st0, ThrottledCall(s.retry, header, now, zones, 1));
            end.run == Run(job, Calling(WriteRequest(s, job, id), 0, Unsent), Some(id), Throttles(s.retry, 1)) &&
            end.server == st0.server
  {
    hide Solo, ThrottledThenAnswered, ThrottledCall, QuoteTXT, AsksForMax, AllSleeps;
    var zones := [Zone(id, st0.run.job.apex)];
    NoneThrottled(s, st0, id, header, now);
    OneMoreRequest(s, st0, header, now, zones, 1);
    ThrottledTurn(s, Solo(s, st0, ThrottledCall(s.retry, header, now, zones, 0)), header, now, zones);
    assert FindZone(zones, st0.run.job.apex) == Some(id);
  }

  lemma TwoThrottled(s: Settings, st0: State, id: int, header: string, now: int)
    requires ColdStart(st0, id) && AsksForMax(s, header, now)
    ensures var job, zones := st0.run.job, [Zone(id, st0.run.job.apex)];
            var end := Solo(s, st0, ThrottledCall(s.retry, header, now, zones, 2));
            var again := SetRecords(TargetKey(job, id), Records(job));
            && end.run == Run(job, if job.present then Calling(again, 0, Unsent) else Done(None), Some(id),
                              Throttles(s.retry, 2))
            && (job.present ==> end.server == st0.server)
  {
    hide Solo, ThrottledThenAnswered, ThrottledCall, QuoteTXT, AsksForMax, AllSleeps;
    var zones := [Zone(id, st0.run.job.apex)];
    OneThrottled(s, st0, id, header, now);
    OneMoreRequest(s, st0, header, now, zones, 2);
    ThrottledTurn(s, Solo(s, st0, ThrottledCall(s.retry, header, now, zones, 1)), header, now, zones);
  }

  /** The bounds are reached: throttled for all it is worth on every request, Present of a record
      that is there still ends nil, after 3 * (maxRetries + 1) requests and 3 * maxRetries sleeps
      of max; CleanUp likewise with 2 in place of 3. */
  lemma BoundsAreReached(s: Settings, st0: State, id: int, header: string, now: int)
    requires ColdStart(st0, id) && AsksForMax(s, header, now)
    ensures var calls, n := if st0.run.job.present then 3 else 2, s.retry.maxRetries;
            var end := Solo(s, st0, ThrottledCall(s.retry, header, now, [Zone(id, st0.run.job.apex)], calls));
            && end.run.pc == Done(None)
            && end.run.meter.tries == calls * (n + 1) && end.run.meter.sleeps == calls * n
            && end.run.meter.waited == calls * (n * s.retry.max)
  {
    hide Solo, ThrottledThenAnswered, ThrottledCall, QuoteTXT, AsksForMax, Throttles;
    var zones := [Zone(id, st0.run.job.apex)];
    TwoThrottled(s, st0, id, header, now);
    assert s.retry.max > 0 by {
      MaxIsPositive(s, header, now);
    }
    ThrottlesAdd(s.retry, 2);
    if st0.run.job.present {
      OneMoreRequest(s, st0, header, now, zones, 3);
      ThrottledTurn(s, Solo(s, st0, ThrottledCall(s.retry, header, now, zones, 2)), header, now, zones);
      ThrottlesAdd(s.retry, 3);
    }
  }

  lemma MaxIsPositive(s: Settings, header: string, now: int)
    requires AsksForMax(s, header, now)
    ensures s.retry.max > 0
  {
    hide ParseRetryAfter;
  }

  lemma {:induction false} ThrottlesAdd(p: Params, requests: nat)
    ensures requests > 0 ==>
              Throttles(p, requests) ==
              AddMeter(Throttles(p, requests - 1), p.maxRetries + 1, p.maxRetries, AllSleeps(p))
    ensures Throttles(p, requests) ==
            Meter(Product(requests, p.maxRetries + 1), Product(requests, p.maxRetries), Product(requests, AllSleeps(p)))
  {
    hide Product, AllSleeps;
    if requests == 0 {
      NoCalls(p.maxRetries + 1);
      NoCalls(p.maxRetries);
      NoCalls(AllSleeps(p));
    } else {
      ThrottlesAdd(p, requests - 1);
      OneMoreCall(requests - 1, p.maxRetries + 1);
      OneMoreCall(requests - 1, p.maxRetries);
      OneMoreCall(requests - 1, AllSleeps(p));
    }
  }

  lemma ThirtySecondsAsksForMax(s: Settings, now: int)
    requires s.retry == DEFAULTS
    ensures AsksForMax(s, Decimal(30), now)
  {
    DecimalReads(30);
    hide Atoi, TrimSpace;
    assert Atoi("") == None by {
      NoNumber();
    }
    WrapsOnce(30 * SECOND);
  }

  lemma NoNumber()
    ensures Atoi("") == None
  {
  }

  /** At the defaults one request can sleep for 180 s at most, and a Retry-After of 30 s on every
      attempt makes it sleep that long. */
  lemma DefaultWorstWait(s: Settings, st: State, now: int, zones: seq<Zone>)
    requires s.retry == DEFAULTS && st.run.pc.Calling? && st.run.pc.attempt == 0
    ensures WaitBound(DEFAULTS, DEFAULTS.maxRetries) == 180 * SECOND
    ensures Solo(s, st, ThrottledThenAnswered(DEFAULTS, Decimal(30), now, zones)).run.meter.waited ==
            st.run.meter.waited + 180 * SECOND
  {
    hide Solo, ThrottledThenAnswered, AsksForMax, Serve;
    ThirtySecondsAsksForMax(s, now);
    ThrottledRequest(s, st, Decimal(30), now, zones);
    WaitBoundIsMax(DEFAULTS, DEFAULTS.maxRetries);
  }

  // ---- the request budget -----------------------------------------------------------------

  /** What the sleep at this step takes, if there is one and it completes. */
  function SleptAt(s: Settings, run: Run, c: Choice): nat {
    if run.pc.Calling? && run.pc.attempt > 0 && c.sleepOk then Slept(Delay(s.retry, run.pc.attempt, run.pc.last)) else 0
  }

  /** Time passes during sleeps, and the context of the call ends them at its deadline: a sleep
      that completes does so before `budget` is over. */
  predicate Budgeted(s: Settings, st0: State, cs: seq<Choice>, budget: int) {
    |cs| <= 1 ||
    var n := |cs| - 1;
    var slept := SleptAt(s, Solo(s, st0, cs[..n]).run, cs[n]);
    Budgeted(s, st0, cs[..n], budget) && cs[n - 1].now + slept <= cs[n].now &&
    (slept > 0 ==> cs[n].now <= cs[0].now + budget)
  }

  lemma {:induction false} SleptSoFar(s: Settings, st0: State, cs: seq<Choice>, budget: nat)
    requires st0.run == NewRun(st0.run.job) && Budgeted(s, st0, cs, budget) && cs != []
    ensures Solo(s, st0, cs).run.meter.waited <= budget
    ensures Solo(s, st0, cs).run.meter.waited <= cs[|cs| - 1].now - cs[0].now
  {
    hide Next, SleptAt;
    var n := |cs| - 1;
    var st := Solo(s, st0, cs[..n]);
    WaitedAt(s, st, cs[n]);
    if n == 0 {
      assert st == st0;
      NoSleepFirst(s, st0, cs[0]);
    } else {
      SleptSoFar(s, st0, cs[..n], budget);
      assert cs[..n][n - 1] == cs[n - 1] && cs[..n][0] == cs[0];
    }
  }

  lemma WaitedAt(s: Settings, st: State, c: Choice)
    ensures Next(s, st, c).run.meter.waited == st.run.meter.waited + SleptAt(s, st.run, c)
  {
    hide Exchange, Delay, QuoteTXT, FindZone;
  }

  lemma NoSleepFirst(s: Settings, st0: State, c: Choice)
    requires st0.run == NewRun(st0.run.job)
    ensures SleptAt(s, st0.run, c) == 0
  {
  }

  /** A whole call never sleeps for longer than its request budget. */
  lemma SleepsWithinBudget(s: Settings, st0: State, cs: seq<Choice>, budget: nat)
    requires st0.run == NewRun(st0.run.job) && Budgeted(s, st0, cs, budget)
    ensures Solo(s, st0, cs).run.meter.waited <= budget
  {
    hide Next;
    if cs != [] {
      SleptSoFar(s, st0, cs, budget);
    }
  }
}
