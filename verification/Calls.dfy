/** The retry loop of one API call (internal/hcloud/client.go, do) seen from outside: which
    attempt decides, and what the attempts and sleeps of a whole Present or CleanUp cost. */
module Calls {
  import opened Text
  import opened Retry
  import opened ZoneCache
  import opened Api
  import opened Challenge

  // ---- the stream of outcomes, with no retry logic ----------------------------------------

  /** The server after each of the choices has been spent on the same request. */
  function ServerAfter(s: Settings, req: Request, srv: Server, cs: seq<Choice>): Server {
    if cs == [] then srv
    else
      var n := |cs| - 1;
      Exchange(cs[n].attempt, req, cs[n].listing, cs[n].now, s.dates, ServerAfter(s, req, srv, cs[..n])).1
  }

  /** The outcome of attempt i when the request is sent once per choice. */
  function OutcomeAt(s: Settings, req: Request, srv: Server, cs: seq<Choice>, i: nat): Outcome
    requires i < |cs|
  {
    Exchange(cs[i].attempt, req, cs[i].listing, cs[i].now, s.dates, ServerAfter(s, req, srv, cs[..i])).0
  }

  predicate Repeats(out: Outcome) {
    out.Failure? && IsRetryable(out.error)
  }

  ghost predicate AllRepeat(s: Settings, req: Request, srv: Server, cs: seq<Choice>, n: nat)
    requires n <= |cs|
  {
    forall i :: 0 <= i < n ==> Repeats(OutcomeAt(s, req, srv, cs, i))
  }

  /** k is the first attempt with a success or a final failure, or else the last one allowed. */
  ghost predicate Decides(s: Settings, req: Request, srv: Server, cs: seq<Choice>, k: nat) {
    && k < |cs| && k <= s.retry.maxRetries
    && AllRepeat(s, req, srv, cs, k)
    && (k == s.retry.maxRetries || !Repeats(OutcomeAt(s, req, srv, cs, k)))
  }

  /** With one choice per allowed attempt, exactly one attempt decides. */
  lemma SomeAttemptDecides(s: Settings, req: Request, srv: Server, cs: seq<Choice>) returns (k: nat)
    requires |cs| == s.retry.maxRetries + 1
    ensures Decides(s, req, srv, cs, k)
    ensures forall j: nat :: Decides(s, req, srv, cs, j) ==> j == k
  {
    hide OutcomeAt;
    k := 0;
    while k < s.retry.maxRetries && Repeats(OutcomeAt(s, req, srv, cs, k))
      invariant k <= s.retry.maxRetries && AllRepeat(s, req, srv, cs, k)
    {
      k := k + 1;
    }
  }

  /** The delays slept before attempts 1 to n. */
  function Waits(s: Settings, req: Request, srv: Server, cs: seq<Choice>, n: nat): nat
    requires n <= |cs|
    requires forall i :: 0 <= i < n ==> OutcomeAt(s, req, srv, cs, i).Failure?
  {
    if n == 0 then 0
    else Waits(s, req, srv, cs, n - 1) + Slept(Delay(s.retry, n, OutcomeAt(s, req, srv, cs, n - 1).error))
  }

  predicate SleepsComplete(cs: seq<Choice>, n: nat) {
    n <= |cs| && forall i :: 1 <= i < n ==> cs[i].sleepOk
  }

  /** The loop after n attempts that all asked for a repetition. */
  lemma {:induction false} StillCalling(s: Settings, st: State, cs: seq<Choice>, n: nat)
    requires st.run.pc.Calling? && st.run.pc.attempt == 0
    requires n <= |cs| && n <= s.retry.maxRetries && SleepsComplete(cs, n)
    requires AllRepeat(s, st.run.pc.req, st.server, cs, n)
    ensures var req, m := st.run.pc.req, st.run.meter;
            Solo(s, st, cs[..n]) ==
            if n == 0 then st
            else State(st.run.(pc := Calling(req, n, OutcomeAt(s, req, st.server, cs, n - 1).error),
                               meter := Meter(m.tries + n, m.sleeps + n - 1,
                                              m.waited + Waits(s, req, st.server, cs, n - 1))),
                       ServerAfter(s, req, st.server, cs[..n]), st.cache)
  {
    hide Exchange, Delay, IsRetryable;
    if n > 0 {
      StillCalling(s, st, cs, n - 1);
      assert cs[..n][..n - 1] == cs[..n - 1] && cs[..n][n - 1] == cs[n - 1];
      var req := st.run.pc.req;
      assert Repeats(OutcomeAt(s, req, st.server, cs, n - 1));
    }
  }

  /** do refines "first final outcome": with sleeps that complete, the call returns the outcome
      of the attempt that decides, after k+1 attempts and k sleeps of the prescribed delays. */
  lemma DoIsFirstFinal(s: Settings, st: State, cs: seq<Choice>, k: nat)
    requires st.run.pc.Calling? && st.run.pc.attempt == 0
    requires Decides(s, st.run.pc.req, st.server, cs, k) && SleepsComplete(cs, k + 1)
    ensures var req, m := st.run.pc.req, st.run.meter;
            Solo(s, st, cs[..k + 1]) ==
            State(st.run.(pc := Returned(req, OutcomeAt(s, req, st.server, cs, k)),
                          meter := Meter(m.tries + k + 1, m.sleeps + k, m.waited + Waits(s, req, st.server, cs, k))),
                  ServerAfter(s, req, st.server, cs[..k + 1]), st.cache)
  {
    hide Exchange, Delay, IsRetryable, Next;
    var req, at := st.run.pc.req, Solo(s, st, cs[..k]);
    StillCalling(s, st, cs, k);
    assert cs[..k + 1][..k] == cs[..k] && cs[..k + 1][k] == cs[k];
    assert Solo(s, st, cs[..k + 1]) == Next(s, at, cs[k]);
    hide Solo, ServerAfter;
    LastAttempt(s, at, cs[k]);
  }

  /** An attempt that is not repeated. */
  lemma LastAttempt(s: Settings, st: State, c: Choice)
    requires st.run.pc.Calling? && (st.run.pc.attempt > 0 ==> c.sleepOk)
    requires var out := Exchange(c.attempt, st.run.pc.req, c.listing, c.now, s.dates, st.server).0;
             st.run.pc.attempt >= s.retry.maxRetries || !Repeats(out)
    ensures var Calling(req, n, last) := st.run.pc;
            var (out, after) := Exchange(c.attempt, req, c.listing, c.now, s.dates, st.server);
            var m := st.run.meter;
            Next(s, st, c) ==
            State(st.run.(pc := Returned(req, out),
                          meter := Meter(m.tries + 1, if n == 0 then m.sleeps else m.sleeps + 1,
                                         if n == 0 then m.waited else m.waited + Slept(Delay(s.retry, n, last)))),
                  after, st.cache)
  {
    hide Exchange, Delay, IsRetryable;
  }

  /** A try is followed by another one exactly when its sleep completed, attempts are left, and it
      met a lost answer, 429 or 5xx. */
  lemma RepeatedExactly(s: Settings, st: State, c: Choice)
    requires st.run.pc.Calling?
    ensures Next(s, st, c).run.pc.Calling? <==>
            && (st.run.pc.attempt == 0 || c.sleepOk) && st.run.pc.attempt < s.retry.maxRetries
            && c.attempt.Sent?
            && (c.attempt.reply.Lost? ||
                (c.attempt.reply.Refused? && (c.attempt.reply.status == 429 || c.attempt.reply.status / 100 == 5)))
  {
    hide ParseRetryAfter, Delay, Serve;
  }

  /** The error of an attempt that is not to be repeated: the request was not sent, the body of an
      accepted answer did not decode, or a status other than 429 and 5xx came back. */
  function FinalError(req: Request, c: Choice, srv: Server): Option<Error> {
    match c.attempt
    case NotSent => Some(Unsent)
    case Sent(_, Garbled) => if Serve(req, srv).0.Accepted? && !req.Delete? then Some(Undecodable) else None
    case Sent(_, Refused(status, _)) => if status == 429 || status / 100 == 5 then None else Some(Api(status, 0))
    case _ => None
  }

  /** Such an attempt ends the request at once: with that error, after this one try, and if it is
      the first one without any sleep. */
  lemma FinalErrorEnds(s: Settings, st: State, c: Choice)
    requires st.run.pc.Calling? && (st.run.pc.attempt == 0 || c.sleepOk)
    requires FinalError(st.run.pc.req, c, st.server).Some?
    ensures var run := Next(s, st, c).run;
            && run.pc == Returned(st.run.pc.req, Failure(FinalError(st.run.pc.req, c, st.server).value))
            && run.meter.tries == st.run.meter.tries + 1
            && (st.run.pc.attempt == 0 ==>
                  run.meter.sleeps == st.run.meter.sleeps && run.meter.waited == st.run.meter.waited)
  {
    hide ParseRetryAfter, Delay, Serve;
  }

  /** A success, a 404 or a 409 that the solver gets is the server's verdict on the last attempt,
      and a refusal has changed nothing. */
  lemma FinalVerdictIsTheServers(s: Settings, st: State, cs: seq<Choice>, k: nat)
    requires st.run.pc.Calling? && st.run.pc.attempt == 0
    requires Decides(s, st.run.pc.req, st.server, cs, k) && SleepsComplete(cs, k + 1)
    ensures var req := st.run.pc.req;
            var asked, end := ServerAfter(s, req, st.server, cs[..k]), Solo(s, st, cs[..k + 1]);
            && end.run.pc.Returned?
            && var out := end.run.pc.outcome;
               && (out.Success? ==> Serve(req, asked) == (Accepted, end.server))
               && (out.Failure? && Is(out.error, NotFound) ==> Serve(req, asked).0 == Missing && end.server == asked)
               && (out.Failure? && Is(out.error, Conflict) ==> Serve(req, asked).0 == Exists && end.server == asked)
  {
    hide Exchange, Solo, Serve, Delay, IsRetryable;
    DoIsFirstFinal(s, st, cs, k);
    var req := st.run.pc.req;
    assert cs[..k + 1][..k] == cs[..k] && cs[..k + 1][k] == cs[k];
    VerdictsAreHonest(cs[k].attempt, req, cs[k].listing, cs[k].now, s.dates, ServerAfter(s, req, st.server, cs[..k]));
  }

  /** A sleep that is cut short ends the call with the context error, and no further attempt. */
  lemma FailedSleepEnds(s: Settings, st: State, cs: seq<Choice>, n: nat)
    requires st.run.pc.Calling? && st.run.pc.attempt == 0
    requires 0 < n < |cs| && n <= s.retry.maxRetries && SleepsComplete(cs, n) && !cs[n].sleepOk
    requires AllRepeat(s, st.run.pc.req, st.server, cs, n)
    ensures var req := st.run.pc.req;
            var end := Solo(s, st, cs[..n + 1]);
            && end.run.pc == Returned(req, Failure(Cancelled))
            && end.run.meter.tries == st.run.meter.tries + n
            && end.server == ServerAfter(s, req, st.server, cs[..n])
  {
    hide Exchange, Delay, IsRetryable;
    StillCalling(s, st, cs, n);
    assert cs[..n + 1][..n] == cs[..n] && cs[..n + 1][n] == cs[n];
  }

  /** Every attempt is answered with a 5xx status or a transport error. */
  predicate OnlyServerTrouble(cs: seq<Choice>) {
    forall i :: 0 <= i < |cs| ==>
      cs[i].attempt.Sent? &&
      (cs[i].attempt.reply.Lost? || (cs[i].attempt.reply.Refused? && 500 <= cs[i].attempt.reply.status < 600))
  }

  lemma {:induction false} TroubleWaits(s: Settings, req: Request, srv: Server, cs: seq<Choice>, n: nat)
    requires OnlyServerTrouble(cs) && n <= |cs|
    ensures AllRepeat(s, req, srv, cs, n)
    ensures Waits(s, req, srv, cs, n) == TotalWait(s.retry, n)
  {
    hide Serve, ParseRetryAfter;
    if n > 0 {
      TroubleWaits(s, req, srv, cs, n - 1);
      assert cs[n - 1].attempt.Sent?;
    }
  }

  /** A call that meets only 5xx and transport errors makes maxRetries + 1 attempts and sleeps
      exactly the sum of the first maxRetries exponential delays. */
  lemma ServerTroubleCost(s: Settings, st: State, cs: seq<Choice>)
    requires st.run.pc.Calling? && st.run.pc.attempt == 0
    requires OnlyServerTrouble(cs) && |cs| == s.retry.maxRetries + 1 && SleepsComplete(cs, |cs|)
    ensures var m, n := st.run.meter, s.retry.maxRetries;
            var end := Solo(s, st, cs);
            end.run.pc.Returned? && Repeats(end.run.pc.outcome) &&
            end.run.meter == Meter(m.tries + n + 1, m.sleeps + n, m.waited + TotalWait(s.retry, n))
  {
    hide Solo, Exchange;
    var req, n := st.run.pc.req, s.retry.maxRetries;
    TroubleWaits(s, req, st.server, cs, n + 1);
    TroubleWaits(s, req, st.server, cs, n);
    DoIsFirstFinal(s, st, cs, n);
    assert cs[..n + 1] == cs;
  }

  // ---- what a whole Present or CleanUp can cost -------------------------------------------

  /** How many calls come before this one. */
  function CallsBefore(req: Request): nat {
    match req
    case ListZones => 0
    case Create(_, _, _) => 1
    case Delete(_) => 1
    case SetRecords(_, _) => 2
  }

  function MaxCalls(job: Job): nat {
    if job.present then 3 else 2
  }

  function Product(a: nat, b: nat): nat {
    a * b
  }

  /** So many calls and, of the next one, so many attempts and sleeps account for the meter. */
  predicate Within(p: Params, m: Meter, calls: nat, tries: nat, sleeps: nat) {
    && m.tries <= Product(calls, p.maxRetries + 1) + tries
    && m.sleeps <= Product(calls, p.maxRetries) + sleeps
    && m.waited <= Product(calls, WaitBound(p, p.maxRetries)) + WaitBound(p, sleeps)
  }

  predicate CostInv(s: Settings, run: Run) {
    var p, m := s.retry, run.meter;
    match run.pc
    case Start => Within(p, m, 0, 0, 0)
    case Calling(req, n, _) => n <= p.maxRetries && Within(p, m, CallsBefore(req), n, if n == 0 then 0 else n - 1)
    case Returned(req, _) => Within(p, m, CallsBefore(req) + 1, 0, 0)
    case Done(_) => Within(p, m, MaxCalls(run.job), 0, 0)
  }

  lemma {:induction false} WaitBoundGrows(p: Params, a: nat, b: nat)
    requires a <= b
    ensures WaitBound(p, a) <= WaitBound(p, b)
  {
    if a < b {
      WaitBoundGrows(p, a, b - 1);
    }
  }

  lemma OneMoreCall(calls: nat, per: nat)
    ensures Product(calls + 1, per) == Product(calls, per) + per
  {
  }

  lemma MoreCalls(a: nat, b: nat, per: nat)
    requires a <= b
    ensures Product(a, per) <= Product(b, per)
  {
  }

  /** One call more, or as many, accounts for at least as much. */
  lemma MoreCallsWithin(p: Params, m: Meter, a: nat, b: nat)
    requires a <= b && Within(p, m, a, 0, 0)
    ensures Within(p, m, b, 0, 0)
  {
    hide Product, WaitBound;
    MoreCalls(a, b, p.maxRetries + 1);
    MoreCalls(a, b, p.maxRetries);
    MoreCalls(a, b, WaitBound(p, p.maxRetries));
  }

  /** The attempts and sleeps of a call are within one call more. */
  lemma CallWithin(p: Params, m: Meter, calls: nat, tries: nat, sleeps: nat)
    requires Within(p, m, calls, tries, sleeps) && tries <= p.maxRetries + 1 && sleeps <= p.maxRetries
    ensures Within(p, m, calls + 1, 0, 0)
  {
    hide Product;
    OneMoreCall(calls, p.maxRetries + 1);
    OneMoreCall(calls, p.maxRetries);
    OneMoreCall(calls, WaitBound(p, p.maxRetries));
    WaitBoundGrows(p, sleeps, p.maxRetries);
  }

  lemma AttemptCost(s: Settings, run: Run, server: Server, c: Choice)
    requires run.pc.Calling? && CostInv(s, run)
    ensures CostInv(s, Attempted(s, run, server, c).0)
  {
    hide Exchange, Delay, Product, WaitBound, IsRetryable;
    var Calling(req, n, last) := run.pc;
    var p, end := s.retry, Attempted(s, run, server, c).0;
    if n > 0 {
      DelayWithin(p, n, last);
    }
    if n > 0 && !c.sleepOk {
      CallWithin(p, end.meter, CallsBefore(req), n, n - 1);
    } else {
      assert Within(p, end.meter, CallsBefore(req), n + 1, n);
      if end.pc.Returned? {
        CallWithin(p, end.meter, CallsBefore(req), n + 1, n);
      }
    }
  }

  lemma StepCost(s: Settings, st: State, c: Choice)
    requires InProtocol(s, st.run) && CostInv(s, st.run)
    ensures CostInv(s, Next(s, st, c).run)
  {
    hide Attempted, Product, WaitBound, Within;
    if st.run.pc.Calling? {
      AttemptCost(s, st.run, st.server, c);
    } else if st.run.pc.Returned? {
      MoreCallsWithin(s.retry, st.run.meter, CallsBefore(st.run.pc.req) + 1, MaxCalls(st.run.job));
    } else if st.run.pc.Start? {
      MoreCallsWithin(s.retry, st.run.meter, 0, 1);
    }
  }

  lemma {:induction false} SoloCost(s: Settings, st0: State, cs: seq<Choice>)
    requires st0.run == NewRun(st0.run.job)
    ensures CostInv(s, Solo(s, st0, cs).run)
  {
    hide Next, SoloInv;
    if cs == [] {
      assert Solo(s, st0, cs).run == NewRun(st0.run.job);
    } else {
      var n := |cs| - 1;
      SoloCost(s, st0, cs[..n]);
      SoloIsInProtocol(s, st0, cs[..n]);
      StepCost(s, Solo(s, st0, cs[..n]), cs[n]);
    }
  }

  lemma SoloIsInProtocol(s: Settings, st0: State, cs: seq<Choice>)
    requires st0.run == NewRun(st0.run.job)
    ensures InProtocol(s, Solo(s, st0, cs).run) && Solo(s, st0, cs).run.job == st0.run.job
  {
    hide Solo, Progress;
    SoloKeepsInv(s, st0, cs);
  }

  /** At most so many requests, sleeps and nanoseconds slept. With initial <= max, a sleep takes
      at most max; otherwise the first one of each request may take an uncapped initial. */
  ghost predicate Affordable(p: Params, m: Meter, calls: nat) {
    && m.tries <= calls * (p.maxRetries + 1)
    && m.sleeps <= calls * p.maxRetries
    && m.waited <= calls * WaitBound(p, p.maxRetries)
    && (InRange(p) && p.initial <= p.max ==> m.waited <= calls * (p.maxRetries * p.max))
  }

  /** At every moment, whatever the settings, Present has made at most 3 * (maxRetries + 1)
      requests and slept at most 3 * maxRetries times, for no longer than three requests can
      wait; CleanUp 2 in place of 3. */
  lemma WholeCallCost(s: Settings, st0: State, cs: seq<Choice>)
    requires st0.run == NewRun(st0.run.job)
    ensures Affordable(s.retry, Solo(s, st0, cs).run.meter, if st0.run.job.present then 3 else 2)
  {
    hide Solo, CostInv, Affordable;
    SoloCost(s, st0, cs);
    SoloIsInProtocol(s, st0, cs);
    InvIsBound(s, Solo(s, st0, cs).run);
  }

  lemma InvIsBound(s: Settings, run: Run)
    requires CostInv(s, run) && InProtocol(s, run)
    ensures Affordable(s.retry, run.meter, MaxCalls(run.job))
  {
    var p, m, calls := s.retry, run.meter, MaxCalls(run.job);
    assert Within(p, m, calls, 0, 0) by {
      hide Within;
      if run.pc.Calling? {
        var n := run.pc.attempt;
        CallWithin(p, m, CallsBefore(run.pc.req), n, if n == 0 then 0 else n - 1);
      }
      if run.pc.Calling? || run.pc.Returned? {
        MoreCallsWithin(p, m, CallsBefore(run.pc.req) + 1, calls);
      } else if run.pc.Start? {
        MoreCallsWithin(p, m, 0, calls);
      }
    }
    if InRange(p) && p.initial <= p.max {
      WaitBoundIsMax(p, p.maxRetries);
    }
  }

  // ---- every call comes to an end ---------------------------------------------------------

  /** More than the steps a run still has before it. */
  function StepsLeft(s: Settings, run: Run): int {
    var per := s.retry.maxRetries + 2;
    match run.pc
    case Start => 3 * per + 1
    case Calling(req, n, _) => (3 - CallsBefore(req)) * per - n
    case Returned(req, _) => (2 - CallsBefore(req)) * per + 1
    case Done(_) => 0
  }

  predicate AttemptInRange(s: Settings, run: Run) {
    run.pc.Calling? ==> run.pc.attempt <= s.retry.maxRetries
  }

  lemma StepsRunOut(s: Settings, st: State, c: Choice)
    requires InProtocol(s, st.run) && AttemptInRange(s, st.run)
    ensures AttemptInRange(s, Next(s, st, c).run)
    ensures StepsLeft(s, st.run) >= 0
    ensures !st.run.pc.Done? ==> StepsLeft(s, Next(s, st, c).run) < StepsLeft(s, st.run)
  {
    hide Exchange, Delay;
  }

  lemma {:induction false} SoloStepsLeft(s: Settings, st0: State, cs: seq<Choice>)
    requires st0.run == NewRun(st0.run.job)
    ensures var run := Solo(s, st0, cs).run;
            AttemptInRange(s, run) && 0 <= StepsLeft(s, run) &&
            (run.pc.Done? || StepsLeft(s, run) <= 3 * (s.retry.maxRetries + 2) + 1 - |cs|)
  {
    hide Next;
    if cs != [] {
      var n := |cs| - 1;
      SoloStepsLeft(s, st0, cs[..n]);
      SoloIsInProtocol(s, st0, cs[..n]);
      StepsRunOut(s, Solo(s, st0, cs[..n]), cs[n]);
      if Solo(s, st0, cs[..n]).run.pc.Done? {
        DoneStaysDone(s, Solo(s, st0, cs[..n]), cs[n]);
      }
      SoloIsInProtocol(s, st0, cs);
      StepsRunOut(s, Solo(s, st0, cs), cs[n]);
    }
  }

  lemma DoneStaysDone(s: Settings, st: State, c: Choice)
    requires st.run.pc.Done?
    ensures Next(s, st, c) == st
  {
    hide Exchange, Delay;
  }

  /** Present and CleanUp finish after at most 3 * maxRetries + 7 steps, whatever happens. */
  lemma EveryCallFinishes(s: Settings, st0: State, cs: seq<Choice>)
    requires st0.run == NewRun(st0.run.job) && |cs| > 3 * s.retry.maxRetries + 6
    ensures Solo(s, st0, cs).run.pc.Done?
  {
    hide Solo, Next;
    SoloStepsLeft(s, st0, cs);
    NotDoneHasStep(s, Solo(s, st0, cs).run);
  }

  lemma NotDoneHasStep(s: Settings, run: Run)
    requires AttemptInRange(s, run) && (run.pc.Done? || StepsLeft(s, run) <= 0) && 0 <= StepsLeft(s, run)
    ensures run.pc.Done?
  {
  }
}
