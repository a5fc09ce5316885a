/** The solver and its client as objects (internal/solver/solver.go, internal/hcloud/client.go):
    Present and CleanUp as the step-by-step code they are, proved to run the machine of module
    Challenge and so to keep what is proved about it. */
module Solver {
  import opened Text
  import opened RecordNames
  import opened SolverConfig
  import opened Retry
  import opened ZoneCache
  import opened Api
  import opened Challenge
  import opened Calls
  import opened EndToEnd

  type Plan = nat -> Choice

  ghost predicate ClockRuns(plan: Plan) {
    forall i: nat, k: nat :: i <= k ==> plan(i).now <= plan(k).now
  }

  /** The choices of the steps from a to b. */
  function Taken(plan: Plan, a: nat, b: nat): seq<Choice>
    requires a <= b
  {
    seq(b - a, i requires 0 <= i < b - a => plan(a + i))
  }

  lemma SoloNext(s: Settings, st: State, plan: Plan, a: nat, b: nat)
    requires a <= b
    ensures Solo(s, st, Taken(plan, a, b + 1)) == Next(s, Solo(s, st, Taken(plan, a, b)), plan(b))
  {
    assert Taken(plan, a, b + 1) == Taken(plan, a, b) + [plan(b)];
    SoloStep(s, st, Taken(plan, a, b), plan(b));
  }

  lemma SoloThen(s: Settings, st: State, plan: Plan, a: nat, b: nat, c: nat)
    requires a <= b <= c
    ensures Solo(s, st, Taken(plan, a, c)) == Solo(s, Solo(s, st, Taken(plan, a, b)), Taken(plan, b, c))
  {
    assert Taken(plan, a, c) == Taken(plan, a, b) + Taken(plan, b, c);
    SoloConcat(s, st, Taken(plan, a, b), Taken(plan, b, c));
  }

  /** What was sent after `before` was sent with this token. */
  ghost predicate SentWith(before: seq<string>, after: seq<string>, token: string) {
    before <= after && forall i :: |before| <= i < |after| ==> after[i] == token
  }

  /** Everything outside the process: the server, and what the environment decides at each step. */
  class Link {
    const plan: Plan
    var step: nat
    var server: Server
    var meter: Meter
    var tokens: seq<string>

    constructor (plan: Plan, server: Server)
      ensures this.plan == plan && this.server == server && step == 0 && meter == Meter(0, 0, 0) && tokens == []
    {
      this.plan, this.server := plan, server;
      step, meter, tokens := 0, Meter(0, 0, 0), [];
    }

    /** A new call starts its own account. */
    method BeginCall()
      modifies this`meter
      ensures meter == Meter(0, 0, 0)
    {
      meter := Meter(0, 0, 0);
    }

    /** The clock, at a step that sends nothing. */
    method Tick() returns (now: int)
      modifies this`step
      ensures step == old(step) + 1 && now == plan(old(step)).now
    {
      now := plan(step).now;
      step := step + 1;
    }

    /** Clock.Sleep: false when the context ends first, which uses up the step. */
    method Sleep(delay: int) returns (ok: bool)
      modifies this`meter, this`step
      ensures ok == plan(old(step)).sleepOk
      ensures ok ==> step == old(step) &&
                     meter == Meter(old(meter.tries), old(meter.sleeps) + 1, old(meter.waited) + Slept(delay))
      ensures !ok ==> meter == old(meter) && step == old(step) + 1
    {
      ok := plan(step).sleepOk;
      if ok {
        meter := Meter(meter.tries, meter.sleeps + 1, meter.waited + Slept(delay));
      } else {
        step := step + 1;
      }
    }

    /** doOnce: one attempt, authenticated with the token, and the classification of its outcome. */
    method DoOnce(req: Request, token: string, dates: Dates) returns (out: Outcome)
      modifies this
      ensures step == old(step) + 1
      ensures meter == old(meter).(tries := old(meter.tries) + 1)
      ensures var c := plan(old(step));
              (out, server) == Exchange(c.attempt, req, c.listing, c.now, dates, old(server))
      ensures tokens == old(tokens) + if plan(old(step)).attempt.Sent? then [token] else []
    {
      var c := plan(step);
      step := step + 1;
      meter := meter.(tries := meter.tries + 1);
      if c.attempt.NotSent? {
        return Failure(Unsent);
      }
      tokens := tokens + [token];
      var Sent(applied, reply) := c.attempt;
      var (verdict, after) := Serve(req, server);
      if applied || reply.Answered? || reply.Garbled? {
        server := after;
      }
      match reply {
        case Lost =>
          return Failure(Api(0, 0));
        case Refused(status, header) =>
          var retryAfter := 0;
          if status == 429 {
            retryAfter := ParseRetryAfter(header, c.now, dates);
          }
          return Failure(Api(status, retryAfter));
        case Answered =>
          return FromVerdict(verdict, c.listing);
        case Garbled =>
          if verdict.Accepted? && !req.Delete? {
            return Failure(Undecodable);
          }
          return FromVerdict(verdict, c.listing);
      }
    }
  }

  class Client {
    const settings: Settings
    const link: Link
    const token: string

    constructor (settings: Settings, link: Link, token: string)
      ensures this.settings == settings && this.link == link && this.token == token
    {
      this.settings, this.link, this.token := settings, link, token;
    }

    /** do: repeats the request after transport errors, 429 and 5xx, sleeping in between, and
        moves the machine from the first attempt to the outcome. */
    method Do(req: Request, ghost run: Run, ghost cache: Store) returns (out: Outcome)
      requires run.pc == Calling(req, 0, Unsent) && run.meter == link.meter
      modifies link
      ensures link.step > old(link.step) && SentWith(old(link.tokens), link.tokens, token)
      ensures Solo(settings, State(run, old(link.server), cache), Taken(link.plan, old(link.step), link.step)) ==
              State(run.(pc := Returned(req, out), meter := link.meter), link.server, cache)
    {
      hide Exchange, Delay, Next, Solo, Taken, IsRetryable;
      var attempt, lastErr := 0, Unsent;
      ghost var st0, first := State(run, link.server, cache), link.step;
      out := Failure(lastErr);
      SoloNone(settings, st0, link.plan, first);
      while attempt <= settings.retry.maxRetries
        invariant first <= link.step && (attempt > 0 ==> first < link.step)
        invariant SentWith(old(link.tokens), link.tokens, token)
        invariant attempt <= settings.retry.maxRetries ==>
                    Solo(settings, st0, Taken(link.plan, first, link.step)) ==
                    State(run.(pc := Calling(req, attempt, lastErr), meter := link.meter), link.server, cache)
        invariant attempt == settings.retry.maxRetries + 1 ==>
                    Solo(settings, st0, Taken(link.plan, first, link.step)) ==
                    State(run.(pc := Returned(req, Failure(lastErr)), meter := link.meter), link.server, cache)
        invariant attempt <= settings.retry.maxRetries + 1
        decreases settings.retry.maxRetries + 1 - attempt
      {
        SoloNext(settings, st0, link.plan, first, link.step);
        ghost var calling := run.(pc := Calling(req, attempt, lastErr), meter := link.meter);
        CallingStep(settings, State(calling, link.server, cache), link.plan(link.step));
        if attempt > 0 {
          var delay := BackoffDelay(settings.retry, attempt, lastErr);
          var ok := link.Sleep(delay);
          if !ok {
            return Failure(Cancelled);
          }
        }
        out := link.DoOnce(req, token, settings.dates);
        if out.Success? {
          return;
        }
        lastErr := out.error;
        if !IsRetryable(lastErr) {
          return;
        }
        attempt := attempt + 1;
      }
      return Failure(lastErr);
    }
  }

  // ---- the solver -------------------------------------------------------------------------

  /** Why Present or CleanUp returned an error. */
  datatype SolverError = NilRequest | SetUpFailed(why: PrepareFault) | CallFailed(error: Error)

  /** The error of the API call behind an error of the solver. */
  function CallError(err: Option<SolverError>): Option<Error> {
    if err.Some? && err.value.CallFailed? then Some(err.value.error) else None
  }

  /** Where resolving the zone leaves the machine. */
  function AfterResolve(s: Settings, run: Run, meter: Meter, r: Result<int, Error>): Run {
    match r
    case Ok(id) => Using(s, run.(meter := meter), id)
    case Err(e) => run.(meter := meter, pc := Done(if !run.job.present && Is(e, NotFound) then None else Some(e)))
  }

  /** The machine alone, from the start of the job to where the link and the cache now are. */
  ghost function Played(s: Settings, job: Job, server: Server, cache: Store, plan: Plan, a: nat, b: nat): State
    requires a <= b
  {
    Solo(s, State(NewRun(job), server, cache), Taken(plan, a, b))
  }

  class ChallengeSolver {
    const settings: Settings
    const secrets: Option<Secrets>
    const zones: Cache
    const link: Link

    constructor (settings: Settings, secrets: Option<Secrets>, link: Link)
      requires settings.cacheTtl > 0 && ClockRuns(link.plan)
      ensures Valid() && this.settings == settings && this.secrets == secrets && this.link == link && fresh(zones)
    {
      this.settings, this.secrets, this.link := settings, secrets, link;
      zones := new Cache(settings.cacheTtl);
    }

    ghost predicate Valid()
      reads zones, link
    {
      zones.Valid() && zones.ttl == settings.cacheTtl && ClockRuns(link.plan) &&
      NotBefore(zones.log, link.plan(link.step).now)
    }

    /** resolveZoneID: the cached ID, or the first listed zone of that name, which is then cached. */
    method ResolveZoneID(client: Client, ghost job: Job, secretRef: string, apex: string)
      returns (r: Result<int, Error>)
      requires Valid() && client.link == link && client.settings == settings
      requires job.secretRef == secretRef && job.apex == apex && link.meter == Meter(0, 0, 0)
      modifies zones, link
      ensures Valid() && link.step > old(link.step) && SentWith(old(link.tokens), link.tokens, client.token)
      ensures Played(settings, job, old(link.server), old(zones.store), link.plan, old(link.step), link.step) ==
              State(AfterResolve(settings, NewRun(job), link.meter, r), link.server, zones.store)
    {
      hide Next, Solo, Answer, Apply, Taken;
      ghost var first, st0 := link.step, State(NewRun(job), link.server, zones.store);
      SoloNext(settings, st0, link.plan, first, first);
      SoloNone(settings, st0, link.plan, first);
      LookupStep(settings, st0, link.plan(first));
      var now := link.Tick();
      var cached := zones.Lookup(secretRef, apex, now);
      if cached.Some? {
        return Ok(cached.value);
      }
      ghost var second, kept, listing := link.step, zones.store, st0.run.(pc := Calling(ListZones, 0, Unsent));
      var out := client.Do(ListZones, listing, kept);
      SoloThen(settings, st0, link.plan, first, second, link.step);
      SoloNext(settings, st0, link.plan, first, link.step);
      ghost var listed := listing.(pc := Returned(ListZones, out), meter := link.meter);
      ListedStep(settings, State(listed, link.server, kept), link.plan(link.step), out);
      now := link.Tick();
      if out.Failure? {
        return Err(out.error);
      }
      var found := FindListed(out.zones, apex);
      if found.Some? {
        zones.Store(secretRef, apex, found.value, now);
        return Ok(found.value);
      }
      return Err(Api(404, 0));
    }

    /** reconcileExisting: the record set exists, so its records are replaced. */
    method ReconcileExisting(client: Client, ghost run: Run, key: RecordKey, records: seq<string>)
      returns (err: Option<Error>)
      requires Valid() && client.link == link && client.settings == settings
      requires run.pc == Calling(SetRecords(key, records), 0, Unsent) && run.meter == link.meter
      modifies link
      ensures Valid() && link.step > old(link.step) && SentWith(old(link.tokens), link.tokens, client.token)
      ensures Solo(settings, State(run, old(link.server), zones.store), Taken(link.plan, old(link.step), link.step)) ==
              State(run.(pc := Done(err), meter := link.meter), link.server, zones.store)
    {
      hide Next, Solo, Taken;
      ghost var first, st0 := link.step, State(run, link.server, zones.store);
      var req := SetRecords(key, records);
      var out := client.Do(req, run, zones.store);
      SoloNext(settings, st0, link.plan, first, link.step);
      ghost var written := run.(pc := Returned(req, out), meter := link.meter);
      WrittenStep(settings, State(written, link.server, zones.store), link.plan(link.step), req, out);
      var now := link.Tick();
      if out.Failure? {
        return Some(out.error);
      }
      return None;
    }

    /** The requests of Present once the zone is known. */
    method PresentIn(client: Client, job: Job, zoneID: int) returns (err: Option<Error>)
      requires Valid() && client.link == link && client.settings == settings && job.present
      modifies zones, link
      ensures Valid() && link.step > old(link.step) && SentWith(old(link.tokens), link.tokens, client.token)
      ensures var run := Using(settings, NewRun(job).(meter := old(link.meter)), zoneID);
              Solo(settings, State(run, old(link.server), old(zones.store)),
                   Taken(link.plan, old(link.step), link.step)) ==
              State(Run(job, Done(err), Some(zoneID), link.meter), link.server, zones.store)
    {
      hide Next, Solo, Taken, Apply;
      ghost var first, run := link.step, Using(settings, NewRun(job).(meter := link.meter), zoneID);
      ghost var st0 := State(run, link.server, zones.store);
      var key := TargetKey(job, zoneID);
      var req := Create(key, settings.rrsetTtl, Records(job));
      var out := client.Do(req, run, zones.store);
      ghost var returned := State(run.(pc := Returned(req, out), meter := link.meter), link.server, zones.store);
      SoloNext(settings, st0, link.plan, first, link.step);
      WrittenStep(settings, returned, link.plan(link.step), req, out);
      var now := link.Tick();
      if out.Success? {
        return None;
      }
      if Is(out.error, Conflict) {
        ghost var second := link.step;
        ghost var again := run.(pc := Calling(SetRecords(key, Records(job)), 0, Unsent), meter := link.meter);
        err := ReconcileExisting(client, again, key, Records(job));
        SoloThen(settings, st0, link.plan, first, second, link.step);
        return;
      }
      if Is(out.error, NotFound) {
        zones.Invalidate(job.secretRef, job.apex, now);
      }
      return Some(out.error);
    }

    /** The request of CleanUp once the zone is known. */
    method CleanUpIn(client: Client, job: Job, zoneID: int) returns (err: Option<Error>)
      requires Valid() && client.link == link && client.settings == settings && !job.present
      modifies link
      ensures Valid() && link.step > old(link.step) && SentWith(old(link.tokens), link.tokens, client.token)
      ensures var run := Using(settings, NewRun(job).(meter := old(link.meter)), zoneID);
              Solo(settings, State(run, old(link.server), zones.store),
                   Taken(link.plan, old(link.step), link.step)) ==
              State(Run(job, Done(err), Some(zoneID), link.meter), link.server, zones.store)
    {
      hide Next, Solo, Taken;
      ghost var first, run := link.step, Using(settings, NewRun(job).(meter := link.meter), zoneID);
      ghost var st0 := State(run, link.server, zones.store);
      var req := Delete(TargetKey(job, zoneID));
      var out := client.Do(req, run, zones.store);
      SoloNext(settings, st0, link.plan, first, link.step);
      ghost var written := run.(pc := Returned(req, out), meter := link.meter);
      WrittenStep(settings, State(written, link.server, zones.store), link.plan(link.step), req, out);
      var now := link.Tick();
      if out.Success? || Is(out.error, NotFound) {
        return None;
      }
      return Some(out.error);
    }

    /** Both entry points after prepare: resolve the zone, then write. The machine ends, with
        this result, where the link and the cache are. */
    method Perform(job: Job, token: string) returns (err: Option<Error>, ghost zone: Option<int>)
      requires Valid()
      modifies zones, link
      ensures Valid() && link.step > old(link.step) && SentWith(old(link.tokens), link.tokens, token)
      ensures Played(settings, job, old(link.server), old(zones.store), link.plan, old(link.step), link.step) ==
              State(Run(job, Done(err), zone, link.meter), link.server, zones.store)
    {
      hide Next, Solo, Taken;
      link.BeginCall();
      ghost var first, st0 := link.step, State(NewRun(job), link.server, zones.store);
      var client := new Client(settings, link, token);
      var resolved := ResolveZoneID(client, job, job.secretRef, job.apex);
      if resolved.Err? {
        zone := None;
        if !job.present && Is(resolved.error, NotFound) {
          err := None;
        } else {
          err := Some(resolved.error);
        }
        return;
      }
      ghost var second := link.step;
      zone := Some(resolved.value);
      if job.present {
        err := PresentIn(client, job, resolved.value);
      } else {
        err := CleanUpIn(client, job, resolved.value);
      }
      SoloThen(settings, st0, link.plan, first, second, link.step);
    }

    /** Present. A set-up that fails touches nothing. Otherwise the machine ends, with this
        result, where the link and the cache are, so that for whatever the link does: a nil error
        means that the record set of the challenged name, at the zone in use, holds exactly the
        quoted key, with the TTL it had or else the configured one; an error leaves it as it was
        or so, and is what came of the last attempt; no other record set changes; the requests and
        sleeps are bounded; and every request carries the token of the routed entry. */
    method Present(ch: Option<ChallengeRequest>) returns (err: Option<SolverError>, ghost zone: Option<int>)
      requires Valid()
      modifies zones, link
      ensures Valid()
      ensures var p := SetUp(ch);
              if p.None? then
                && err.Some? && link.server == old(link.server) && zones.store == old(zones.store)
                && link.step == old(link.step) && link.tokens == old(link.tokens)
                && (if ch.None? then err.value.NilRequest?
                    else err.value.SetUpFailed? &&
                         PrepareFaultHolds(ch.value.config, ch.value.namespace, ch.value.fqdn, secrets, err.value.why))
              else
                var job := JobOf(ch.value, p.value, true);
                && old(link.step) < link.step && SentWith(old(link.tokens), link.tokens, p.value.token)
                && Played(settings, job, old(link.server), old(zones.store), link.plan, old(link.step), link.step) ==
                   State(Run(job, Done(CallError(err)), zone, link.meter), link.server, zones.store)
                && (FullName(job.record, job.apex) == Canonical(ch.value.fqdn) <==>
                      SaysWhere(ch.value.fqdn, job.apex))
                && (PlainRef(p.value.ref) ==> ParseRef(job.secretRef) == Some(p.value.ref))
                && (err.Some? ==>
                      err.value.CallFailed? &&
                      Blamed(settings, State(NewRun(job), old(link.server), old(zones.store)),
                             Taken(link.plan, old(link.step), link.step), err.value.error))
                && (zone.None? ==> err.Some? && link.server == old(link.server))
                && (zone.Some? ==>
                      var k := RecordKey(zone.value, job.record, "TXT");
                      var before, now := RecordAt(old(link.server), k), RecordAt(link.server, k);
                      var ttl := if before.Some? then before.value.ttl else settings.rrsetTtl;
                      var final := Some(RRSet(ttl, [QuoteTXT(ch.value.key)]));
                      && SameElsewhere(old(link.server), link.server, k)
                      && (now == before || now == final)
                      && (err.None? ==> now == final))
                && Affordable(settings.retry, link.meter, 3)
    {
      hide Solo, QuoteTXT, Taken, ListAnswer, FindZone, Affordable, PrepareOf, Canonical, SaysWhere, FullName,
        RelativeRecordName, RefString, ParseRef, SameElsewhere, RecordAt, Blamed,
        PrepareFaultHolds;
      zone := None;
      if ch.None? {
        return Some(NilRequest), zone;
      }
      var prepared := Prepare(ch.value.config, ch.value.namespace, ch.value.fqdn, secrets);
      if prepared.Err? {
        return Some(SetUpFailed(prepared.error)), zone;
      }
      var job := JobOf(ch.value, prepared.value, true);
      JobNamesItsFQDN(ch.value, secrets, true);
      ghost var st0, first := State(NewRun(job), link.server, zones.store), link.step;
      var e;
      e, zone := Perform(job, prepared.value.token);
      PresentUnderLostAnswers(settings, st0, Taken(link.plan, first, link.step));
      WholeCallCost(settings, st0, Taken(link.plan, first, link.step));
      err := if e.None? then None else Some(CallFailed(e.value));
    }

    /** CleanUp, likewise: a nil error means that no record set of the challenged name is left at
        the zone in use, or that the list the call was answered with did not have the apex. */
    method CleanUp(ch: Option<ChallengeRequest>) returns (err: Option<SolverError>, ghost zone: Option<int>)
      requires Valid()
      modifies zones, link
      ensures Valid()
      ensures var p := SetUp(ch);
              if p.None? then
                && err.Some? && link.server == old(link.server) && zones.store == old(zones.store)
                && link.step == old(link.step) && link.tokens == old(link.tokens)
                && (if ch.None? then err.value.NilRequest?
                    else err.value.SetUpFailed? &&
                         PrepareFaultHolds(ch.value.config, ch.value.namespace, ch.value.fqdn, secrets, err.value.why))
              else
                var job := JobOf(ch.value, p.value, false);
                && old(link.step) < link.step && SentWith(old(link.tokens), link.tokens, p.value.token)
                && Played(settings, job, old(link.server), old(zones.store), link.plan, old(link.step), link.step) ==
                   State(Run(job, Done(CallError(err)), zone, link.meter), link.server, zones.store)
                && (FullName(job.record, job.apex) == Canonical(ch.value.fqdn) <==>
                      SaysWhere(ch.value.fqdn, job.apex))
                && (PlainRef(p.value.ref) ==> ParseRef(job.secretRef) == Some(p.value.ref))
                && (err.Some? ==>
                      err.value.CallFailed? &&
                      Blamed(settings, State(NewRun(job), old(link.server), old(zones.store)),
                             Taken(link.plan, old(link.step), link.step), err.value.error))
                && (zone.None? ==> link.server == old(link.server))
                && (zone.None? && err.None? ==>
                      var st0 := State(NewRun(job), old(link.server), old(zones.store));
                      var answer := ListAnswer(settings, st0, Taken(link.plan, old(link.step), link.step));
                      answer.Some? && FindZone(answer.value, job.apex).None?)
                && (zone.Some? ==>
                      var k := RecordKey(zone.value, job.record, "TXT");
                      var before, now := RecordAt(old(link.server), k), RecordAt(link.server, k);
                      && SameElsewhere(old(link.server), link.server, k)
                      && (now == before || now == None)
                      && (err.None? ==> now == None))
                && Affordable(settings.retry, link.meter, 2)
    {
      hide Solo, QuoteTXT, Taken, ListAnswer, FindZone, Affordable, PrepareOf, Canonical, SaysWhere, FullName,
        RelativeRecordName, RefString, ParseRef, SameElsewhere, RecordAt, Blamed,
        PrepareFaultHolds;
      zone := None;
      if ch.None? {
        return Some(NilRequest), zone;
      }
      var prepared := Prepare(ch.value.config, ch.value.namespace, ch.value.fqdn, secrets);
      if prepared.Err? {
        return Some(SetUpFailed(prepared.error)), zone;
      }
      var job := JobOf(ch.value, prepared.value, false);
      JobNamesItsFQDN(ch.value, secrets, false);
      ghost var st0, first := State(NewRun(job), link.server, zones.store), link.step;
      var e;
      e, zone := Perform(job, prepared.value.token);
      CleanUpUnderLostAnswers(settings, st0, Taken(link.plan, first, link.step));
      WholeCallCost(settings, st0, Taken(link.plan, first, link.step));
      err := if e.None? then None else Some(CallFailed(e.value));
    }

    /** What prepare makes of the request, if there is one. */
    ghost function SetUp(ch: Option<ChallengeRequest>): Option<Prepared> {
      if ch.None? then None
      else PrepareOf(ch.value.config, ch.value.namespace, ch.value.fqdn, secrets)
    }
  }

  /** The search loop of resolveZoneID: the first zone of that name. */
  method FindListed(zones: seq<Zone>, apex: string) returns (r: Option<int>)
    ensures r == FindZone(zones, apex)
    ensures r.None? ==> forall i :: 0 <= i < |zones| ==> zones[i].name != apex
    ensures r.Some? ==> Zone(r.value, apex) in zones
  {
    for i := 0 to |zones|
      invariant FindZone(zones, apex) == FindZone(zones[i..], apex)
      invariant forall k :: 0 <= k < i ==> zones[k].name != apex
    {
      if zones[i].name == apex {
        assert zones[i] == Zone(zones[i].id, apex);
        return Some(zones[i].id);
      }
    }
    return None;
  }

  // ---- single steps of the machine --------------------------------------------------------

  lemma SoloNone(s: Settings, st: State, plan: Plan, a: nat)
    ensures Solo(s, st, Taken(plan, a, a)) == st
  {
  }

  lemma CallingStep(s: Settings, st: State, c: Choice)
    requires st.run.pc.Calling?
    ensures var (run, server) := Attempted(s, st.run, st.server, c);
            Next(s, st, c) == State(run, server, st.cache)
  {
  }

  lemma LookupStep(s: Settings, st: State, c: Choice)
    requires st.run == NewRun(st.run.job)
    ensures var key := CacheKey(st.run.job);
            var cache := Apply(s.cacheTtl, st.cache, Lookup(key, c.now));
            Next(s, st, c) ==
            match Answer(st.cache, key, c.now)
            case Some(id) => State(Using(s, st.run, id), st.server, cache)
            case None => State(st.run.(pc := Calling(ListZones, 0, Unsent)), st.server, cache)
  {
  }

  lemma ListedStep(s: Settings, st: State, c: Choice, out: Outcome)
    requires st.run.pc == Returned(ListZones, out)
    ensures var key := CacheKey(st.run.job);
            Next(s, st, c) ==
            match out
            case Failure(e) => State(AfterResolve(s, st.run, st.run.meter, Err(e)), st.server, st.cache)
            case Success(zones) =>
              match FindZone(zones, st.run.job.apex)
              case Some(id) =>
                State(AfterResolve(s, st.run, st.run.meter, Ok(id)), st.server,
                      Apply(s.cacheTtl, st.cache, Put(key, id, c.now)))
              case None => State(AfterResolve(s, st.run, st.run.meter, Err(Api(404, 0))), st.server, st.cache)
  {
  }

  lemma WrittenStep(s: Settings, st: State, c: Choice, req: Request, out: Outcome)
    requires st.run.pc == Returned(req, out) && !req.ListZones?
    ensures var gone := out.Failure? && Is(out.error, NotFound);
            Next(s, st, c) ==
            State(AfterCall(s, st.run, req, out), st.server,
                  if req.Create? && gone then Apply(s.cacheTtl, st.cache, Invalidate(CacheKey(st.run.job), c.now))
                  else st.cache)
  {
  }
}
