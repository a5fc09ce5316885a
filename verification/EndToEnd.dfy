/** From challenge requests to records: what routing, naming and the protocol give together. */
module EndToEnd {
  import opened Text
  import opened Routing
  import opened Validation
  import opened RoutingLaws
  import opened RecordNames
  import opened SolverConfig
  import opened Retry
  import opened ZoneCache
  import opened Api
  import opened Challenge
  import opened Processes
  import opened Interleaving

  /** What cert-manager hands to Present and CleanUp. */
  datatype ChallengeRequest = ChallengeRequest(config: RawConfig, namespace: string, fqdn: string, key: string)

  function JobOf(ch: ChallengeRequest, p: Prepared, present: bool): Job {
    Job(present, RefString(p.ref), p.apex, RelativeRecordName(ch.fqdn, p.apex), ch.key)
  }

  /** A request that was prepared to this job, for a name whose record name says where it is. */
  ghost predicate PreparedAs(ch: ChallengeRequest, secrets: Secrets, job: Job) {
    var p := PrepareOf(ch.config, ch.namespace, ch.fqdn, Some(secrets));
    p.Some? && job == JobOf(ch, p.value, job.present) && SaysWhere(ch.fqdn, p.value.apex)
  }

  /** The record that a prepared request leads to is the record of the challenged name exactly
      when the name says where it is. */
  lemma JobNamesItsFQDN(ch: ChallengeRequest, secrets: Option<Secrets>, present: bool)
    requires PrepareOf(ch.config, ch.namespace, ch.fqdn, secrets).Some?
    ensures var p := PrepareOf(ch.config, ch.namespace, ch.fqdn, secrets).value;
            var job := JobOf(ch, p, present);
            && (FullName(job.record, job.apex) == Canonical(ch.fqdn) <==> SaysWhere(ch.fqdn, p.apex))
            && (ParseRef(job.secretRef) == Some(p.ref) <==> PlainRef(p.ref))
            && job.apex == p.apex && job.key == ch.key && job.present == present
  {
    hide ValidConfig, SaysWhere, Canonical, RelativeRecordName, ResolveSecretRef;
    var p := PrepareOf(ch.config, ch.namespace, ch.fqdn, secrets).value;
    RecordNameExactly(RoutingConfig(ch.config.entries, ch.namespace), ch.fqdn, Route(p.index, p.apex));
    RefRoundTrip(p.ref);
  }

  /** As names in Kubernetes are: no "/" in the namespace and no "#" in the secret name. */
  predicate PlainRef(ref: SecretRef) {
    '/' !in ref.namespace && '#' !in ref.name
  }

  /** Prepared calls share a cache entry exactly when they have the same secret reference and the
      same apex. */
  lemma CacheKeysApart(a: ChallengeRequest, p: Prepared, b: ChallengeRequest, q: Prepared, present: bool, other: bool)
    requires PlainRef(p.ref) && PlainRef(q.ref)
    ensures CacheKey(JobOf(a, p, present)) == CacheKey(JobOf(b, q, other)) <==> p.ref == q.ref && p.apex == q.apex
  {
    if RefString(p.ref) == RefString(q.ref) {
      RefInjective(p.ref, q.ref);
    }
  }

  /** Every call was prepared from a request, with the secrets of its process. */
  ghost predicate AllPrepared(moves: seq<Move>, chs: seq<ChallengeRequest>, secrets: nat -> Secrets) {
    |chs| == |moves| &&
    forall t :: 0 <= t < |moves| && moves[t].Begin? ==> PreparedAs(chs[t], secrets(moves[t].home), moves[t].job)
  }

  /** Calls for the same name are made one after the other, by one worker. */
  ghost predicate NameByName(moves: seq<Move>, chs: seq<ChallengeRequest>)
    requires |chs| == |moves|
  {
    forall t, u | 0 <= t < |moves| && 0 <= u < |moves| && moves[t].Begin? && moves[u].Begin? ::
      Canonical(chs[t].fqdn) == Canonical(chs[u].fqdn) ==> moves[t].who == moves[u].who
  }

  /** Requests for distinct names become calls about distinct records, even when they come from
      different issuers with different configs in different processes. */
  lemma DistinctNamesDistinctRecords(moves: seq<Move>, chs: seq<ChallengeRequest>, secrets: nat -> Secrets)
    requires AllPrepared(moves, chs, secrets) && NameByName(moves, chs)
    ensures OneByOne(moves)
  {
    hide Canonical, SaysWhere, FullName;
    forall t, u | 0 <= t < |moves| && 0 <= u < |moves| && moves[t].Begin? && moves[u].Begin? &&
                  SameRecord(moves[t].job, moves[u].job)
      ensures moves[t].who == moves[u].who
    {
      JobNamesItsFQDN(chs[t], Some(secrets(moves[t].home)), moves[t].job.present);
      JobNamesItsFQDN(chs[u], Some(secrets(moves[u].home)), moves[u].job.present);
    }
  }

  /** What the request of move t was prepared to. */
  ghost function PreparedAt(moves: seq<Move>, chs: seq<ChallengeRequest>, secrets: nat -> Secrets, t: nat)
    : Option<Prepared>
    requires t < |moves| == |chs|
  {
    if !moves[t].Begin? then None
    else PrepareOf(chs[t].config, chs[t].namespace, chs[t].fqdn, Some(secrets(moves[t].home)))
  }

  ghost predicate AllPlain(moves: seq<Move>, chs: seq<ChallengeRequest>, secrets: nat -> Secrets)
    requires |chs| == |moves|
  {
    forall t :: 0 <= t < |moves| && PreparedAt(moves, chs, secrets, t).Some? ==>
      PlainRef(PreparedAt(moves, chs, secrets, t).value.ref)
  }

  /** The call that began at move t, in this process, was prepared with this reference and apex,
      and at move u the server answered it with a list in which the apex has this ID. */
  ghost predicate ListedTo(s: Settings, sys0: System, moves: seq<Move>, chs: seq<ChallengeRequest>,
                           secrets: nat -> Secrets, t: nat, u: nat, home: nat, ref: SecretRef, apex: string, id: int)
    requires |chs| == |moves|
  {
    && t < u < |moves| && moves[t].Begin? && moves[t].home == home && moves[u].Step? && moves[t].who == moves[u].who
    && (var p := PreparedAt(moves, chs, secrets, t); p.Some? && p.value.ref == ref && p.value.apex == apex)
    && ShownAt(s, sys0, moves, u, home, CacheKey(moves[t].job), moves[u].choice.listing)
    && FindZone(moves[u].choice.listing, apex) == Some(id)
  }

  /** Where the ID of a zone in use comes from, in terms of prepared references: the starting
      cache of the process, or a list answered to a call with the same reference and apex. */
  ghost predicate OwnProject(s: Settings, sys0: System, moves: seq<Move>, chs: seq<ChallengeRequest>,
                             secrets: nat -> Secrets, home: nat, ref: SecretRef, apex: string, id: int)
    requires |chs| == |moves|
  {
    || (exists key :: key in CacheOf(sys0, home) && ParseRef(key.secretRef) == Some(ref) && key.zone == apex &&
                      CacheOf(sys0, home)[key].id == id)
    || (exists t: nat, u: nat :: ListedTo(s, sys0, moves, chs, secrets, t, u, home, ref, apex, id))
  }

  lemma KnownToOwnProject(s: Settings, sys0: System, moves: seq<Move>, chs: seq<ChallengeRequest>,
                          secrets: nat -> Secrets, a: nat, id: int)
    requires AtRest(sys0) && AllPrepared(moves, chs, secrets) && AllPlain(moves, chs, secrets)
    requires a < |moves| && moves[a].Begin? && KnownAs(s, sys0, moves, moves[a].home, CacheKey(moves[a].job), id)
    ensures var p := PreparedAt(moves, chs, secrets, a);
            p.Some? && OwnProject(s, sys0, moves, chs, secrets, moves[a].home, p.value.ref, p.value.apex, id)
  {
    hide Exec, PrepareOf, FindZone, SaysWhere, RelativeRecordName, ParseRef, RefString;
    var home, key := moves[a].home, CacheKey(moves[a].job);
    var p := PreparedAt(moves, chs, secrets, a).value;
    assert key == Key(RefString(p.ref), p.apex);
    RefRoundTrip(p.ref);
    if !(key in CacheOf(sys0, home) && CacheOf(sys0, home)[key].id == id) {
      var zones :| ShownBefore(s, sys0, moves, |moves|, home, key, zones) && FindZone(zones, key.zone) == Some(id);
      var u: nat :| u < |moves| && ShownAt(s, sys0, moves, u, home, key, zones);
      UnderWayWasBegun(s, sys0, moves[..u], moves[u].who);
      var job := Exec(s, sys0, moves[..u]).workers[moves[u].who].run.job;
      var t :| 0 <= t < u && moves[..u][t] == Begin(moves[u].who, home, job);
      assert moves[t] == moves[..u][t];
      var q := PreparedAt(moves, chs, secrets, t).value;
      assert key == Key(RefString(q.ref), q.apex);
      RefInjective(p.ref, q.ref);
      assert ListedTo(s, sys0, moves, chs, secrets, t, u, home, p.ref, p.apex, id);
    }
  }

  /** Any number of challenges, those for one name one after the other and those for distinct
      names interleaved in any way, in any number of processes, while zone lists change at will:
      a Present that has returned nil has its key, and only it, at the record of its own name; a
      CleanUp that has returned nil has no record left there, or was answered with a list without
      its zone; the zone ID it used was listed to a call with the same secret reference and apex (or
      was in the starting cache for them); no call changes anything else of its name; and each is
      matched by a solo call. */
  lemma ChallengesInSharedZones(s: Settings, N: Names, sys0: System, moves: seq<Move>, chs: seq<ChallengeRequest>,
                                secrets: nat -> Secrets, a: nat, i: nat, home: nat, job: Job)
    returns (cache: Store, cs: seq<Choice>)
    requires AllPrepared(moves, chs, secrets) && NameByName(moves, chs)
    requires AtRest(sys0) && NamesHold(N, sys0, moves) && i < |sys0.workers| && LatestCall(moves, a, i, home, job)
    ensures var end, srv0 := Exec(s, sys0, moves), Exec(s, sys0, moves[..a]).server;
            var run := end.workers[i].run;
            && run.job == job && Kept(s, N, run, srv0, end.server)
            && (run.zone.Some? ==>
                  var k := TargetKey(job, run.zone.value);
                  FullName(k.name, N(k.zone)) == Canonical(chs[a].fqdn) &&
                  (run.pc == Done(None) ==>
                     if job.present then RecordAt(end.server, k).Some? &&
                                         RecordAt(end.server, k).value.records == [QuoteTXT(chs[a].key)]
                     else RecordAt(end.server, k).None?))
            && (run.zone.None? && run.pc == Done(None) ==>
                  !job.present && exists zones :: OwnAnswer(s, sys0, moves, a, i, home, CacheKey(job), zones) &&
                                                  FindZone(zones, job.apex).None?)
    ensures var zone := Exec(s, sys0, moves).workers[i].run.zone;
            var p := PreparedAt(moves, chs, secrets, a);
            p.Some? && (zone.Some? && AllPlain(moves, chs, secrets) ==>
                          OwnProject(s, sys0, moves, chs, secrets, home, p.value.ref, p.value.apex, zone.value))
    ensures cache == map[] || cache == CacheOf(sys0, home)
    ensures var end, solo0 := Exec(s, sys0, moves), State(NewRun(job), Exec(s, sys0, moves[..a]).server, cache);
            && ListShown(s, sys0, moves, solo0, cs, home, CacheKey(job))
            && Match(N, end.workers[i].run, end.server, Solo(s, solo0, cs))
  {
    DistinctNamesDistinctRecords(moves, chs, secrets);
    hide Exec, NamesHold, NameByName, OneByOne, Canonical, SaysWhere, FullName, QuoteTXT, Solo,
      Match, ListShown, OwnAnswer, KnownAs, OwnProject, AllPlain, ParseRef;
    JobNamesItsFQDN(chs[a], Some(secrets(home)), job.present);
    InterleavedRuns(s, N, sys0, moves, a, i, home, job);
    ZoneInUseIsKnown(s, N, sys0, moves, a, i, home, job);
    var zone := Exec(s, sys0, moves).workers[i].run.zone;
    if zone.Some? && AllPlain(moves, chs, secrets) {
      KnownToOwnProject(s, sys0, moves, chs, secrets, a, zone.value);
    }
    cache, cs := AsIfAlone(s, N, sys0, moves, a, i, home, job);
  }
}
