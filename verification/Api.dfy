/** The zones API as the client sees it (internal/hcloud/client.go and types.go): what the
    server does with each request, and what one HTTP exchange over a faulty link can do. */
module Api {
  import opened Text
  import opened Retry

  datatype Zone = Zone(id: int, name: string)

  datatype RRSet = RRSet(ttl: int, records: seq<string>)

  datatype RecordKey = RecordKey(zone: int, name: string, kind: string)

  /** The zones that exist, and their record sets. */
  datatype Server = Server(live: set<int>, rrsets: map<RecordKey, RRSet>)

  function RecordAt(srv: Server, k: RecordKey): Option<RRSet> {
    if k in srv.rrsets then Some(srv.rrsets[k]) else None
  }

  /** The servers hold the same record sets except possibly at k. */
  ghost predicate SameElsewhere(a: Server, b: Server, k: RecordKey) {
    a.live == b.live && forall x :: x != k ==> RecordAt(a, x) == RecordAt(b, x)
  }

  datatype Request =
    | ListZones
    | Create(key: RecordKey, ttl: int, records: seq<string>)
    | SetRecords(key: RecordKey, records: seq<string>)
    | Delete(key: RecordKey)

  datatype Verdict = Accepted | Missing | Exists

  /** Create refuses an existing record set, set_records keeps the TTL, delete of an absent
      record set is not found. */
  function Serve(req: Request, srv: Server): (Verdict, Server) {
    match req
    case ListZones => (Accepted, srv)
    case Create(k, ttl, records) =>
      if k.zone !in srv.live then (Missing, srv)
      else if k in srv.rrsets then (Exists, srv)
      else (Accepted, srv.(rrsets := srv.rrsets[k := RRSet(ttl, records)]))
    case SetRecords(k, records) =>
      if k !in srv.rrsets then (Missing, srv)
      else (Accepted, srv.(rrsets := srv.rrsets[k := RRSet(srv.rrsets[k].ttl, records)]))
    case Delete(k) =>
      if k !in srv.rrsets then (Missing, srv)
      else (Accepted, srv.(rrsets := srv.rrsets - {k}))
  }

  // ---- one HTTP exchange ------------------------------------------------------------------

  /** A status the infrastructure may invent. 2xx, 404 and 409 are the server's own verdicts. */
  type Refusal = c: int | 100 <= c < 600 && !(200 <= c < 300) && c != 404 && c != 409 witness 500

  /** How the answer comes back. Garbled is the server's answer with a body that does not decode. */
  datatype Reply = Lost | Answered | Garbled | Refused(status: Refusal, retryAfter: string)

  /** One attempt: not sent at all, or sent, with the request applied or not. An answer from the
      server means that it was applied. */
  datatype Attempt = NotSent | Sent(applied: bool, reply: Reply)

  datatype Outcome = Success(zones: seq<Zone>) | Failure(error: Error)

  predicate Applied(a: Attempt) {
    a.Sent? && (a.applied || a.reply.Answered? || a.reply.Garbled?)
  }

  /** doOnce: the outcome the client classifies, and the server afterwards. `listing` is the
      zone list the server shows at this moment. */
  function Exchange(a: Attempt, req: Request, listing: seq<Zone>, now: int, dates: Dates, srv: Server)
    : (Outcome, Server)
  {
    var (verdict, served) := Serve(req, srv);
    var after := if Applied(a) then served else srv;
    if a.NotSent? then (Failure(Unsent), after)
    else
      match a.reply
      case Lost => (Failure(Api(0, 0)), after)
      case Refused(status, header) =>
        (Failure(Api(status, if status == 429 then ParseRetryAfter(header, now, dates) else 0)), after)
      case Answered => (FromVerdict(verdict, listing), after)
      case Garbled =>
        if verdict.Accepted? && !req.Delete? then (Failure(Undecodable), after)
        else (FromVerdict(verdict, listing), after)
  }

  function FromVerdict(v: Verdict, listing: seq<Zone>): Outcome {
    match v
    case Accepted => Success(listing)
    case Missing => Failure(Api(404, 0))
    case Exists => Failure(Api(409, 0))
  }

  /** A success, a 404 and a 409 are the server's verdict on this very attempt. */
  lemma VerdictsAreHonest(a: Attempt, req: Request, listing: seq<Zone>, now: int, dates: Dates, srv: Server)
    ensures var (out, after) := Exchange(a, req, listing, now, dates, srv);
            && (out.Success? ==> after == Serve(req, srv).1 && Serve(req, srv).0.Accepted?)
            && (out.Failure? && Is(out.error, NotFound) ==> after == srv && Serve(req, srv).0.Missing?)
            && (out.Failure? && Is(out.error, Conflict) ==> after == srv && Serve(req, srv).0.Exists?)
            && (after == srv || after == Serve(req, srv).1)
  {
  }

  /** When the server refuses, and what is there once it has accepted. */
  lemma ServeExactly(req: Request, srv: Server)
    requires !req.ListZones?
    ensures var (verdict, after) := Serve(req, srv);
            var before, now := RecordAt(srv, req.key), RecordAt(after, req.key);
            && (verdict.Missing? <==> if req.Create? then req.key.zone !in srv.live else before.None?)
            && (verdict.Exists? <==> req.Create? && req.key.zone in srv.live && before.Some?)
            && (!verdict.Accepted? ==> after == srv)
            && (verdict.Accepted? && req.Create? ==> now == Some(RRSet(req.ttl, req.records)))
            && (verdict.Accepted? && req.SetRecords? ==> now == Some(RRSet(before.value.ttl, req.records)))
            && (verdict.Accepted? && req.Delete? ==> now == None)
  {
  }

  /** What the client makes of each answer: the server's verdict by its status, a garbled body as
      undecodable where one is read, and everything else by its number. A request that was applied
      is applied, whatever becomes of its answer. */
  lemma OutcomeByAnswer(a: Attempt, req: Request, listing: seq<Zone>, now: int, dates: Dates, srv: Server)
    ensures Exchange(a, req, listing, now, dates, srv).1 ==
            if a.Sent? && (a.applied || a.reply.Answered? || a.reply.Garbled?) then Serve(req, srv).1 else srv
    ensures var out, verdict := Exchange(a, req, listing, now, dates, srv).0, Serve(req, srv).0;
            && (a.NotSent? ==> out == Failure(Unsent))
            && (a.Sent? && a.reply.Lost? ==> out == Failure(Api(0, 0)))
            && (a.Sent? && a.reply.Refused? && a.reply.status != 429 ==> out == Failure(Api(a.reply.status, 0)))
            && (a.Sent? && a.reply.Refused? && a.reply.status == 429 ==>
                  out == Failure(Api(429, ParseRetryAfter(a.reply.retryAfter, now, dates))))
            && (a.Sent? && (a.reply.Answered? || a.reply.Garbled?) ==>
                  && (verdict.Missing? ==> out == Failure(Api(404, 0)))
                  && (verdict.Exists? ==> out == Failure(Api(409, 0)))
                  && (verdict.Accepted? && (a.reply.Answered? || req.Delete?) ==> out == Success(listing))
                  && (verdict.Accepted? && a.reply.Garbled? && !req.Delete? ==> out == Failure(Undecodable)))
  {
    hide ParseRetryAfter;
  }

  /** A request touches its own record set only, and looks at nothing else. */
  lemma ServeIsLocal(req: Request, a: Server, b: Server)
    requires !req.ListZones? && a.live == b.live && RecordAt(a, req.key) == RecordAt(b, req.key)
    ensures Serve(req, a).0 == Serve(req, b).0
    ensures RecordAt(Serve(req, a).1, req.key) == RecordAt(Serve(req, b).1, req.key)
    ensures SameElsewhere(a, Serve(req, a).1, req.key)
  {
  }
}
