# A verified model of the hcloud-zones DNS-01 webhook

This project models, in Dafny, how the cert-manager webhook turns a DNS-01 challenge into a TXT
record at the Hetzner Cloud Zones API, and proves what that path guarantees. `Present` and
`CleanUp` drive a remote DNS store through a retrying client over a link that loses answers; a
TTL cache of zone IDs and a label-by-label router decide where each write goes. The theorems are
about these layers together.

## What is modelled

- **Routing** (`Routing`, `Validation`, `RoutingLaws`): the index-and-walk of `Resolve` against a
  declarative longest-label-suffix relation; the one-pass validator against declarative validity;
  how many configured zones can match a name, exactly.
- **Names and values** (`RecordNames`): the zone-relative record name and the quoted TXT value.
- **Config to token** (`SolverConfig`): `parseConfig`, `resolveSecretRef`, `prepare`.
- **Retry policy** (`Retry`): error classes, capped doubling and Retry-After in 64-bit arithmetic.
- **Zone-ID cache** (`ZoneCache`): the mutable map with expiry against the history of operations.
- **Server and link** (`Api`): create refuses an existing record set, set_records keeps the TTL,
  delete of an absent record set is 404. For every attempt the environment decides whether the
  request is sent, whether it is applied, and what comes back.
- **The protocol** (`Challenge`, `Calls`, `Endurance`): a machine that moves one request at a time;
  everything that holds after any sequence of environment choices, which faults the retries make up
  for, and what a call can cost.
- **Interleaving** (`Processes`, `Interleaving`, `StableLists`, `EndToEnd`): any number of calls in any
  number of processes, each process with a cache of its own, over one server, step by step in any
  order. A worker makes one call after the other; the caches it starts on may be warm.
- **The code itself** (`Solver`): client and solver as objects with loops and mutable fields; their
  contracts say that they run the machine, and so inherit what is proved about it.

One step of the machine is a cache lookup, one attempt with the sleep before it, or the handling of
an outcome. A `Choice` holds all that the environment decides in a step: the fate of the attempt,
whether the sleep completes, the clock, and the zone list the server would show.

## Hypotheses

They appear as `requires` clauses or in types, never as axioms.

- The clock of a process is monotone where the cache must equal its history (`ClockRuns`, `NotBefore`);
  `ClockMustBeMonotone` shows why. That every ID in use has a fresh list answer needs no such hypothesis.
- A 2xx, a 404 and a 409 are the server's own verdict on the attempt (type `Refusal` leaves every
  other status to the environment); so the list request is never answered 404.
- A request is applied, if at all, while its attempt is under way, not after the client moved on.
- A zone ID never changes its name, in any list of any project (`NamesHold`). Zone lists may otherwise
  change at any step; only the theorems of `StableLists` ask for a list that stays (`Stable`, `Sees`).
- Calls about the same name are made one after the other (`OneByOne`, `NameByName`); calls about other
  names run alongside. Two live keys on one name are outside: the code replaces all records of a record
  set and deletes the whole of it.
- Strings are ASCII in what case and white space mean.

## Where the code and its comments differ

The model follows the code.

- internal/routing/routing.go:14-18 says that at most one configured apex can match. Validation does
  not give this: `co.uk` next to any `p.co.uk` passes (`NestedZonesPassValidation`). `AtMostOneExactly`
  gives the exact condition, `AtMostOne` the simple sufficient one.
- internal/hcloud/client.go:119-121 puts the worst case at about two minutes; a call that meets only
  5xx sleeps 31.5 s at the defaults (`DefaultTotalWait`, `ServerTroubleCost`). The worst case is another
  one: on 429 with a Retry-After of 30 s a request sleeps 180 s, and no longer is possible
  (`DefaultWorstWait`, `WholeCallCost`). Two minutes is the request budget of the solver
  (internal/solver/solver.go:35), which ends the sleeps of a whole call (`SleepsWithinBudget`).
- internal/hcloud/client.go:320-329 speaks of a status 500 for transport errors; the code uses 0.
- internal/solver/solver.go:490-493 says that only a later change could make the record-name fallback
  fire. It fires for names that end in white space and for a bare apex after white space, because only
  the router trims: `FallbackHappens` has such a name, `FallbackExactly` the exact condition, and
  `TrimmedNeverFallsBack` says that no other accepted name is concerned. `RecordNameExactly` is about a
  different question, when record name and apex rebuild the name: "@" under the apex does not, though
  it takes no fallback.
- internal/solver/solver.go:300-302 says that CleanUp deletes the record set. internal/hcloud/client.go:333-344
  takes a 2xx with an empty body as success, so an emptied list answer is a zone list without the apex,
  and `CleanUp` then returns nil with the record still there: `CleanUpCanMiss`. `CleanUpRemovesExactly`
  says when a nil `CleanUp` has removed the record of a zone: exactly when the cached ID, or else the list
  with which it was answered, named that zone.

## Model

| member | source | states |
|---|---|---|
| `Text.LowerExactly` | internal/routing/routing.go:98 | the lower-case form differs from the string in the case of letters at most and has no capitals, and nothing else is it; two strings have one lower-case form exactly when they differ in the case of letters at most |
| `Text.TrimSpaceExactly` | internal/routing/routing.go:124 | trimming cuts tab, line feed, vertical tab, form feed, carriage return and blank at both ends, and nothing else is the trimmed string |
| `Routing.BuildIndex` | internal/routing/routing.go:95-100 | the index holds exactly the configured zones in lower case, each with the last credential that lists it |
| `Routing.Resolve` | internal/routing/routing.go:81-117 | returns the longest label suffix of the normalised name that is configured, with its owner, and no match exactly when no configured zone is a label suffix; a nil config matches nothing |
| `Routing.RouteUnique` | internal/routing/routing.go:102-113 | the declarative routing relation has at most one answer |
| `Routing.RouteExists` | internal/routing/routing.go:81-117 | there is an answer exactly when some configured zone is a label suffix of the name |
| `Validation.IsSubdomainOfRegistrable` | internal/routing/routing.go:296-316 | true exactly for more than two labels, unless there are three and the name ends in a listed public suffix |
| `Validation.ValidateZoneString` | internal/routing/routing.go:228-271 | nil exactly when all labels are non-empty, all characters allowed and the depth allowed; an error names a defect the zone has |
| `Validation.ValidateConfig` | internal/routing/routing.go:169-224 | nil exactly on valid configs (some credential, non-blank distinct names, non-blank references, valid zones, all zones distinct whatever their case); an error names a defect the config has |
| `Validation.ErrorRefutes` | internal/routing/routing.go:182-220 | none of the reported defects is possible in a valid config |
| `RoutingLaws.AtMostOneExactly` | internal/routing/routing.go:273-316 | in a valid config, no name matches two configured zones if and only if no configured single label or listed suffix has another configured zone below it |
| `RoutingLaws.AtMostOne` | internal/routing/routing.go:14-18 | without single-label zones and without zones that are listed suffixes, a name matches at most one configured zone |
| `RoutingLaws.NestedZonesPassValidation` | internal/routing/routing.go:299-315 | next to `co.uk` every `p.co.uk` passes validation, both match, and the longer one is routed to |
| `RoutingLaws.BelowZoneGoesToOwner` | internal/routing/routing.go:81-117 | under at-most-one, every name at or below a zone is routed to the credential that lists it |
| `RoutingLaws.OrderDoesNotMatter` | internal/routing/routing.go:95-113 | permuting credentials and zones changes neither the apex nor the chosen entry |
| `RoutingLaws.RearrangedIsValid` | internal/routing/routing.go:169-224 | permuting credentials and zones keeps a config valid |
| `RoutingLaws.ChallengeLabelsDoNotMatter` | internal/routing/routing.go:119-128 | any number of challenge labels in front of a trimmed name leaves its route unchanged |
| `RoutingLaws.CaseDoesNotMatter` | internal/routing/routing.go:95-128 | changing the case of letters in the name and in the configured zones changes no route |
| `RoutingLaws.EveryCaseIsRouted` | internal/routing/routing.go:95-113 | a name at or below a configured zone is routed, in whatever case the zone is configured |
| `RoutingLaws.ApexIsListed` | internal/routing/routing.go:95-113 | the apex of a route is a zone of its credential up to case, in small letters, and no later credential lists it |
| `RoutingLaws.FinalDotDoesNotMatter` | internal/routing/routing.go:119-128 | a final dot changes no route |
| `RoutingLaws.ValidExactly` | internal/routing/routing.go:169-224 | a config is valid exactly when names and references hold more than white space, names are distinct, zone lists are not empty, zones are valid and no two zones anywhere are equal up to case |
| `RoutingLaws.ZoneExactly` | internal/routing/routing.go:228-271 | a zone is valid exactly when it has only letters, digits, hyphens and dots, dots only between others, and an allowed depth |
| `RoutingLaws.ListedByCountry` | internal/routing/routing.go:273-293 | the listed multi-part suffixes, country by country, and no others |
| `RecordNames.RecordNameExactly` | internal/solver/solver.go:494-508 | for every name the router accepts, record name and apex rebuild the name if and only if it does not end in white space, is not a bare apex after white space, and is not "@" under the apex |
| `RecordNames.FallbackExactly` | internal/solver/solver.go:490-508 | for every name the router accepts, the fallback fires if and only if the name ends in white space or is a bare apex after white space, and then the record is that of another name |
| `RecordNames.TrimmedNeverFallsBack` | internal/solver/solver.go:490-508 | on accepted names without surrounding white space the fallback never fires |
| `RecordNames.SpaceAfterFallsBack` | internal/solver/solver.go:505-507 | every accepted name, with a space after it, is routed alike and falls back |
| `RecordNames.FallbackHappens` | internal/solver/solver.go:505-507 | a config that passes validation and a name its router accepts for which the fallback fires |
| `RecordNames.RecordNameInjective` | internal/solver/solver.go:494-508 | two accepted names that rebuild, with the same apex and record name, are the same name |
| `RecordNames.QuoteRoundTrip` | internal/solver/solver.go:469-474 | a reader of quoted strings per section 5.1 of RFC 1035 gives an ASCII key back if and only if the key is printable |
| `RecordNames.QuoteInjective` | internal/solver/solver.go:469-474 | distinct printable keys give distinct record values |
| `RecordNames.QuoteVerbatim` | internal/solver/solver.go:464-474 | an ASCII key stands verbatim between the quotes if and only if it is printable without quotes and backslashes, as base64url keys are |
| `SolverConfig.RefRoundTrip` | internal/solver/config.go:68-70 | splitting at the first "/" and then the first "#" inverts the reference string if and only if the namespace has no "/" and the name no "#" |
| `SolverConfig.RefInjective` | internal/solver/zonecache.go:12-19 | under that condition cache keys of different secrets do not collide |
| `SolverConfig.RefsByNameExactly` | internal/solver/config.go:98-112 | the map by name gives every entry its own reference if and only if entries of one name share their reference |
| `SolverConfig.ResolvedRef` | internal/solver/config.go:121-159 | from the entry's fields alone: its own namespace unless blank and else the default, its secret name, its key unless blank and else "token", all trimmed; refused exactly when the name or both namespaces are blank |
| `SolverConfig.ParseConfig` | internal/solver/config.go:81-119 | accepts exactly the decodable configs whose references resolve and whose routing part is valid, and then every name leads to the reference its own entry's fields name; otherwise the fault reported holds |
| `SolverConfig.Prepare` | internal/solver/solver.go:361-398 | succeeds exactly when the config is accepted, the name routes and the token is found, with the reference the routed entry's own fields name and the token stored there; otherwise the fault reported holds, and the missing-reference branch is never taken |
| `SolverConfig.NoMisroute` | internal/solver/solver.go:361-398 | the prepared entry is the only one that lists the apex, the apex is a label suffix of the name, the reference is the one that entry's own fields name, and the token is the one stored there |
| `Retry.SentinelsByStatus` | internal/hcloud/errors.go:47-65 | which status each typed error is, and that no status is two of them |
| `Retry.NewInRange` | internal/hcloud/client.go:119-174 | whatever options are given, backoff durations stay positive and the retry count non-negative |
| `Retry.LastOptionWins` | internal/hcloud/client.go:119-140 | of each parameter the last option with an admissible value decides |
| `Retry.NoOptionKeepsDefault` | internal/hcloud/client.go:26-32 | without an admissible option there are 6 retries, an initial delay of 0.5 s and a ceiling of 30 s |
| `Retry.BackoffExactly` | internal/hcloud/client.go:438-446 | the doubling loop computes the closed form for every attempt if and only if no doubled value reaches 2^62 |
| `Retry.BackoffClosedForm` | internal/hcloud/client.go:438-446 | with initial <= max the delay is min(initial * 2^(attempt-1), max), at least 1, at most max, and never decreases |
| `Retry.FirstDelayUncapped` | internal/hcloud/client.go:130-140 | with initial > max the first delay is the uncapped initial and every later one is max |
| `Retry.BackoffDelay` | internal/hcloud/client.go:427-447 | a positive Retry-After capped at max, else the exponential delay |
| `Retry.RetryAfterBounded` | internal/hcloud/client.go:384-403 | for every header, including products that wrap in 64 bits, the delay lies between 1 and max |
| `Retry.RetryAfterSeconds` | internal/hcloud/client.go:389-394 | a header that reads as n seconds, with sign, leading zeros or padding, waits exactly min(n s, max) when n s fit in a Duration; zero and less fall back to the exponential delay |
| `Retry.RetryAfterDate` | internal/hcloud/client.go:395-401 | a header that is a date in the future waits until then or for max, even where the difference does not fit in a Duration |
| `Retry.AtoiReads` | internal/hcloud/client.go:389-394 | a number may have a sign and leading zeros |
| `Retry.AtoiRejects` | internal/hcloud/client.go:389-394 | anything else but digits is no number |
| `Retry.RetryAfterGarbage` | internal/hcloud/client.go:395-402 | text that is neither number nor date, and dates not in the future, fall back to the exponential delay |
| `Retry.DefaultTotalWait` | internal/hcloud/client.go:26-32 | the exponential delays of all retries add up to 31.5 s at the defaults |
| `ZoneCache.CacheRefinesExactly` | internal/solver/zonecache.go:52-64 | on any clock the map answers what the history answers if and only if no lookup since the latest store read a clock past the expiry while the present reading is not past it |
| `ZoneCache.CacheRefinesHistory` | internal/solver/zonecache.go:52-83 | over every sequence of operations on a monotone clock the map answers what the history answers |
| `ZoneCache.HistoryMeaning` | internal/solver/zonecache.go:50-64 | a lookup hits exactly when the latest change of its key is a store at most ttl old (inclusive), and then with its ID |
| `ZoneCache.ClockMustBeMonotone` | internal/solver/zonecache.go:59-62 | on a clock that runs backwards the map can miss where the history hits |
| `ZoneCache.Cache.constructor` | internal/solver/zonecache.go:36-48 | an empty cache; a ttl that is not positive becomes 30 s |
| `ZoneCache.Cache.Lookup` | internal/solver/zonecache.go:52-64 | answers what the history of all earlier operations answers; keeps the map a replay of the history |
| `ZoneCache.Cache.Store` | internal/solver/zonecache.go:67-74 | the map stays a replay of the history with this store added |
| `ZoneCache.Cache.Invalidate` | internal/solver/zonecache.go:79-83 | the map stays a replay of the history with this invalidation added |
| `Api.VerdictsAreHonest` | internal/hcloud/client.go:288-352 | a success, a 404 and a 409 are the server's verdict on this very attempt; in every case the request was applied once or not at all |
| `Api.OutcomeByAnswer` | internal/hcloud/client.go:288-379 | what the client makes of each kind of answer, by status; and a request that was applied is applied whatever becomes of its answer |
| `Api.ServeExactly` | internal/hcloud/client.go:192-233 | when create, set_records and delete are refused, and what is there once they are accepted |
| `Api.ServeIsLocal` | internal/hcloud/client.go:192-233 | a request depends on and changes its own record set only |
| `Challenge.SoloKeepsInv` | internal/solver/solver.go:246-352 | at every step of every call the record is as found or as it is to be left, in line with how far the call has come, and nothing else has changed |
| `Challenge.PresentUnderLostAnswers` | internal/solver/solver.go:246-298 | for every initial state and fault pattern: nil means exactly the quoted key in the TXT record set at the zone in use, with the old TTL or else the configured one; an error leaves the record as it was or so, and is what came of the last attempt; all else is unchanged |
| `Challenge.CleanUpUnderLostAnswers` | internal/solver/solver.go:303-352 | for every initial state and fault pattern: nil means no such TXT record set at the zone in use, or that the list the call was answered with had no such apex; an error leaves it untouched or absent, and is what came of the last attempt; all else is unchanged |
| `Challenge.SoloZone` | internal/solver/solver.go:403-424 | at every step of every call the zone in use is the cached one of its first step or else the one in the list with which its own request was answered |
| `Challenge.CleanUpRemovesExactly` | internal/solver/solver.go:300-352 | a CleanUp that ended nil has removed the record of a zone if and only if that is the zone it went by, from the cache or from the list it was answered with |
| `Challenge.CleanUpCanMiss` | internal/solver/solver.go:314-327 | on a cold cache and an empty list answer CleanUp ends nil with the record still there, for every server that holds it |
| `Challenge.SoloError` | internal/solver/solver.go:258-297 | the error of a call is the failure of its last attempt, or Cancelled exactly when its last sleep was cut short, or 404 when a Present was answered with a list without the apex |
| `Challenge.ZoneIsCached` | internal/solver/solver.go:290-294 | at every moment of every call the zone in use is cached, unless a Present found it gone, and then it is not |
| `Challenge.HitNeverLists` | internal/solver/solver.go:403-410 | a call that finds its zone in the cache goes by it and sends no list request |
| `Challenge.CleanUpOfAbsent` | internal/solver/solver.go:329-351 | a CleanUp of an absent record changes nothing, however it ends |
| `Challenge.PresentOfPresented` | internal/solver/solver.go:272-288 | a Present of the key already there changes nothing, however it ends |
| `Challenge.PresentThenCleanUp` | internal/solver/solver.go:246-352 | Present then CleanUp, both nil in one zone, restore a server that had no such record |
| `Calls.SomeAttemptDecides` | internal/hcloud/client.go:258-283 | of the allowed attempts exactly one is the first final one or else the last |
| `Calls.DoIsFirstFinal` | internal/hcloud/client.go:248-284 | when sleeps complete, the call returns the outcome of that attempt k, after k+1 attempts (one token read each) and k sleeps of the prescribed delays, with the server as those attempts leave it |
| `Calls.RepeatedExactly` | internal/hcloud/client.go:240-283 | a try is followed by another one exactly when its sleep completed, attempts are left and it met a lost answer, 429 or 5xx |
| `Calls.FinalErrorEnds` | internal/hcloud/client.go:275-281 | an unsent request, an undecodable accepted answer and any other status end the request at once, with that error, after one try and without a sleep |
| `Calls.FinalVerdictIsTheServers` | internal/hcloud/errors.go:47-65 | a success, a 404 or a 409 that reaches the solver is the server's verdict on the last attempt, and a refusal has changed nothing |
| `Calls.FailedSleepEnds` | internal/hcloud/client.go:268-270 | a sleep cut short ends the call with the context error and no further attempt |
| `Calls.ServerTroubleCost` | internal/hcloud/client.go:258-283 | a call that meets only 5xx and transport errors makes maxRetries + 1 attempts and sleeps exactly the sum of the first maxRetries exponential delays |
| `Calls.WholeCallCost` | internal/solver/solver.go:246-352 | for all settings Present makes at most 3 * (maxRetries + 1) requests and 3 * maxRetries sleeps, CleanUp 2 in place of 3; a sleep takes at most max, but the first of a request may take an uncapped initial |
| `Calls.EveryCallFinishes` | internal/hcloud/client.go:258-283 | Present and CleanUp finish within 3 * maxRetries + 7 steps, whatever the environment does |
| `Endurance.EndsNilExactly` | internal/hcloud/client.go:258-283 | when attempts are answered or lost or meet 429 or 5xx, sleeps complete and a Present is shown its existing zone, a call ends nil if and only if no request meets maxRetries + 1 faults in a row |
| `Endurance.FewFaultsAreMadeUpFor` | internal/hcloud/client.go:258-283 | then up to maxRetries faults, applied or not, anywhere in a Present or CleanUp never keep it from ending nil |
| `Endurance.BoundsAreReached` | internal/hcloud/client.go:427-436 | throttled on every request for max or more, Present of an existing record ends nil after exactly 3 * (maxRetries + 1) requests and 3 * maxRetries sleeps of max, CleanUp 2 in place of 3 |
| `Endurance.DefaultWorstWait` | internal/hcloud/client.go:119-121 | at the defaults the sleeps of a request take 180 s at most, and a Retry-After of 30 s on every attempt makes them take that long |
| `Endurance.SleepsWithinBudget` | internal/solver/solver.go:459-462 | while the context ends sleeps at its deadline, a whole call never sleeps for longer than the request budget |
| `Processes.EveryEntryIsBacked` | internal/solver/zonecache.go:52-83 | every entry of every cache was there at the start or was stored on a list answer that was shown to a call of the same process, secret and apex, and has not changed since |
| `Processes.HitHasFreshAnswer` | internal/solver/zonecache.go:52-83 | with lists that change at will, a hit repeats the ID of a list answer shown to a call of the same process, secret and apex, stored at most ttl ago, whose entry has not changed since, or an unexpired entry from the start |
| `Processes.EveryIdHasAnAnswer` | internal/solver/solver.go:403-424 | every zone ID that comes into use is that of the call's own list answer or of such a stored one |
| `Processes.InterleavedCost` | internal/solver/solver.go:246-352 | the bounds of WholeCallCost hold for every call in every interleaving |
| `Processes.InterleavedFinish` | internal/hcloud/client.go:258-283 | in every interleaving a call that has made 3 * maxRetries + 7 steps is finished |
| `Interleaving.AsIfAlone` | docs/REQUIREMENTS.md:67-70 | for each call in each interleaving there is a solo call, from the server as the call found it, answered only with a list the schedule showed to a call of its process, secret and apex, at the same point, with the same zone in use and the same records of its name |
| `Interleaving.InterleavedRuns` | internal/solver/solver.go:246-352 | at every moment of each call the record in use is as it was or as the call is to leave it, nil means the latter (or, for CleanUp, that this very call was answered with a list without the apex), and all other record sets of the name are as the call found them |
| `Interleaving.NoRunTouchesAnother` | docs/REQUIREMENTS.md:67-70 | no step of one call changes a record set of another name |
| `Interleaving.OthersNeverChange` | docs/REQUIREMENTS.md:67-70 | a record set that no call is about never changes |
| `Interleaving.ZoneInUseIsKnown` | internal/solver/solver.go:403-424 | in every interleaving the zone a call uses was in a list answered to a call of its process, secret and apex, or in the starting cache under its key |
| `Interleaving.LifeCycle` | internal/solver/solver.go:246-352 | among other calls, Present and then CleanUp, both nil, on a record that was absent, leave all record sets of the name as they were if and only if CleanUp used the zone ID that Present used |
| `StableLists.CacheIsTransparent` | internal/solver/solver.go:403-424 | while zone lists are stable, for any calls in any order and any sound starting caches, cache hits and zones in use are what the uncached lookup finds, and a CleanUp without a zone is right that there is none |
| `StableLists.StableLifeCycle` | internal/solver/solver.go:246-352 | while zone lists are stable, Present and then CleanUp, in any processes that are shown the same zone, restore all record sets of the name |
| `StableLists.RepeatedCleanUp` | internal/solver/solver.go:300-352 | once the record is gone, any number of further CleanUp calls changes nothing on the server |
| `StableLists.RepeatedPresent` | internal/solver/solver.go:241-298 | once the key is presented, any number of further Present calls of it changes nothing on the server |
| `EndToEnd.JobNamesItsFQDN` | internal/solver/solver.go:253-270 | the record a prepared call writes is the record of the challenged name if and only if white space does not hide the apex and the name is not "@" under it; its cache key reads back as the prepared reference if and only if that has no "/" in the namespace and no "#" in the name |
| `EndToEnd.CacheKeysApart` | internal/solver/zonecache.go:12-19 | prepared calls share a cache entry exactly when they have the same secret reference and the same apex |
| `EndToEnd.DistinctNamesDistinctRecords` | internal/solver/solver.go:361-398 | challenges for distinct names, even under different configs in different processes, are about distinct records |
| `EndToEnd.ChallengesInSharedZones` | docs/REQUIREMENTS.md:67-70 | of any number of interleaved challenges in any number of processes, with lists that change at will, a Present that returned nil has its key and only it at its own name, a CleanUp that returned nil has none left or was answered with a list without the zone, the zone ID in use was listed to a call prepared with the same reference and apex in the same process (or was in its starting cache for them), and each is matched by a solo call |
| `Solver.Link.Sleep` | internal/hcloud/clock.go:30-41 | a sleep that completes is accounted for; one cut short is reported and uses up the step |
| `Solver.Link.DoOnce` | internal/hcloud/client.go:288-379 | one attempt: the outcome and the server are those of the exchange the environment chose, and what is sent carries the token |
| `Solver.Client.Do` | internal/hcloud/client.go:248-284 | the retry loop takes the machine from the first attempt to the outcome it returns |
| `Solver.FindListed` | internal/solver/solver.go:411-416 | the first zone of that name, and none exactly when no zone has it |
| `Solver.ChallengeSolver.ResolveZoneID` | internal/solver/solver.go:403-424 | the cached ID or the listed one, which is then cached; the machine is where the object is |
| `Solver.ChallengeSolver.ReconcileExisting` | internal/solver/solver.go:434-448 | the set_records call takes the machine to its end with the error returned |
| `Solver.ChallengeSolver.PresentIn` | internal/solver/solver.go:263-297 | create, then set_records on a conflict, invalidation on 404: the machine ends with the error returned |
| `Solver.ChallengeSolver.CleanUpIn` | internal/solver/solver.go:329-351 | delete, with 404 as success: the machine ends with the error returned |
| `Solver.ChallengeSolver.Perform` | internal/solver/solver.go:246-352 | both entry points after set-up: the object's server, cache, result and meter are those of the machine at its end |
| `Solver.ChallengeSolver.Present` | internal/solver/solver.go:246-298 | the machine ends, with this result, where server, cache and meter are; and so what PresentUnderLostAnswers and WholeCallCost say, of the record that is the challenged name's own if and only if white space does not hide the apex and the name is not "@" under it; a failed set-up touches nothing and is reported truly; every request carries the token of the routed entry |
| `Solver.ChallengeSolver.CleanUp` | internal/solver/solver.go:303-352 | the machine ends, with this result, where server, cache and meter are; and so what CleanUpUnderLostAnswers and WholeCallCost say, of the record that is the challenged name's own if and only if white space does not hide the apex and the name is not "@" under it; a failed set-up touches nothing and is reported truly; every request carries the token of the routed entry |

## Left out

- HTTP, TLS, JSON and URL escaping: requests and outcomes are typed values; the decoded config is a value with cases for absent and malformed.
- Reading Kubernetes Secrets and Initialize: the token is an arbitrary partial function of the reference; a nil getter is None.
- The client factory: the production one, which cannot fail on a static token; a custom one that fails would be one more set-up error.
- HTTP-date parsing and real timers: a date is the result of an arbitrary function, a sleep completes or not as the environment decides; the request budget cuts sleeps short, and requests that it cuts short are lost answers.
- Requests that the server applies after the client has given up on the attempt.
- Deletion of a zone by others while calls are under way: a listed zone may be missing at the server (create then gets 404), but zones do not vanish between two steps.
- Two live keys on the same record name, and locking between simultaneous challenges on it.
- Pagination of the zone list: the list is whatever the server shows.
- Unicode case mapping and white space, and strconv.Quote beyond ASCII.
- DNS propagation and polling of actions, which the webhook does not do.
- Logging, redaction, error texts, the list of configured zones in the no-match message, the Helm chart and scripts: no state of the core.
- Retry.BackoffDelay: the attempt number is a natural number; the 64-bit loop counter itself is not modelled.
- Api.VerdictsAreHonest: a 2xx, 404 or 409 that something between client and server invents is excluded by the type Refusal; with one, CleanUp could return nil on a record that exists.
