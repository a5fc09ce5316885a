/** Per-issuer configuration (internal/solver/config.go) and the shared set-up of Present and
    CleanUp (internal/solver/solver.go, prepare): from the decoded config to the token. */
module SolverConfig {
  import opened Text
  import opened Routing
  import opened Validation
  import opened RoutingLaws

  datatype CredentialConfig =
    CredentialConfig(name: string, zones: seq<string>, secretName: string, secretKey: string, namespace: string)

  /** The config blob after JSON decoding: absent or empty, not decodable, or a list of entries. */
  datatype RawConfig = Missing | Malformed | Decoded(entries: seq<CredentialConfig>)

  datatype SecretRef = SecretRef(namespace: string, name: string, key: string)

  // ---- SecretRef.String and its inverse ---------------------------------------------------

  function RefString(r: SecretRef): string {
    r.namespace + "/" + r.name + "#" + r.key
  }

  /** Split at the first "/", then at the first "#" of the rest. */
  function ParseRef(s: string): Option<SecretRef> {
    match IndexOf(s, '/')
    case None => None
    case Some(i) =>
      var rest := s[i + 1..];
      match IndexOf(rest, '#')
      case None => None
      case Some(k) => Some(SecretRef(s[..i], rest[..k], rest[k + 1..]))
  }

  lemma IndexOfFirst(a: string, c: char, b: string)
    ensures c !in a ==> IndexOf(a + [c] + b, c) == Some(|a|)
    ensures c in a ==> IndexOf(a + [c] + b, c).Some? && IndexOf(a + [c] + b, c).value < |a|
  {
    var s := a + [c] + b;
    assert s[|a|] == c;
    var i := IndexOf(s, c).value;
    assert forall k :: 0 <= k < i ==> s[..i][k] == s[k];
    if c in a {
      var k :| 0 <= k < |a| && a[k] == c;
      assert s[k] == c;
    } else {
      assert forall k :: 0 <= k < |a| ==> s[k] == a[k];
    }
  }

  /** The reference string determines the reference exactly when the namespace has no "/" and
      the secret name has no "#". */
  lemma RefRoundTrip(r: SecretRef)
    ensures ParseRef(RefString(r)) == Some(r) <==> '/' !in r.namespace && '#' !in r.name
  {
    hide IndexOf;
    var s := RefString(r);
    var rest := r.name + ['#'] + r.key;
    assert s == r.namespace + ['/'] + rest;
    IndexOfFirst(r.namespace, '/', rest);
    IndexOfFirst(r.name, '#', r.key);
    if '/' !in r.namespace {
      SplitAt(r.namespace, '/', rest);
      if '#' !in r.name {
        SplitAt(r.name, '#', r.key);
      }
    }
  }

  lemma SplitAt(a: string, c: char, b: string)
    ensures (a + [c] + b)[..|a|] == a && (a + [c] + b)[|a| + 1..] == b
  {
  }

  /** So cache keys of different secrets never collide. */
  lemma RefInjective(r: SecretRef, s: SecretRef)
    requires '/' !in r.namespace && '#' !in r.name && '/' !in s.namespace && '#' !in s.name
    requires RefString(r) == RefString(s)
    ensures r == s
  {
    RefRoundTrip(r);
    RefRoundTrip(s);
  }

  // ---- resolveSecretRef and parseConfig ---------------------------------------------------

  datatype ConfigFault =
    | NoConfig | BadJson | NoEntries
    | EmptySecretName(i: nat) | NoNamespace(i: nat)
    | Invalid(why: ConfigError)

  function ResolveSecretRef(cred: CredentialConfig, defaultNamespace: string, i: nat): Result<SecretRef, ConfigFault> {
    var name := TrimSpace(cred.secretName);
    var own := TrimSpace(cred.namespace);
    var namespace := if own == "" then TrimSpace(defaultNamespace) else own;
    var key := TrimSpace(cred.secretKey);
    if name == "" then Err(EmptySecretName(i))
    else if namespace == "" then Err(NoNamespace(i))
    else Ok(SecretRef(namespace, name, if key == "" then "token" else key))
  }

  /** The reference that the fields of an entry name: the own namespace, or the default one where
      the own one is blank; the secret name; the key, or "token" where it is blank; all of them
      without the white space around them. */
  ghost predicate NamesSecret(cred: CredentialConfig, defaultNamespace: string, ref: SecretRef) {
    && !AllWhite(cred.secretName) && Trimmed(cred.secretName, ref.name)
    && (!AllWhite(cred.namespace) ==> Trimmed(cred.namespace, ref.namespace))
    && (AllWhite(cred.namespace) ==> !AllWhite(defaultNamespace) && Trimmed(defaultNamespace, ref.namespace))
    && (!AllWhite(cred.secretKey) ==> Trimmed(cred.secretKey, ref.key))
    && (AllWhite(cred.secretKey) ==> ref.key == "token")
  }

  /** resolveSecretRef gives exactly that reference, and refuses an entry exactly when its secret
      name is blank or there is no namespace. */
  lemma ResolvedRef(cred: CredentialConfig, ns: string, i: nat, ref: SecretRef)
    ensures ResolveSecretRef(cred, ns, i) == Ok(ref) <==> NamesSecret(cred, ns, ref)
    ensures ResolveSecretRef(cred, ns, i) == Err(EmptySecretName(i)) <==> AllWhite(cred.secretName)
    ensures ResolveSecretRef(cred, ns, i) == Err(NoNamespace(i)) <==>
            !AllWhite(cred.secretName) && AllWhite(cred.namespace) && AllWhite(ns)
    ensures ResolveSecretRef(cred, ns, i).Err? <==>
            AllWhite(cred.secretName) || (AllWhite(cred.namespace) && AllWhite(ns))
  {
    hide TrimSpace, Trimmed, AllWhite;
    TrimSpaceExactly(cred.secretName, ref.name);
    TrimSpaceExactly(cred.namespace, ref.namespace);
    TrimSpaceExactly(ns, ref.namespace);
    TrimSpaceExactly(cred.secretKey, ref.key);
  }

  predicate RefsResolve(entries: seq<CredentialConfig>, ns: string) {
    forall i :: 0 <= i < |entries| ==> ResolveSecretRef(entries[i], ns, i).Ok?
  }

  /** The reference of entry i. */
  function OwnRef(entries: seq<CredentialConfig>, ns: string, i: nat): SecretRef
    requires i < |entries| && RefsResolve(entries, ns)
  {
    ResolveSecretRef(entries[i], ns, i).value
  }

  function RoutingEntry(cred: CredentialConfig, ref: SecretRef): Credential {
    Credential(cred.name, cred.zones, RefString(ref))
  }

  function RoutingConfig(entries: seq<CredentialConfig>, ns: string): (c: Config)
    requires RefsResolve(entries, ns)
    ensures |c.credentials| == |entries|
  {
    Config(seq(|entries|, i requires 0 <= i < |entries| => RoutingEntry(entries[i], OwnRef(entries, ns, i))))
  }

  /** What each fault says about the config. */
  ghost predicate FaultHolds(raw: RawConfig, ns: string, fault: ConfigFault) {
    match fault
    case NoConfig => raw.Missing?
    case BadJson => raw.Malformed?
    case NoEntries => raw.Decoded? && raw.entries == []
    case EmptySecretName(i) => raw.Decoded? && i < |raw.entries| && AllWhite(raw.entries[i].secretName)
    case NoNamespace(i) => raw.Decoded? && i < |raw.entries| && AllWhite(raw.entries[i].namespace) && AllWhite(ns)
    case Invalid(why) => raw.Decoded? && RefsResolve(raw.entries, ns) &&
                         ErrorHolds(Some(RoutingConfig(raw.entries, ns)), why)
  }

  ghost predicate Accepts(raw: RawConfig, ns: string) {
    raw.Decoded? && raw.entries != [] && RefsResolve(raw.entries, ns) &&
    ValidConfig(RoutingConfig(raw.entries, ns))
  }

  /** refs holds, for each name among the first n entries, the reference of the last entry of
      that name. */
  ghost predicate LastByName(entries: seq<CredentialConfig>, ns: string, n: nat, refs: map<string, SecretRef>)
    requires n <= |entries| && RefsResolve(entries[..n], ns)
  {
    && (forall i :: 0 <= i < n ==> entries[i].name in refs)
    && (forall s :: s in refs ==>
          exists i :: 0 <= i < n && entries[i].name == s && ResolveSecretRef(entries[i], ns, i) == Ok(refs[s]) &&
                      forall k :: i < k < n ==> entries[k].name != s)
  }

  /** Looking references up by name finds each entry its own one exactly when entries of the
      same name have the same reference; the map alone does not promise it. */
  lemma RefsByNameExactly(entries: seq<CredentialConfig>, ns: string, refs: map<string, SecretRef>)
    requires RefsResolve(entries, ns)
    requires LastByName(entries, ns, |entries|, refs)
    ensures (forall i :: 0 <= i < |entries| ==> refs[entries[i].name] == OwnRef(entries, ns, i)) <==>
            (forall i, k :: 0 <= i < |entries| && 0 <= k < |entries| && entries[i].name == entries[k].name ==>
                              OwnRef(entries, ns, i) == OwnRef(entries, ns, k))
  {
    if forall i, k :: 0 <= i < |entries| && 0 <= k < |entries| && entries[i].name == entries[k].name ==>
                        OwnRef(entries, ns, i) == OwnRef(entries, ns, k) {
      forall i | 0 <= i < |entries| ensures refs[entries[i].name] == OwnRef(entries, ns, i) {
        var k :| 0 <= k < |entries| && entries[k].name == entries[i].name &&
                 ResolveSecretRef(entries[k], ns, k) == Ok(refs[entries[i].name]);
        assert OwnRef(entries, ns, k) == refs[entries[i].name];
      }
    }
  }

  lemma ConfigAt(entries: seq<CredentialConfig>, ns: string, i: nat)
    requires RefsResolve(entries, ns) && i < |entries|
    ensures RoutingConfig(entries, ns).credentials[i] == RoutingEntry(entries[i], OwnRef(entries, ns, i))
  {
  }

  /** parseConfig: accepts exactly the acceptable configs, and then every entry's name leads to
      the reference that this entry's own fields name; otherwise it reports a fault that holds. */
  method ParseConfig(raw: RawConfig, defaultNamespace: string)
    returns (r: Result<(Config, map<string, SecretRef>), ConfigFault>)
    ensures r.Ok? <==> Accepts(raw, defaultNamespace)
    ensures r.Ok? ==> r.value.0 == RoutingConfig(raw.entries, defaultNamespace)
    ensures r.Ok? ==> forall i :: 0 <= i < |raw.entries| ==>
                        raw.entries[i].name in r.value.1 &&
                        r.value.1[raw.entries[i].name] == OwnRef(raw.entries, defaultNamespace, i) &&
                        NamesSecret(raw.entries[i], defaultNamespace, r.value.1[raw.entries[i].name])
    ensures r.Err? ==> FaultHolds(raw, defaultNamespace, r.error)
  {
    hide NamesSecret, ErrorHolds, ValidConfig, AllWhite, RefString, LastByName;
    NothingByName(raw, defaultNamespace);
    if raw.Missing? {
      return Err(NoConfig);
    }
    if raw.Malformed? {
      return Err(BadJson);
    }
    var entries := raw.entries;
    if |entries| == 0 {
      return Err(NoEntries);
    }
    var credentials: seq<Credential>, refs: map<string, SecretRef> := [], map[];
    for i := 0 to |entries|
      invariant RefsResolve(entries[..i], defaultNamespace)
      invariant credentials == RoutingConfig(entries[..i], defaultNamespace).credentials
      invariant LastByName(entries, defaultNamespace, i, refs)
    {
      var ref := ResolveSecretRef(entries[i], defaultNamespace, i);
      if ref.Err? {
        RefusalHolds(raw, defaultNamespace, i);
        return Err(ref.error);
      }
      ghost var before := credentials;
      credentials := credentials + [RoutingEntry(entries[i], ref.value)];
      CollectOneMore(entries, defaultNamespace, i, refs, before, credentials, ref.value);
      refs := refs[entries[i].name := ref.value];
    }
    assert entries[..|entries|] == entries;
    var bad := ValidateConfig(Some(Config(credentials)));
    if bad.Some? {
      return Err(Invalid(bad.value));
    }
    NamesKeepRefs(entries, defaultNamespace, refs);
    forall i | 0 <= i < |entries|
      ensures NamesSecret(entries[i], defaultNamespace, OwnRef(entries, defaultNamespace, i))
    {
      OwnRefIsNamed(entries, defaultNamespace, i);
    }
    return Ok((Config(credentials), refs));
  }

  lemma NothingByName(raw: RawConfig, ns: string)
    ensures raw.Decoded? ==> LastByName(raw.entries, ns, 0, map[])
  {
  }

  lemma RefusalHolds(raw: RawConfig, ns: string, i: nat)
    requires raw.Decoded? && i < |raw.entries| && ResolveSecretRef(raw.entries[i], ns, i).Err?
    ensures FaultHolds(raw, ns, ResolveSecretRef(raw.entries[i], ns, i).error)
  {
    hide AllWhite, ErrorHolds, TrimSpace;
    ResolvedRef(raw.entries[i], ns, i, SecretRef("", "", ""));
  }

  lemma OwnRefIsNamed(entries: seq<CredentialConfig>, ns: string, i: nat)
    requires i < |entries| && RefsResolve(entries, ns)
    ensures NamesSecret(entries[i], ns, OwnRef(entries, ns, i))
  {
    hide NamesSecret, ResolveSecretRef;
    ResolvedRef(entries[i], ns, i, OwnRef(entries, ns, i));
  }

  lemma CollectOneMore(entries: seq<CredentialConfig>, ns: string, i: nat, refs: map<string, SecretRef>,
                       before: seq<Credential>, after: seq<Credential>, ref: SecretRef)
    requires i < |entries| && RefsResolve(entries[..i], ns)
    requires before == RoutingConfig(entries[..i], ns).credentials
    requires LastByName(entries, ns, i, refs)
    requires ResolveSecretRef(entries[i], ns, i) == Ok(ref) && after == before + [RoutingEntry(entries[i], ref)]
    ensures RefsResolve(entries[..i + 1], ns)
    ensures after == RoutingConfig(entries[..i + 1], ns).credentials
    ensures LastByName(entries, ns, i + 1, refs[entries[i].name := ref])
  {
    hide ResolveSecretRef, LastByName;
    assert entries[..i + 1] == entries[..i] + [entries[i]];
    LastByNameOneMore(entries, ns, i, refs, ref);
  }

  lemma LastByNameOneMore(entries: seq<CredentialConfig>, ns: string, i: nat, refs: map<string, SecretRef>,
                          ref: SecretRef)
    requires i < |entries| && RefsResolve(entries[..i], ns) && RefsResolve(entries[..i + 1], ns)
    requires LastByName(entries, ns, i, refs) && ResolveSecretRef(entries[i], ns, i) == Ok(ref)
    ensures LastByName(entries, ns, i + 1, refs[entries[i].name := ref])
  {
    hide ResolveSecretRef, RefsResolve;
    assert entries[i].name in refs[entries[i].name := ref];
    var refs' := refs[entries[i].name := ref];
    forall s | s in refs'
      ensures exists k :: 0 <= k < i + 1 && entries[k].name == s &&
                          ResolveSecretRef(entries[k], ns, k) == Ok(refs'[s]) &&
                          forall m :: k < m < i + 1 ==> entries[m].name != s
    {
      if s == entries[i].name {
        assert i < i + 1;
      } else {
        var k :| 0 <= k < i && entries[k].name == s && ResolveSecretRef(entries[k], ns, k) == Ok(refs[s]) &&
                 forall m :: k < m < i ==> entries[m].name != s;
        assert k < i + 1;
      }
    }
  }

  lemma NamesKeepRefs(entries: seq<CredentialConfig>, ns: string, refs: map<string, SecretRef>)
    requires RefsResolve(entries, ns) && LastByName(entries, ns, |entries|, refs)
    requires ValidConfig(RoutingConfig(entries, ns))
    ensures forall i :: 0 <= i < |entries| ==>
              entries[i].name in refs && refs[entries[i].name] == OwnRef(entries, ns, i)
  {
    hide ValidCredential, ZonesDistinct, ResolveSecretRef;
    forall i, k | 0 <= i < |entries| && 0 <= k < |entries| && entries[i].name == entries[k].name
      ensures OwnRef(entries, ns, i) == OwnRef(entries, ns, k)
    {
      ConfigAt(entries, ns, i);
      ConfigAt(entries, ns, k);
    }
    RefsByNameExactly(entries, ns, refs);
  }

  // ---- prepare ----------------------------------------------------------------------------

  type Secrets = SecretRef -> Option<string>

  /** What prepare hands to Present and CleanUp. */
  datatype Prepared = Prepared(index: nat, apex: string, ref: SecretRef, token: string)

  datatype PrepareFault =
    | BadConfig(why: ConfigFault) | NoRoute | MissingRef | NotInitialised | NoToken

  /** The set-up with no map in between: the routed entry, that entry's own reference, its token. */
  ghost function PrepareOf(raw: RawConfig, ns: string, fqdn: string, secrets: Option<Secrets>): Option<Prepared> {
    if !Accepts(raw, ns) || secrets.None? then None
    else
      hide ValidConfig, ResolveSecretRef;
      match RouteOf(RoutingConfig(raw.entries, ns), fqdn)
      case None => None
      case Some(route) =>
        var ref := OwnRef(raw.entries, ns, route.index);
        match secrets.value(ref)
        case None => None
        case Some(token) => Some(Prepared(route.index, route.apex, ref, token))
  }

  /** What each fault of prepare says. */
  ghost predicate PrepareFaultHolds(raw: RawConfig, ns: string, fqdn: string, secrets: Option<Secrets>,
                                    fault: PrepareFault) {
    match fault
    case BadConfig(why) => FaultHolds(raw, ns, why)
    case NoRoute => Accepts(raw, ns) && RouteOf(RoutingConfig(raw.entries, ns), fqdn) == None
    case MissingRef => false
    case NotInitialised => secrets.None?
    case NoToken =>
      Accepts(raw, ns) && secrets.Some? &&
      hide ValidConfig, ResolveSecretRef;
      var route := RouteOf(RoutingConfig(raw.entries, ns), fqdn);
      route.Some? && TokenMissing(raw.entries[route.value.index], ns, secrets.value)
  }

  /** The secret that the entry names has no token. */
  ghost predicate TokenMissing(cred: CredentialConfig, ns: string, secrets: Secrets) {
    exists ref :: NamesSecret(cred, ns, ref) && secrets(ref) == None
  }

  /** prepare: what it returns is the routed entry's own reference and token; otherwise a fault
      that holds, and the branch for a credential without a reference is never taken. */
  method Prepare(raw: RawConfig, ns: string, fqdn: string, secrets: Option<Secrets>)
    returns (r: Result<Prepared, PrepareFault>)
    ensures r.Ok? ==> PrepareOf(raw, ns, fqdn, secrets) == Some(r.value)
    ensures r.Err? ==> PrepareOf(raw, ns, fqdn, secrets) == None
    ensures r.Err? ==> PrepareFaultHolds(raw, ns, fqdn, secrets, r.error)
    ensures r.Ok? ==> r.value.index < |raw.entries| && NamesSecret(raw.entries[r.value.index], ns, r.value.ref)
    ensures r != Err(MissingRef)
  {
    hide NamesSecret, FaultHolds, ResolveSecretRef, ValidConfig, RouteOf, RoutesTo, Matches, RefString;
    var parsed := ParseConfig(raw, ns);
    if parsed.Err? {
      return Err(BadConfig(parsed.error));
    }
    var (config, refs) := parsed.value;
    var route := Resolve(Some(config), fqdn);
    if route.None? {
      return Err(NoRoute);
    }
    var i := route.value.index;
    var name := config.credentials[i].name;
    ConfigAt(raw.entries, ns, i);
    if name !in refs {
      return Err(MissingRef);
    }
    var ref := refs[name];
    if secrets.None? {
      return Err(NotInitialised);
    }
    assert NamesSecret(raw.entries[i], ns, ref);
    var getToken := secrets.value;
    var token := getToken(ref);
    if token.None? {
      return Err(NoToken);
    }
    return Ok(Prepared(i, route.value.apex, ref, token.value));
  }

  lemma PreparedParts(raw: RawConfig, ns: string, fqdn: string, secrets: Secrets, p: Prepared)
    requires PrepareOf(raw, ns, fqdn, Some(secrets)) == Some(p)
    ensures Accepts(raw, ns) && p.index < |raw.entries|
    ensures RouteOf(RoutingConfig(raw.entries, ns), fqdn) == Some(Route(p.index, p.apex))
    ensures p.ref == OwnRef(raw.entries, ns, p.index) && secrets(p.ref) == Some(p.token)
  {
    hide ValidConfig, RouteOf, ResolveSecretRef;
  }

  /** No misroute: the prepared entry is the only one that lists the apex, the apex is a label
      suffix of the challenged name, the reference is the one that entry's own fields name, and
      the token is what is stored there. */
  lemma NoMisroute(raw: RawConfig, ns: string, fqdn: string, secrets: Secrets, p: Prepared)
    requires PrepareOf(raw, ns, fqdn, Some(secrets)) == Some(p)
    ensures raw.Decoded? && RefsResolve(raw.entries, ns) && p.index < |raw.entries|
    ensures NamesSecret(raw.entries[p.index], ns, p.ref) && secrets(p.ref) == Some(p.token)
    ensures LabelSuffix(p.apex, NormaliseFQDN(fqdn))
    ensures forall k, j | 0 <= k < |raw.entries| && 0 <= j < |raw.entries[k].zones| &&
                          ToLower(raw.entries[k].zones[j]) == p.apex :: k == p.index
    ensures exists j :: 0 <= j < |raw.entries[p.index].zones| && ToLower(raw.entries[p.index].zones[j]) == p.apex
  {
    var c := RoutingConfig(raw.entries, ns);
    PreparedParts(raw, ns, fqdn, secrets, p);
    OwnRefIsNamed(raw.entries, ns, p.index);
    hide ValidConfig, NamesSecret, NormaliseFQDN, PrepareOf, RouteOf, ToLower, ResolveSecretRef;
    RouteExists(c, fqdn);
    ConfigAt(raw.entries, ns, p.index);
    assert ListsAmong(c.credentials[p.index], |c.credentials[p.index].zones|, p.apex);
    forall k, j | 0 <= k < |raw.entries| && 0 <= j < |raw.entries[k].zones| &&
                  ToLower(raw.entries[k].zones[j]) == p.apex
      ensures k == p.index
    {
      ConfigAt(raw.entries, ns, k);
      ZoneIsConfigured(c, k, j);
      ListedOnce(c, p.index, k, p.apex);
    }
  }
}
