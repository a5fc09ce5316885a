/** Load-time validation (internal/routing/routing.go, ValidateConfig): the one-pass checks
    with their maps, and the declarative validity they decide. */
module Validation {
  import opened Text
  import opened Routing

  const MULTI_PART_SUFFIXES: seq<string> := [
    ".co.uk", ".co.jp", ".co.kr", ".co.nz", ".co.za", ".co.in", ".co.il",
    ".com.au", ".com.br", ".com.cn", ".com.mx", ".com.sg", ".com.tr",
    ".com.tw", ".com.hk", ".com.ar", ".com.pl", ".com.ua",
    ".net.au", ".net.nz", ".net.cn", ".net.br",
    ".org.uk", ".org.au", ".org.nz", ".org.za",
    ".ac.uk", ".ac.jp", ".ac.nz", ".ac.za",
    ".gov.uk", ".gov.au"
  ]

  predicate AllowedChar(c: char) {
    'a' <= c <= 'z' || 'A' <= c <= 'Z' || '0' <= c <= '9' || c == '-' || c == '.'
  }

  predicate AllAllowed(s: string) {
    forall i :: 0 <= i < |s| ==> AllowedChar(s[i])
  }

  /** The name ends in a listed public suffix. */
  ghost predicate EndsInListed(z: string) {
    exists k :: 0 <= k < |MULTI_PART_SUFFIXES| && HasSuffix("." + z, MULTI_PART_SUFFIXES[k])
  }

  /** One or two labels, or three of which the last two are a listed public suffix. */
  ghost predicate AllowedDepth(zone: string) {
    var z := ToLower(zone);
    |Labels(z)| <= 2 || (|Labels(z)| == 3 && EndsInListed(z))
  }

  ghost predicate ValidZone(zone: string) {
    NoneEmpty(Labels(zone)) && AllAllowed(zone) && AllowedDepth(zone)
  }

  datatype ZoneError =
    | EmptyZone | SurroundingSpace | LeadingDot | TrailingDot | Wildcard | EmptyLabel
    | InvalidChar(at: nat) | Subdomain

  /** What each zone error says about the zone. */
  ghost predicate ZoneErrorHolds(zone: string, e: ZoneError) {
    match e
    case EmptyZone => zone == ""
    case SurroundingSpace => TrimSpace(zone) != zone
    case LeadingDot => zone != "" && zone[0] == '.'
    case TrailingDot => zone != "" && zone[|zone| - 1] == '.'
    case Wildcard => '*' in zone
    case EmptyLabel => exists i :: 0 <= i < |zone| - 1 && zone[i] == '.' && zone[i + 1] == '.'
    case InvalidChar(at) => at < |zone| && !AllowedChar(zone[at])
    case Subdomain => !AllowedDepth(zone)
  }

  method IsSubdomainOfRegistrable(zone: string) returns (r: bool)
    ensures r <==> !AllowedDepth(zone)
  {
    var z := ToLower(zone);
    var labels := Labels(z);
    if |labels| < 2 {
      return false;
    }
    if |labels| == 2 {
      return false;
    }
    for k := 0 to |MULTI_PART_SUFFIXES|
      invariant forall m :: 0 <= m < k && HasSuffix("." + z, MULTI_PART_SUFFIXES[m]) ==> |labels| != 3
    {
      if HasSuffix("." + z, MULTI_PART_SUFFIXES[k]) && |labels| == 3 {
        return false;
      }
    }
    return true;
  }

  method ContainsEmptyLabel(zone: string) returns (r: bool)
    ensures r <==> exists i :: 0 <= i < |zone| - 1 && zone[i] == '.' && zone[i + 1] == '.'
  {
    for i := 0 to |zone|
      invariant forall k :: 0 <= k < i && k < |zone| - 1 ==> !(zone[k] == '.' && zone[k + 1] == '.')
    {
      if i < |zone| - 1 && zone[i] == '.' && zone[i + 1] == '.' {
        return true;
      }
    }
    return false;
  }

  /** validateZoneString: nil exactly on valid zones, and otherwise an error that holds. */
  method ValidateZoneString(zone: string) returns (r: Option<ZoneError>)
    ensures r.None? <==> ValidZone(zone)
    ensures r.Some? ==> ZoneErrorHolds(zone, r.value)
  {
    r := FirstZoneError(zone);
    if r.Some? {
      ZoneErrorRefutes(zone, r.value);
    }
  }

  method FirstZoneError(zone: string) returns (r: Option<ZoneError>)
    ensures r.None? ==> ValidZone(zone)
    ensures r.Some? ==> ZoneErrorHolds(zone, r.value)
  {
    if zone == "" {
      return Some(EmptyZone);
    }
    if TrimSpace(zone) != zone {
      return Some(SurroundingSpace);
    }
    if HasPrefix(zone, ".") {
      return Some(LeadingDot);
    }
    if HasSuffix(zone, ".") {
      assert zone[|zone| - 1..] == [zone[|zone| - 1]];
      return Some(TrailingDot);
    }
    if '*' in zone {
      return Some(Wildcard);
    }
    var gap := ContainsEmptyLabel(zone);
    if gap {
      return Some(EmptyLabel);
    }
    for i := 0 to |zone|
      invariant forall k :: 0 <= k < i ==> AllowedChar(zone[k])
    {
      if !AllowedChar(zone[i]) {
        return Some(InvalidChar(i));
      }
    }
    var sub := IsSubdomainOfRegistrable(zone);
    if sub {
      return Some(Subdomain);
    }
    NoZoneError(zone);
    return None;
  }

  lemma NoZoneError(zone: string)
    requires zone != "" && !HasPrefix(zone, ".") && !HasSuffix(zone, ".")
    requires !exists i :: 0 <= i < |zone| - 1 && zone[i] == '.' && zone[i + 1] == '.'
    requires AllAllowed(zone) && AllowedDepth(zone)
    ensures ValidZone(zone)
  {
    assert zone[|zone| - 1..] == [zone[|zone| - 1]] && zone[..1] == [zone[0]];
    LabelsNonEmpty(zone);
  }

  lemma ZoneErrorRefutes(zone: string, e: ZoneError)
    requires ZoneErrorHolds(zone, e)
    ensures !ValidZone(zone)
  {
    LabelsNonEmpty(zone);
    if e.SurroundingSpace? {
      TrimChanges(zone);
    }
  }

  /** A string that trimming changes starts or ends with white space. */
  lemma TrimChanges(s: string)
    requires TrimSpace(s) != s
    ensures s != "" && (IsSpace(s[0]) || IsSpace(s[|s| - 1]))
    ensures !AllAllowed(s)
  {
    TrimKeeps(s);
  }

  ghost predicate Blank(s: string) {
    TrimSpace(s) == ""
  }

  ghost predicate NamesDistinct(c: Config) {
    forall i, k :: 0 <= i < k < |c.credentials| ==> c.credentials[i].name != c.credentials[k].name
  }

  /** No two positions of the config hold the same zone, whatever the case of its letters. */
  ghost predicate ZonesDistinct(c: Config) {
    forall i, j, k, m |
      0 <= i < |c.credentials| && 0 <= j < |c.credentials[i].zones| &&
      0 <= k < |c.credentials| && 0 <= m < |c.credentials[k].zones| &&
      ToLower(c.credentials[i].zones[j]) == ToLower(c.credentials[k].zones[m])
      :: i == k && j == m
  }

  ghost predicate ValidCredential(cred: Credential) {
    !Blank(cred.name) && !Blank(cred.secretRef) && cred.zones != [] &&
    forall j :: 0 <= j < |cred.zones| ==> ValidZone(cred.zones[j])
  }

  ghost predicate ValidConfig(c: Config) {
    && c.credentials != []
    && (forall i :: 0 <= i < |c.credentials| ==> ValidCredential(c.credentials[i]))
    && NamesDistinct(c)
    && ZonesDistinct(c)
  }

  datatype ConfigError =
    | NilConfig | NoCredentials
    | EmptyName(i: nat) | DuplicateName(i: nat) | EmptySecretRef(i: nat) | NoZones(i: nat)
    | BadZone(i: nat, j: nat, why: ZoneError)
    | RepeatedZone(i: nat, j: nat)
    | SharedZone(i: nat, j: nat, other: string)

  /** What each error says about the config; none of them holds of a valid one. */
  ghost predicate ErrorHolds(c: Option<Config>, e: ConfigError) {
    if e.NilConfig? then c.None?
    else if c.None? then false
    else if e.NoCredentials? then c.value.credentials == []
    else
      var creds := c.value.credentials;
      e.i < |creds| &&
      match e
      case EmptyName(i) => Blank(creds[i].name)
      case DuplicateName(i) => exists k :: 0 <= k < i && creds[k].name == creds[i].name
      case EmptySecretRef(i) => Blank(creds[i].secretRef)
      case NoZones(i) => creds[i].zones == []
      case BadZone(i, j, why) => j < |creds[i].zones| && ZoneErrorHolds(creds[i].zones[j], why) &&
                                 !ValidZone(creds[i].zones[j])
      case RepeatedZone(i, j) =>
        j < |creds[i].zones| && ListsAmong(creds[i], j, ToLower(creds[i].zones[j]))
      case SharedZone(i, j, other) =>
        j < |creds[i].zones| &&
        exists k :: 0 <= k < i && creds[k].name == other && Lists(creds[k], ToLower(creds[i].zones[j]))
  }

  lemma RepeatRefutes(c: Config, i: nat, j: nat)
    requires i < |c.credentials| && j < |c.credentials[i].zones|
    requires ListsAmong(c.credentials[i], j, ToLower(c.credentials[i].zones[j]))
    ensures !ZonesDistinct(c)
  {
    hide ToLower;
    var m :| 0 <= m < j && ToLower(c.credentials[i].zones[m]) == ToLower(c.credentials[i].zones[j]);
  }

  lemma ShareRefutes(c: Config, i: nat, j: nat, k: nat)
    requires k < i < |c.credentials| && j < |c.credentials[i].zones|
    requires Lists(c.credentials[k], ToLower(c.credentials[i].zones[j]))
    ensures !ZonesDistinct(c)
  {
    hide ToLower;
    var z := ToLower(c.credentials[i].zones[j]);
    assert ListsAmong(c.credentials[k], |c.credentials[k].zones|, z);
    var m :| 0 <= m < |c.credentials[k].zones| && ToLower(c.credentials[k].zones[m]) == z;
  }

  /** Each error is a reason for the config to be invalid. */
  lemma ErrorRefutes(c: Config, e: ConfigError)
    requires ErrorHolds(Some(c), e)
    ensures !ValidConfig(c)
  {
    hide ValidZone, Blank, ZonesDistinct, Lists, ListsAmong, ZoneErrorHolds, ToLower;
    match e
    case RepeatedZone(i, j) =>
      RepeatRefutes(c, i, j);
    case SharedZone(i, j, other) =>
      var k :| 0 <= k < i && c.credentials[k].name == other &&
               Lists(c.credentials[k], ToLower(c.credentials[i].zones[j]));
      ShareRefutes(c, i, j, k);
    case _ =>
  }

  /** firstSeenBy names, for each zone of the first i credentials, one that lists it. */
  ghost predicate SeenUpTo(c: Config, i: nat, firstSeenBy: map<string, string>)
    requires i <= |c.credentials|
  {
    && (forall k, z :: 0 <= k < i && Lists(c.credentials[k], z) ==> z in firstSeenBy)
    && (forall z :: z in firstSeenBy ==>
          exists k :: 0 <= k < i && c.credentials[k].name == firstSeenBy[z] && Lists(c.credentials[k], z))
  }

  /** What the pass over the first i credentials has established. */
  ghost predicate CheckedUpTo(c: Config, i: nat, credNames: set<string>, firstSeenBy: map<string, string>)
    requires i <= |c.credentials|
  {
    && (forall k :: 0 <= k < i ==> ValidCredential(c.credentials[k]))
    && credNames == (set k | 0 <= k < i :: c.credentials[k].name)
    && NamesDistinct(Config(c.credentials[..i]))
    && ZonesDistinct(Config(c.credentials[..i]))
    && SeenUpTo(c, i, firstSeenBy)
  }

  /** What the pass over the first j zones of credential i has established. */
  ghost predicate ZonesUpTo(c: Config, i: nat, j: nat, before: map<string, string>,
                            seenInCred: set<string>, firstSeenBy: map<string, string>)
    requires i < |c.credentials| && j <= |c.credentials[i].zones|
  {
    var cred := c.credentials[i];
    && (forall m :: 0 <= m < j ==> ValidZone(cred.zones[m]) && ToLower(cred.zones[m]) !in before)
    && (forall m, n :: 0 <= m < n < j ==> ToLower(cred.zones[m]) != ToLower(cred.zones[n]))
    && (forall z :: z in seenInCred <==> ListsAmong(cred, j, z))
    && (forall z :: z in firstSeenBy <==> z in before || z in seenInCred)
    && (forall z :: z in firstSeenBy ==> firstSeenBy[z] == if z in before then before[z] else cred.name)
  }

  lemma ZonesOneMore(c: Config, i: nat, j: nat, before: map<string, string>,
                     seen: set<string>, first: map<string, string>, z: string)
    requires i < |c.credentials| && j < |c.credentials[i].zones|
    requires ZonesUpTo(c, i, j, before, seen, first)
    requires z == ToLower(c.credentials[i].zones[j]) && z !in seen && z !in first
    requires ValidZone(c.credentials[i].zones[j])
    ensures ZonesUpTo(c, i, j + 1, before, seen + {z}, first[z := c.credentials[i].name])
  {
    hide ValidZone, ToLower;
    var cred := c.credentials[i];
    forall x ensures x in seen + {z} <==> ListsAmong(cred, j + 1, x) {
      ListsOneMore(cred, j, x);
    }
    forall m, n | 0 <= m < n < j + 1
      ensures ToLower(cred.zones[m]) != ToLower(cred.zones[n])
    {
      if n == j {
        assert ListsAmong(cred, j, ToLower(cred.zones[m]));
      }
    }
  }

  lemma CheckedOneMore(c: Config, i: nat, names: set<string>, before: map<string, string>,
                       seen: set<string>, first: map<string, string>)
    requires i < |c.credentials|
    requires CheckedUpTo(c, i, names, before)
    requires c.credentials[i].name !in names
    requires ValidCredential(c.credentials[i])
    requires ZonesUpTo(c, i, |c.credentials[i].zones|, before, seen, first)
    ensures CheckedUpTo(c, i + 1, names + {c.credentials[i].name}, first)
  {
    var cred := c.credentials[i];
    var front := Config(c.credentials[..i]);
    assert c.credentials[..i + 1] == front.credentials + [cred];
    NamesStayDistinct(front, cred, names);
    forall k, z | 0 <= k < |front.credentials| && Lists(front.credentials[k], z)
      ensures z in before
    {
      assert Lists(c.credentials[k], z);
    }
    ZonesStayDistinct(front, cred, before);
    SeenOneMore(c, i, before, seen, first);
    NamesOneMore(c, i);
  }

  lemma NamesOneMore(c: Config, i: nat)
    requires i < |c.credentials|
    ensures (set k | 0 <= k < i + 1 :: c.credentials[k].name) ==
            (set k | 0 <= k < i :: c.credentials[k].name) + {c.credentials[i].name}
  {
  }

  lemma NamesStayDistinct(front: Config, cred: Credential, names: set<string>)
    requires NamesDistinct(front) && cred.name !in names
    requires forall k :: 0 <= k < |front.credentials| ==> front.credentials[k].name in names
    ensures NamesDistinct(Config(front.credentials + [cred]))
  {
  }

  lemma SeenOneMore(c: Config, i: nat, before: map<string, string>, seen: set<string>, first: map<string, string>)
    requires i < |c.credentials| && SeenUpTo(c, i, before)
    requires ZonesUpTo(c, i, |c.credentials[i].zones|, before, seen, first)
    ensures SeenUpTo(c, i + 1, first)
  {
    forall z | z in first
      ensures exists k :: 0 <= k < i + 1 && c.credentials[k].name == first[z] && Lists(c.credentials[k], z)
    {
      if z in before {
        var k :| 0 <= k < i && c.credentials[k].name == before[z] && Lists(c.credentials[k], z);
        assert k < i + 1 && c.credentials[k].name == first[z];
      } else {
        assert Lists(c.credentials[i], z);
      }
    }
    forall k, z | 0 <= k < i + 1 && Lists(c.credentials[k], z)
      ensures z in first
    {
      if k == i {
        assert ListsAmong(c.credentials[i], |c.credentials[i].zones|, z);
      } else {
        assert z in before;
      }
    }
  }

  lemma ZonesStayDistinct(front: Config, cred: Credential, before: map<string, string>)
    requires ZonesDistinct(front)
    requires forall k, z :: 0 <= k < |front.credentials| && Lists(front.credentials[k], z) ==> z in before
    requires forall m :: 0 <= m < |cred.zones| ==> ToLower(cred.zones[m]) !in before
    requires forall m, n :: 0 <= m < n < |cred.zones| ==> ToLower(cred.zones[m]) != ToLower(cred.zones[n])
    ensures ZonesDistinct(Config(front.credentials + [cred]))
  {
    var creds := front.credentials + [cred];
    assert forall k :: 0 <= k < |front.credentials| ==> creds[k] == front.credentials[k];
    forall i, j, k, m |
      0 <= i < |creds| && 0 <= j < |creds[i].zones| && 0 <= k < |creds| && 0 <= m < |creds[k].zones| &&
      ToLower(creds[i].zones[j]) == ToLower(creds[k].zones[m])
      ensures i == k && j == m
    {
      var n := |front.credentials|;
      if i < n {
        assert Lists(front.credentials[i], ToLower(creds[i].zones[j]));
      }
      if k < n {
        assert Lists(front.credentials[k], ToLower(creds[k].zones[m]));
      }
    }
  }

  /** ValidateConfig: nil exactly on valid configs, and otherwise an error that holds. */
  method ValidateConfig(config: Option<Config>) returns (r: Option<ConfigError>)
    ensures r.None? <==> config.Some? && ValidConfig(config.value)
    ensures r.Some? ==> ErrorHolds(config, r.value)
  {
    if config.None? {
      return Some(NilConfig);
    }
    var c := config.value;
    if |c.credentials| == 0 {
      return Some(NoCredentials);
    }
    var firstSeenBy: map<string, string>, credNames: set<string> := map[], {};
    for i := 0 to |c.credentials|
      invariant CheckedUpTo(c, i, credNames, firstSeenBy)
    {
      var e;
      e, credNames, firstSeenBy := ValidateCredential(c, i, credNames, firstSeenBy);
      if e.Some? {
        ErrorRefutes(c, e.value);
        return e;
      }
    }
    assert c.credentials[..|c.credentials|] == c.credentials;
    assert Config(c.credentials) == c;
    return None;
  }

  /** The body of the loop of ValidateConfig. */
  method ValidateCredential(c: Config, i: nat, credNames: set<string>, firstSeenBy: map<string, string>)
    returns (r: Option<ConfigError>, names: set<string>, first: map<string, string>)
    requires i < |c.credentials| && CheckedUpTo(c, i, credNames, firstSeenBy)
    ensures r.None? ==> CheckedUpTo(c, i + 1, names, first)
    ensures r.Some? ==> ErrorHolds(Some(c), r.value)
  {
    var cred := c.credentials[i];
    names, first := credNames, firstSeenBy;
    if TrimSpace(cred.name) == "" {
      return Some(EmptyName(i)), names, first;
    }
    if cred.name in names {
      return Some(DuplicateName(i)), names, first;
    }
    names := names + {cred.name};
    if TrimSpace(cred.secretRef) == "" {
      return Some(EmptySecretRef(i)), names, first;
    }
    if |cred.zones| == 0 {
      return Some(NoZones(i)), names, first;
    }
    ghost var seen;
    r, first, seen := ValidateZones(c, i, firstSeenBy);
    if r.None? {
      CheckedOneMore(c, i, credNames, firstSeenBy, seen, first);
    }
  }

  /** The loop of ValidateConfig over the zones of one credential. */
  method ValidateZones(c: Config, i: nat, firstSeenBy: map<string, string>)
    returns (r: Option<ConfigError>, first: map<string, string>, seenInCred: set<string>)
    requires i < |c.credentials| && SeenUpTo(c, i, firstSeenBy)
    ensures r.None? ==> ZonesUpTo(c, i, |c.credentials[i].zones|, firstSeenBy, seenInCred, first)
    ensures r.Some? ==> ErrorHolds(Some(c), r.value)
  {
    var cred := c.credentials[i];
    first, seenInCred := firstSeenBy, {};
    for j := 0 to |cred.zones|
      invariant ZonesUpTo(c, i, j, firstSeenBy, seenInCred, first)
    {
      var zone := cred.zones[j];
      var bad := ValidateZoneString(zone);
      if bad.Some? {
        return Some(BadZone(i, j, bad.value)), first, seenInCred;
      }
      var normalised := ToLower(zone);
      if normalised in seenInCred {
        return Some(RepeatedZone(i, j)), first, seenInCred;
      }
      if normalised in first {
        return Some(SharedZone(i, j, first[normalised])), first, seenInCred;
      }
      ZonesOneMore(c, i, j, firstSeenBy, seenInCred, first, normalised);
      seenInCred := seenInCred + {normalised};
      first := first[normalised := cred.name];
    }
    return None, first, seenInCred;
  }
}
