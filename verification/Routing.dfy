/** Zone-apex to credential routing (internal/routing/routing.go): the index-and-walk of
    Resolve, and the declarative routing relation it computes. */
module Routing {
  import opened Text

  const ACME_PREFIX := "_acme-challenge."

  datatype Credential = Credential(name: string, zones: seq<string>, secretRef: string)

  datatype Config = Config(credentials: seq<Credential>)

  /** A routing decision: the index of the chosen credential and the matched zone-apex. */
  datatype Route = Route(index: nat, apex: string)

  function NormaliseFQDN(fqdn: string): string {
    TrimPrefix(TrimSuffix(ToLower(TrimSpace(fqdn)), "."), ACME_PREFIX)
  }

  /** z is name itself or what follows one of the dots of name. */
  predicate LabelSuffix(z: string, name: string) {
    HasSuffix(name, z) && (|z| < |name| ==> name[|name| - |z| - 1] == '.')
  }

  /** Among the first n zones of the credential, one is z in lower case. */
  ghost predicate ListsAmong(cred: Credential, n: nat, z: string)
    requires n <= |cred.zones|
  {
    exists j :: 0 <= j < n && ToLower(cred.zones[j]) == z
  }

  ghost predicate Lists(cred: Credential, z: string) {
    ListsAmong(cred, |cred.zones|, z)
  }

  ghost predicate Configured(c: Config, z: string) {
    exists i :: 0 <= i < |c.credentials| && Lists(c.credentials[i], z)
  }

  /** Credential i lists z and no later one does. */
  ghost predicate Owns(c: Config, i: nat, z: string) {
    i < |c.credentials| && Lists(c.credentials[i], z) &&
    forall k :: i < k < |c.credentials| ==> !Lists(c.credentials[k], z)
  }

  ghost predicate Matches(c: Config, name: string, z: string) {
    name != "" && LabelSuffix(z, name) && Configured(c, z)
  }

  /** The declarative routing relation on a normalised name: the longest configured label
      suffix, owned by the last credential that lists it. */
  ghost predicate RoutesName(c: Config, name: string, r: Route) {
    Matches(c, name, r.apex) && Owns(c, r.index, r.apex) &&
    forall z :: Matches(c, name, z) ==> |z| <= |r.apex|
  }

  ghost predicate RoutesTo(c: Config, fqdn: string, r: Route) {
    RoutesName(c, NormaliseFQDN(fqdn), r)
  }

  ghost function RouteOf(c: Config, fqdn: string): (o: Option<Route>)
    ensures o.Some? ==> o.value.index < |c.credentials|
  {
    if r: Route :| RoutesTo(c, fqdn, r) then Some(r) else None
  }

  lemma OwnerUnique(c: Config, i: nat, k: nat, z: string)
    requires Owns(c, i, z) && Owns(c, k, z)
    ensures i == k
  {
  }

  /** A name has one label suffix of each length at most, so it has one route at most. */
  lemma NameRouteUnique(c: Config, name: string, r: Route, s: Route)
    requires RoutesName(c, name, r) && RoutesName(c, name, s)
    ensures r == s
  {
    assert |r.apex| <= |s.apex| && |s.apex| <= |r.apex|;
    assert r.apex == s.apex;
    OwnerUnique(c, r.index, s.index, r.apex);
  }

  lemma RouteUnique(c: Config, fqdn: string, r: Route, s: Route)
    requires RoutesTo(c, fqdn, r) && RoutesTo(c, fqdn, s)
    ensures r == s
  {
    hide NormaliseFQDN, RoutesName;
    NameRouteUnique(c, NormaliseFQDN(fqdn), r, s);
  }

  lemma RouteOfIs(c: Config, fqdn: string, r: Route)
    requires RoutesTo(c, fqdn, r)
    ensures RouteOf(c, fqdn) == Some(r)
  {
    hide NormaliseFQDN, RoutesName;
    RouteUnique(c, fqdn, r, RouteOf(c, fqdn).value);
  }

  /** There is a route exactly when some configured zone is a label suffix of the name. */
  lemma RouteExists(c: Config, fqdn: string)
    ensures RouteOf(c, fqdn).Some? <==> exists z :: Matches(c, NormaliseFQDN(fqdn), z)
    ensures RouteOf(c, fqdn).Some? ==> RoutesTo(c, fqdn, RouteOf(c, fqdn).value)
  {
    hide NormaliseFQDN, Owns;
    var name := NormaliseFQDN(fqdn);
    if z :| Matches(c, name, z) {
      assert Configured(c, z);
      var best := LongestMatch(c, name, |name|);
      var i := LastOwner(c, best, |c.credentials|);
      RouteOfIs(c, fqdn, Route(i, best));
    }
  }

  lemma LongestMatch(c: Config, name: string, n: nat) returns (best: string)
    requires exists z :: Matches(c, name, z) && |z| <= n
    requires forall z :: Matches(c, name, z) ==> |z| <= n
    ensures Matches(c, name, best)
    ensures forall z :: Matches(c, name, z) ==> |z| <= |best|
  {
    if z :| Matches(c, name, z) && |z| == n {
      best := z;
    } else {
      best := LongestMatch(c, name, n - 1);
    }
  }

  lemma LastOwner(c: Config, z: string, n: nat) returns (i: nat)
    requires n <= |c.credentials|
    requires exists k :: 0 <= k < n && Lists(c.credentials[k], z)
    requires forall k :: n <= k < |c.credentials| ==> !Lists(c.credentials[k], z)
    ensures Owns(c, i, z)
  {
    if Lists(c.credentials[n - 1], z) {
      i := n - 1;
    } else {
      i := LastOwner(c, z, n - 1);
    }
  }

  /** Up to the length of a label suffix, a name and that suffix have the same label suffixes. */
  lemma SuffixOfSuffix(name: string, candidate: string, z: string)
    requires LabelSuffix(candidate, name) && |z| <= |candidate|
    ensures LabelSuffix(z, name) <==> LabelSuffix(z, candidate)
  {
    var off := |name| - |candidate|;
    assert candidate == name[off..];
    assert candidate[|candidate| - |z|..] == name[|name| - |z|..];
    assert |z| < |candidate| ==> candidate[|candidate| - |z| - 1] == name[|name| - |z| - 1];
  }

  lemma RestIsSuffix(candidate: string, dot: nat)
    requires dot < |candidate| && candidate[dot] == '.'
    ensures LabelSuffix(candidate[dot + 1..], candidate)
  {
    var rest := candidate[dot + 1..];
    assert candidate[|candidate| - |rest|..] == rest;
  }

  /** A shorter label suffix starts after the first dot. */
  lemma ShorterIsAfterDot(candidate: string, z: string)
    requires LabelSuffix(z, candidate) && |z| < |candidate|
    ensures IndexOf(candidate, '.').Some? && |z| < |candidate| - IndexOf(candidate, '.').value
  {
    var at := |candidate| - |z| - 1;
    assert candidate[at] == '.' && '.' in candidate;
    var dot := IndexOf(candidate, '.').value;
    assert forall k :: 0 <= k < dot ==> candidate[k] == candidate[..dot][k];
  }

  lemma ListsOneMore(cred: Credential, j: nat, z: string)
    requires j < |cred.zones|
    ensures ListsAmong(cred, j + 1, z) <==> ListsAmong(cred, j, z) || z == ToLower(cred.zones[j])
  {
    if ListsAmong(cred, j, z) {
      var k :| 0 <= k < j && ToLower(cred.zones[k]) == z;
      assert k < j + 1;
    }
    if z == ToLower(cred.zones[j]) {
      assert j < j + 1;
    }
  }

  ghost predicate IndexedUpTo(c: Config, index: map<string, nat>, i: nat, j: nat)
    requires i <= |c.credentials|
    requires j <= if i < |c.credentials| then |c.credentials[i].zones| else 0
  {
    && (forall z :: z in index ==>
          || (index[z] < i && Lists(c.credentials[index[z]], z))
          || (index[z] == i < |c.credentials| && ListsAmong(c.credentials[i], j, z)))
    && (forall k, z :: 0 <= k < i && Lists(c.credentials[k], z) ==> z in index && k <= index[z])
    && (forall z :: i < |c.credentials| && ListsAmong(c.credentials[i], j, z) ==> z in index && index[z] == i)
  }

  lemma IndexOneMore(c: Config, index: map<string, nat>, i: nat, j: nat)
    requires i < |c.credentials| && j < |c.credentials[i].zones|
    requires IndexedUpTo(c, index, i, j)
    ensures IndexedUpTo(c, index[ToLower(c.credentials[i].zones[j]) := i], i, j + 1)
  {
    var cred := c.credentials[i];
    forall z ensures ListsAmong(cred, j + 1, z) <==> ListsAmong(cred, j, z) || z == ToLower(cred.zones[j]) {
      ListsOneMore(cred, j, z);
    }
  }

  lemma IndexNextCredential(c: Config, index: map<string, nat>, i: nat)
    requires i < |c.credentials|
    requires IndexedUpTo(c, index, i, |c.credentials[i].zones|)
    ensures IndexedUpTo(c, index, i + 1, 0)
  {
    forall k, z | 0 <= k < i + 1 && Lists(c.credentials[k], z)
      ensures z in index && k <= index[z]
    {
      if k == i {
        assert ListsAmong(c.credentials[i], |c.credentials[i].zones|, z);
      }
    }
  }

  lemma IndexComplete(c: Config, index: map<string, nat>)
    requires IndexedUpTo(c, index, |c.credentials|, 0)
    ensures forall z :: z in index <==> Configured(c, z)
    ensures forall z :: z in index ==> Owns(c, index[z], z)
  {
  }

  /** The index of Resolve: a later credential overwrites an earlier one. */
  method BuildIndex(c: Config) returns (index: map<string, nat>)
    ensures forall z :: z in index <==> Configured(c, z)
    ensures forall z :: z in index ==> Owns(c, index[z], z)
  {
    index := map[];
    assert IndexedUpTo(c, index, 0, 0);
    for i := 0 to |c.credentials|
      invariant IndexedUpTo(c, index, i, 0)
    {
      var zones := c.credentials[i].zones;
      for j := 0 to |zones|
        invariant IndexedUpTo(c, index, i, j)
      {
        IndexOneMore(c, index, i, j);
        index := index[ToLower(zones[j]) := i];
      }
      IndexNextCredential(c, index, i);
    }
    IndexComplete(c, index);
  }

  /** Resolve. A nil config is None; a nil error is Some. */
  method Resolve(c: Option<Config>, fqdn: string) returns (r: Option<Route>)
    ensures c.None? ==> r.None?
    ensures c.Some? ==> r == RouteOf(c.value, fqdn)
    ensures c.Some? && r.Some? ==> RoutesTo(c.value, fqdn, r.value)
    ensures c.Some? && r.None? ==> forall z :: !Matches(c.value, NormaliseFQDN(fqdn), z)
  {
    hide NormaliseFQDN, Owns, Configured;
    if c.None? {
      return None;
    }
    var cfg := c.value;
    RouteExists(cfg, fqdn);
    var name := NormaliseFQDN(fqdn);
    if name == "" {
      return None;
    }
    var index := BuildIndex(cfg);
    var candidate := name;
    while true
      invariant LabelSuffix(candidate, name)
      invariant forall z :: Matches(cfg, name, z) ==> |z| <= |candidate|
      decreases |candidate|
    {
      if candidate in index {
        r := Some(Route(index[candidate], candidate));
        RouteOfIs(cfg, fqdn, r.value);
        return;
      }
      forall z | Matches(cfg, name, z)
        ensures LabelSuffix(z, candidate) && |z| < |candidate|
      {
        SuffixOfSuffix(name, candidate, z);
      }
      match IndexOf(candidate, '.') {
        case None =>
          forall z ensures !Matches(cfg, name, z) {
            if Matches(cfg, name, z) {
              ShorterIsAfterDot(candidate, z);
            }
          }
          return None;
        case Some(dot) =>
          forall z | Matches(cfg, name, z) ensures |z| <= |candidate[dot + 1..]| {
            ShorterIsAfterDot(candidate, z);
          }
          RestIsSuffix(candidate, dot);
          SuffixOfSuffix(name, candidate, candidate[dot + 1..]);
          candidate := candidate[dot + 1..];
      }
    }
  }
}
