/** What routing guarantees on validated configs: how many zones can match, which
    credential answers, and what does not change the answer. */
module RoutingLaws {
  import opened Text
  import opened Routing
  import opened Validation

  // ---- configured zones of a valid config ------------------------------------------------

  lemma ConfiguredWitness(c: Config, z: string) returns (i: nat, j: nat)
    requires Configured(c, z)
    ensures i < |c.credentials| && j < |c.credentials[i].zones| && ToLower(c.credentials[i].zones[j]) == z
  {
    i :| 0 <= i < |c.credentials| && Lists(c.credentials[i], z);
    assert ListsAmong(c.credentials[i], |c.credentials[i].zones|, z);
    j :| 0 <= j < |c.credentials[i].zones| && ToLower(c.credentials[i].zones[j]) == z;
  }

  lemma ZoneIsConfigured(c: Config, i: nat, j: nat)
    requires i < |c.credentials| && j < |c.credentials[i].zones|
    ensures Lists(c.credentials[i], ToLower(c.credentials[i].zones[j]))
    ensures Configured(c, ToLower(c.credentials[i].zones[j]))
  {
    assert ListsAmong(c.credentials[i], |c.credentials[i].zones|, ToLower(c.credentials[i].zones[j]));
  }

  lemma ValidZoneAt(c: Config, i: nat, j: nat)
    requires ValidConfig(c) && i < |c.credentials| && j < |c.credentials[i].zones|
    ensures ValidZone(c.credentials[i].zones[j])
  {
    hide ValidZone, ZonesDistinct, NamesDistinct, Blank;
    assert ValidCredential(c.credentials[i]);
  }

  lemma LowerOfValid(zone: string)
    requires ValidZone(zone)
    ensures var z := ToLower(zone);
            z != "" && AllAllowed(z) && |Labels(z)| <= 3 && (|Labels(z)| == 3 ==> EndsInListed(z))
  {
    hide EndsInListed, Labels;
    LabelsNonEmpty(zone);
  }

  /** A configured zone of a valid config: allowed characters, not empty, allowed depth. */
  lemma ConfiguredShape(c: Config, z: string)
    requires ValidConfig(c) && Configured(c, z)
    ensures z != "" && AllAllowed(z)
    ensures |Labels(z)| <= 3
    ensures |Labels(z)| == 3 ==> EndsInListed(z)
  {
    hide ValidConfig, ValidZone, Labels, EndsInListed, AllAllowed;
    var i, j := ConfiguredWitness(c, z);
    ValidZoneAt(c, i, j);
    LowerOfValid(c.credentials[i].zones[j]);
  }

  /** In a valid config the credential that lists a zone is the one that owns it. */
  lemma ListedOnce(c: Config, i: nat, k: nat, z: string)
    requires ValidConfig(c) && i < |c.credentials| && k < |c.credentials|
    requires Lists(c.credentials[i], z) && Lists(c.credentials[k], z)
    ensures i == k
  {
    assert ListsAmong(c.credentials[i], |c.credentials[i].zones|, z);
    assert ListsAmong(c.credentials[k], |c.credentials[k].zones|, z);
    var j :| 0 <= j < |c.credentials[i].zones| && ToLower(c.credentials[i].zones[j]) == z;
    var m :| 0 <= m < |c.credentials[k].zones| && ToLower(c.credentials[k].zones[m]) == z;
  }

  lemma ListsIsOwns(c: Config, i: nat, z: string)
    requires ValidConfig(c) && i < |c.credentials| && Lists(c.credentials[i], z)
    ensures Owns(c, i, z)
  {
    forall k | i < k < |c.credentials| ensures !Lists(c.credentials[k], z) {
      if Lists(c.credentials[k], z) {
        ListedOnce(c, i, k, z);
      }
    }
  }

  // ---- at most one configured zone matches -----------------------------------------------

  predicate OneLabel(z: string) {
    |Labels(z)| == 1
  }

  predicate IsListedSuffix(z: string) {
    "." + z in MULTI_PART_SUFFIXES
  }

  /** A configured zone that is one label or a listed public suffix, with another configured
      zone below it. */
  ghost predicate HasShadowedApex(c: Config) {
    exists y, z :: Configured(c, y) && Configured(c, z) && y != z && LabelSuffix(y, z) &&
                   (OneLabel(y) || IsListedSuffix(y))
  }

  ghost predicate AtMostOneMatch(c: Config) {
    forall name, y, z :: Matches(c, name, y) && Matches(c, name, z) ==> y == z
  }

  lemma SuffixHasFewerLabels(y: string, z: string)
    requires LabelSuffix(y, z) && y != z
    ensures |Labels(y)| < |Labels(z)|
  {
    var p := z[..|z| - |y| - 1];
    assert z == p + "." + y;
    LabelsOfConcat(p, y);
  }

  /** Dot, two or three characters, dot, two characters. */
  predicate TwoPart(s: string) {
    && 6 <= |s| <= 7
    && s[0] == '.' && s[|s| - 3] == '.'
    && s[1] != '.' && s[2] != '.' && (|s| == 7 ==> s[3] != '.')
    && s[|s| - 2] != '.' && s[|s| - 1] != '.'
  }

  lemma TwoPartHasTwoLabels(s: string)
    requires TwoPart(s)
    ensures |Labels(s[1..])| == 2
  {
    var a, b := s[1..|s| - 3], s[|s| - 2..];
    assert s[1..] == a + "." + b;
    LabelsOfConcat(a, b);
  }

  lemma ListedAreTwoPart()
    ensures forall k :: 0 <= k < |MULTI_PART_SUFFIXES| ==> TwoPart(MULTI_PART_SUFFIXES[k])
  {
  }

  /** A name of three labels that ends in a two-part suffix, and any two-label suffix of it. */
  lemma TwoLabelSuffixIs(z: string, y: string, sfx: string)
    requires HasSuffix("." + z, sfx) && TwoPart(sfx)
    requires LabelSuffix(y, z) && |Labels(y)| == 2
    ensures sfx == "." + y
  {
    hide Labels;
    TwoPartHasTwoLabels(sfx);
    var t := sfx[1..];
    assert sfx == "." + t;
    DottedSuffix(z, t);
    TwoSuffixes(z, y, t);
    if y != t {
      if |y| < |t| {
        SuffixHasFewerLabels(y, t);
      } else {
        SuffixHasFewerLabels(t, y);
      }
    }
  }

  lemma ListedSuffixIs(z: string, y: string)
    requires EndsInListed(z) && LabelSuffix(y, z) && |Labels(y)| == 2
    ensures IsListedSuffix(y)
  {
    ListedAreTwoPart();
    var k :| 0 <= k < |MULTI_PART_SUFFIXES| && HasSuffix("." + z, MULTI_PART_SUFFIXES[k]);
    TwoLabelSuffixIs(z, y, MULTI_PART_SUFFIXES[k]);
    assert MULTI_PART_SUFFIXES[k] in MULTI_PART_SUFFIXES;
  }

  lemma NestedIsShadowed(c: Config, y: string, z: string)
    requires ValidConfig(c) && Configured(c, y) && Configured(c, z)
    requires LabelSuffix(y, z) && y != z
    ensures OneLabel(y) || IsListedSuffix(y)
  {
    hide ValidConfig, EndsInListed, IsListedSuffix;
    ConfiguredShape(c, z);
    SuffixHasFewerLabels(y, z);
    if |Labels(y)| == 2 {
      ListedSuffixIs(z, y);
    }
  }

  lemma DottedSuffix(z: string, t: string)
    requires HasSuffix("." + z, "." + t)
    ensures LabelSuffix(t, z)
  {
    var d := "." + z;
    assert d[|z| - |t|..] == "." + t;
    assert z[|z| - |t|..] == d[|z| - |t|..][1..] == t;
    if |t| < |z| {
      assert z[|z| - |t| - 1] == d[|z| - |t|..][0];
    }
  }

  /** Of two label suffixes of one name, one is a label suffix of the other. */
  lemma TwoSuffixes(name: string, y: string, z: string)
    requires LabelSuffix(y, name) && LabelSuffix(z, name)
    ensures |y| <= |z| ==> LabelSuffix(y, z)
    ensures |z| <= |y| ==> LabelSuffix(z, y)
    ensures |y| == |z| ==> y == z
  {
    if |y| <= |z| {
      SuffixOfSuffix(name, z, y);
    }
    if |z| <= |y| {
      SuffixOfSuffix(name, y, z);
    }
  }

  /** Exactly the configs with a shadowed apex have names that two configured zones match. */
  lemma AtMostOneExactly(c: Config)
    requires ValidConfig(c)
    ensures AtMostOneMatch(c) <==> !HasShadowedApex(c)
  {
    hide ValidConfig, IsListedSuffix;
    if y, z :| Configured(c, y) && Configured(c, z) && y != z && LabelSuffix(y, z) &&
               (OneLabel(y) || IsListedSuffix(y)) {
      ConfiguredShape(c, z);
      assert Matches(c, z, y) && Matches(c, z, z);
    }
    if name, y, z :| Matches(c, name, y) && Matches(c, name, z) && y != z {
      TwoSuffixes(name, y, z);
      if |y| <= |z| {
        NestedIsShadowed(c, y, z);
      } else {
        NestedIsShadowed(c, z, y);
      }
      assert HasShadowedApex(c);
    }
  }

  /** With no single-label zone and no zone that is itself a listed suffix, a name matches
      one configured zone at most. */
  lemma AtMostOne(c: Config, name: string, y: string, z: string)
    requires ValidConfig(c)
    requires forall x :: Configured(c, x) ==> !OneLabel(x) && !IsListedSuffix(x)
    requires Matches(c, name, y) && Matches(c, name, z)
    ensures y == z
  {
    hide ValidConfig, IsListedSuffix;
    AtMostOneExactly(c);
  }

  /** Under at-most-one, every name below a zone goes to the credential that lists it. */
  lemma BelowZoneGoesToOwner(c: Config, i: nat, z: string, fqdn: string)
    requires ValidConfig(c) && !HasShadowedApex(c)
    requires i < |c.credentials| && Lists(c.credentials[i], z)
    requires NormaliseFQDN(fqdn) != "" && LabelSuffix(z, NormaliseFQDN(fqdn))
    ensures RouteOf(c, fqdn) == Some(Route(i, z))
  {
    hide ValidConfig, NormaliseFQDN, HasShadowedApex;
    AtMostOneExactly(c);
    ListsIsOwns(c, i, z);
    RouteOfIs(c, fqdn, Route(i, z));
  }

  function TwoEntries(upper: string, lower: string): Config {
    Config([Credential("a", [upper], "r"), Credential("b", [lower], "s")])
  }

  lemma TwoEntriesValid(upper: string, lower: string)
    requires ValidZone(upper) && ValidZone(lower) && ToLower(upper) != ToLower(lower)
    ensures ValidConfig(TwoEntries(upper, lower))
  {
    hide ValidZone, TrimSpace, ToLower;
    TrimKeeps("a");
    TrimKeeps("b");
    TrimKeeps("r");
    TrimKeeps("s");
    var c := TwoEntries(upper, lower);
    assert c.credentials[0].zones == [upper] && c.credentials[1].zones == [lower];
    assert ValidCredential(c.credentials[0]) && ValidCredential(c.credentials[1]);
    assert c.credentials[0].name != c.credentials[1].name;
    assert ZonesDistinct(c);
  }

  /** Two valid nested zones in one config: both match the lower one, and it wins. */
  lemma NestedEntries(upper: string, lower: string, fqdn: string)
    requires ValidZone(upper) && ValidZone(lower) && upper != lower && LabelSuffix(upper, lower)
    requires ToLower(upper) == upper && ToLower(lower) == lower != ""
    requires NormaliseFQDN(fqdn) == lower
    ensures ValidConfig(TwoEntries(upper, lower)) && !AtMostOneMatch(TwoEntries(upper, lower))
    ensures RouteOf(TwoEntries(upper, lower), fqdn) == Some(Route(1, lower))
  {
    hide ValidZone, NormaliseFQDN, ValidConfig;
    var c := TwoEntries(upper, lower);
    TwoEntriesValid(upper, lower);
    ZoneIsConfigured(c, 0, 0);
    ZoneIsConfigured(c, 1, 0);
    assert Matches(c, lower, upper) && Matches(c, lower, lower);
    ListsIsOwns(c, 1, lower);
    RouteOfIs(c, fqdn, Route(1, lower));
  }

  lemma CoUkIsValid()
    ensures ToLower("co.uk") == "co.uk" && |Labels("co.uk")| == 2
    ensures ValidZone("co.uk")
  {
    hide EndsInListed;
    var z := "co.uk";
    assert ToLower(z) == z;
    LabelsNonEmpty(z);
    assert z == "co" + "." + "uk";
    LabelsOfConcat("co", "uk");
  }

  lemma BelowIsSuffix(p: string, y: string)
    ensures LabelSuffix(y, p + "." + y)
  {
    assert (p + "." + y)[|p| + 1..] == y;
  }

  lemma BelowListedIsValid(p: string, y: string)
    requires p != "" && '.' !in p && AllAllowed(p) && ToLower(p) == p
    requires ValidZone(y) && ToLower(y) == y && |Labels(y)| == 2 && EndsInListed(p + "." + y)
    ensures ToLower(p + "." + y) == p + "." + y && ValidZone(p + "." + y)
  {
    hide EndsInListed, Labels, ToLower;
    LowerConcat(p + ".", y);
    LowerConcat(p, ".");
    assert ToLower(".") == ['.'] by {
      assert ToLower(".")[0] == LowerChar('.');
    }
    LabelsOfConcat(p, y);
    NoDotOneLabel(p);
    assert NoneEmpty([p] + Labels(y));
  }

  lemma EndsInCoUk(p: string)
    ensures EndsInListed(p + "." + "co.uk")
  {
    var z := p + "." + "co.uk";
    assert MULTI_PART_SUFFIXES[0] == ".co.uk";
    assert ("." + z)[|p| + 1..] == ".co.uk";
  }

  /** Validation alone lets nested zones through: next to `co.uk`, every `p.co.uk` passes,
      both match, and the longer one wins. */
  lemma NestedZonesPassValidation(p: string)
    requires p != "" && '.' !in p && AllAllowed(p) && ToLower(p) == p
    ensures var z := p + "." + "co.uk"; var c := TwoEntries("co.uk", z);
            ValidConfig(c) && !AtMostOneMatch(c) && RouteOf(c, z) == Some(Route(1, z))
  {
    var y := "co.uk";
    CoUkIsValid();
    EndsInCoUk(p);
    NestedBelow(p, y);
  }

  lemma NestedBelow(p: string, y: string)
    requires p != "" && '.' !in p && AllAllowed(p) && ToLower(p) == p
    requires ValidZone(y) && ToLower(y) == y && |Labels(y)| == 2 && EndsInListed(p + "." + y)
    ensures var z := p + "." + y; var c := TwoEntries(y, z);
            ValidConfig(c) && !AtMostOneMatch(c) && RouteOf(c, z) == Some(Route(1, z))
  {
    var z := p + "." + y;
    BelowIsSuffix(p, y);
    BelowListedIsValid(p, y);
    ValidIsNormal(z);
    hide ValidZone, ValidConfig, AtMostOneMatch, RouteOf, NormaliseFQDN;
    NestedEntries(y, z, z);
  }

  /** Normalising leaves a valid lower-case zone alone. */
  lemma ValidIsNormal(z: string)
    requires ValidZone(z) && ToLower(z) == z
    ensures NormaliseFQDN(z) == z
  {
    hide AllowedDepth, TrimSpace, Labels;
    LabelsNonEmpty(z);
    TrimKeeps(z);
    assert z[|z| - 1..] == [z[|z| - 1]];
    assert ACME_PREFIX[0] == '_' && !AllowedChar('_');
  }

  // ---- the answer does not depend on the order of the config ------------------------------

  ghost predicate Bijection(p: seq<nat>, n: nat) {
    && |p| == n
    && (forall i :: 0 <= i < n ==> p[i] < n)
    && (forall i, k :: 0 <= i < n && 0 <= k < n && p[i] == p[k] ==> i == k)
    && (forall k :: 0 <= k < n ==> k in p)
  }

  /** Credential i of d is credential p[i] of c with its zones permuted by q[i]. */
  ghost predicate Rearranged(c: Config, d: Config, p: seq<nat>, q: seq<seq<nat>>) {
    && |d.credentials| == |q| == |c.credentials|
    && Bijection(p, |c.credentials|)
    && forall i :: 0 <= i < |p| ==> SameEntry(c.credentials[p[i]], d.credentials[i], q[i])
  }

  ghost predicate SameEntry(a: Credential, b: Credential, q: seq<nat>) {
    && b.name == a.name && b.secretRef == a.secretRef
    && |b.zones| == |a.zones| && Bijection(q, |a.zones|)
    && forall j :: 0 <= j < |q| ==> b.zones[j] == a.zones[q[j]]
  }

  lemma SameEntryLists(a: Credential, b: Credential, q: seq<nat>, z: string)
    requires SameEntry(a, b, q)
    ensures Lists(a, z) <==> Lists(b, z)
  {
    if Lists(b, z) {
      assert ListsAmong(b, |b.zones|, z);
      var j :| 0 <= j < |b.zones| && ToLower(b.zones[j]) == z;
      assert ToLower(a.zones[q[j]]) == z;
      assert ListsAmong(a, |a.zones|, z);
    }
    if Lists(a, z) {
      assert ListsAmong(a, |a.zones|, z);
      var m :| 0 <= m < |a.zones| && ToLower(a.zones[m]) == z;
      assert m in q;
      var j :| 0 <= j < |q| && q[j] == m;
      assert ToLower(b.zones[j]) == z;
      assert ListsAmong(b, |b.zones|, z);
    }
  }

  lemma RearrangedConfigured(c: Config, d: Config, p: seq<nat>, q: seq<seq<nat>>, z: string)
    requires Rearranged(c, d, p, q)
    ensures Configured(c, z) <==> Configured(d, z)
  {
    if i :| 0 <= i < |d.credentials| && Lists(d.credentials[i], z) {
      SameEntryLists(c.credentials[p[i]], d.credentials[i], q[i], z);
    }
    if k :| 0 <= k < |c.credentials| && Lists(c.credentials[k], z) {
      assert k in p;
      var i :| 0 <= i < |p| && p[i] == k;
      SameEntryLists(c.credentials[p[i]], d.credentials[i], q[i], z);
    }
  }

  /** Permuting credentials, and zones inside credentials, changes neither the matched apex
      nor the chosen entry. */
  lemma OrderDoesNotMatter(c: Config, d: Config, p: seq<nat>, q: seq<seq<nat>>, fqdn: string)
    requires ValidConfig(c) && Rearranged(c, d, p, q)
    ensures RouteOf(c, fqdn).None? <==> RouteOf(d, fqdn).None?
    ensures RouteOf(d, fqdn).Some? ==>
              var r, s := RouteOf(c, fqdn).value, RouteOf(d, fqdn).value;
              && s.apex == r.apex
              && s.index < |p| && r.index == p[s.index]
              && d.credentials[s.index].name == c.credentials[r.index].name
              && d.credentials[s.index].secretRef == c.credentials[r.index].secretRef
  {
    var name := NormaliseFQDN(fqdn);
    RouteExists(c, fqdn);
    RouteExists(d, fqdn);
    forall z ensures Matches(c, name, z) <==> Matches(d, name, z) {
      RearrangedConfigured(c, d, p, q, z);
    }
    if RouteOf(d, fqdn).Some? {
      var s := RouteOf(d, fqdn).value;
      SameEntryLists(c.credentials[p[s.index]], d.credentials[s.index], q[s.index], s.apex);
      ListsIsOwns(c, p[s.index], s.apex);
      RouteOfIs(c, fqdn, Route(p[s.index], s.apex));
    }
  }

  lemma SameEntryValid(a: Credential, b: Credential, q: seq<nat>)
    requires ValidCredential(a) && SameEntry(a, b, q)
    ensures ValidCredential(b)
  {
    hide ValidZone, Blank;
    forall j | 0 <= j < |b.zones| ensures ValidZone(b.zones[j]) {
      assert ValidZone(a.zones[q[j]]);
    }
  }

  lemma RearrangedZonesDistinct(c: Config, d: Config, p: seq<nat>, q: seq<seq<nat>>)
    requires ZonesDistinct(c) && Rearranged(c, d, p, q)
    ensures ZonesDistinct(d)
  {
    forall i, j, k, m |
      0 <= i < |d.credentials| && 0 <= j < |d.credentials[i].zones| &&
      0 <= k < |d.credentials| && 0 <= m < |d.credentials[k].zones| &&
      ToLower(d.credentials[i].zones[j]) == ToLower(d.credentials[k].zones[m])
      ensures i == k && j == m
    {
      assert SameEntry(c.credentials[p[i]], d.credentials[i], q[i]);
      assert SameEntry(c.credentials[p[k]], d.credentials[k], q[k]);
      assert d.credentials[i].zones[j] == c.credentials[p[i]].zones[q[i][j]];
      assert d.credentials[k].zones[m] == c.credentials[p[k]].zones[q[k][m]];
    }
  }

  /** A rearranged valid config is valid. */
  lemma RearrangedIsValid(c: Config, d: Config, p: seq<nat>, q: seq<seq<nat>>)
    requires ValidConfig(c) && Rearranged(c, d, p, q)
    ensures ValidConfig(d)
  {
    hide ValidCredential, ZonesDistinct;
    RearrangedZonesDistinct(c, d, p, q);
    forall i | 0 <= i < |d.credentials| ensures ValidCredential(d.credentials[i]) {
      SameEntryValid(c.credentials[p[i]], d.credentials[i], q[i]);
    }
    forall i, k | 0 <= i < k < |d.credentials|
      ensures d.credentials[i].name != d.credentials[k].name
    {
      assert SameEntry(c.credentials[p[i]], d.credentials[i], q[i]);
      assert SameEntry(c.credentials[p[k]], d.credentials[k], q[k]);
      assert p[i] < p[k] || p[k] < p[i];
    }
  }

  // ---- the challenge label does not matter ------------------------------------------------

  lemma FirstDotOfPrefixed(u: string)
    ensures IndexOf(ACME_PREFIX + u, '.') == Some(|ACME_PREFIX| - 1)
  {
    var lead := "_acme-challenge";
    IndexOfSplit(lead, u);
    assert ACME_PREFIX == lead + ".";
  }

  lemma PrefixedMatches(c: Config, u: string, z: string)
    requires ValidConfig(c)
    ensures Matches(c, ACME_PREFIX + u, z) <==> Matches(c, u, z)
  {
    hide ValidConfig, Labels, EndsInListed, IndexOf;
    var t := ACME_PREFIX + u;
    assert t[|ACME_PREFIX|..] == u;
    RestIsSuffix(t, |ACME_PREFIX| - 1);
    if Configured(c, z) {
      ConfiguredShape(c, z);
      if LabelSuffix(z, t) {
        assert z != t by {
          assert t[0] == '_' && !AllowedChar('_');
        }
        ShorterIsAfterDot(t, z);
        FirstDotOfPrefixed(u);
        SuffixOfSuffix(t, u, z);
      }
      if LabelSuffix(z, u) {
        SuffixOfSuffix(t, u, z);
      }
    }
  }

  lemma SameMatchesSameRoute(c: Config, f: string, g: string)
    requires forall z :: Matches(c, NormaliseFQDN(f), z) <==> Matches(c, NormaliseFQDN(g), z)
    ensures RouteOf(c, f) == RouteOf(c, g)
  {
    RouteExists(c, f);
    RouteExists(c, g);
    if RouteOf(c, g).Some? {
      RouteOfIs(c, f, RouteOf(c, g).value);
    }
  }

  /** Normalising a prefixed trimmed FQDN gives its lower-case form without the last dot. */
  lemma PrefixedNormal(fqdn: string)
    requires TrimSpace(fqdn) == fqdn
    ensures TrimSpace(ACME_PREFIX + fqdn) == ACME_PREFIX + fqdn
    ensures NormaliseFQDN(ACME_PREFIX + fqdn) ==
            if fqdn == "" then "_acme-challenge" else TrimSuffix(ToLower(fqdn), ".")
  {
    var p := ACME_PREFIX;
    hide TrimSpace;
    TrimKeeps(fqdn);
    TrimKeeps(p + fqdn);
    LowerConcat(p, fqdn);
    assert ToLower(p) == p;
    if fqdn == "" {
      assert p + ToLower(fqdn) == p && p[..|p| - 1] == "_acme-challenge" && p[|p| - 1..] == ".";
    } else {
      hide TrimSuffix, TrimPrefix;
      TrimSuffixConcat(p, ToLower(fqdn));
      TrimPrefixConcat(p, TrimSuffix(ToLower(fqdn), "."));
    }
  }

  /** A trimmed FQDN, and what is left of it once one challenge label is taken off. */
  lemma StrippedMatches(c: Config, fqdn: string, z: string)
    requires ValidConfig(c) && TrimSpace(fqdn) == fqdn
    ensures Matches(c, NormaliseFQDN(fqdn), z) <==> Matches(c, TrimSuffix(ToLower(fqdn), "."), z)
  {
    hide ValidConfig, Matches, TrimSpace, TrimSuffix;
    var t := TrimSuffix(ToLower(fqdn), ".");
    if HasPrefix(t, ACME_PREFIX) {
      assert t == ACME_PREFIX + TrimPrefix(t, ACME_PREFIX);
      PrefixedMatches(c, TrimPrefix(t, ACME_PREFIX), z);
    }
  }

  lemma BareLabelMatchesNothing(c: Config, z: string)
    requires ValidConfig(c)
    ensures !Matches(c, "_acme-challenge", z)
  {
    hide ValidConfig;
    var bare := "_acme-challenge";
    assert bare[0] == '_' && '.' !in bare && !AllowedChar('_');
    if Configured(c, z) && LabelSuffix(z, bare) {
      ConfiguredShape(c, z);
      if |z| < |bare| {
        ShorterIsAfterDot(bare, z);
      }
    }
  }

  /** Putting one more `_acme-challenge.` in front of a trimmed FQDN never changes the route. */
  lemma ChallengeLabelDoesNotMatter(c: Config, fqdn: string)
    requires ValidConfig(c) && TrimSpace(fqdn) == fqdn
    ensures RouteOf(c, ACME_PREFIX + fqdn) == RouteOf(c, fqdn)
    ensures TrimSpace(ACME_PREFIX + fqdn) == ACME_PREFIX + fqdn
  {
    hide ValidConfig, NormaliseFQDN, TrimSpace, TrimSuffix, LabelSuffix, RouteOf;
    PrefixedNormal(fqdn);
    forall z ensures Matches(c, NormaliseFQDN(ACME_PREFIX + fqdn), z) <==> Matches(c, NormaliseFQDN(fqdn), z) {
      StrippedMatches(c, fqdn, z);
      if fqdn == "" {
        BareLabelMatchesNothing(c, z);
        EmptyNormal();
      }
    }
    SameMatchesSameRoute(c, ACME_PREFIX + fqdn, fqdn);
  }

  lemma EmptyNormal()
    ensures NormaliseFQDN("") == ""
  {
    assert TrimSpace("") == "";
  }

  function Prefixed(fqdn: string, n: nat): string {
    if n == 0 then fqdn else "_acme-challenge." + Prefixed(fqdn, n - 1)
  }

  /** Any number of challenge labels in front leaves the route as it is. */
  lemma {:induction false} ChallengeLabelsDoNotMatter(c: Config, fqdn: string, n: nat)
    requires ValidConfig(c) && TrimSpace(fqdn) == fqdn
    ensures RouteOf(c, Prefixed(fqdn, n)) == RouteOf(c, fqdn)
    ensures TrimSpace(Prefixed(fqdn, n)) == Prefixed(fqdn, n)
  {
    hide ValidConfig, RouteOf, RoutesTo, TrimSpace;
    if n > 0 {
      ChallengeLabelsDoNotMatter(c, fqdn, n - 1);
      ChallengeLabelDoesNotMatter(c, Prefixed(fqdn, n - 1));
    }
  }

  // ---- the case of letters and the final dot do not matter --------------------------------

  lemma FoldedNormal(f: string, g: string)
    requires EqualFold(f, g)
    ensures NormaliseFQDN(f) == NormaliseFQDN(g)
  {
    hide TrimSpace, ToLower, EqualFold;
    LowerExactly(f, g);
    TrimSpaceLower(f);
    TrimSpaceLower(g);
  }

  /** The configs list the same zones at the same places, up to the case of letters. */
  ghost predicate FoldedZones(c: Config, d: Config) {
    |c.credentials| == |d.credentials| &&
    forall i :: 0 <= i < |c.credentials| ==> FoldedList(c.credentials[i].zones, d.credentials[i].zones)
  }

  ghost predicate FoldedList(a: seq<string>, b: seq<string>) {
    |a| == |b| && forall j :: 0 <= j < |a| ==> EqualFold(a[j], b[j])
  }

  lemma FoldedLists(a: Credential, b: Credential, z: string)
    requires FoldedList(a.zones, b.zones)
    ensures Lists(a, z) <==> Lists(b, z)
  {
    hide ToLower, EqualFold;
    forall j | 0 <= j < |a.zones| ensures ToLower(a.zones[j]) == ToLower(b.zones[j]) {
      LowerExactly(a.zones[j], b.zones[j]);
    }
  }

  lemma FoldedRoutes(c: Config, d: Config, name: string, r: Route)
    requires FoldedZones(c, d)
    ensures RoutesName(c, name, r) <==> RoutesName(d, name, r)
  {
    hide Lists, LabelSuffix, FoldedList;
    forall i, z | 0 <= i < |c.credentials| ensures Lists(c.credentials[i], z) <==> Lists(d.credentials[i], z) {
      FoldedLists(c.credentials[i], d.credentials[i], z);
    }
    forall z ensures Configured(c, z) <==> Configured(d, z) {
    }
    forall i: nat, z ensures Owns(c, i, z) <==> Owns(d, i, z) {
    }
  }

  /** Neither the case of the name nor that of the configured zones changes the route. */
  lemma CaseDoesNotMatter(c: Config, d: Config, f: string, g: string)
    requires FoldedZones(c, d) && EqualFold(f, g)
    ensures RouteOf(c, f) == RouteOf(d, g)
  {
    hide NormaliseFQDN, EqualFold, FoldedZones, RoutesName;
    FoldedNormal(f, g);
    RouteExists(c, f);
    RouteExists(d, g);
    if RouteOf(c, f).Some? {
      FoldedRoutes(c, d, NormaliseFQDN(f), RouteOf(c, f).value);
      RouteOfIs(d, g, RouteOf(c, f).value);
    }
    if RouteOf(d, g).Some? {
      FoldedRoutes(c, d, NormaliseFQDN(f), RouteOf(d, g).value);
      RouteOfIs(c, f, RouteOf(d, g).value);
    }
  }

  /** The apex of a route is one of the zones of its credential, in small letters, and no later
      credential lists it. */
  lemma ApexIsListed(c: Config, fqdn: string)
    ensures var r := RouteOf(c, fqdn);
            r.Some? ==>
              && NoCapitals(r.value.apex)
              && (exists j :: 0 <= j < |c.credentials[r.value.index].zones| &&
                              EqualFold(c.credentials[r.value.index].zones[j], r.value.apex))
              && forall k, j :: r.value.index < k < |c.credentials| && 0 <= j < |c.credentials[k].zones| ==>
                                  !EqualFold(c.credentials[k].zones[j], r.value.apex)
  {
    hide NormaliseFQDN, EqualFold, NoCapitals, LabelSuffix, ToLower;
    RouteExists(c, fqdn);
    if RouteOf(c, fqdn).Some? {
      var r := RouteOf(c, fqdn).value;
      assert Lists(c.credentials[r.index], r.apex);
      var j :| 0 <= j < |c.credentials[r.index].zones| && ToLower(c.credentials[r.index].zones[j]) == r.apex;
      LowerExactly(c.credentials[r.index].zones[j], r.apex);
      forall k, m | r.index < k < |c.credentials| && 0 <= m < |c.credentials[k].zones|
        ensures !EqualFold(c.credentials[k].zones[m], r.apex)
      {
        LowerExactly(c.credentials[k].zones[m], r.apex);
        assert !ListsAmong(c.credentials[k], |c.credentials[k].zones|, r.apex);
      }
    }
  }

  /** Every configured zone, and every name below it, written in any case, is routed. */
  lemma EveryCaseIsRouted(c: Config, i: nat, j: nat, fqdn: string, p: string)
    requires i < |c.credentials| && j < |c.credentials[i].zones|
    requires NormaliseFQDN(fqdn) != "" && LabelSuffix(p, NormaliseFQDN(fqdn))
    requires EqualFold(p, c.credentials[i].zones[j])
    ensures RouteOf(c, fqdn).Some?
  {
    hide EqualFold, LabelSuffix, ToLower, TrimSpace;
    var z := c.credentials[i].zones[j];
    NormalHasNoCapitals(fqdn, p);
    LowerExactly(p, p);
    FoldRefl(p);
    LowerExactly(p, z);
    ZoneIsConfigured(c, i, j);
    assert Matches(c, NormaliseFQDN(fqdn), p);
    RouteExists(c, fqdn);
  }

  lemma FoldRefl(p: string)
    ensures EqualFold(p, p)
  {
  }

  lemma NoCapitalsInPart(s: string, i: nat, j: nat)
    requires NoCapitals(s) && i <= j <= |s|
    ensures NoCapitals(s[i..j])
  {
  }

  lemma NoCapitalsTrimmed(s: string, u: string, p: string)
    requires NoCapitals(s)
    ensures NoCapitals(TrimSuffix(s, u)) && NoCapitals(TrimPrefix(s, u)) && (HasSuffix(s, p) ==> NoCapitals(p))
  {
    hide NoCapitals;
    if HasSuffix(s, u) {
      NoCapitalsInPart(s, 0, |s| - |u|);
      assert s[0..|s| - |u|] == s[..|s| - |u|];
    }
    if HasPrefix(s, u) {
      NoCapitalsInPart(s, |u|, |s|);
      assert s[|u|..|s|] == s[|u|..];
    }
    if HasSuffix(s, p) {
      NoCapitalsInPart(s, |s| - |p|, |s|);
      assert s[|s| - |p|..|s|] == p;
    }
  }

  lemma NormalHasNoCapitals(fqdn: string, p: string)
    requires LabelSuffix(p, NormaliseFQDN(fqdn))
    ensures NoCapitals(p)
  {
    hide TrimSpace, ToLower, NoCapitals, EqualFold, TrimSuffix, TrimPrefix, HasSuffix;
    var low := ToLower(TrimSpace(fqdn));
    LowerExactly(TrimSpace(fqdn), low);
    NoCapitalsTrimmed(low, ".", p);
    NoCapitalsTrimmed(TrimSuffix(low, "."), ACME_PREFIX, p);
    NoCapitalsTrimmed(NormaliseFQDN(fqdn), ".", p);
  }

  /** Validity without the helpers of the validator: names and references with something in them
      besides white space, distinct names, valid zones, and no two zones equal up to case. */
  lemma ValidExactly(c: Config)
    ensures ValidConfig(c) <==>
            && c.credentials != []
            && (forall i, k :: 0 <= i < k < |c.credentials| ==> c.credentials[i].name != c.credentials[k].name)
            && (forall i :: 0 <= i < |c.credentials| ==>
                  var cred := c.credentials[i];
                  !AllWhite(cred.name) && !AllWhite(cred.secretRef) && cred.zones != [] &&
                  forall j :: 0 <= j < |cred.zones| ==> ValidZone(cred.zones[j]))
            && (forall i, j, k, m |
                  0 <= i < |c.credentials| && 0 <= j < |c.credentials[i].zones| &&
                  0 <= k < |c.credentials| && 0 <= m < |c.credentials[k].zones| &&
                  EqualFold(c.credentials[i].zones[j], c.credentials[k].zones[m]) :: i == k && j == m)
  {
    hide ValidZone, TrimSpace, ToLower, EqualFold, AllWhite;
    forall s ensures Blank(s) <==> AllWhite(s) {
      TrimSpaceExactly(s, "");
    }
    forall s, t ensures ToLower(s) == ToLower(t) <==> EqualFold(s, t) {
      LowerExactly(s, t);
    }
  }

  /** A hyphen, a dot, a digit or a letter. */
  predicate ZoneCode(code: int) {
    45 <= code <= 46 || 48 <= code <= 57 || 65 <= code <= 90 || 97 <= code <= 122
  }

  /** A valid zone has these characters, dots only between others, and an allowed depth. */
  lemma ZoneExactly(zone: string)
    ensures ValidZone(zone) <==>
            DotsSeparate(zone) && AllowedDepth(zone) && forall i :: 0 <= i < |zone| ==> ZoneCode(zone[i] as int)
  {
    hide AllowedDepth, Labels;
    LabelsNonEmpty(zone);
  }

  /** The listed suffixes, by country. */
  lemma ListedByCountry(s: string)
    ensures s in MULTI_PART_SUFFIXES <==>
            || s in {".co.uk", ".org.uk", ".ac.uk", ".gov.uk"} || s in {".com.au", ".net.au", ".org.au", ".gov.au"}
            || s in {".co.nz", ".net.nz", ".org.nz", ".ac.nz"} || s in {".co.za", ".org.za", ".ac.za"}
            || s in {".co.jp", ".ac.jp"} || s in {".com.cn", ".net.cn"} || s in {".com.br", ".net.br"}
            || s in {".co.kr", ".co.in", ".co.il", ".com.mx", ".com.sg", ".com.tr", ".com.tw", ".com.hk", ".com.ar"}
            || s in {".com.pl", ".com.ua"}
  {
  }

  lemma {:induction false} TrimLeftThen(s: string, c: char)
    requires TrimLeft(s) != ""
    ensures TrimLeft(s + [c]) == TrimLeft(s) + [c]
  {
    if IsSpace(s[0]) {
      assert (s + [c])[1..] == s[1..] + [c];
      TrimLeftThen(s[1..], c);
    }
  }

  /** A final dot, as in a fully qualified name, does not change the route. */
  lemma FinalDotDoesNotMatter(c: Config, f: string)
    requires f != "" && f[|f| - 1] != '.' && !IsSpace(f[|f| - 1])
    ensures RouteOf(c, f + ".") == RouteOf(c, f)
  {
    DottedNormal(f);
    hide NormaliseFQDN;
    SameMatchesSameRoute(c, f + ".", f);
  }

  lemma DottedNormal(f: string)
    requires f != "" && f[|f| - 1] != '.' && !IsSpace(f[|f| - 1])
    ensures NormaliseFQDN(f + ".") == NormaliseFQDN(f)
  {
    hide ToLower, TrimLeft, IsSpace;
    var t := TrimLeft(f);
    LeadOfTrim(f);
    assert t != "" && t[|t| - 1] == f[|f| - 1];
    TrimLeftThen(f, '.');
    assert !IsSpace('.') by {
      SpaceIsWhite('.');
    }
    assert TrimSpace(f) == t && TrimSpace(f + ".") == t + ".";
    LowerConcat(t, ".");
    assert ToLower(".") == "." && ToLower(t)[|t| - 1] != '.' by {
      LowerExactly(".", ".");
      LowerExactly(t, ToLower(t));
    }
    var low := ToLower(t);
    assert low[|t| - 1..] == [low[|t| - 1]];
    assert (low + ".")[..|t|] == low && (low + ".")[|t|..] == ".";
  }
}
