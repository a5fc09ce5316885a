/** The zone-relative record name and the quoted TXT value the solver writes
    (internal/solver/solver.go, relativeRecordName and quoteTXT). */
module RecordNames {
  import opened Text
  import opened Routing
  import opened Validation
  import opened RoutingLaws

  const CHALLENGE_LABEL := "_acme-challenge"

  function RelativeRecordName(resolvedFQDN: string, zoneApex: string): string {
    var fqdn := ToLower(TrimSuffix(resolvedFQDN, "."));
    var apex := ToLower(zoneApex);
    if fqdn == apex then "@"
    else if HasSuffix(fqdn, "." + apex) then TrimSuffix(fqdn, "." + apex)
    else CHALLENGE_LABEL
  }

  /** The FQDN a challenge is about: lower case, no final dot. */
  function Canonical(fqdn: string): string {
    ToLower(TrimSuffix(fqdn, "."))
  }

  /** The full name of a record: "@" stands for the apex. */
  function FullName(record: string, apex: string): string {
    if record == "@" then apex else record + "." + apex
  }

  predicate EndsInSpace(s: string) {
    s != "" && IsSpace(s[|s| - 1])
  }

  predicate StartsInSpace(s: string) {
    s != "" && IsSpace(s[0])
  }

  /** The routed name is the apex itself. */
  predicate IsBareApex(fqdn: string, apex: string) {
    TrimSuffix(ToLower(TrimSpace(fqdn)), ".") == apex
  }

  ghost predicate Rebuilds(fqdn: string, apex: string) {
    FullName(RelativeRecordName(fqdn, apex), apex) == Canonical(fqdn)
  }

  // ---- what the router's answer says about the FQDN ---------------------------------------

  lemma RoutedSuffix(c: Config, fqdn: string, r: Route)
    requires ValidConfig(c) && RouteOf(c, fqdn) == Some(r)
    ensures r.apex != "" && AllAllowed(r.apex) && ToLower(r.apex) == r.apex
    ensures LabelSuffix(r.apex, TrimSuffix(ToLower(TrimSpace(fqdn)), "."))
    ensures TrimSpace(fqdn) != ""
  {
    hide ValidConfig, TrimSpace, AllAllowed;
    RouteExists(c, fqdn);
    ConfiguredShape(c, r.apex);
    var i, j := ConfiguredWitness(c, r.apex);
    LowerLower(c.credentials[i].zones[j]);
    hide LabelSuffix, TrimSuffix, ToLower;
    StrippedSuffix(TrimSuffix(ToLower(TrimSpace(fqdn)), "."), ACME_PREFIX, r.apex);
    assert NormaliseFQDN(fqdn) != "";
    BlankIsEmpty(fqdn);
  }

  lemma BlankIsEmpty(fqdn: string)
    requires NormaliseFQDN(fqdn) != ""
    ensures TrimSpace(fqdn) != ""
  {
  }

  lemma StrippedSuffix(n: string, p: string, z: string)
    requires p != "" && p[|p| - 1] == '.' && LabelSuffix(z, TrimPrefix(n, p))
    ensures LabelSuffix(z, n)
  {
    if HasPrefix(n, p) {
      var u := TrimPrefix(n, p);
      assert n == p + u && n[|p|..] == u;
      RestIsSuffix(n, |p| - 1);
      SuffixOfSuffix(n, u, z);
    }
  }

  lemma TrimLeftShortens(s: string)
    ensures |TrimLeft(s)| < |s| <==> StartsInSpace(s)
  {
  }

  lemma TrimRightKeeps(s: string)
    requires !EndsInSpace(s)
    ensures TrimRight(s) == s
  {
  }

  lemma SpacesAround(fqdn: string) returns (lead: string)
    requires !EndsInSpace(fqdn)
    ensures fqdn == lead + TrimSpace(fqdn)
    ensures lead != "" <==> StartsInSpace(fqdn)
    ensures forall i :: 0 <= i < |lead| ==> IsSpace(lead[i])
  {
    hide TrimLeft, TrimRight, IsSpace;
    var t := TrimLeft(fqdn);
    lead := fqdn[..|fqdn| - |t|];
    LeadOfTrim(fqdn);
    TrimLeftShortens(fqdn);
    assert t != "" ==> t[|t| - 1] == fqdn[|fqdn| - 1];
    TrimRightKeeps(t);
  }

  /** Without white space at the end, the canonical name is the leading white space
      followed by the routed name. */
  lemma CanonicalParts(fqdn: string, lead: string)
    requires fqdn == lead + TrimSpace(fqdn) && TrimSpace(fqdn) != ""
    ensures Canonical(fqdn) == ToLower(lead) + TrimSuffix(ToLower(TrimSpace(fqdn)), ".")
  {
    hide TrimSpace, ToLower, TrimSuffix;
    LowerTrimDot(fqdn);
    LowerConcat(lead, TrimSpace(fqdn));
    TrimSuffixConcat(ToLower(lead), ToLower(TrimSpace(fqdn)));
  }

  lemma RecordOfSuffix(name: string, apex: string)
    ensures HasSuffix(name + "." + apex, "." + apex)
    ensures TrimSuffix(name + "." + apex, "." + apex) == name
  {
    assert (name + "." + apex)[|name|..] == "." + apex;
    assert (name + "." + apex)[..|name|] == name;
  }

  lemma SuffixMeans(s: string, apex: string)
    ensures LabelSuffix(apex, s) <==> s == apex || (|s| > |apex| && s == s[..|s| - |apex| - 1] + "." + apex)
    ensures LabelSuffix(apex, s) <==> s == apex || HasSuffix(s, "." + apex)
  {
    if |s| > |apex| {
      var k := |s| - |apex| - 1;
      assert s == s[..k] + [s[k]] + s[k + 1..];
      assert s[k..] == [s[k]] + s[k + 1..];
    }
  }

  /** The record name of a name below the apex, or of the apex. */
  lemma RecordOfLabelSuffix(fqdn: string, apex: string)
    requires ToLower(apex) == apex && LabelSuffix(apex, Canonical(fqdn))
    ensures Rebuilds(fqdn, apex) <==> Canonical(fqdn) != "@." + apex
  {
    hide ToLower, LabelSuffix;
    var s := Canonical(fqdn);
    SuffixMeans(s, apex);
    assert "@" + "." + apex == "@." + apex;
    RecordOfSuffix("@", apex);
    if s != apex {
      var name := s[..|s| - |apex| - 1];
      RecordOfSuffix(name, apex);
      assert RelativeRecordName(fqdn, apex) == name;
    }
  }

  lemma FallbackDoesNotRebuild(fqdn: string, apex: string)
    requires ToLower(apex) == apex != "" && AllAllowed(apex)
    requires !LabelSuffix(apex, Canonical(fqdn))
    requires EndsInSpace(fqdn) || StartsInSpace(fqdn)
    ensures RelativeRecordName(fqdn, apex) == CHALLENGE_LABEL && !Rebuilds(fqdn, apex)
  {
    hide LabelSuffix;
    SuffixMeans(Canonical(fqdn), apex);
    BelowIsSuffix(CHALLENGE_LABEL, apex);
    assert CHALLENGE_LABEL != "@" && FullName(CHALLENGE_LABEL, apex) == CHALLENGE_LABEL + "." + apex;
  }

  lemma TrailingSpaceFallsBack(fqdn: string, apex: string)
    requires EndsInSpace(fqdn) && apex != "" && AllAllowed(apex)
    ensures !LabelSuffix(apex, Canonical(fqdn))
  {
    var n := |fqdn| - 1;
    assert fqdn[n..] == [fqdn[n]];
    assert IsSpace(Canonical(fqdn)[n]);
    var s := Canonical(fqdn);
    assert |apex| <= |s| ==> s[|s| - |apex|..][|apex| - 1] == s[n];
  }

  lemma LeadingSpace(lead: string, n: string, apex: string)
    requires lead != "" && (forall i :: 0 <= i < |lead| ==> IsSpace(lead[i])) && LabelSuffix(apex, n)
    requires apex != "" && AllAllowed(apex)
    ensures LabelSuffix(apex, ToLower(lead) + n) <==> n != apex
  {
    var s := ToLower(lead) + n;
    assert s[0] == LowerChar(lead[0]) && IsSpace(s[0]);
    assert s[|s| - |apex|..] == n[|n| - |apex|..];
    if n == apex {
      assert s[|s| - |apex| - 1] == LowerChar(lead[|lead| - 1]);
    } else {
      assert s[|s| - |apex| - 1] == n[|n| - |apex| - 1];
    }
  }

  /** relativeRecordName takes its last branch: the name is neither the apex nor below it. */
  predicate FallsBack(fqdn: string, apex: string) {
    Canonical(fqdn) != ToLower(apex) && !HasSuffix(Canonical(fqdn), "." + ToLower(apex))
  }

  /** White space that only the router trims hides the apex from relativeRecordName. */
  predicate SpaceHidesApex(fqdn: string, apex: string) {
    EndsInSpace(fqdn) || (StartsInSpace(fqdn) && IsBareApex(fqdn, apex))
  }

  /** For every FQDN the router accepts: the apex is a label suffix of the name exactly when
      white space does not hide it. */
  lemma HiddenExactly(c: Config, fqdn: string, r: Route)
    requires ValidConfig(c) && RouteOf(c, fqdn) == Some(r)
    ensures LabelSuffix(r.apex, Canonical(fqdn)) <==> !SpaceHidesApex(fqdn, r.apex)
  {
    hide ValidConfig, TrimSpace, LabelSuffix, RouteOf, AllAllowed, Canonical;
    RoutedSuffix(c, fqdn, r);
    if EndsInSpace(fqdn) {
      TrailingSpaceFallsBack(fqdn, r.apex);
    } else {
      var lead := SpacesAround(fqdn);
      CanonicalParts(fqdn, lead);
      var n := TrimSuffix(ToLower(TrimSpace(fqdn)), ".");
      if lead == "" {
        assert ToLower(lead) + n == n;
      } else {
        LeadingSpace(lead, n, r.apex);
      }
    }
  }

  /** For every FQDN the router accepts: relativeRecordName falls back exactly when white space
      ends the name or stands before a bare apex, and then it names another record. */
  lemma FallbackExactly(c: Config, fqdn: string, r: Route)
    requires ValidConfig(c) && RouteOf(c, fqdn) == Some(r)
    ensures FallsBack(fqdn, r.apex) <==> EndsInSpace(fqdn) || (StartsInSpace(fqdn) && IsBareApex(fqdn, r.apex))
    ensures FallsBack(fqdn, r.apex) ==> RelativeRecordName(fqdn, r.apex) == "_acme-challenge" && !Rebuilds(fqdn, r.apex)
  {
    hide ValidConfig, LabelSuffix, RouteOf, Rebuilds, AllAllowed, IsBareApex;
    RoutedSuffix(c, fqdn, r);
    HiddenExactly(c, fqdn, r);
    SuffixMeans(Canonical(fqdn), r.apex);
    if FallsBack(fqdn, r.apex) {
      FallbackDoesNotRebuild(fqdn, r.apex);
    }
  }

  /** On names without surrounding white space the fallback never fires. */
  lemma TrimmedNeverFallsBack(c: Config, fqdn: string, r: Route)
    requires ValidConfig(c) && RouteOf(c, fqdn) == Some(r) && TrimSpace(fqdn) == fqdn
    ensures !FallsBack(fqdn, r.apex)
  {
    hide ValidConfig, TrimSpace, RouteOf, FallsBack;
    TrimKeeps(fqdn);
    FallbackExactly(c, fqdn, r);
  }

  lemma TrimRightThenSpace(s: string)
    ensures TrimRight(s + " ") == TrimRight(s)
  {
    assert (s + " ")[..|s|] == s;
  }

  /** Every accepted name has one with a space after it that is routed alike and falls back. */
  lemma SpaceAfterFallsBack(c: Config, fqdn: string, r: Route)
    requires ValidConfig(c) && RouteOf(c, fqdn) == Some(r)
    ensures RouteOf(c, fqdn + " ") == Some(r) && FallsBack(fqdn + " ", r.apex)
  {
    RoutedSuffix(c, fqdn, r);
    TrimLeftThen(fqdn, ' ');
    TrimRightThenSpace(TrimLeft(fqdn));
    assert TrimSpace(fqdn + " ") == TrimSpace(fqdn);
    assert NormaliseFQDN(fqdn + " ") == NormaliseFQDN(fqdn);
    hide ValidConfig, NormaliseFQDN, TrimSpace, RouteOf, FallsBack;
    RouteExists(c, fqdn);
    RouteOfIs(c, fqdn + " ", r);
    FallbackExactly(c, fqdn + " ", r);
  }

  /** The fallback can fire: a config that passes validation and a name its router accepts. */
  lemma FallbackHappens()
    ensures var c := TwoEntries("co.uk", "a.co.uk");
            && ValidConfig(c) && RouteOf(c, "a.co.uk ") == Some(Route(1, "a.co.uk"))
            && FallsBack("a.co.uk ", "a.co.uk")
  {
    hide ValidConfig, RouteOf, FallsBack;
    assert "a" + "." + "co.uk" == "a.co.uk" && "a.co.uk" + " " == "a.co.uk ";
    NestedZonesPassValidation("a") by {
      assert ToLower("a") == "a";
    }
    SpaceAfterFallsBack(TwoEntries("co.uk", "a.co.uk"), "a.co.uk", Route(1, "a.co.uk"));
  }

  /** The names whose record name says where they are: the apex is not hidden by white space, and
      the name is not the label "@" under the apex. */
  predicate SaysWhere(fqdn: string, apex: string) {
    !SpaceHidesApex(fqdn, apex) && Canonical(fqdn) != "@." + apex
  }

  /** For every FQDN the router accepts: the record name and the apex rebuild the FQDN
      exactly when no white space ends it, no white space stands before a bare apex and it
      is not the label "@" under the apex. */
  lemma RecordNameExactly(c: Config, fqdn: string, r: Route)
    requires ValidConfig(c) && RouteOf(c, fqdn) == Some(r)
    ensures Rebuilds(fqdn, r.apex) <==> SaysWhere(fqdn, r.apex)
  {
    hide ValidConfig, LabelSuffix, RouteOf, Rebuilds, AllAllowed, Canonical, IsBareApex;
    RoutedSuffix(c, fqdn, r);
    HiddenExactly(c, fqdn, r);
    if SpaceHidesApex(fqdn, r.apex) {
      FallbackDoesNotRebuild(fqdn, r.apex);
    } else {
      RecordOfLabelSuffix(fqdn, r.apex);
    }
  }

  /** Two accepted FQDNs that say where they are, with the same apex and record name, are the
      same name. */
  lemma RecordNameInjective(c: Config, f: string, g: string, r: Route, s: Route)
    requires ValidConfig(c) && RouteOf(c, f) == Some(r) && RouteOf(c, g) == Some(s)
    requires SaysWhere(f, r.apex) && SaysWhere(g, s.apex)
    requires r.apex == s.apex && RelativeRecordName(f, r.apex) == RelativeRecordName(g, s.apex)
    ensures Canonical(f) == Canonical(g)
  {
    hide ValidConfig, RouteOf, Canonical, SaysWhere;
    RecordNameExactly(c, f, r);
    RecordNameExactly(c, g, s);
  }

  // ---- quoteTXT ---------------------------------------------------------------------------

  function HexDigit(n: int): (c: char)
    requires 0 <= n < 16
    ensures '0' <= c <= '9' || 'a' <= c <= 'f'
  {
    "0123456789abcdef"[n]
  }

  /** strconv.Quote on one ASCII character. */
  function QuoteChar(c: char): string {
    if c == '"' then "\\\""
    else if c == '\\' then "\\\\"
    else if ' ' <= c <= '~' then [c]
    else if c == '\U{07}' then "\\a"
    else if c == '\U{08}' then "\\b"
    else if c == '\U{0C}' then "\\f"
    else if c == '\n' then "\\n"
    else if c == '\r' then "\\r"
    else if c == '\t' then "\\t"
    else if c == '\U{0B}' then "\\v"
    else if c as int < 128 then ['\\', 'x', HexDigit(c as int / 16), HexDigit(c as int % 16)]
    else [c]
  }

  function QuoteBody(s: string): string {
    if s == "" then "" else QuoteChar(s[0]) + QuoteBody(s[1..])
  }

  function QuoteTXT(key: string): string {
    "\"" + QuoteBody(key) + "\""
  }

  predicate IsDigit(c: char) {
    '0' <= c <= '9'
  }

  /** The rest of a quoted character string, section 5.1 of RFC 1035: \DDD is the octet with
      that decimal number, \X is X, and the closing quote must end the text. */
  function ParseRest(s: string): Option<string> {
    if s == "" then None
    else if s[0] == '"' then (if |s| == 1 then Some("") else None)
    else if s[0] != '\\' then Prepend(s[0], ParseRest(s[1..]))
    else if |s| == 1 then None
    else if !IsDigit(s[1]) then Prepend(s[1], ParseRest(s[2..]))
    else if |s| < 4 || !IsDigit(s[2]) || !IsDigit(s[3]) then None
    else
      var octet := 100 * (s[1] as int - 48) + 10 * (s[2] as int - 48) + (s[3] as int - 48);
      if octet > 255 then None else Prepend(octet as char, ParseRest(s[4..]))
  }

  function Prepend(c: char, r: Option<string>): Option<string> {
    match r
    case None => None
    case Some(s) => Some([c] + s)
  }

  function ParseTXT(s: string): Option<string> {
    if s != "" && s[0] == '"' then ParseRest(s[1..]) else None
  }

  predicate Ascii(s: string) {
    forall i :: 0 <= i < |s| ==> s[i] as int < 128
  }

  predicate PrintableChar(c: char) {
    ' ' <= c <= '~'
  }

  predicate Printable(s: string) {
    forall i :: 0 <= i < |s| ==> PrintableChar(s[i])
  }

  /** What the RFC 1035 reader makes of one quoted character. */
  function ReadBack(c: char): string {
    if PrintableChar(c) then [c] else QuoteChar(c)[1..]
  }

  function ReadBackAll(s: string): string {
    if s == "" then "" else ReadBack(s[0]) + ReadBackAll(s[1..])
  }

  lemma PlainReads(c: char, rest: string)
    requires c != '"' && c != '\\'
    ensures ParseRest([c] + rest) == Prepend(c, ParseRest(rest))
  {
    assert ([c] + rest)[1..] == rest;
  }

  lemma EscapeReads(c: char, rest: string)
    requires !IsDigit(c)
    ensures ParseRest(['\\', c] + rest) == Prepend(c, ParseRest(rest))
  {
    assert (['\\', c] + rest)[2..] == rest;
  }

  lemma QuotedCharReads(c: char, rest: string)
    requires c as int < 128
    requires ParseRest(rest).Some?
    ensures ParseRest(QuoteChar(c) + rest) == Some(ReadBack(c) + ParseRest(rest).value)
    ensures Printable(ReadBack(c))
  {
    hide ParseRest;
    var q := QuoteChar(c);
    if |q| == 1 {
      PlainReads(c, rest);
    } else if |q| == 2 {
      EscapeReads(q[1], rest);
      assert q == ['\\', q[1]];
    } else {
      var a, b := q[2], q[3];
      PlainReads(b, rest);
      PlainReads(a, [b] + rest);
      EscapeReads('x', [a] + ([b] + rest));
      assert q + rest == ['\\', 'x'] + ([a] + ([b] + rest));
      var v := ParseRest(rest).value;
      assert ReadBack(c) + v == ['x'] + ([a] + ([b] + v));
    }
  }

  lemma {:induction false} QuotedReads(s: string)
    requires Ascii(s)
    ensures ParseRest(QuoteBody(s) + "\"") == Some(ReadBackAll(s))
    ensures Printable(ReadBackAll(s))
  {
    if s != "" {
      assert Ascii(s[1..]);
      QuotedReads(s[1..]);
      QuotedCharReads(s[0], QuoteBody(s[1..]) + "\"");
      assert QuoteBody(s) + "\"" == QuoteChar(s[0]) + (QuoteBody(s[1..]) + "\"");
    }
  }

  lemma {:induction false} PrintableReadsBack(s: string)
    requires Printable(s)
    ensures ReadBackAll(s) == s
  {
    if s != "" {
      assert Printable(s[1..]);
      PrintableReadsBack(s[1..]);
    }
  }

  /** Quoting round-trips through an RFC 1035 reader exactly for printable keys. */
  lemma QuoteRoundTrip(key: string)
    requires Ascii(key)
    ensures ParseTXT(QuoteTXT(key)) == Some(key) <==> Printable(key)
  {
    QuotedReads(key);
    assert QuoteTXT(key)[1..] == QuoteBody(key) + "\"";
    assert ParseTXT(QuoteTXT(key)) == Some(ReadBackAll(key));
    if Printable(key) {
      PrintableReadsBack(key);
    }
  }

  /** A character that stands for itself between the quotes. */
  predicate Plain(c: char) {
    PrintableChar(c) && c != '"' && c != '\\'
  }

  /** A key of plain characters stands verbatim between the quotes, and only such a key does. */
  lemma QuoteVerbatim(key: string)
    requires Ascii(key)
    ensures QuoteTXT(key) == "\"" + key + "\"" <==> forall i :: 0 <= i < |key| ==> Plain(key[i])
  {
    QuoteBodyVerbatim(key);
    assert QuoteTXT(key)[1..|QuoteTXT(key)| - 1] == QuoteBody(key);
    assert ("\"" + key + "\"")[1..|key| + 1] == key;
  }

  lemma {:induction false} QuoteBodyVerbatim(key: string)
    requires Ascii(key)
    ensures |QuoteBody(key)| >= |key|
    ensures QuoteBody(key) == key <==> forall i :: 0 <= i < |key| ==> Plain(key[i])
  {
    if key != "" {
      assert Ascii(key[1..]);
      QuoteBodyVerbatim(key[1..]);
      QuotedLength(key[0]);
      assert key == [key[0]] + key[1..];
      assert (forall i :: 0 <= i < |key| ==> Plain(key[i])) <==>
             Plain(key[0]) && forall i :: 0 <= i < |key[1..]| ==> Plain(key[1..][i]) by {
        assert forall i :: 0 <= i < |key| - 1 ==> key[1..][i] == key[i + 1];
        assert forall i :: 0 < i < |key| ==> key[i] == key[1..][i - 1];
      }
      if QuoteBody(key) == key {
        assert |QuoteChar(key[0])| == 1;
        assert QuoteBody(key)[1..] == QuoteBody(key[1..]);
      }
    }
  }

  lemma QuotedLength(c: char)
    requires c as int < 128
    ensures |QuoteChar(c)| >= 1 && (|QuoteChar(c)| == 1 <==> Plain(c)) && (Plain(c) ==> QuoteChar(c) == [c])
  {
  }

  /** Distinct printable keys give distinct record values. */
  lemma QuoteInjective(a: string, b: string)
    requires Printable(a) && Printable(b) && QuoteTXT(a) == QuoteTXT(b)
    ensures a == b
  {
    QuoteRoundTrip(a);
    QuoteRoundTrip(b);
  }
}
