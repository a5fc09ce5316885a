/** ASCII string operations used by the router, the config reader and the client.
    Letters and white space are the ASCII ones; every other character is left alone. */
module Text {

  datatype Option<+T> = None | Some(value: T)

  datatype Result<+T, +E> = Ok(value: T) | Err(error: E)

  function LowerChar(c: char): char {
    if 'A' <= c <= 'Z' then (c as int + 32) as char else c
  }

  function ToLower(s: string): (r: string)
    ensures |r| == |s|
    ensures forall i :: 0 <= i < |s| ==> r[i] == LowerChar(s[i])
  {
    seq(|s|, i requires 0 <= i < |s| => LowerChar(s[i]))
  }

  predicate IsSpace(c: char) {
    c == ' ' || c == '\t' || c == '\n' || c == '\r' || c == '\U{0B}' || c == '\U{0C}'
  }

  function TrimLeft(s: string): (r: string)
    ensures |r| <= |s| && r == s[|s| - |r|..]
    ensures r != "" ==> !IsSpace(r[0])
  {
    if s != "" && IsSpace(s[0]) then TrimLeft(s[1..]) else s
  }

  function TrimRight(s: string): (r: string)
    ensures |r| <= |s| && r == s[..|r|]
    ensures r != "" ==> !IsSpace(r[|r| - 1])
  {
    if s != "" && IsSpace(s[|s| - 1]) then TrimRight(s[..|s| - 1]) else s
  }

  /** strings.TrimSpace */
  function TrimSpace(s: string): (r: string)
    ensures r != "" ==> !IsSpace(r[0]) && !IsSpace(r[|r| - 1])
  {
    TrimRight(TrimLeft(s))
  }

  predicate HasPrefix(s: string, p: string) {
    p <= s
  }

  predicate HasSuffix(s: string, t: string) {
    |t| <= |s| && s[|s| - |t|..] == t
  }

  function TrimPrefix(s: string, p: string): string {
    if HasPrefix(s, p) then s[|p|..] else s
  }

  function TrimSuffix(s: string, t: string): string {
    if HasSuffix(s, t) then s[..|s| - |t|] else s
  }

  /** strings.IndexByte: the first position of c, if any. */
  function IndexOf(s: string, c: char): (r: Option<nat>)
    ensures r.None? <==> c !in s
    ensures r.Some? ==> r.value < |s| && s[r.value] == c && c !in s[..r.value]
  {
    if s == "" then None
    else if s[0] == c then Some(0)
    else
      match IndexOf(s[1..], c)
      case None => None
      case Some(i) => assert s[..i + 1] == [s[0]] + s[1..][..i]; Some(i + 1)
  }

  /** strings.Split(s, "."): always at least one label. */
  function Labels(s: string): (r: seq<string>)
    ensures |r| >= 1
  {
    match IndexOf(s, '.')
    case None => [s]
    case Some(i) => [s[..i]] + Labels(s[i + 1..])
  }

  lemma IndexOfSplit(p: string, z: string)
    requires '.' !in p
    ensures IndexOf(p + "." + z, '.') == Some(|p|)
  {
    var s := p + "." + z;
    assert s[|p|] == '.';
    var i := IndexOf(s, '.').value;
    assert forall k :: 0 <= k < |p| ==> s[k] == p[k];
    assert forall k :: 0 <= k < i ==> s[k] == s[..i][k];
  }

  lemma LabelsUnfold(s: string, i: nat)
    requires IndexOf(s, '.') == Some(i)
    ensures Labels(s) == [s[..i]] + Labels(s[i + 1..])
  {
  }

  lemma CutAt(p: string, z: string)
    ensures (p + "." + z)[..|p|] == p && (p + "." + z)[|p| + 1..] == z
  {
  }

  lemma Regroup(p: string, i: nat, z: string)
    requires i < |p| && p[i] == '.'
    ensures p + "." + z == p[..i] + "." + (p[i + 1..] + "." + z)
  {
    assert p == p[..i] + "." + p[i + 1..];
  }

  lemma LabelsAfterFirst(lead: string, rest: string)
    requires '.' !in lead
    ensures Labels(lead + "." + rest) == [lead] + Labels(rest)
  {
    IndexOfSplit(lead, rest);
    CutAt(lead, rest);
    hide IndexOf, Labels;
    LabelsUnfold(lead + "." + rest, |lead|);
  }

  lemma NoDotOneLabel(s: string)
    requires '.' !in s
    ensures Labels(s) == [s]
  {
  }

  lemma {:induction false} LabelsOfConcat(p: string, z: string)
    ensures Labels(p + "." + z) == Labels(p) + Labels(z)
    decreases |p|
  {
    hide Labels;
    if '.' !in p {
      LabelsAfterFirst(p, z);
      NoDotOneLabel(p);
    } else {
      var i := IndexOf(p, '.').value;
      hide IndexOf;
      var q := p[i + 1..];
      LabelsOfConcat(q, z);
      var w := q + "." + z;
      Regroup(p, i, z);
      LabelsAfterFirst(p[..i], w);
      LabelsUnfold(p, i);
      Associate([p[..i]], Labels(q), Labels(z));
    }
  }

  lemma Associate(a: seq<string>, b: seq<string>, c: seq<string>)
    ensures a + (b + c) == a + b + c
  {
  }

  predicate NoneEmpty(labels: seq<string>) {
    forall k :: 0 <= k < |labels| ==> labels[k] != ""
  }

  /** No label is empty exactly when the string is not empty, neither starts nor ends with a
      dot and has no two dots in a row. */
  predicate DotsSeparate(s: string) {
    s != "" && s[0] != '.' && s[|s| - 1] != '.' &&
    forall i :: 0 <= i < |s| - 1 ==> !(s[i] == '.' && s[i + 1] == '.')
  }

  /** Cutting at the first dot at i leaves a separated rest, and nothing else is asked of s. */
  lemma DotsSeparateCut(s: string, i: nat)
    requires i < |s| && s[i] == '.' && '.' !in s[..i]
    ensures DotsSeparate(s) <==> i > 0 && DotsSeparate(s[i + 1..])
  {
    var rest := s[i + 1..];
    assert forall k :: 0 <= k < |rest| ==> rest[k] == s[i + 1 + k];
    assert forall k :: 0 <= k < i ==> s[k] == s[..i][k];
    if DotsSeparate(s) {
      assert rest != "" && rest[0] == s[i + 1];
      forall k | 0 <= k < |rest| - 1
        ensures !(rest[k] == '.' && rest[k + 1] == '.')
      {
        assert !(s[i + 1 + k] == '.' && s[i + 1 + k + 1] == '.');
      }
    }
    if i > 0 && DotsSeparate(rest) {
      forall k | 0 <= k < |s| - 1
        ensures !(s[k] == '.' && s[k + 1] == '.')
      {
        if k > i {
          assert !(rest[k - i - 1] == '.' && rest[k - i - 1 + 1] == '.');
        } else if k == i {
          assert s[k + 1] == rest[0];
        }
      }
    }
  }

  lemma {:induction false} LabelsNonEmpty(s: string)
    ensures NoneEmpty(Labels(s)) <==> DotsSeparate(s)
    decreases |s|
  {
    match IndexOf(s, '.')
    case None =>
      assert Labels(s)[0] == s;
      assert forall k :: 0 <= k < |s| ==> s[k] in s;
    case Some(i) =>
      DotsSeparateCut(s, i);
      LabelsNonEmpty(s[i + 1..]);
      var rest := Labels(s[i + 1..]);
      assert Labels(s) == [s[..i]] + rest;
      assert forall k :: 0 <= k < |rest| ==> Labels(s)[k + 1] == rest[k];
      assert Labels(s)[0] == s[..i];
  }

  lemma LowerLower(s: string)
    ensures ToLower(ToLower(s)) == ToLower(s)
  {
  }

  lemma LowerConcat(a: string, b: string)
    ensures ToLower(a + b) == ToLower(a) + ToLower(b)
  {
  }

  lemma LowerSlice(s: string, i: nat, j: nat)
    requires i <= j <= |s|
    ensures ToLower(s[i..j]) == ToLower(s)[i..j]
  {
  }

  lemma LowerTrimDot(s: string)
    ensures ToLower(TrimSuffix(s, ".")) == TrimSuffix(ToLower(s), ".")
  {
    if s != "" {
      var n := |s| - 1;
      assert s[n..] == [s[n]] && ToLower(s)[n..] == [LowerChar(s[n])];
      if s[n] == '.' {
        LowerSlice(s, 0, n);
        assert s[0..n] == s[..n] && ToLower(s)[0..n] == ToLower(s)[..n];
      }
    }
  }

  lemma TrimSuffixConcat(p: string, s: string)
    requires s != ""
    ensures TrimSuffix(p + s, ".") == p + TrimSuffix(s, ".")
  {
    assert (p + s)[|p| + |s| - 1..] == s[|s| - 1..];
    assert (p + s)[..|p| + |s| - 1] == p + s[..|s| - 1];
  }

  lemma TrimPrefixConcat(p: string, s: string)
    ensures TrimPrefix(p + s, p) == s
  {
    assert (p + s)[..|p|] == p;
  }

  /** Trimming leaves a string alone exactly when no white space surrounds it. */
  lemma TrimKeeps(s: string)
    ensures TrimSpace(s) == s <==> s == "" || (!IsSpace(s[0]) && !IsSpace(s[|s| - 1]))
  {
  }

  // ---- what trimming means ----------------------------------------------------------------

  /** Tab, line feed, vertical tab, form feed, carriage return or blank. */
  predicate WhiteSpace(c: char) {
    9 <= c as int <= 13 || c as int == 32
  }

  predicate AllWhite(s: string) {
    forall i :: 0 <= i < |s| ==> WhiteSpace(s[i])
  }

  /** t is what lies between s[..i] and s[j..], both white, and neither starts nor ends white. */
  predicate CutsTo(s: string, t: string, i: nat, j: nat) {
    i <= j <= |s| && t == s[i..j] && AllWhite(s[..i]) && AllWhite(s[j..]) &&
    (t != "" ==> !WhiteSpace(t[0]) && !WhiteSpace(t[|t| - 1]))
  }

  ghost predicate Trimmed(s: string, t: string) {
    exists i: nat, j: nat :: CutsTo(s, t, i, j)
  }

  lemma {:induction false} LeadOfTrim(s: string)
    ensures forall i :: 0 <= i < |s| - |TrimLeft(s)| ==> IsSpace(s[i])
  {
    hide IsSpace;
    if s != "" && IsSpace(s[0]) {
      LeadOfTrim(s[1..]);
      forall i | 0 <= i < |s| - |TrimLeft(s)| ensures IsSpace(s[i]) {
        if i > 0 {
          assert s[i] == s[1..][i - 1];
        }
      }
    }
  }

  lemma {:induction false} TrailOfTrim(s: string)
    ensures forall i :: |TrimRight(s)| <= i < |s| ==> IsSpace(s[i])
  {
    hide IsSpace;
    if s != "" && IsSpace(s[|s| - 1]) {
      TrailOfTrim(s[..|s| - 1]);
      forall i | |TrimRight(s)| <= i < |s| ensures IsSpace(s[i]) {
        if i < |s| - 1 {
          assert s[i] == s[..|s| - 1][i];
        }
      }
    }
  }

  lemma SpaceIsWhite(c: char)
    ensures IsSpace(c) <==> WhiteSpace(c)
  {
  }

  lemma TrimSpaceCuts(s: string) returns (i: nat, j: nat)
    ensures CutsTo(s, TrimSpace(s), i, j)
  {
    hide TrimLeft, TrimRight, IsSpace, WhiteSpace;
    var left := TrimLeft(s);
    var t := TrimRight(left);
    i := |s| - |left|;
    j := i + |t|;
    LeadOfTrim(s);
    TrailOfTrim(left);
    assert t == s[i..j];
    forall c ensures IsSpace(c) <==> WhiteSpace(c) {
      SpaceIsWhite(c);
    }
    forall k | j <= k < |s| ensures WhiteSpace(s[k]) {
      assert s[k] == left[k - i];
    }
    assert t != "" ==> t[0] == left[0];
  }

  /** A cut that leaves something is in one place; one that leaves nothing is of white space. */
  lemma OneCut(s: string, t: string, i: nat, j: nat, u: string, k: nat, m: nat)
    requires CutsTo(s, t, i, j) && CutsTo(s, u, k, m)
    ensures t == u
  {
    assert t != "" ==> t[0] == s[i] && t[|t| - 1] == s[j - 1];
    assert u != "" ==> u[0] == s[k] && u[|u| - 1] == s[m - 1];
    assert forall n :: 0 <= n < i ==> s[..i][n] == s[n];
    assert forall n :: 0 <= n < k ==> s[..k][n] == s[n];
    assert forall n :: j <= n < |s| ==> s[j..][n - j] == s[n];
    assert forall n :: m <= n < |s| ==> s[m..][n - m] == s[n];
  }

  /** TrimSpace cuts white space at both ends, and that alone says what it is. */
  lemma TrimSpaceExactly(s: string, t: string)
    ensures TrimSpace(s) == t <==> Trimmed(s, t)
    ensures TrimSpace(s) == "" <==> AllWhite(s)
  {
    hide TrimSpace, CutsTo;
    var i, j := TrimSpaceCuts(s);
    if k: nat, m: nat :| CutsTo(s, t, k, m) {
      OneCut(s, t, k, m, TrimSpace(s), i, j);
    }
    EmptyCut(s, TrimSpace(s), i, j);
  }

  lemma EmptyCut(s: string, t: string, i: nat, j: nat)
    requires CutsTo(s, t, i, j)
    ensures t == "" <==> AllWhite(s)
  {
    assert t != "" ==> t[0] == s[i];
    assert forall n :: 0 <= n < i ==> s[..i][n] == s[n];
    assert forall n :: j <= n < |s| ==> s[j..][n - j] == s[n];
  }

  // ---- what lower case means --------------------------------------------------------------

  /** The same character, or a capital letter and its small letter. */
  predicate SameLetter(a: char, b: char) {
    a == b || ('A' <= a <= 'Z' && b as int == a as int + 32) || ('A' <= b <= 'Z' && a as int == b as int + 32)
  }

  /** The strings differ in the case of letters at most. */
  predicate EqualFold(s: string, t: string) {
    |s| == |t| && forall i :: 0 <= i < |s| ==> SameLetter(s[i], t[i])
  }

  predicate NoCapitals(s: string) {
    forall i :: 0 <= i < |s| ==> !('A' <= s[i] <= 'Z')
  }

  /** The lower-case form has no capitals and differs in the case of letters at most, and that
      alone says what it is. */
  lemma LowerExactly(s: string, t: string)
    ensures ToLower(s) == t <==> EqualFold(s, t) && NoCapitals(t)
    ensures ToLower(s) == ToLower(t) <==> EqualFold(s, t)
  {
    if ToLower(s) == ToLower(t) {
      forall i | 0 <= i < |s| ensures SameLetter(s[i], t[i]) {
        assert ToLower(s)[i] == ToLower(t)[i];
      }
    }
  }

  lemma {:induction false} TrimLeftLower(s: string)
    ensures TrimLeft(ToLower(s)) == ToLower(TrimLeft(s))
  {
    if s != "" {
      assert IsSpace(ToLower(s)[0]) <==> IsSpace(s[0]);
      hide ToLower, IsSpace;
      if IsSpace(s[0]) {
        LowerSlice(s, 1, |s|);
        assert s[1..|s|] == s[1..] && ToLower(s)[1..|s|] == ToLower(s)[1..];
        TrimLeftLower(s[1..]);
      }
    }
  }

  lemma {:induction false} TrimRightLower(s: string)
    ensures TrimRight(ToLower(s)) == ToLower(TrimRight(s))
  {
    if s != "" && IsSpace(s[|s| - 1]) {
      assert ToLower(s)[..|s| - 1] == ToLower(s[..|s| - 1]);
      TrimRightLower(s[..|s| - 1]);
    }
  }

  lemma TrimSpaceLower(s: string)
    ensures TrimSpace(ToLower(s)) == ToLower(TrimSpace(s))
  {
    hide ToLower;
    TrimLeftLower(s);
    TrimRightLower(TrimLeft(s));
  }
}
