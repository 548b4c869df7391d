/**
 Names derived from tenant identifiers: the Kubernetes Secret, the SOPS file and the temporary recovery
 cluster. The program spells the same normalisation three times (workspace, tenant and cnpg packages).
 */
module Names {
  import opened Strings

  predicate Lower(c: char) { 'a' <= c <= 'z' }

  predicate Digit(c: char) { '0' <= c <= '9' }

  predicate AlphaNum(c: char) { Lower(c) || Digit(c) }

  /** pg.IdentSafe: ^[a-z][a-z0-9_]{0,62}$ */
  predicate IdentSafe(s: string) {
    1 <= |s| <= 63 && Lower(s[0]) && forall i :: 0 <= i < |s| ==> AlphaNum(s[i]) || s[i] == '_'
  }

  /** pg.DatabaseNameSafe: the same with hyphens, for databases managed elsewhere. */
  predicate DatabaseNameSafe(s: string) {
    1 <= |s| <= 63 && Lower(s[0]) && forall i :: 0 <= i < |s| ==> AlphaNum(s[i]) || s[i] == '_' || s[i] == '-'
  }

  /** workspace.validClusterID, also the rule for a secret prefix. */
  predicate ValidClusterID(s: string) {
    1 <= |s| <= 63 && s[0] != '-' && s[|s| - 1] != '-' && forall i :: 0 <= i < |s| ==> AlphaNum(s[i]) || s[i] == '-'
  }

  /** RFC 1123 section 2.1 as Kubernetes reads it: letters, digits and inner hyphens. */
  predicate HyphenatedName(s: string) {
    s != "" && AlphaNum(s[0]) && AlphaNum(s[|s| - 1]) && forall i :: 0 <= i < |s| ==> AlphaNum(s[i]) || s[i] == '-'
  }

  predicate DnsLabel(s: string) { |s| <= 63 && HyphenatedName(s) }

  predicate DnsSubdomain(s: string) {
    |s| <= 253 && forall i :: 0 <= i < |Split(s, '.')| ==> HyphenatedName(Split(s, '.')[i])
  }

  // ----- the normalisation

  function LowerChar(c: char): char {
    if 'A' <= c <= 'Z' then c - 'A' + 'a' else c
  }

  function ToLower(s: string): string {
    if s == "" then "" else [LowerChar(s[0])] + ToLower(s[1..])
  }

  predicate Kept(c: char) { AlphaNum(c) || c == '-' }

  function Filter(s: string): string {
    if s == "" then "" else if Kept(s[0]) then [s[0]] + Filter(s[1..]) else Filter(s[1..])
  }

  /** The text that survives lower-casing, underscore replacement and filtering. */
  function Slug(app: string): string {
    Filter(ReplaceChar(ToLower(app), '_', "-"))
  }

  function OrApp(segments: seq<string>): (r: seq<string>)
    ensures r != []
  {
    if segments == [] then ["app"] else segments
  }

  /** The words a name is normalised to. */
  function NameSegments(app: string): seq<string> { OrApp(Segments(Slug(app), '-')) }

  /** The simple form of the normalisation: hyphen-separated words, empty ones dropped, else "app". */
  function Basename(app: string): string { Join(NameSegments(app), '-') }

  /** strings.ReplaceAll(s, "--", "-"), leftmost first and without overlap. */
  function Halve(s: string): (r: string)
    ensures |r| <= |s|
    ensures Contains(s, "--") ==> |r| < |s|
  {
    if "--" <= s then "-" + Halve(s[2..])
    else if s == "" then ""
    else [s[0]] + Halve(s[1..])
  }

  /** One pass keeps the words: the text before the first hyphen, and the non-empty parts after it. */
  lemma {:induction false} HalveKeepsSegments(s: string)
    ensures Split(Halve(s), '-')[0] == Split(s, '-')[0]
    ensures NonEmpty(Split(Halve(s), '-')[1..]) == NonEmpty(Split(s, '-')[1..])
    ensures Segments(Halve(s), '-') == Segments(s, '-')
  {
    if "--" <= s {
      var t := s[2..];
      HalveKeepsSegments(t);
      assert s[1..][1..] == t;
      assert Split(s[1..], '-') == [""] + Split(t, '-');
      assert Split(s, '-') == [""] + ([""] + Split(t, '-'));
      assert Halve(s)[1..] == Halve(t);
      assert Split(Halve(s), '-') == [""] + Split(Halve(t), '-');
    } else if s != "" {
      HalveKeepsSegments(s[1..]);
      assert Halve(s)[1..] == Halve(s[1..]);
    }
    HeadAndTailGiveSegments(s);
    HeadAndTailGiveSegments(Halve(s));
  }

  lemma HeadAndTailGiveSegments(s: string)
    ensures Segments(s, '-') == NonEmpty([Split(s, '-')[0]]) + NonEmpty(Split(s, '-')[1..])
  {
    var parts := Split(s, '-');
    assert parts == [parts[0]] + parts[1..];
    NonEmptyAppend([parts[0]], parts[1..]);
  }

  predicate IsHyphen(c: char) { c == '-' }

  /** Words are unaffected by hyphens around the text. */
  lemma {:induction false} HyphensAddNoSegment(h: string, s: string)
    requires AllCut(h, IsHyphen)
    ensures Segments(h + s, '-') == Segments(s, '-')
    ensures Segments(s + h, '-') == Segments(s, '-')
  {
    if h == "" {
      assert h + s == s && s + h == s;
    } else {
      HyphensAddNoSegment(h[1..], s);
      assert h + s == "" + ['-'] + (h[1..] + s);
      SplitAppend("", h[1..] + s, '-');
      NonEmptyAppend([""], Split(h[1..] + s, '-'));
      HyphensAddNoSegment(h[..|h| - 1], s);
      assert s + h == (s + h[..|h| - 1]) + ['-'] + "";
      SplitAppend(s + h[..|h| - 1], "", '-');
      NonEmptyAppend(Split(s + h[..|h| - 1], '-'), [""]);
    }
  }

  lemma TrimKeepsSegments(s: string)
    ensures Segments(Trim(s, IsHyphen), '-') == Segments(s, '-')
  {
    var l := TrimLeft(s, IsHyphen);
    var r := TrimRight(l, IsHyphen);
    TrimLeftSplits(s, IsHyphen);
    HyphensAddNoSegment(s[..|s| - |l|], l);
    TrimRightSplits(l, IsHyphen);
    assert l == r + l[|r|..];
    HyphensAddNoSegment(l[|r|..], r);
  }

  /** Without double hyphens and without a final hyphen, only the first part can be empty. */
  lemma {:induction false} CollapsedParts(s: string)
    requires !Contains(s, "--")
    requires s == "" || s[|s| - 1] != '-'
    ensures forall i :: 1 <= i < |Split(s, '-')| ==> Split(s, '-')[i] != ""
    ensures s != "" && s[0] != '-' ==> Split(s, '-')[0] != ""
  {
    if s != "" {
      CollapsedParts(s[1..]);
      var rest := Split(s[1..], '-');
      if s[0] == '-' {
        assert !("--" <= s);
        assert Split(s, '-') == [""] + rest;
      }
    }
  }

  lemma CollapsedIsJoined(s: string)
    requires !Contains(s, "--")
    requires s != "" && s[0] != '-' && s[|s| - 1] != '-'
    ensures Segments(s, '-') != [] && s == Join(Segments(s, '-'), '-')
  {
    CollapsedParts(s);
    SplitIsFree(s, '-');
    NonEmptyOfProper(Split(s, '-'), '-');
    JoinOfSplit(s, '-');
  }

  lemma {:induction false} SuffixContains(s: string, k: nat, sub: string)
    requires k <= |s| && Contains(s[k..], sub)
    ensures Contains(s, sub)
  {
    if k > 0 {
      assert s[1..][k - 1..] == s[k..];
      SuffixContains(s[1..], k - 1, sub);
    } else {
      assert s[0..] == s;
    }
  }

  lemma {:induction false} PrefixContains(r: string, s: string, sub: string)
    requires r <= s && Contains(r, sub)
    ensures Contains(s, sub)
  {
    if !(sub <= r) {
      assert r[1..] <= s[1..];
      PrefixContains(r[1..], s[1..], sub);
    }
  }

  lemma TrimKeepsCollapsed(s: string)
    requires !Contains(s, "--")
    ensures !Contains(Trim(s, IsHyphen), "--")
    ensures var r := Trim(s, IsHyphen); r == "" || (r[0] != '-' && r[|r| - 1] != '-')
  {
    var l := TrimLeft(s, IsHyphen);
    var r := TrimRight(l, IsHyphen);
    TrimLeftSplits(s, IsHyphen);
    TrimRightSplits(l, IsHyphen);
    assert l == s[|s| - |l|..];
    if Contains(r, "--") {
      PrefixContains(r, l, "--");
      SuffixContains(s, |s| - |l|, "--");
    }
  }

  lemma {:induction false} FilterAppend(a: string, b: string)
    ensures Filter(a + b) == Filter(a) + Filter(b)
  {
    if a == "" {
      assert a + b == b;
    } else {
      FilterAppend(a[1..], b);
      assert (a + b)[1..] == a[1..] + b;
    }
  }

  /** The leading TrimSpace changes nothing: white space never survives the filter. */
  lemma {:induction false} SpaceIsFiltered(s: string)
    requires AllCut(s, IsSpace)
    ensures Filter(ReplaceChar(s, '_', "-")) == ""
  {
    if s != "" {
      SpaceIsFiltered(s[1..]);
      assert s[0] != '_';
    }
  }

  lemma {:induction false} ReplaceAppend(a: string, b: string, c: char, w: string)
    ensures ReplaceChar(a + b, c, w) == ReplaceChar(a, c, w) + ReplaceChar(b, c, w)
  {
    if a == "" {
      assert a + b == b;
    } else {
      ReplaceAppend(a[1..], b, c, w);
      assert (a + b)[0] == a[0] && (a + b)[1..] == a[1..] + b;
      var h, x, y := if a[0] == c then w else [a[0]], ReplaceChar(a[1..], c, w), ReplaceChar(b, c, w);
      assert h + (x + y) == (h + x) + y;
    }
  }

  lemma SpaceAroundIsFiltered(s: string)
    ensures Filter(ReplaceChar(TrimSpace(s), '_', "-")) == Filter(ReplaceChar(s, '_', "-"))
  {
    var l := TrimLeft(s, IsSpace);
    var r := TrimRight(l, IsSpace);
    TrimLeftSplits(s, IsSpace);
    TrimRightSplits(l, IsSpace);
    var a, b := s[..|s| - |l|], l[|r|..];
    assert l == r + b;
    assert s == a + l;
    SpaceIsFiltered(a);
    SpaceIsFiltered(b);
    ReplaceAppend(a, l, '_', "-");
    ReplaceAppend(r, b, '_', "-");
    FilterAppend(ReplaceChar(a, '_', "-"), ReplaceChar(l, '_', "-"));
    FilterAppend(ReplaceChar(r, '_', "-"), ReplaceChar(b, '_', "-"));
  }

  /** workspace.dns1123Basename, with its filter loop and its collapse-until-stable loop. */
  method Dns1123Basename(app: string) returns (s: string)
    ensures s == Basename(app)
  {
    s := ReplaceChar(TrimSpace(ToLower(app)), '_', "-");
    var b := "";
    for i := 0 to |s|
      invariant b == Filter(s[..i])
    {
      assert s[..i + 1] == s[..i] + [s[i]];
      FilterAppend(s[..i], [s[i]]);
      if Kept(s[i]) {
        b := b + [s[i]];
      }
    }
    assert s[..|s|] == s;
    s := b;
    SpaceAroundIsFiltered(ToLower(app));
    while Contains(s, "--")
      invariant Segments(s, '-') == Segments(Slug(app), '-')
      decreases |s|
    {
      HalveKeepsSegments(s);
      s := Halve(s);
    }
    TrimKeepsSegments(s);
    TrimKeepsCollapsed(s);
    s := Trim(s, IsHyphen);
    if s == "" {
      assert Split("", '-') == [""] && NonEmpty([""]) == [];
      s := "app";
    } else {
      CollapsedIsJoined(s);
    }
  }

  // ----- what the normalisation yields

  lemma {:induction false} FilteredIsKept(s: string)
    ensures AllCut(Filter(s), Kept)
  {
    if s != "" {
      FilteredIsKept(s[1..]);
    }
  }

  lemma {:induction false} SplitStaysKept(s: string)
    requires AllCut(s, Kept)
    ensures forall i :: 0 <= i < |Split(s, '-')| ==> AllCut(Split(s, '-')[i], Kept)
  {
    if s != "" {
      SplitStaysKept(s[1..]);
    }
  }

  lemma {:induction false} NonEmptyStaysKept(parts: seq<string>)
    requires forall i :: 0 <= i < |parts| ==> AllCut(parts[i], Kept)
    ensures forall i :: 0 <= i < |NonEmpty(parts)| ==> AllCut(NonEmpty(parts)[i], Kept)
  {
    if parts != [] {
      NonEmptyStaysKept(parts[1..]);
    }
  }

  predicate Words(parts: seq<string>) {
    parts != [] && Proper(parts, '-') && forall i :: 0 <= i < |parts| ==> AllCut(parts[i], Kept)
  }

  lemma NameSegmentsAreWords(app: string)
    ensures Words(NameSegments(app))
  {
    var s := Slug(app);
    FilteredIsKept(ReplaceChar(ToLower(app), '_', "-"));
    SplitStaysKept(s);
    NonEmptyStaysKept(Split(s, '-'));
    SegmentsAreProper(s, '-');
  }

  lemma {:induction false} JoinedWordsAreHyphenated(parts: seq<string>)
    requires Words(parts)
    ensures HyphenatedName(Join(parts, '-'))
  {
    var w := parts[0];
    assert forall i :: 0 <= i < |w| ==> Kept(w[i]) && AlphaNum(w[i]);
    if |parts| > 1 {
      JoinedWordsAreHyphenated(parts[1..]);
    }
  }

  /** Every name is normalised to a well-formed hyphenated name. */
  lemma BasenameIsHyphenated(app: string)
    ensures HyphenatedName(Basename(app))
  {
    NameSegmentsAreWords(app);
    JoinedWordsAreHyphenated(NameSegments(app));
  }

  lemma {:induction false} KeptTextIsItsOwnSlug(s: string)
    requires AllCut(s, Kept)
    ensures Slug(s) == s
  {
    if s != "" {
      KeptTextIsItsOwnSlug(s[1..]);
      assert Kept(s[0]);
    }
  }

  /** A joined name has exactly the words it was joined from. */
  lemma WordsAreNamed(parts: seq<string>)
    requires Words(parts)
    ensures NameSegments(Join(parts, '-')) == parts
  {
    JoinedWordsAreHyphenated(parts);
    KeptTextIsItsOwnSlug(Join(parts, '-'));
    SegmentsOfJoin(parts, '-');
  }

  /** Normalising twice is normalising once. */
  lemma BasenameIsIdempotent(app: string)
    ensures NameSegments(Basename(app)) == NameSegments(app)
    ensures Basename(Basename(app)) == Basename(app)
  {
    NameSegmentsAreWords(app);
    WordsAreNamed(NameSegments(app));
  }

  // ----- Secret names and their collisions

  const SUFFIX := "-pg-credentials"

  /** Workspace.SecretName. */
  function SecretName(prefix: string, app: string): string {
    (if prefix != "" then Basename(prefix) + "-" else "") + Basename(app) + SUFFIX
  }

  function AllSegments(prefix: string, app: string): (r: seq<string>)
    ensures r != []
  {
    (if prefix != "" then NameSegments(prefix) else []) + NameSegments(app)
  }

  lemma SecretNameIsJoined(prefix: string, app: string)
    ensures Words(AllSegments(prefix, app))
    ensures SecretName(prefix, app) == Join(AllSegments(prefix, app), '-') + SUFFIX
  {
    NameSegmentsAreWords(app);
    if prefix != "" {
      NameSegmentsAreWords(prefix);
      JoinAppend(NameSegments(prefix), NameSegments(app), '-');
    } else {
      assert [] + NameSegments(app) == NameSegments(app);
    }
  }

  /** Two tenants share a Secret exactly when prefix words followed by app words are the same list. */
  lemma SecretNamesCollide(p: string, a: string, q: string, b: string)
    ensures SecretName(p, a) == SecretName(q, b) <==> AllSegments(p, a) == AllSegments(q, b)
  {
    SecretNameIsJoined(p, a);
    SecretNameIsJoined(q, b);
    var x, y := Join(AllSegments(p, a), '-'), Join(AllSegments(q, b), '-');
    if SecretName(p, a) == SecretName(q, b) {
      assert x == SecretName(p, a)[..|SecretName(p, a)| - |SUFFIX|];
      assert y == SecretName(q, b)[..|SecretName(q, b)| - |SUFFIX|];
      SegmentsOfJoin(AllSegments(p, a), '-');
      SegmentsOfJoin(AllSegments(q, b), '-');
    }
  }

  lemma {:induction false} IdentSegments(s: string)
    requires forall i :: 0 <= i < |s| ==> AlphaNum(s[i]) || s[i] == '_'
    ensures Split(Slug(s), '-') == Split(s, '_')
  {
    if s != "" {
      IdentSegments(s[1..]);
      assert LowerChar(s[0]) == s[0];
      if s[0] == '_' {
        assert Slug(s) == "-" + Slug(s[1..]);
        assert Slug(s)[1..] == Slug(s[1..]);
      } else {
        assert Slug(s) == [s[0]] + Slug(s[1..]);
        assert Slug(s)[1..] == Slug(s[1..]);
      }
    }
  }

  lemma {:induction false} NonEmptyKeepsHead(parts: seq<string>)
    requires parts != [] && parts[0] != ""
    ensures NonEmpty(parts) != []
  {
  }

  lemma IdentNameSegments(s: string)
    requires IdentSafe(s)
    ensures NameSegments(s) == Segments(s, '_')
  {
    IdentSegments(s);
    assert Split(s, '_')[0] != "";
    NonEmptyKeepsHead(Split(s, '_'));
  }

  /** In one workspace, two tenants collide exactly when their non-empty underscore segments agree. */
  lemma TenantsCollide(prefix: string, a: string, b: string)
    requires IdentSafe(a) && IdentSafe(b)
    ensures SecretName(prefix, a) == SecretName(prefix, b) <==> Segments(a, '_') == Segments(b, '_')
  {
    SecretNamesCollide(prefix, a, prefix, b);
    IdentNameSegments(a);
    IdentNameSegments(b);
    var p := if prefix != "" then NameSegments(prefix) else [];
    if p + NameSegments(a) == p + NameSegments(b) {
      assert NameSegments(a) == (p + NameSegments(a))[|p|..] == (p + NameSegments(b))[|p|..] == NameSegments(b);
    }
  }

  /** For one tenant, two workspaces collide exactly when both or neither is prefixed and the prefixes agree. */
  lemma WorkspacesCollide(p: string, q: string, app: string)
    ensures SecretName(p, app) == SecretName(q, app)
       <==> (p == "") == (q == "") && (p != "" ==> NameSegments(p) == NameSegments(q))
  {
    SecretNamesCollide(p, app, q, app);
    NameSegmentsAreWords(p);
    NameSegmentsAreWords(q);
    var x := if p != "" then NameSegments(p) else [];
    var y := if q != "" then NameSegments(q) else [];
    if x + NameSegments(app) == y + NameSegments(app) {
      assert |x| == |y|;
      assert x == (x + NameSegments(app))[..|x|] == (y + NameSegments(app))[..|y|] == y;
    }
  }

  lemma WordHasNoUnderscore(w: string)
    requires AllCut(w, Kept) && Free(w, '-')
    ensures Free(w, '_') && forall i :: 0 <= i < |w| ==> AlphaNum(w[i])
  {
    forall i | 0 <= i < |w| ensures AlphaNum(w[i]) {
      assert Kept(w[i]) && w[i] != '-';
    }
  }

  lemma UnderscoredSegments(a: string, b: string)
    requires Words([a, b])
    ensures NameSegments(a + ['_'] + b) == [a, b]
  {
    assert [a, b][0] == a && [a, b][1] == b;
    WordHasNoUnderscore(a);
    WordHasNoUnderscore(b);
    IdentSegments(a + ['_'] + b);
    SplitAppend(a, b, '_');
    SplitOfFree(a, '_');
    SplitOfFree(b, '_');
    assert [a] + [b] == [a, b];
    NonEmptyOfProper([a, b], '-');
  }

  /**
   A prefix does not separate every pair of tenants: for any three words, workspace p with tenant a_b meets
   workspace p-a with tenant b.
   */
  lemma PrefixAndTenantMeet(p: string, a: string, b: string)
    requires Words([p]) && Words([p, a]) && Words([a, b]) && Words([b])
    ensures SecretName(p, a + ['_'] + b) == SecretName(p + ['-'] + a, b)
  {
    WordsAreNamed([p]);
    WordsAreNamed([b]);
    WordsAreNamed([p, a]);
    assert [p, a][1..] == [a];
    UnderscoredSegments(a, b);
    assert [p] + [a, b] == [p, a] + [b];
    assert [p][0] == p && p != "";
    SecretNamesCollide(p, a + ['_'] + b, p + ['-'] + a, b);
  }

  // ----- lengths

  lemma {:induction false} FilterShrinks(s: string)
    ensures |Filter(s)| <= |s|
  {
    if s != "" {
      FilterShrinks(s[1..]);
    }
  }

  lemma {:induction false} SlugShrinks(s: string)
    ensures |Slug(s)| <= |s|
  {
    if s != "" {
      SlugShrinks(s[1..]);
    }
  }

  lemma {:induction false} NonEmptyShrinks(parts: seq<string>)
    ensures |Join(NonEmpty(parts), '-')| <= |Join(parts, '-')|
    ensures NonEmpty(parts) != [] ==> parts != []
    ensures parts != [] && NonEmpty(parts) != [] && parts[0] == "" ==> |Join(NonEmpty(parts), '-')| < |Join(parts, '-')|
  {
    if parts != [] {
      NonEmptyShrinks(parts[1..]);
      if parts[0] != "" {
        assert NonEmpty(parts)[1..] == NonEmpty(parts[1..]);
      }
    }
  }

  lemma BasenameShrinks(app: string)
    ensures |Basename(app)| <= |app| || Basename(app) == "app"
  {
    SlugShrinks(app);
    NonEmptyShrinks(Split(Slug(app), '-'));
    JoinOfSplit(Slug(app), '-');
  }

  lemma HyphenatedIsOneLabel(s: string)
    requires HyphenatedName(s)
    ensures DnsSubdomain(s) <==> |s| <= 253
  {
    assert Free(s, '.');
    SplitOfFree(s, '.');
  }

  lemma HyphenatedTail(x: string, y: string)
    requires x != "" && AlphaNum(x[0]) && AllCut(x, Kept)
    requires y != "" && AlphaNum(y[|y| - 1]) && AllCut(y, Kept)
    ensures HyphenatedName(x + y)
  {
    forall i | 0 <= i < |x + y| ensures AlphaNum((x + y)[i]) || (x + y)[i] == '-' {
      assert Kept(if i < |x| then x[i] else y[i - |x|]);
    }
  }

  lemma SecretNameLength(prefix: string, app: string)
    requires IdentSafe(app) && (prefix == "" || ValidClusterID(prefix))
    ensures |SecretName(prefix, app)| <= 142
  {
    BasenameShrinks(prefix);
    BasenameShrinks(app);
  }

  /** A Secret name is always well formed; it can only fail Kubernetes by being longer than 253 characters. */
  lemma SecretNameIsValid(prefix: string, app: string)
    ensures DnsSubdomain(SecretName(prefix, app)) <==> |SecretName(prefix, app)| <= 253
    ensures IdentSafe(app) && (prefix == "" || ValidClusterID(prefix)) ==> DnsSubdomain(SecretName(prefix, app))
  {
    var x := Join(AllSegments(prefix, app), '-');
    assert HyphenatedName(SecretName(prefix, app)) by {
      SecretNameIsJoined(prefix, app);
      JoinedWordsAreHyphenated(AllSegments(prefix, app));
      HyphenatedTail(x, SUFFIX);
    }
    HyphenatedIsOneLabel(SecretName(prefix, app));
    if IdentSafe(app) && (prefix == "" || ValidClusterID(prefix)) {
      SecretNameLength(prefix, app);
    }
  }

  /** In words: the tenant's segments joined by hyphens, behind the normalised prefix if there is one. */
  lemma SecretNameReads(prefix: string, app: string)
    requires IdentSafe(app)
    ensures SecretName(prefix, app)
         == (if prefix == "" then "" else Basename(prefix) + "-") + Join(Segments(app, '_'), '-') + "-pg-credentials"
  {
    IdentNameSegments(app);
    assert "" + Basename(app) == Basename(app);
  }

  // ----- the recovery cluster

  function HexDigit(d: nat): (c: char)
    requires d < 16
    ensures AlphaNum(c)
  {
    if d < 10 then '0' + d as char else 'a' + (d - 10) as char
  }

  /** fmt.Sprintf("-%04x", nonce). */
  function HexSuffix(nonce: nat): (s: string)
    requires nonce < 0x1_0000
    ensures |s| == 5
  {
    var high := nonce / 16;
    var top := high / 16;
    ['-', HexDigit(top / 16), HexDigit(top % 16), HexDigit(high % 16), HexDigit(nonce % 16)]
  }

  lemma HexDigitsDiffer(x: nat, y: nat)
    requires x < 16 && y < 16 && HexDigit(x) == HexDigit(y)
    ensures x == y
  {
  }

  /** What a hexadecimal digit stands for. */
  function HexValue(c: char): nat {
    if '0' <= c <= '9' then c as nat - '0' as nat else if 'a' <= c <= 'f' then c as nat - 'a' as nat + 10 else 0
  }

  function HexNumber(s: string): nat {
    if s == "" then 0 else HexNumber(s[..|s| - 1]) * 16 + HexValue(s[|s| - 1])
  }

  /** The suffix is a hyphen and four hexadecimal digits that denote the nonce. */
  lemma HexSuffixDenotes(nonce: nat)
    requires nonce < 0x1_0000
    ensures HexSuffix(nonce)[0] == '-' && HexNumber(HexSuffix(nonce)[1..]) == nonce
  {
    SuffixAt(nonce);
    var s := HexSuffix(nonce)[1..];
    assert s[..4] == s && s[..4][..3] == s[..3] && s[..3][..2] == s[..2] && s[..2][..1] == s[..1] && s[..1][..0] == "";
    assert HexNumber(s[..1]) == nonce / 16 / 16 / 16;
    assert HexNumber(s[..2]) == nonce / 16 / 16;
    assert HexNumber(s[..3]) == nonce / 16;
  }

  lemma SuffixAt(nonce: nat)
    requires nonce < 0x1_0000
    ensures var s := HexSuffix(nonce);
            && s[1] == HexDigit(nonce / 16 / 16 / 16) && s[2] == HexDigit(nonce / 16 / 16 % 16)
            && s[3] == HexDigit(nonce / 16 % 16) && s[4] == HexDigit(nonce % 16)
  {
  }

  lemma HexSuffixesDiffer(m: nat, n: nat)
    requires m < 0x1_0000 && n < 0x1_0000
    requires HexSuffix(m) == HexSuffix(n)
    ensures m == n
  {
    SuffixAt(m);
    SuffixAt(n);
    HexDigitsDiffer(m / 16 / 16 / 16, n / 16 / 16 / 16);
    HexDigitsDiffer(m / 16 / 16 % 16, n / 16 / 16 % 16);
    HexDigitsDiffer(m / 16 % 16, n / 16 % 16);
    HexDigitsDiffer(m % 16, n % 16);
  }

  const RECOVERY := "pg-restore-"

  function CutTo(s: string, room: nat): (r: string)
    ensures r <= s && |r| <= room && (r == s || |r| == room)
  {
    if |s| > room then s[..room] else s
  }

  /** cnpg.RecoveryClusterName; the low 16 bits of the clock are a parameter. */
  function RecoveryClusterName(app: string, nonce: nat): string
    requires nonce < 0x1_0000
  {
    var suffix := HexSuffix(nonce);
    var s := RECOVERY + CutTo(Basename(app), 63 - |RECOVERY| - |suffix|) + suffix;
    TrimRight(CutTo(s, 63), IsHyphen)
  }

  /** Neither the final cut nor the final trim ever takes anything away. */
  lemma RecoveryClusterNameIs(app: string, nonce: nat)
    requires nonce < 0x1_0000
    ensures RecoveryClusterName(app, nonce) == RECOVERY + CutTo(Basename(app), 47) + HexSuffix(nonce)
  {
    var s := RECOVERY + CutTo(Basename(app), 47) + HexSuffix(nonce);
    assert |s| <= 63 && s[|s| - 1] == HexSuffix(nonce)[4];
  }

  lemma RecoveryHeadIsKept(cut: string)
    requires AllCut(cut, Kept)
    ensures AllCut(RECOVERY + cut, Kept) && AlphaNum((RECOVERY + cut)[0])
  {
    assert forall i :: 0 <= i < |RECOVERY| ==> Kept(RECOVERY[i]);
  }

  lemma RecoveryNameParts(app: string, nonce: nat)
    requires nonce < 0x1_0000
    ensures var s := RecoveryClusterName(app, nonce);
            RECOVERY <= s && |RECOVERY| + 5 <= |s| <= 63 && s[|s| - 5..] == HexSuffix(nonce)
  {
    RecoveryClusterNameIs(app, nonce);
  }

  lemma NameSlices(head: string, cut: string, suffix: string)
    requires |head| == 11 && |suffix| == 5
    ensures var s := head + cut + suffix;
            && s[|s| - 5..] == suffix && s[|s| - 4..] == suffix[1..] && s[|s| - 5] == suffix[0] && s[11..|s| - 5] == cut
  {
  }

  lemma SuffixIsKept(nonce: nat)
    requires nonce < 0x1_0000
    ensures AllCut(HexSuffix(nonce), Kept) && AlphaNum(HexSuffix(nonce)[4])
  {
  }

  /**
   For every tenant name and nonce the recovery cluster has a valid label of at most 63 characters, even when
   the tenant name is cut right after a hyphen: the nonce always survives whole at the end.
   */
  lemma RecoveryClusterNameIsLabel(app: string, nonce: nat)
    requires nonce < 0x1_0000
    ensures var s := RecoveryClusterName(app, nonce);
            && DnsLabel(s) && "pg-restore-" <= s && |s| >= 11 + 5
            && s[|s| - 5] == '-' && HexNumber(s[|s| - 4..]) == nonce && s[|s| - 5..] == HexSuffix(nonce)
            && s[11..|s| - 5] <= Basename(app)
  {
    RecoveryNameParts(app, nonce);
    BasenameIsHyphenated(app);
    RecoveryClusterNameIs(app, nonce);
    var cut := CutTo(Basename(app), 47);
    RecoveryHeadIsKept(cut);
    SuffixIsKept(nonce);
    HyphenatedTail(RECOVERY + cut, HexSuffix(nonce));
    HexSuffixDenotes(nonce);
    NameSlices(RECOVERY, cut, HexSuffix(nonce));
  }

  /** Two restores of one tenant get the same cluster name only when they drew the same nonce. */
  lemma RecoveryClusterNamesDiffer(app: string, m: nat, n: nat)
    requires m < 0x1_0000 && n < 0x1_0000
    ensures RecoveryClusterName(app, m) == RecoveryClusterName(app, n) <==> m == n
  {
    if RecoveryClusterName(app, m) == RecoveryClusterName(app, n) {
      RecoveryClusterNameIsLabel(app, m);
      RecoveryClusterNameIsLabel(app, n);
      HexSuffixesDiffer(m, n);
    }
  }
}
