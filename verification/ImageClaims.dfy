/**
 Which registry entry an image belongs to: the matchers, the claim rule with
 its tag-over-path precedence, and the conflict check that makes every image
 belong to one entry only.
 */
module ImageClaims {
  import opened Basics
  import opened Picking

  /* ---------- strings ---------- */

  predicate HasPrefix(s: string, p: string) {
    p <= s
  }

  predicate HasSuffix(s: string, t: string) {
    |t| <= |s| && s[|s| - |t|..] == t
  }

  predicate At(s: string, t: string, i: nat) {
    i + |t| <= |s| && s[i..i + |t|] == t
  }

  predicate Contains(s: string, t: string) {
    exists i :: 0 <= i <= |s| && At(s, t, i)
  }

  const ANY_PREFIX := "*/"

  /** The matcher without its any-prefix mark. */
  function Name(matcher: string): string {
    if HasPrefix(matcher, ANY_PREFIX) then matcher[2..] else matcher
  }

  predicate PathMatches(path: string, matcher: string) {
    if HasPrefix(matcher, ANY_PREFIX) then
      path == matcher[2..] || HasSuffix(path, "/" + matcher[2..])
    else if '/' !in matcher then
      path == matcher
    else
      path == matcher || HasSuffix(path, "/" + matcher)
  }

  const PROVIDER_PREFIXES := ["gke.gcr.io/", "gcr.io/gke-release/", "mcr.microsoft.com/"]

  predicate UnderPrefix(repo: string, p: string) {
    HasPrefix(repo, p) || Contains(repo, "/" + p)
  }

  predicate IsProviderBuild(repo: string) {
    || UnderPrefix(repo, PROVIDER_PREFIXES[0])
    || UnderPrefix(repo, PROVIDER_PREFIXES[1])
    || UnderPrefix(repo, PROVIDER_PREFIXES[2])
  }

  /** A matcher's repository path and tag pattern, cut at the first colon. */
  datatype Split = Split(path: string, pattern: string)

  function SplitTagPattern(matcher: string): (r: Split)
    ensures ':' !in matcher ==> r == Split(matcher, "")
  {
    if matcher == "" then Split("", "")
    else if matcher[0] == ':' then Split("", matcher[1..])
    else
      var rest := SplitTagPattern(matcher[1..]);
      Split([matcher[0]] + rest.path, rest.pattern)
  }

  lemma {:induction false} CutAtColon(matcher: string)
    requires ':' in matcher
    ensures ':' !in SplitTagPattern(matcher).path
    ensures matcher == SplitTagPattern(matcher).path + ":" + SplitTagPattern(matcher).pattern
  {
    if matcher[0] != ':' {
      CutAtColon(matcher[1..]);
    }
  }

  /* ---------- the registry and an image ---------- */

  /** A component image with the product line each of its tag versions ships in. */
  datatype Component = Component(image: string, line: string -> string)

  datatype AddOn = AddOn(id: string, charts: seq<string>, images: seq<string>, components: seq<Component>)

  datatype ImageRef = ImageRef(host: string, path: string, tag: string)

  /** Code outside the model: glob matching, and the version a tag carries. */
  datatype Env = Env(glob: (string, string) -> bool, version: string -> string)

  predicate TagMatches(env: Env, tag: string, pattern: string) {
    tag != "" && env.glob(pattern, tag)
  }

  predicate RepoMatches(ref: ImageRef, path: string) {
    var full := ref.host + "/" + ref.path;
    if IsProviderBuild(path) then PathMatches(full, path)
    else !IsProviderBuild(full) && PathMatches(ref.path, path)
  }

  predicate ImageMatches(env: Env, ref: ImageRef, matcher: string) {
    var m := SplitTagPattern(matcher);
    (m.pattern != "" ==> TagMatches(env, ref.tag, m.pattern)) && RepoMatches(ref, m.path)
  }

  /* ---------- overlap of two matchers ---------- */

  predicate ClaimsOverlap(a: string, b: string, tagsAhead: bool) {
    var (sa, sb) := (SplitTagPattern(a), SplitTagPattern(b));
    && IsProviderBuild(sa.path) == IsProviderBuild(sb.path)
    && !(tagsAhead && (sa.pattern == "") != (sb.pattern == ""))
    && (PathMatches(sa.path, sb.path) || PathMatches(sb.path, sa.path))
  }

  lemma {:induction false} SuffixesNest(x: string, u: string, v: string)
    requires HasSuffix(x, u) && HasSuffix(x, v) && |u| <= |v|
    ensures HasSuffix(v, u)
  {
    assert v == x[|x| - |v|..];
    assert v[|v| - |u|..] == x[|x| - |u|..];
  }

  lemma {:induction false} SuffixTransitive(x: string, y: string, z: string)
    requires HasSuffix(x, y) && HasSuffix(y, z)
    ensures HasSuffix(x, z)
  {
    assert y == x[|x| - |y|..];
    assert y[|y| - |z|..] == x[|x| - |z|..];
  }

  lemma {:induction false} SlashSuffix(x: string, y: string)
    requires HasSuffix(x, "/" + y)
    ensures HasSuffix(x, y)
  {
    assert HasSuffix("/" + y, y);
    SuffixTransitive(x, "/" + y, y);
  }

  /** The matcher may match below any prefix, not only exactly. */
  predicate Wide(m: string) {
    HasPrefix(m, ANY_PREFIX) || '/' in m
  }

  lemma {:induction false} MatchForm(x: string, m: string)
    ensures PathMatches(x, m) <==> x == Name(m) || (Wide(m) && HasSuffix(x, "/" + Name(m)))
    ensures HasSuffix(m, Name(m))
    ensures m != Name(m) ==> Wide(m) && HasSuffix(m, "/" + Name(m))
  {
    if HasPrefix(m, ANY_PREFIX) {
      assert m[1] == '/';
      assert m[1..] == "/" + m[2..];
    }
  }

  lemma {:induction false} SameNameOverlaps(a: string, b: string)
    requires Name(a) == Name(b)
    ensures PathMatches(a, b) || PathMatches(b, a)
  {
    MatchForm(a, b);
    MatchForm(b, a);
  }

  lemma {:induction false} EndsWithName(x: string, m: string)
    requires PathMatches(x, m)
    ensures HasSuffix(x, Name(m))
  {
    MatchForm(x, m);
    if HasSuffix(x, "/" + Name(m)) {
      SlashSuffix(x, Name(m));
    }
  }

  /** A longer matcher of one path is itself matched by a shorter one. */
  lemma {:induction false} LongerIsMatched(x: string, a: string, b: string)
    requires PathMatches(x, a) && PathMatches(x, b) && |Name(a)| > |Name(b)|
    ensures PathMatches(a, b)
  {
    EndsWithName(x, a);
    MatchForm(x, b);
    MatchForm(a, b);
    MatchForm(a, a);
    SuffixesNest(x, "/" + Name(b), Name(a));
    SuffixTransitive(a, Name(a), "/" + Name(b));
  }

  /** Two matchers of one path match each other, one way or the other: for all
      strings, whatever their segments. */
  lemma {:induction false} SamePathOverlaps(x: string, a: string, b: string)
    requires PathMatches(x, a) && PathMatches(x, b)
    ensures PathMatches(a, b) || PathMatches(b, a)
  {
    if |Name(a)| > |Name(b)| {
      LongerIsMatched(x, a, b);
    } else if |Name(a)| < |Name(b)| {
      LongerIsMatched(x, b, a);
    } else {
      EndsWithName(x, a);
      EndsWithName(x, b);
      SameNameOverlaps(a, b);
    }
  }

  lemma {:induction false} ContainsInSuffix(x: string, y: string, t: string)
    requires HasSuffix(x, y) && Contains(y, t)
    ensures Contains(x, t)
  {
    var i :| 0 <= i <= |y| && At(y, t, i);
    var k := |x| - |y|;
    assert x[k..][i..i + |t|] == x[k + i..k + i + |t|];
    assert At(x, t, k + i);
  }

  lemma {:induction false} UnderPrefixKept(x: string, m: string, p: string)
    requires HasSuffix(x, "/" + m) && UnderPrefix(m, p)
    ensures UnderPrefix(x, p)
  {
    if HasPrefix(m, p) {
      assert ("/" + m)[0..1 + |p|] == "/" + p;
      assert At("/" + m, "/" + p, 0);
    } else {
      assert HasSuffix("/" + m, m);
      ContainsInSuffix("/" + m, m, "/" + p);
    }
    ContainsInSuffix(x, "/" + m, "/" + p);
  }

  lemma {:induction false} NameUnderPrefix(m: string, p: string)
    requires HasPrefix(m, ANY_PREFIX) && UnderPrefix(m, p) && p != "" && p[0] != '*'
    ensures UnderPrefix(m[2..], p)
  {
    assert m[0] == '*';
    assert !HasPrefix(m, p);
    var i :| 0 <= i <= |m| && At(m, "/" + p, i);
    assert m[i] == m[i..i + |"/" + p|][0] == '/';
    if i == 1 {
      assert p == ("/" + p)[1..] == m[1..2 + |p|][1..] == m[2..2 + |p|];
      assert m[2..][..|p|] == p;
    } else {
      assert m[2..][i - 2..i - 2 + 1 + |p|] == m[i..i + 1 + |p|];
      assert At(m[2..], "/" + p, i - 2);
    }
  }

  lemma {:induction false} MatchKeepsUnder(full: string, m: string, p: string)
    requires PathMatches(full, m) && UnderPrefix(m, p) && p != "" && p[0] != '*'
    ensures UnderPrefix(full, p)
  {
    if HasPrefix(m, ANY_PREFIX) {
      NameUnderPrefix(m, p);
    }
    if full != Name(m) {
      UnderPrefixKept(full, Name(m), p);
    }
  }

  /** Whatever a matcher of a provider's location matches lies there too. */
  lemma {:induction false} ProviderMatchIsProvider(full: string, m: string)
    requires IsProviderBuild(m) && PathMatches(full, m)
    ensures IsProviderBuild(full)
  {
    if UnderPrefix(m, PROVIDER_PREFIXES[0]) {
      MatchKeepsUnder(full, m, PROVIDER_PREFIXES[0]);
    } else if UnderPrefix(m, PROVIDER_PREFIXES[1]) {
      MatchKeepsUnder(full, m, PROVIDER_PREFIXES[1]);
    } else {
      MatchKeepsUnder(full, m, PROVIDER_PREFIXES[2]);
    }
  }

  /** Two repository paths that match one image are of one kind and overlap. */
  lemma {:induction false} SameImageOverlaps(ref: ImageRef, a: string, b: string)
    requires RepoMatches(ref, a) && RepoMatches(ref, b)
    ensures IsProviderBuild(a) == IsProviderBuild(b)
    ensures PathMatches(a, b) || PathMatches(b, a)
  {
    var full := ref.host + "/" + ref.path;
    if IsProviderBuild(a) {
      ProviderMatchIsProvider(full, a);
    }
    if IsProviderBuild(b) {
      ProviderMatchIsProvider(full, b);
    }
    SamePathOverlaps(if IsProviderBuild(a) then full else ref.path, a, b);
  }

  /* ---------- the claim rule ---------- */

  ghost predicate MatchedWith(env: Env, ref: ImageRef, matchers: seq<string>, tagged: bool) {
    exists m :: m in matchers && ImageMatches(env, ref, m) && (SplitTagPattern(m).pattern != "") == tagged
  }

  ghost predicate ByTag(env: Env, ref: ImageRef, a: AddOn) {
    MatchedWith(env, ref, a.images, true)
  }

  ghost predicate ByPath(env: Env, ref: ImageRef, a: AddOn) {
    MatchedWith(env, ref, a.images, false)
  }

  ghost predicate ByComponent(env: Env, ref: ImageRef, a: AddOn) {
    exists i :: 0 <= i < |a.components| && ImageMatches(env, ref, a.components[i].image)
  }

  /** The entry owns the image: one of its tag patterns names it, or no entry's
      does and one of its repositories is the image's. */
  ghost predicate Owns(env: Env, ref: ImageRef, addons: seq<AddOn>, a: AddOn) {
    || ByTag(env, ref, a)
    || ((forall b :: b in addons ==> !ByTag(env, ref, b)) && (ByPath(env, ref, a) || ByComponent(env, ref, a)))
  }

  datatype Claim = Claim(id: string, version: string, byTag: bool)

  function FirstComponent(env: Env, ref: ImageRef, cs: seq<Component>): (i: nat)
    ensures i <= |cs|
    ensures i < |cs| ==> ImageMatches(env, ref, cs[i].image)
    ensures forall j :: 0 <= j < i ==> !ImageMatches(env, ref, cs[j].image)
  {
    if cs == [] || ImageMatches(env, ref, cs[0].image) then 0 else 1 + FirstComponent(env, ref, cs[1..])
  }

  ghost function ClaimOf(env: Env, ref: ImageRef, a: AddOn): Claim
    requires ByTag(env, ref, a) || ByPath(env, ref, a) || ByComponent(env, ref, a)
  {
    var v := env.version(ref.tag);
    if ByTag(env, ref, a) || ByPath(env, ref, a) then Claim(a.id, v, true)
    else Claim(a.id, a.components[FirstComponent(env, ref, a.components)].line(v), false)
  }

  /** The claims of the owners among the first n entries, in registry order. */
  ghost function Claims(env: Env, ref: ImageRef, addons: seq<AddOn>, n: nat): seq<Claim>
    requires n <= |addons|
  {
    if n == 0 then []
    else
      Claims(env, ref, addons, n - 1)
      + (if Owns(env, ref, addons, addons[n - 1]) then [ClaimOf(env, ref, addons[n - 1])] else [])
  }

  /** An owner's claim carries the tag's version, or, through a component image, the
      version of the product line it ships in. */
  ghost function OwnerClaim(env: Env, ref: ImageRef, addons: seq<AddOn>): AddOn -> Option<Claim> {
    (a: AddOn) => if Owns(env, ref, addons, a) then Some(ClaimOf(env, ref, a)) else None
  }

  lemma {:induction false} ClaimsStep(env: Env, ref: ImageRef, addons: seq<AddOn>, n: nat)
    requires 0 < n <= |addons|
    ensures Claims(env, ref, addons, n) == Claims(env, ref, addons, n - 1) + AsList(OwnerClaim(env, ref, addons)(addons[n - 1]))
  {
  }

  /** Exactly the owners claim the image, in registry order. */
  lemma {:induction false} ClaimsAreOwners(env: Env, ref: ImageRef, addons: seq<AddOn>, n: nat)
    requires n <= |addons|
    ensures Gives(OwnerClaim(env, ref, addons), addons[..n], Claims(env, ref, addons, n))
  {
    if n == 0 {
      GivesNone(OwnerClaim(env, ref, addons));
    } else {
      ClaimsAreOwners(env, ref, addons, n - 1);
      ClaimsStep(env, ref, addons, n);
      SliceNext(addons, n - 1);
      GivesNext(OwnerClaim(env, ref, addons), addons[..n - 1], Claims(env, ref, addons, n - 1), addons[n - 1]);
    }
  }

  /** How an entry's image matchers match: one pass over them. */
  method MatchImages(env: Env, ref: ImageRef, a: AddOn) returns (byTag: bool, byPath: bool)
    ensures byTag <==> ByTag(env, ref, a)
    ensures byPath <==> ByPath(env, ref, a)
  {
    byTag, byPath := false, false;
    for k := 0 to |a.images|
      invariant byTag <==> MatchedWith(env, ref, a.images[..k], true)
      invariant byPath <==> MatchedWith(env, ref, a.images[..k], false)
    {
      var m := a.images[k];
      assert a.images[..k + 1] == a.images[..k] + [m];
      if ImageMatches(env, ref, m) {
        var pattern := SplitTagPattern(m).pattern;
        byTag, byPath := byTag || pattern != "", byPath || pattern == "";
      }
    }
    assert a.images[..|a.images|] == a.images;
  }

  ghost function TagClaims(env: Env, ref: ImageRef, addons: seq<AddOn>, n: nat): seq<Claim>
    requires n <= |addons|
  {
    if n == 0 then []
    else
      TagClaims(env, ref, addons, n - 1)
      + (if ByTag(env, ref, addons[n - 1]) then [ClaimOf(env, ref, addons[n - 1])] else [])
  }

  ghost function PathClaims(env: Env, ref: ImageRef, addons: seq<AddOn>, n: nat): seq<Claim>
    requires n <= |addons|
  {
    if n == 0 then []
    else
      var a := addons[n - 1];
      PathClaims(env, ref, addons, n - 1)
      + (if !ByTag(env, ref, a) && (ByPath(env, ref, a) || ByComponent(env, ref, a)) then [ClaimOf(env, ref, a)] else [])
  }

  lemma {:induction false} NoTagClaims(env: Env, ref: ImageRef, addons: seq<AddOn>, n: nat)
    requires n <= |addons|
    ensures TagClaims(env, ref, addons, n) == [] <==> forall k :: 0 <= k < n ==> !ByTag(env, ref, addons[k])
  {
    if n != 0 {
      NoTagClaims(env, ref, addons, n - 1);
    }
  }

  ghost predicate SomeTag(env: Env, ref: ImageRef, addons: seq<AddOn>) {
    exists b :: b in addons && ByTag(env, ref, b)
  }

  /** With a tag owner, the owners are the entries a tag names. */
  lemma {:induction false} TagsAhead(env: Env, ref: ImageRef, addons: seq<AddOn>, n: nat)
    requires n <= |addons| && SomeTag(env, ref, addons)
    ensures Claims(env, ref, addons, n) == TagClaims(env, ref, addons, n)
  {
    if n != 0 {
      TagsAhead(env, ref, addons, n - 1);
    }
  }

  /** Without one, they are the entries of the image's repository. */
  lemma {:induction false} PathsAlone(env: Env, ref: ImageRef, addons: seq<AddOn>, n: nat)
    requires n <= |addons| && !SomeTag(env, ref, addons)
    ensures Claims(env, ref, addons, n) == PathClaims(env, ref, addons, n)
  {
    if n != 0 {
      PathsAlone(env, ref, addons, n - 1);
      assert addons[n - 1] in addons;
    }
  }

  method EntryClaim(env: Env, ref: ImageRef, a: AddOn, tagVersion: string) returns (byTag: bool, claim: seq<Claim>)
    requires tagVersion == env.version(ref.tag)
    ensures byTag <==> ByTag(env, ref, a)
    ensures claim == if ByTag(env, ref, a) || ByPath(env, ref, a) || ByComponent(env, ref, a)
                     then [ClaimOf(env, ref, a)] else []
  {
    var byPath;
    byTag, byPath := MatchImages(env, ref, a);
    if byTag || byPath {
      claim := [Claim(a.id, tagVersion, true)];
    } else {
      var i := FirstComponent(env, ref, a.components);
      claim := if i < |a.components| then [Claim(a.id, a.components[i].line(tagVersion), false)] else [];
    }
  }

  /** imageClaims: the claims of the image's owners, tags ahead of paths. */
  method ClaimsFor(env: Env, ref: ImageRef, addons: seq<AddOn>) returns (claims: seq<Claim>)
    ensures claims == Claims(env, ref, addons, |addons|) && Gives(OwnerClaim(env, ref, addons), addons, claims)
  {
    var tagged, plain: seq<Claim> := [], [];
    var tagVersion := env.version(ref.tag);
    for k := 0 to |addons|
      invariant tagged == TagClaims(env, ref, addons, k)
      invariant plain == PathClaims(env, ref, addons, k)
    {
      var a := addons[k];
      var byTag, claim := EntryClaim(env, ref, a, tagVersion);
      if byTag {
        tagged := tagged + claim;
      } else {
        plain := plain + claim;
      }
    }
    NoTagClaims(env, ref, addons, |addons|);
    ClaimsAreOwners(env, ref, addons, |addons|);
    Whole(addons);
    if |tagged| > 0 {
      TagsAhead(env, ref, addons, |addons|);
      claims := tagged;
    } else {
      PathsAlone(env, ref, addons, |addons|);
      claims := plain;
    }
  }

  /* ---------- conflicts ---------- */

  function ImagesOf(a: AddOn): seq<string> {
    a.images + seq(|a.components|, i requires 0 <= i < |a.components| => a.components[i].image)
  }

  datatype Conflict =
    | SameImage(i: nat, j: nat, ma: string, mb: string)
    | SameChart(i: nat, j: nat, chart: string)
    | IdIsChart(i: nat, j: nat)

  type Blessed = (AddOn, string) -> bool

  /** What c says is so of the entries at its two places. */
  ghost predicate Real(addons: seq<AddOn>, blessed: Blessed, c: Conflict) {
    && c.i < |addons| && c.j < |addons|
    && var (a, b) := (addons[c.i], addons[c.j]);
       match c
       case SameImage(i, j, ma, mb) =>
         i < j && ma in ImagesOf(a) && mb in ImagesOf(b) && ClaimsOverlap(ma, mb, blessed(a, ma) && blessed(b, mb))
       case SameChart(i, j, chart) => i < j && chart in a.charts && chart in b.charts
       case IdIsChart(i, j) => i != j && a.id in b.charts
  }

  /** Every reported conflict is real, and every real one is reported. */
  method ClaimConflicts(addons: seq<AddOn>, blessed: Blessed) returns (errs: seq<Conflict>)
    ensures forall c :: c in errs <==> Real(addons, blessed, c)
  {
    errs := [];
    for i := 0 to |addons|
      invariant forall c :: c in errs <==> Real(addons, blessed, c) && Low(c) < i
    {
      for j := i + 1 to |addons|
        invariant forall c :: c in errs <==> Real(addons, blessed, c) && (Low(c) < i || (Low(c) == i && High(c) < j))
      {
        var found := PairConflicts(addons, blessed, i, j);
        errs := errs + found;
      }
    }
  }

  function Low(c: Conflict): nat {
    if c.i < c.j then c.i else c.j
  }

  function High(c: Conflict): nat {
    if c.i < c.j then c.j else c.i
  }

  method PairConflicts(addons: seq<AddOn>, blessed: Blessed, i: nat, j: nat) returns (errs: seq<Conflict>)
    requires i < j < |addons|
    ensures forall c :: c in errs <==> Real(addons, blessed, c) && Low(c) == i && High(c) == j
  {
    var a, b := addons[i], addons[j];
    var images := ImageConflicts(addons, blessed, i, j);
    var charts := ChartConflicts(addons, blessed, i, j);
    errs := images + charts;
    if a.id in b.charts {
      errs := errs + [IdIsChart(i, j)];
    }
    if b.id in a.charts {
      errs := errs + [IdIsChart(j, i)];
    }
  }

  method ImageConflicts(addons: seq<AddOn>, blessed: Blessed, i: nat, j: nat) returns (errs: seq<Conflict>)
    requires i < j < |addons|
    ensures forall c :: c in errs <==> c.SameImage? && c.i == i && c.j == j && Real(addons, blessed, c)
  {
    var (a, b) := (addons[i], addons[j]);
    var mas, mbs := ImagesOf(a), ImagesOf(b);
    errs := [];
    for k := 0 to |mas|
      invariant forall c :: c in errs <==> ImageConflict(addons, blessed, i, j, c) && c.ma in mas[..k]
    {
      ghost var before := errs;
      for l := 0 to |mbs|
        invariant forall c :: c in errs <==>
                    c in before || (ImageConflict(addons, blessed, i, j, c) && c.ma == mas[k] && c.mb in mbs[..l])
      {
        assert mbs[..l + 1] == mbs[..l] + [mbs[l]];
        if ClaimsOverlap(mas[k], mbs[l], blessed(a, mas[k]) && blessed(b, mbs[l])) {
          errs := errs + [SameImage(i, j, mas[k], mbs[l])];
        }
      }
      assert mbs[..|mbs|] == mbs;
      assert mas[..k + 1] == mas[..k] + [mas[k]];
    }
    assert mas[..|mas|] == mas;
  }

  ghost predicate ImageConflict(addons: seq<AddOn>, blessed: Blessed, i: nat, j: nat, c: Conflict) {
    c.SameImage? && c.i == i && c.j == j && Real(addons, blessed, c)
  }

  ghost predicate ChartConflict(addons: seq<AddOn>, blessed: Blessed, i: nat, j: nat, c: Conflict) {
    c.SameChart? && c.i == i && c.j == j && Real(addons, blessed, c)
  }

  method ChartConflicts(addons: seq<AddOn>, blessed: Blessed, i: nat, j: nat) returns (errs: seq<Conflict>)
    requires i < j < |addons|
    ensures forall c :: c in errs <==> ChartConflict(addons, blessed, i, j, c)
  {
    var (cas, cbs) := (addons[i].charts, addons[j].charts);
    errs := [];
    for k := 0 to |cas|
      invariant forall c :: c in errs <==> ChartConflict(addons, blessed, i, j, c) && c.chart in cas[..k]
    {
      ghost var before := errs;
      for l := 0 to |cbs|
        invariant forall c :: c in errs <==> c in before || (c == SameChart(i, j, cas[k]) && cas[k] in cbs[..l])
      {
        assert cbs[..l + 1] == cbs[..l] + [cbs[l]];
        if cas[k] == cbs[l] {
          errs := errs + [SameChart(i, j, cas[k])];
        }
      }
      assert cbs[..|cbs|] == cbs;
      assert cas[..k + 1] == cas[..k] + [cas[k]];
    }
    assert cas[..|cas|] == cas;
  }

  /* ---------- one image, one entry ---------- */

  ghost predicate NoImageConflict(addons: seq<AddOn>, blessed: Blessed) {
    forall c: Conflict :: c.SameImage? ==> !Real(addons, blessed, c)
  }

  /** What validateComponent demands of component images. */
  ghost predicate ComponentsPlain(addons: seq<AddOn>) {
    forall a, i :: a in addons && 0 <= i < |a.components| ==> ':' !in a.components[i].image
  }

  /** The matcher through which an entry owns an image. */
  lemma {:induction false} OwnMatcher(env: Env, ref: ImageRef, addons: seq<AddOn>, a: AddOn) returns (m: string)
    requires a in addons && Owns(env, ref, addons, a) && ComponentsPlain(addons)
    ensures m in ImagesOf(a) && RepoMatches(ref, SplitTagPattern(m).path)
    ensures SplitTagPattern(m).pattern != "" <==> ByTag(env, ref, a)
  {
    if ByTag(env, ref, a) {
      m :| m in a.images && ImageMatches(env, ref, m) && SplitTagPattern(m).pattern != "";
    } else if ByPath(env, ref, a) {
      m :| m in a.images && ImageMatches(env, ref, m) && SplitTagPattern(m).pattern == "";
    } else {
      var i :| 0 <= i < |a.components| && ImageMatches(env, ref, a.components[i].image);
      m := a.components[i].image;
      assert ImagesOf(a)[|a.images| + i] == m;
    }
  }

  lemma {:induction false} TwoOwnersConflict(env: Env, ref: ImageRef, addons: seq<AddOn>, blessed: Blessed, i: nat, j: nat)
    requires i < j < |addons| && ComponentsPlain(addons)
    requires Owns(env, ref, addons, addons[i]) && Owns(env, ref, addons, addons[j])
    ensures !NoImageConflict(addons, blessed)
  {
    var ma := OwnMatcher(env, ref, addons, addons[i]);
    var mb := OwnMatcher(env, ref, addons, addons[j]);
    assert addons[i] in addons && addons[j] in addons;
    SameImageOverlaps(ref, SplitTagPattern(ma).path, SplitTagPattern(mb).path);
    assert Real(addons, blessed, SameImage(i, j, ma, mb));
  }

  lemma {:induction false} FewOwnersFewClaims(env: Env, ref: ImageRef, addons: seq<AddOn>, n: nat)
    requires n <= |addons|
    requires forall i, j :: 0 <= i < j < n ==>
               !(Owns(env, ref, addons, addons[i]) && Owns(env, ref, addons, addons[j]))
    ensures |Claims(env, ref, addons, n)| <= 1
    ensures |Claims(env, ref, addons, n)| == 1 ==> exists i :: 0 <= i < n && Owns(env, ref, addons, addons[i])
  {
    if n != 0 {
      FewOwnersFewClaims(env, ref, addons, n - 1);
    }
  }

  /** A registry without an image conflict gives every image, under every tag
      and glob, to at most one entry: whichever matchers keep the tag-over-path
      precedence in the check (all of them, or only an operator's blessed ones). */
  lemma {:induction false} OneImageOneEntry(env: Env, ref: ImageRef, addons: seq<AddOn>, blessed: Blessed)
    requires NoImageConflict(addons, blessed) && ComponentsPlain(addons)
    ensures |Claims(env, ref, addons, |addons|)| <= 1
  {
    forall i, j | 0 <= i < j < |addons|
      ensures !(Owns(env, ref, addons, addons[i]) && Owns(env, ref, addons, addons[j]))
    {
      if Owns(env, ref, addons, addons[i]) && Owns(env, ref, addons, addons[j]) {
        TwoOwnersConflict(env, ref, addons, blessed, i, j);
      }
    }
    FewOwnersFewClaims(env, ref, addons, |addons|);
  }

  /* ---------- the check reports no more than it must ---------- */

  /** What validateImageMatcher leaves of a matcher without a tag pattern: the
      any-prefix mark stands before a single segment. */
  ghost predicate PathOnly(m: string) {
    ':' !in m && (HasPrefix(m, ANY_PREFIX) ==> '/' !in m[2..])
  }

  ghost predicate PathOnlyRegistry(addons: seq<AddOn>) {
    forall a, m :: a in addons && m in ImagesOf(a) ==> PathOnly(m)
  }

  /** The image a matcher's own repository names, pulled through a mirror. */
  function Witness(a: string): ImageRef {
    ImageRef("r.io", Name(a), "")
  }

  lemma {:induction false} AtShifted(h: string, a: string, t: string, i: nat)
    requires At(h + a, t, i) && i >= |h|
    ensures At(a, t, i - |h|)
  {
    assert (h + a)[i..i + |t|] == a[i - |h|..i - |h| + |t|];
  }

  lemma {:induction false} SlashAt(h: string, a: string, p: string, i: nat)
    requires At(h + a, "/" + p, i) && '/' !in h
    ensures i >= |h|
  {
    assert (h + a)[i] == (h + a)[i..i + |"/" + p|][0] == '/';
  }

  lemma {:induction false} PrefixAfterSlash(a: string, p: string)
    requires At("/" + a, "/" + p, 0)
    ensures HasPrefix(a, p)
  {
    assert forall j :: 0 <= j < |p| ==> p[j] == ("/" + p)[j + 1] == ("/" + a)[j + 1] == a[j];
  }

  lemma {:induction false} UnderAfterSlash(a: string, p: string, k: nat)
    requires At("/" + a, "/" + p, k)
    ensures UnderPrefix(a, p)
  {
    if k == 0 {
      PrefixAfterSlash(a, p);
    } else {
      AtShifted("/", a, "/" + p, k);
    }
  }

  /** What is under a prefix behind a registry host is under it without the host. */
  lemma {:induction false} BehindHost(h: string, a: string, p: string)
    requires '/' !in h && Contains(h + ("/" + a), "/" + p)
    ensures UnderPrefix(a, p)
  {
    var i :| 0 <= i <= |h + ("/" + a)| && At(h + ("/" + a), "/" + p, i);
    SlashAt(h, "/" + a, p, i);
    AtShifted(h, "/" + a, "/" + p, i);
    UnderAfterSlash(a, p, i - |h|);
  }

  lemma {:induction false} MirrorUnder(a: string, p: string)
    requires p != "" && !HasPrefix("r.io/" + a, p) && UnderPrefix("r.io/" + a, p)
    ensures UnderPrefix(a, p)
  {
    assert "r.io/" + a == "r.io" + ("/" + a);
    BehindHost("r.io", a, p);
  }

  lemma {:induction false} MirrorNotProvider(a: string)
    requires !IsProviderBuild(a)
    ensures !IsProviderBuild("r.io/" + a)
  {
    var full := "r.io/" + a;
    assert full[0] == 'r';
    if UnderPrefix(full, PROVIDER_PREFIXES[0]) {
      MirrorUnder(a, PROVIDER_PREFIXES[0]);
    }
    if UnderPrefix(full, PROVIDER_PREFIXES[1]) {
      MirrorUnder(a, PROVIDER_PREFIXES[1]);
    }
    if UnderPrefix(full, PROVIDER_PREFIXES[2]) {
      MirrorUnder(a, PROVIDER_PREFIXES[2]);
    }
  }

  lemma {:induction false} UnderHasSlash(n: string, p: string)
    requires UnderPrefix(n, p) && p != "" && p[|p| - 1] == '/'
    ensures '/' in n
  {
    if HasPrefix(n, p) {
      assert n[|p| - 1] == '/';
    } else {
      var i :| 0 <= i <= |n| && At(n, "/" + p, i);
      assert n[i] == n[i..i + |"/" + p|][0] == '/';
    }
  }

  lemma {:induction false} OneSegmentNotProvider(n: string)
    requires '/' !in n
    ensures !IsProviderBuild(n)
  {
    forall p | p in PROVIDER_PREFIXES
      ensures !UnderPrefix(n, p)
    {
      if UnderPrefix(n, p) {
        UnderHasSlash(n, p);
      }
    }
  }

  lemma {:induction false} AnyPrefixNotProvider(m: string, p: string)
    requires PathOnly(m) && HasPrefix(m, ANY_PREFIX) && p in PROVIDER_PREFIXES
    ensures !UnderPrefix(m, p)
  {
    if UnderPrefix(m, p) {
      NameUnderPrefix(m, p);
      OneSegmentNotProvider(m[2..]);
    }
  }

  lemma {:induction false} ProviderIsNamed(m: string)
    requires PathOnly(m) && IsProviderBuild(m)
    ensures Name(m) == m && Wide(m)
  {
    if HasPrefix(m, ANY_PREFIX) {
      AnyPrefixNotProvider(m, PROVIDER_PREFIXES[0]);
      AnyPrefixNotProvider(m, PROVIDER_PREFIXES[1]);
      AnyPrefixNotProvider(m, PROVIDER_PREFIXES[2]);
    }
    if '/' !in m {
      OneSegmentNotProvider(m);
    }
  }

  lemma {:induction false} NameNotProvider(m: string)
    requires PathOnly(m) && !IsProviderBuild(m)
    ensures !IsProviderBuild(Name(m))
  {
    if HasPrefix(m, ANY_PREFIX) {
      OneSegmentNotProvider(Name(m));
    }
  }

  lemma {:induction false} AnyPrefixTail(a: string, t: string)
    requires HasPrefix(a, ANY_PREFIX) && '/' !in a[2..] && HasSuffix(a, "/" + t)
    ensures t == a[2..]
  {
    var k := |a| - |t| - 1;
    assert a[k] == a[k..][0] == '/' && a[0] == '*';
    assert k == 1;
    assert t == ("/" + t)[1..] == a[1..][1..];
  }

  lemma {:induction false} AnyPrefixNotName(a: string, b: string)
    requires HasPrefix(a, ANY_PREFIX) && PathOnly(b)
    ensures a != Name(b)
  {
    assert a[1] == '/';
  }

  /** A matcher matched by another hands it its own name too. */
  lemma {:induction false} NameIsMatched(a: string, b: string)
    requires PathOnly(a) && PathOnly(b) && PathMatches(a, b)
    ensures PathMatches(Name(a), b)
  {
    if HasPrefix(a, ANY_PREFIX) {
      MatchForm(a, b);
      AnyPrefixNotName(a, b);
      AnyPrefixTail(a, Name(b));
      MatchForm(Name(a), b);
    }
  }

  lemma {:induction false} ProviderWitness(a: string, b: string)
    requires PathOnly(a) && PathOnly(b) && PathMatches(a, b) && IsProviderBuild(a) && IsProviderBuild(b)
    ensures PathMatches("r.io/" + Name(a), b)
  {
    var full := "r.io/" + a;
    ProviderIsNamed(a);
    ProviderIsNamed(b);
    MatchForm(a, b);
    MatchForm(full, b);
    assert HasSuffix(full, "/" + a);
    SlashSuffix(full, a);
    if a != b {
      SuffixTransitive(full, a, "/" + b);
    }
  }

  lemma {:induction false} WitnessMatches(a: string, b: string)
    requires PathOnly(a) && PathOnly(b) && PathMatches(a, b) && IsProviderBuild(a) == IsProviderBuild(b)
    ensures RepoMatches(Witness(a), b)
  {
    assert "r.io" + "/" + Name(a) == "r.io/" + Name(a);
    if IsProviderBuild(a) {
      ProviderWitness(a, b);
    } else {
      NameNotProvider(a);
      MirrorNotProvider(Name(a));
      NameIsMatched(a, b);
    }
  }

  /** Two path-only matchers overlap exactly when one image is matched by both. */
  lemma {:induction false} OverlapIsShared(env: Env, a: string, b: string, tagsAhead: bool)
    requires PathOnly(a) && PathOnly(b)
    ensures ClaimsOverlap(a, b, tagsAhead) <==> exists ref :: ImageMatches(env, ref, a) && ImageMatches(env, ref, b)
  {
    if ClaimsOverlap(a, b, tagsAhead) {
      MatchForm(a, a);
      MatchForm(b, b);
      var m := if PathMatches(a, b) then a else b;
      WitnessMatches(m, a);
      WitnessMatches(m, b);
      assert ImageMatches(env, Witness(m), a) && ImageMatches(env, Witness(m), b);
    }
    if ref :| ImageMatches(env, ref, a) && ImageMatches(env, ref, b) {
      SameImageOverlaps(ref, a, b);
    }
  }

  lemma {:induction false} OwnerIsCounted(env: Env, ref: ImageRef, addons: seq<AddOn>, i: nat, n: nat)
    requires i < n <= |addons| && Owns(env, ref, addons, addons[i])
    ensures |Claims(env, ref, addons, n)| >= 1 + |Claims(env, ref, addons, i)|
  {
    if n != i + 1 {
      OwnerIsCounted(env, ref, addons, i, n - 1);
    }
  }

  lemma {:induction false} MatcherOwns(env: Env, ref: ImageRef, addons: seq<AddOn>, a: AddOn, m: string)
    requires PathOnlyRegistry(addons) && a in addons && m in ImagesOf(a) && ImageMatches(env, ref, m)
    ensures Owns(env, ref, addons, a)
  {
    forall b | b in addons
      ensures !ByTag(env, ref, b)
    {
      forall m | m in b.images
        ensures SplitTagPattern(m).pattern == ""
      {
        assert m in ImagesOf(b);
        assert PathOnly(m);
      }
    }
    if m in a.images {
      assert ByPath(env, ref, a);
    } else {
      var k :| 0 <= k < |ImagesOf(a)| && ImagesOf(a)[k] == m;
      assert a.components[k - |a.images|].image == m;
    }
  }

  /** In a registry of path-only matchers the check is exact: it finds no image
      conflict if and only if no image belongs to two entries. */
  lemma {:induction false} CheckIsExact(env: Env, addons: seq<AddOn>, blessed: Blessed)
    requires PathOnlyRegistry(addons)
    ensures NoImageConflict(addons, blessed) <==>
            forall ref: ImageRef :: |Claims(env, ref, addons, |addons|)| <= 1
  {
    if NoImageConflict(addons, blessed) {
      PlainComponents(addons);
      forall ref: ImageRef
        ensures |Claims(env, ref, addons, |addons|)| <= 1
      {
        OneImageOneEntry(env, ref, addons, blessed);
      }
    } else {
      var c: Conflict :| c.SameImage? && Real(addons, blessed, c);
      var a, b := addons[c.i], addons[c.j];
      OverlapIsShared(env, c.ma, c.mb, blessed(a, c.ma) && blessed(b, c.mb));
      var ref :| ImageMatches(env, ref, c.ma) && ImageMatches(env, ref, c.mb);
      MatcherOwns(env, ref, addons, a, c.ma);
      MatcherOwns(env, ref, addons, b, c.mb);
      OwnerIsCounted(env, ref, addons, c.i, c.j);
      OwnerIsCounted(env, ref, addons, c.j, |addons|);
      assert |Claims(env, ref, addons, |addons|)| >= 2;
    }
  }

  lemma {:induction false} PlainComponents(addons: seq<AddOn>)
    requires PathOnlyRegistry(addons)
    ensures ComponentsPlain(addons)
  {
    forall a, i | a in addons && 0 <= i < |a.components|
      ensures ':' !in a.components[i].image
    {
      assert ImagesOf(a)[|a.images| + i] == a.components[i].image;
      assert PathOnly(a.components[i].image);
    }
  }

  /* ---------- one chart or label, one entry ---------- */

  predicate Named(a: AddOn, name: string) {
    name == a.id || name in a.charts
  }

  /** With distinct ids, no chart or id conflict is reported exactly when every
      name, chart or label value, names at most one entry. */
  lemma {:induction false} OneNameOneEntry(addons: seq<AddOn>, blessed: Blessed)
    requires forall i, j :: 0 <= i < j < |addons| ==> addons[i].id != addons[j].id
    ensures (forall c: Conflict :: !c.SameImage? ==> !Real(addons, blessed, c)) <==>
            (forall i, j, name :: 0 <= i < j < |addons| && Named(addons[i], name) ==> !Named(addons[j], name))
  {
    if forall c: Conflict :: !c.SameImage? ==> !Real(addons, blessed, c) {
      forall i, j, name | 0 <= i < j < |addons| && Named(addons[i], name)
        ensures !Named(addons[j], name)
      {
        assert !Real(addons, blessed, SameChart(i, j, name));
        assert !Real(addons, blessed, IdIsChart(i, j));
        assert !Real(addons, blessed, IdIsChart(j, i));
      }
    }
    if forall i, j, name :: 0 <= i < j < |addons| && Named(addons[i], name) ==> !Named(addons[j], name) {
      forall c: Conflict | !c.SameImage?
        ensures !Real(addons, blessed, c)
      {
        if Real(addons, blessed, c) {
          var name := if c.SameChart? then c.chart else addons[c.i].id;
          assert Named(addons[Low(c)], name) && Named(addons[High(c)], name);
        }
      }
    }
  }
}
