/** lib/utils.ts: the identity utilities of the sync — slugs, fuzzy
  * same-project matching, primary-URL selection and tech-stack detection. */
module Utils {
  import opened Types
  import opened JsText

  // ---------------------------------------------------------------------
  // generateSlug
  // ---------------------------------------------------------------------

  /** The characters the regular expression `[a-z0-9]` accepts. */
  predicate IsSlugChar(c: char) {
    'a' <= c <= 'z' || '0' <= c <= '9'
  }

  /** A well-formed slug: only `[a-z0-9-]`, no "--", no '-' at either end. */
  predicate IsSlug(s: string) {
    && (forall k :: 0 <= k < |s| ==> IsSlugChar(s[k]) || s[k] == '-')
    && (forall k :: 0 <= k < |s| - 1 ==> !(s[k] == '-' && s[k + 1] == '-'))
    && (|s| > 0 ==> s[0] != '-' && s[|s| - 1] != '-')
  }

  /** Drops the leading run of characters outside `[a-z0-9]`. */
  function DropRun(s: string): (r: string)
    ensures |r| <= |s| && r == s[|s| - |r|..]
    ensures r == [] || IsSlugChar(r[0])
    decreases |s|
  {
    if |s| > 0 && !IsSlugChar(s[0]) then DropRun(s[1..]) else s
  }

  /** `.replace(/[^a-z0-9]+/g, '-')`: each maximal run of characters outside
    * `[a-z0-9]` becomes a single '-'. */
  function Hyphenate(s: string): string
    decreases |s|
  {
    if s == [] then []
    else if IsSlugChar(s[0]) then [s[0]] + Hyphenate(s[1..])
    else "-" + Hyphenate(DropRun(s[1..]))
  }

  /** `.replace(/^-|-$/g, '')`: one leading and one trailing '-' removed. */
  function TrimHyphens(s: string): string {
    var a := if |s| > 0 && s[0] == '-' then s[1..] else s;
    if |a| > 0 && a[|a| - 1] == '-' then a[..|a| - 1] else a
  }

  /** Alphabet `[a-z0-9-]` and no "--". */
  predicate Hyphenated(s: string) {
    && (forall k :: 0 <= k < |s| ==> IsSlugChar(s[k]) || s[k] == '-')
    && (forall k :: 0 <= k < |s| - 1 ==> !(s[k] == '-' && s[k + 1] == '-'))
  }

  lemma HyphenatedCons(c: char, h: string)
    requires Hyphenated(h)
    requires IsSlugChar(c) || (c == '-' && (h == [] || h[0] != '-'))
    ensures Hyphenated([c] + h)
  {
    var r := [c] + h;
    forall k | 0 <= k < |r| - 1 ensures !(r[k] == '-' && r[k + 1] == '-') {
      if k > 0 {
        assert r[k] == h[k - 1] && r[k + 1] == h[k];
      }
    }
  }

  /** Hyphenating yields `[a-z0-9-]` without "--", and keeps a leading
    * `[a-z0-9]` character in front. */
  lemma {:induction false} HyphenateShape(s: string)
    ensures Hyphenated(Hyphenate(s))
    ensures s != [] && IsSlugChar(s[0]) ==> Hyphenate(s) != [] && Hyphenate(s)[0] == s[0]
    decreases |s|
  {
    if s != [] {
      if IsSlugChar(s[0]) {
        HyphenateShape(s[1..]);
        HyphenatedCons(s[0], Hyphenate(s[1..]));
      } else {
        var t := DropRun(s[1..]);
        HyphenateShape(t);
        HyphenatedCons('-', Hyphenate(t));
      }
    }
  }

  lemma TrimHyphensShape(s: string)
    requires Hyphenated(s)
    ensures IsSlug(TrimHyphens(s))
  {
    var a := if |s| > 0 && s[0] == '-' then s[1..] else s;
    assert Hyphenated(a);
    assert |a| > 0 ==> a[0] != '-';
    if |a| > 0 && a[|a| - 1] == '-' {
      var b := a[..|a| - 1];
      assert Hyphenated(b);
      assert |b| > 0 ==> b[|b| - 1] != '-';
    }
  }

  /** `generateSlug(name)`: lower-case, hyphenate, trim the hyphens. */
  function Slug(name: string): (r: string)
    ensures IsSlug(r)
  {
    var h := Hyphenate(Lower(name));
    HyphenateShape(Lower(name));
    TrimHyphensShape(h);
    TrimHyphens(h)
  }

  lemma {:induction false} HyphenateFixes(s: string)
    requires Hyphenated(s)
    ensures Hyphenate(s) == s
    decreases |s|
  {
    if s != [] {
      assert Hyphenated(s[1..]);
      if !IsSlugChar(s[0]) {
        assert s[1..] == [] || IsSlugChar(s[1]);
        assert DropRun(s[1..]) == s[1..];
      }
      HyphenateFixes(s[1..]);
    }
  }

  /** A slug is its own slug. */
  lemma SlugFixesSlugs(s: string)
    requires IsSlug(s)
    ensures Slug(s) == s
  {
    LowerSpec(s);
    assert Lower(s) == s;
    HyphenateFixes(s);
  }

  /** `generateSlug` is idempotent. */
  lemma SlugIdempotent(name: string)
    ensures Slug(Slug(name)) == Slug(name)
  {
    SlugFixesSlugs(Slug(name));
  }

  // ---------------------------------------------------------------------
  // isSameProject
  // ---------------------------------------------------------------------

  /** The generic suffixes `-(app|tool|project|site|website|api|frontend|backend)`. */
  const GenericSuffixes: seq<string> :=
    ["app", "tool", "project", "site", "website", "api", "frontend", "backend"]

  /** `.replace(/-(app|...|backend)$/, '')`: removes the one generic suffix
    * the slug ends with, if any (no two of them can both end a string). */
  function StripGenericSuffix(s: string): (r: string)
    ensures |r| <= |s| && r == s[..|r|]
  {
    StripFirst(s, GenericSuffixes)
  }

  function StripFirst(s: string, words: seq<string>): (r: string)
    ensures |r| <= |s| && r == s[..|r|]
    decreases |words|
  {
    if words == [] then s
    else if EndsWith(s, "-" + words[0]) then s[..|s| - |words[0]| - 1]
    else StripFirst(s, words[1..])
  }

  /** `isSameProject(name1, name2)`. */
  predicate SameProject(name1: string, name2: string) {
    var slug1 := Slug(name1);
    var slug2 := Slug(name2);
    || slug1 == slug2
    || Includes(slug1, slug2) || Includes(slug2, slug1)
    || StripGenericSuffix(slug1) == StripGenericSuffix(slug2)
  }

  /** Matching is reflexive and symmetric, and holds whenever the slugs are
    * equal or one contains the other. */
  lemma SameProjectBasics(a: string, b: string)
    ensures SameProject(a, a)
    ensures SameProject(a, b) == SameProject(b, a)
    ensures Slug(a) == Slug(b) ==> SameProject(a, b)
    ensures Includes(Slug(a), Slug(b)) ==> SameProject(a, b)
  {
  }

  /** A name with no letter or digit has the empty slug, which every slug
    * contains: it matches every name. */
  lemma {:induction false} EmptySlugMatchesAll(a: string, b: string)
    requires Slug(a) == []
    ensures SameProject(a, b) && SameProject(b, a)
  {
    assert Slug(b)[..0] == [];
  }

  /** Two names whose slugs agree once a generic suffix is stripped match. */
  lemma SuffixVariantsMatch(a: string, b: string)
    requires StripGenericSuffix(Slug(a)) == StripGenericSuffix(Slug(b))
    ensures SameProject(a, b)
  {
  }

  // ---------------------------------------------------------------------
  // getPrimaryUrl
  // ---------------------------------------------------------------------

  /** The URL fields in the order `getPrimaryUrl` consults them. */
  function UrlCandidates(p: Project): (r: seq<Option<string>>)
    ensures |r| == 6
  {
    [p.customDomain, p.netlifyUrl, p.vercelUrl, p.streamlitUrl, p.tiinyUrl, p.githubUrl]
  }

  /** `getPrimaryUrl(project)`: the first truthy URL field, or null. */
  function PrimaryUrl(p: Project): (r: Option<string>)
    ensures r.None? <==> forall k :: 0 <= k < 6 ==> !Truthy(UrlCandidates(p)[k])
    ensures r.Some? ==> r.value != ""
    ensures r.Some? ==> exists k :: 0 <= k < 6 && UrlCandidates(p)[k] == r && (forall j :: 0 <= j < k ==> !Truthy(UrlCandidates(p)[j]))
  {
    var r := OrElse(p.customDomain, OrElse(p.netlifyUrl, OrElse(p.vercelUrl,
             OrElse(p.streamlitUrl, OrElse(p.tiinyUrl, OrElse(p.githubUrl, None))))));
    ghost var c := UrlCandidates(p);
    assert r.Some? ==>
      if Truthy(c[0]) then r == c[0]
      else if Truthy(c[1]) then r == c[1]
      else if Truthy(c[2]) then r == c[2]
      else if Truthy(c[3]) then r == c[3]
      else if Truthy(c[4]) then r == c[4]
      else r == c[5];
    r
  }

  // ---------------------------------------------------------------------
  // extractTechStack
  // ---------------------------------------------------------------------

  /** A parsed package.json: its `dependencies` and `devDependencies` objects
    * (name to version string). */
  datatype PackageJson = PackageJson(dependencies: map<string, string>, devDependencies: map<string, string>)

  /** `{ ...pkg.dependencies, ...pkg.devDependencies }[name]` is truthy. */
  predicate HasDependency(pkg: PackageJson, name: string) {
    var deps := pkg.dependencies + pkg.devDependencies;
    name in deps && deps[name] != ""
  }

  /** The package.json checks, in source order: (dependency, label). */
  const PackageChecks: seq<(string, string)> := [
    ("next", "Next.js"), ("react", "React"), ("vue", "Vue"), ("express", "Express"),
    ("fastapi", "FastAPI"), ("tailwindcss", "Tailwind CSS"), ("typescript", "TypeScript")]

  /** The requirements.txt checks, in source order: (substring, label). */
  const RequirementChecks: seq<(string, string)> := [
    ("streamlit", "Streamlit"), ("fastapi", "FastAPI"), ("flask", "Flask"),
    ("django", "Django"), ("pandas", "Pandas")]

  function Labels(checks: seq<(string, string)>): (r: seq<string>)
    ensures |r| == |checks|
    ensures forall k :: 0 <= k < |r| ==> r[k] == checks[k].1
  {
    seq(|checks|, k requires 0 <= k < |checks| => checks[k].1)
  }

  /** The labels of the checks that pass, in check order. */
  function Detected(checks: seq<(string, string)>, passes: string -> bool): seq<string>
    decreases |checks|
  {
    if checks == [] then []
    else Detected(checks[..|checks| - 1], passes) + Pick(checks[|checks| - 1], passes)
  }

  /** One conditional push. */
  function Pick(c: (string, string), passes: string -> bool): seq<string> {
    if passes(c.0) then [c.1] else []
  }

  predicate NoDuplicates<T(==)>(s: seq<T>) {
    forall i, j :: 0 <= i < j < |s| ==> s[i] != s[j]
  }

  lemma SubsequenceSnoc<T>(a: seq<T>, b: seq<T>, x: T, keep: bool)
    requires IsSubsequence(a, b)
    ensures IsSubsequence(a + (if keep then [x] else []), b + [x])
    decreases |b|
  {
    if a == [] {
      if keep {
        assert a + [x] == [x];
        SingletonSubsequence(b, x);
      }
    } else if a[0] == b[0] && IsSubsequence(a[1..], b[1..]) {
      SubsequenceSnoc(a[1..], b[1..], x, keep);
      assert (a + (if keep then [x] else []))[1..] == a[1..] + (if keep then [x] else []);
      assert (b + [x])[1..] == b[1..] + [x];
    } else {
      SubsequenceSnoc(a, b[1..], x, keep);
      assert (b + [x])[1..] == b[1..] + [x];
    }
  }

  lemma {:induction false} SingletonSubsequence<T>(b: seq<T>, x: T)
    ensures IsSubsequence([x], b + [x])
    decreases |b|
  {
    if b == [] {
      assert [x][1..] == [];
    } else {
      SingletonSubsequence(b[1..], x);
      assert (b + [x])[1..] == b[1..] + [x];
    }
  }

  lemma NoDuplicatesSnoc<T>(s: seq<T>, x: T)
    requires NoDuplicates(s) && x !in s
    ensures NoDuplicates(s + [x])
  {
    var t := s + [x];
    forall i, j | 0 <= i < j < |t| ensures t[i] != t[j] {
      if j == |s| {
        assert t[i] == s[i];
      }
    }
  }

  lemma DetectedSnoc(checks: seq<(string, string)>, k: nat, passes: string -> bool)
    requires k < |checks|
    ensures Detected(checks[..k + 1], passes) == Detected(checks[..k], passes) + Pick(checks[k], passes)
  {
    assert checks[..k + 1][..k] == checks[..k];
  }

  /** A label is detected iff one of the checks carrying it passes. */
  lemma {:induction false} DetectedMembers(checks: seq<(string, string)>, passes: string -> bool)
    ensures forall l :: l in Detected(checks, passes) <==>
      exists k :: 0 <= k < |checks| && checks[k].1 == l && passes(checks[k].0)
    decreases |checks|
  {
    if checks != [] {
      var n := |checks| - 1;
      var init := checks[..n];
      var rest := Detected(init, passes);
      DetectedMembers(init, passes);
      forall l | l in Detected(checks, passes)
        ensures exists k :: 0 <= k < |checks| && checks[k].1 == l && passes(checks[k].0)
      {
        if l !in rest {
          assert checks[n].1 == l && passes(checks[n].0);
        } else {
          var k :| 0 <= k < |init| && init[k].1 == l && passes(init[k].0);
          assert checks[k].1 == l;
        }
      }
      forall l | exists k :: 0 <= k < |checks| && checks[k].1 == l && passes(checks[k].0)
        ensures l in Detected(checks, passes)
      {
        var k :| 0 <= k < |checks| && checks[k].1 == l && passes(checks[k].0);
        if k < n {
          assert init[k] == checks[k];
        }
      }
    }
  }

  /** Detected labels come out in check order. */
  lemma {:induction false} DetectedOrdered(checks: seq<(string, string)>, passes: string -> bool)
    ensures IsSubsequence(Detected(checks, passes), Labels(checks))
    decreases |checks|
  {
    if checks != [] {
      var n := |checks| - 1;
      DetectedOrdered(checks[..n], passes);
      assert Labels(checks) == Labels(checks[..n]) + [checks[n].1];
      SubsequenceSnoc(Detected(checks[..n], passes), Labels(checks[..n]), checks[n].1, passes(checks[n].0));
    }
  }

  /** With distinct labels, no label is detected twice. */
  lemma {:induction false} DetectedDistinct(checks: seq<(string, string)>, passes: string -> bool)
    requires NoDuplicates(Labels(checks))
    ensures NoDuplicates(Detected(checks, passes))
    decreases |checks|
  {
    if checks != [] {
      var n := |checks| - 1;
      var init := checks[..n];
      var rest := Detected(init, passes);
      assert NoDuplicates(Labels(init)) by {
        forall i, j | 0 <= i < j < n ensures Labels(init)[i] != Labels(init)[j] {
          assert Labels(checks)[i] != Labels(checks)[j];
        }
      }
      DetectedDistinct(init, passes);
      if passes(checks[n].0) {
        DetectedMembers(init, passes);
        forall l | l in rest ensures l != checks[n].1 {
          var k :| 0 <= k < |init| && init[k].1 == l && passes(init[k].0);
          assert Labels(checks)[k] != Labels(checks)[n];
        }
        NoDuplicatesSnoc(rest, checks[n].1);
      }
    }
  }

  /** `Detected` over a list of `n` checks, unrolled into its `n` picks. */
  lemma DetectedUnrolled(checks: seq<(string, string)>, passes: string -> bool, n: nat)
    requires n <= |checks|
    ensures Detected(checks[..n], passes) == PickAll(checks, passes, n)
  {
    if n > 0 {
      DetectedUnrolled(checks, passes, n - 1);
      DetectedSnoc(checks, n - 1, passes);
    } else {
      assert checks[..0] == [];
    }
  }

  /** The picks of the first `n` checks, concatenated left to right. */
  function PickAll(checks: seq<(string, string)>, passes: string -> bool, n: nat): seq<string>
    requires n <= |checks|
  {
    if n == 0 then [] else PickAll(checks, passes, n - 1) + Pick(checks[n - 1], passes)
  }

  lemma ChecksHaveDistinctLabels()
    ensures NoDuplicates(Labels(PackageChecks))
    ensures NoDuplicates(Labels(RequirementChecks))
  {
  }

  /** What `extractTechStack` is given: the file name and the content, where
    * a package.json's content has been through `JSON.parse` (None when it
    * throws). */
  datatype Manifest =
    | PackageJsonFile(parsed: Option<PackageJson>)
    | RequirementsTxt(content: string)
    | OtherFile(filename: string)

  /** `filename === 'package.json'` and `filename === 'requirements.txt'`. */
  function ManifestOf(filename: string, content: string, parse: string -> Option<PackageJson>): (m: Manifest)
    ensures filename == "package.json" ==> m == PackageJsonFile(parse(content))
    ensures filename == "requirements.txt" ==> m == RequirementsTxt(content)
    ensures filename != "package.json" && filename != "requirements.txt" ==> m.OtherFile?
  {
    if filename == "package.json" then PackageJsonFile(parse(content))
    else if filename == "requirements.txt" then RequirementsTxt(content)
    else OtherFile(filename)
  }

  /** The stack `extractTechStack` detects, as a function of the manifest. */
  function TechStack(m: Manifest): seq<string> {
    match m
    case PackageJsonFile(Some(pkg)) => Detected(PackageChecks, d => HasDependency(pkg, d))
    case RequirementsTxt(content) => Detected(RequirementChecks, w => Includes(content, w))
    case _ => []
  }

  /** The package.json branch of `extractTechStack`: one conditional push
    * per dependency check, in check order. */
  method PackageStack(pkg: PackageJson) returns (stack: seq<string>)
    ensures stack == Detected(PackageChecks, d => HasDependency(pkg, d))
  {
    ghost var has := d => HasDependency(pkg, d);
    ghost var c := PackageChecks;
    stack := [];
    if HasDependency(pkg, "next") { stack := stack + ["Next.js"]; }
    assert stack == PickAll(c, has, 1);
    if HasDependency(pkg, "react") { stack := stack + ["React"]; }
    assert stack == PickAll(c, has, 2);
    if HasDependency(pkg, "vue") { stack := stack + ["Vue"]; }
    assert stack == PickAll(c, has, 3);
    if HasDependency(pkg, "express") { stack := stack + ["Express"]; }
    assert stack == PickAll(c, has, 4);
    if HasDependency(pkg, "fastapi") { stack := stack + ["FastAPI"]; }
    assert stack == PickAll(c, has, 5);
    if HasDependency(pkg, "tailwindcss") { stack := stack + ["Tailwind CSS"]; }
    assert stack == PickAll(c, has, 6);
    if HasDependency(pkg, "typescript") { stack := stack + ["TypeScript"]; }
    assert stack == PickAll(c, has, 7);
    DetectedUnrolled(c, has, 7);
    assert c[..7] == c;
  }

  /** The requirements.txt branch of `extractTechStack`: one conditional
    * push per substring check, in check order. */
  method RequirementsStack(content: string) returns (stack: seq<string>)
    ensures stack == Detected(RequirementChecks, w => Includes(content, w))
  {
    ghost var has := w => Includes(content, w);
    ghost var c := RequirementChecks;
    stack := [];
    if Includes(content, "streamlit") { stack := stack + ["Streamlit"]; }
    assert stack == PickAll(c, has, 1);
    if Includes(content, "fastapi") { stack := stack + ["FastAPI"]; }
    assert stack == PickAll(c, has, 2);
    if Includes(content, "flask") { stack := stack + ["Flask"]; }
    assert stack == PickAll(c, has, 3);
    if Includes(content, "django") { stack := stack + ["Django"]; }
    assert stack == PickAll(c, has, 4);
    if Includes(content, "pandas") { stack := stack + ["Pandas"]; }
    assert stack == PickAll(c, has, 5);
    DetectedUnrolled(c, has, 5);
    assert c[..5] == c;
  }

  /** `extractTechStack(content, filename)`. */
  method ExtractTechStack(m: Manifest) returns (stack: seq<string>)
    ensures stack == TechStack(m)
    ensures m.OtherFile? || m == PackageJsonFile(None) ==> stack == []
  {
    stack := [];
    match m {
      case PackageJsonFile(parsed) =>
        if parsed.Some? {
          stack := PackageStack(parsed.value);
        }
      case RequirementsTxt(content) =>
        stack := RequirementsStack(content);
      case OtherFile(_) =>
    }
  }

  /** The detected stack has no label twice, holds exactly the labels whose
    * check passes, and lists them in check order. */
  lemma TechStackSpec(m: Manifest)
    ensures NoDuplicates(TechStack(m))
    ensures m.PackageJsonFile? && m.parsed.Some? ==>
      IsSubsequence(TechStack(m), Labels(PackageChecks))
      && forall l :: l in TechStack(m) <==>
           exists k :: 0 <= k < |PackageChecks| && PackageChecks[k].1 == l
                       && HasDependency(m.parsed.value, PackageChecks[k].0)
    ensures m.RequirementsTxt? ==>
      IsSubsequence(TechStack(m), Labels(RequirementChecks))
      && forall l :: l in TechStack(m) <==>
           exists k :: 0 <= k < |RequirementChecks| && RequirementChecks[k].1 == l
                       && Includes(m.content, RequirementChecks[k].0)
  {
    ChecksHaveDistinctLabels();
    match m {
      case PackageJsonFile(Some(pkg)) =>
        var has := d => HasDependency(pkg, d);
        DetectedMembers(PackageChecks, has);
        DetectedOrdered(PackageChecks, has);
        DetectedDistinct(PackageChecks, has);
      case RequirementsTxt(content) =>
        var has := w => Includes(content, w);
        DetectedMembers(RequirementChecks, has);
        DetectedOrdered(RequirementChecks, has);
        DetectedDistinct(RequirementChecks, has);
      case _ =>
    }
  }
}
