/**
 Which module owns each discovered test. A build's listing is accepted when every
 ignored test has exactly one owner, a module that selects it or a declared child
 of a module; acceptance makes the module listings a partition of what was found.
 */
module Ownership {
  import opened Options
  import opened Sequences
  import opened Text

  datatype Build = Build(package: string, kind: string, target: string, features: seq<string>)

  datatype Module = Module(
    id: string, build: Option<Build>, selectors: seq<string>, children: seq<string>, expected: Option<nat>)

  datatype Test = Test(name: string, ignored: bool, matches: bool)

  /** One entry of the discovery document; `key` is the key it is filed under. */
  datatype Suite = Suite(
    key: string, binaryId: string, package: string, kind: string, binary: string, path: string,
    listed: bool, tests: seq<Test>)

  type Document = seq<Suite>

  /** The documents of several builds, when each module is to be checked against its own. */
  type Listings = Option<map<Build, Document>>

  datatype Case = Case(build: Build, binary: string, executable: string, name: string)

  // ---------------------------------------------------------------- selection

  predicate EndsWithColons(s: string) {
    |s| >= 2 && s[|s| - 2] == ':' && s[|s| - 1] == ':'
  }

  /** An empty selector takes everything, `path::` a prefix, anything else one name. */
  predicate Selects(item: string, name: string) {
    item == "" || (if EndsWithColons(item) then item <= name else name == item)
  }

  predicate Includes(m: Module, name: string) {
    exists i | 0 <= i < |m.selectors| :: Selects(m.selectors[i], name)
  }

  predicate Belongs(b: Build, s: Suite) {
    s.package == b.package && s.kind == b.kind && (b.target == "" || s.binary == b.target)
  }

  /** The ignored tests of a build. */
  function Names(doc: Document, b: Build): set<string> {
    set s, t | s in doc && Belongs(b, s) && t in s.tests && t.ignored :: t.name
  }

  /** Those that also pass the runner's own filter in some suite. */
  function Matched(doc: Document, b: Build): set<string> {
    set s, t | s in doc && Belongs(b, s) && t in s.tests && t.ignored && t.matches :: t.name
  }

  /** What the module's listing contains. */
  function Parsed(doc: Document, b: Build, m: Module): set<string> {
    set n | n in Matched(doc, b) && Includes(m, n)
  }

  /** The three forms of a selector. */
  lemma SelectorForms(item: string, name: string)
    ensures Selects("", name)
    ensures Selects(item + "::", name) <==> |item| + 2 <= |name| && name[..|item| + 2] == item + "::"
    ensures item != "" && (|item| < 2 || item[|item| - 2..] != "::") ==> (Selects(item, name) <==> name == item)
  {
    assert |item| >= 2 ==> item[|item| - 2..] == [item[|item| - 2], item[|item| - 1]];
    var path := item + "::";
    assert path <= name <==> |path| <= |name| && name[..|path|] == path;
  }

  lemma IncludesIff(m: Module, name: string)
    ensures Includes(m, name) <==> exists item :: item in m.selectors && Selects(item, name)
  {
    if item :| item in m.selectors && Selects(item, name) {
      var i :| 0 <= i < |m.selectors| && m.selectors[i] == item;
    }
  }

  /** Which suites are a build's: those of its package and kind, and of its target if it names one. */
  lemma BelongsIff(b: Build, s: Suite)
    ensures b.target == "" ==> (Belongs(b, s) <==> s.package == b.package && s.kind == b.kind)
    ensures b.target != "" ==>
              (Belongs(b, s) <==> s.package == b.package && s.kind == b.kind && s.binary == b.target)
  {
  }

  // ---------------------------------------------------------------- discovery

  ghost predicate Discovered(doc: Document, b: Build) {
    && (exists i :: 0 <= i < |doc| && Belongs(b, doc[i]))
    && (forall i :: 0 <= i < |doc| && Belongs(b, doc[i]) ==> doc[i].listed)
  }

  function IgnoredIn(tests: seq<Test>): (names: seq<string>)
    ensures forall n :: n in names <==> exists t :: t in tests && t.ignored && t.name == n
  {
    if tests == [] then []
    else
      var t, rest := tests[|tests| - 1], tests[..|tests| - 1];
      assert tests == rest + [t];
      IgnoredIn(rest) + if t.ignored then [t.name] else []
  }

  /** The names the suites before `k` contribute. */
  ghost predicate NamesBefore(doc: Document, b: Build, k: nat, names: seq<string>)
    requires k <= |doc|
  {
    forall n :: n in names <==>
      exists i, t :: 0 <= i < k && Belongs(b, doc[i]) && t in doc[i].tests && t.ignored && t.name == n
  }

  method DiscoveredNames(doc: Document, b: Build) returns (r: Option<seq<string>>)
    ensures r.Some? <==> Discovered(doc, b)
    ensures r.Some? ==> forall n :: n in r.value <==> n in Names(doc, b)
  {
    var names, found := [], false;
    for k := 0 to |doc|
      invariant found <==> exists i :: 0 <= i < k && Belongs(b, doc[i])
      invariant forall i :: 0 <= i < k && Belongs(b, doc[i]) ==> doc[i].listed
      invariant NamesBefore(doc, b, k, names)
    {
      if Belongs(b, doc[k]) {
        found := true;
        if !doc[k].listed {
          return None;
        }
        names := names + IgnoredIn(doc[k].tests);
      }
    }
    NamesByIndex(doc, b, names);
    r := if found then Some(names) else None;
  }

  lemma NamesByIndex(doc: Document, b: Build, names: seq<string>)
    requires NamesBefore(doc, b, |doc|, names)
    ensures forall n :: n in names <==> n in Names(doc, b)
  {
    forall n ensures n in names <==> n in Names(doc, b) {
      if n in Names(doc, b) {
        var s, t :| s in doc && Belongs(b, s) && t in s.tests && t.ignored && t.name == n;
        var i :| 0 <= i < |doc| && doc[i] == s;
        assert t in doc[i].tests;
      }
    }
  }

  // ---------------------------------------------------------------- owners

  /** A module with the tests its own build discovered. */
  datatype Scoped = Scoped(mod: Module, scope: set<string>)

  /** A claim on tests: those the module selects, or the child behind one declared prefix. */
  datatype Claim = Tests(mod: Module, scope: set<string>) | Child(owner: Module, prefix: string, scope: set<string>)

  predicate Holds(c: Claim, n: string) {
    n in c.scope && match c case Tests(m, _) => Includes(m, n) case Child(_, p, _) => p <= n
  }

  function Held(c: Claim, names: set<string>): set<string> {
    set n | n in names && Holds(c, n)
  }

  function TestClaims(mods: seq<Scoped>, k: nat): (r: seq<Claim>)
    requires k <= |mods|
    ensures |r| == k && forall i :: 0 <= i < k ==> r[i] == Tests(mods[i].mod, mods[i].scope)
  {
    seq(k, i requires 0 <= i < k => Tests(mods[i].mod, mods[i].scope))
  }

  function OwnClaims(m: Scoped, j: nat): (r: seq<Claim>)
    requires j <= |m.mod.children|
    ensures |r| == j && forall i :: 0 <= i < j ==> r[i] == Child(m.mod, m.mod.children[i], m.scope)
  {
    seq(j, i requires 0 <= i < j => Child(m.mod, m.mod.children[i], m.scope))
  }

  function ChildClaims(mods: seq<Scoped>, k: nat): seq<Claim>
    requires k <= |mods|
  {
    if k == 0 then [] else ChildClaims(mods, k - 1) + OwnClaims(mods[k - 1], |mods[k - 1].mod.children|)
  }

  function Claims(mods: seq<Scoped>): seq<Claim> {
    TestClaims(mods, |mods|) + ChildClaims(mods, |mods|)
  }

  /** How a claim is reported. */
  function Label(c: Claim): string {
    match c case Tests(m, _) => m.id case Child(m, _, _) => m.id + ":child"
  }

  /** The reports of the claims that hold a test, in order. */
  function Labels(claims: seq<Claim>, n: string): seq<string> {
    if claims == [] then []
    else
      var c := claims[|claims| - 1];
      Labels(claims[..|claims| - 1], n) + if Holds(c, n) then [Label(c)] else []
  }

  /** How many claims hold a test. */
  function Count(claims: seq<Claim>, n: string): nat {
    |Labels(claims, n)|
  }

  lemma LabelsOneMore(claims: seq<Claim>, c: Claim, n: string)
    ensures Labels(claims + [c], n) == Labels(claims, n) + if Holds(c, n) then [Label(c)] else []
  {
    assert (claims + [c])[..|claims|] == claims;
  }

  lemma {:induction false} LabelsAppend(a: seq<Claim>, b: seq<Claim>, n: string)
    ensures Labels(a + b, n) == Labels(a, n) + Labels(b, n)
    decreases |b|
  {
    if b == [] {
      assert a + b == a;
    } else {
      var init, c := b[..|b| - 1], b[|b| - 1];
      assert a + b == (a + init) + [c] && b == init + [c];
      LabelsOneMore(a + init, c, n);
      LabelsOneMore(init, c, n);
      LabelsAppend(a, init, n);
    }
  }

  method ModuleOwners(mods: seq<Scoped>, n: string) returns (owners: seq<string>)
    ensures owners == Labels(TestClaims(mods, |mods|), n)
  {
    owners := [];
    for i := 0 to |mods|
      invariant owners == Labels(TestClaims(mods, i), n)
    {
      var claim := Tests(mods[i].mod, mods[i].scope);
      assert TestClaims(mods, i + 1) == TestClaims(mods, i) + [claim];
      LabelsOneMore(TestClaims(mods, i), claim, n);
      if n in mods[i].scope && Includes(mods[i].mod, n) {
        owners := owners + [mods[i].mod.id];
      }
    }
  }

  method OwnChildren(m: Scoped, n: string) returns (owners: seq<string>)
    ensures owners == Labels(OwnClaims(m, |m.mod.children|), n)
  {
    owners := [];
    for j := 0 to |m.mod.children|
      invariant owners == Labels(OwnClaims(m, j), n)
    {
      var claim := Child(m.mod, m.mod.children[j], m.scope);
      assert OwnClaims(m, j + 1) == OwnClaims(m, j) + [claim];
      LabelsOneMore(OwnClaims(m, j), claim, n);
      if n in m.scope && m.mod.children[j] <= n {
        owners := owners + [m.mod.id + ":child"];
      }
    }
  }

  method ChildOwners(mods: seq<Scoped>, n: string) returns (owners: seq<string>)
    ensures owners == Labels(ChildClaims(mods, |mods|), n)
  {
    owners := [];
    for i := 0 to |mods|
      invariant owners == Labels(ChildClaims(mods, i), n)
    {
      var more := OwnChildren(mods[i], n);
      LabelsAppend(ChildClaims(mods, i), OwnClaims(mods[i], |mods[i].mod.children|), n);
      owners := owners + more;
    }
  }

  /** The owner names reported for one test, modules first and then declared children. */
  method Owners(mods: seq<Scoped>, n: string) returns (owners: seq<string>)
    ensures owners == Labels(Claims(mods), n)
  {
    var tests := ModuleOwners(mods, n);
    var children := ChildOwners(mods, n);
    LabelsAppend(TestClaims(mods, |mods|), ChildClaims(mods, |mods|), n);
    owners := tests + children;
  }

  // ---------------------------------------------------------------- acceptance

  ghost predicate OneOwnerEach(names: set<string>, mods: seq<Scoped>) {
    forall n | n in names :: Count(Claims(mods), n) == 1
  }

  predicate OneChildEach(m: Scoped) {
    forall j | 0 <= j < |m.mod.children| :: |set n | n in m.scope && m.mod.children[j] <= n| == 1
  }

  predicate ExpectedCount(m: Scoped) {
    m.mod.expected.Some? ==> |set n | n in m.scope && Includes(m.mod, n)| == m.mod.expected.value
  }

  ghost predicate Accepted(names: set<string>, mods: seq<Scoped>) {
    && OneOwnerEach(names, mods)
    && (forall i | 0 <= i < |mods| :: OneChildEach(mods[i]) && ExpectedCount(mods[i]))
  }

  /** What acceptance demands: exactly one module or declared child per test, exactly one test per
      declared child, and the expected number of cases where one is given. */
  lemma AcceptedIff(names: set<string>, mods: seq<Scoped>)
    ensures Accepted(names, mods) <==>
              && (forall n | n in names :: |Labels(Claims(mods), n)| == 1)
              && (forall i, j | 0 <= i < |mods| && 0 <= j < |mods[i].mod.children| ::
                    |set n | n in mods[i].scope && mods[i].mod.children[j] <= n| == 1)
              && (forall i | 0 <= i < |mods| && mods[i].mod.expected.Some? ::
                    |set n | n in mods[i].scope && Includes(mods[i].mod, n)| == mods[i].mod.expected.value)
  {
    if Accepted(names, mods) {
      forall i | 0 <= i < |mods| ensures OneChildEach(mods[i]) && ExpectedCount(mods[i]) {
      }
    }
  }

  method CheckOwners(names: seq<string>, mods: seq<Scoped>) returns (ok: bool)
    ensures ok <==> Accepted(Elements(names), mods)
  {
    for i := 0 to |names|
      invariant forall j :: 0 <= j < i ==> Count(Claims(mods), names[j]) == 1
    {
      var owners := Owners(mods, names[i]);
      if |owners| != 1 {
        assert names[i] in Elements(names);
        return false;
      }
    }
    for i := 0 to |mods|
      invariant forall j :: 0 <= j < i ==> OneChildEach(mods[j]) && ExpectedCount(mods[j])
    {
      if !OneChildEach(mods[i]) || !ExpectedCount(mods[i]) {
        return false;
      }
    }
    ok := true;
  }

  predicate SameTarget(a: Build, b: Build) {
    a.package == b.package && a.kind == b.kind && a.target == b.target
  }

  /** Whether a module takes part in the check of a build. */
  predicate Concerns(m: Module, b: Build, shared: bool) {
    m.build.Some? && if shared then SameTarget(m.build.value, b) else m.build.value == b
  }

  function Relevant(modules: seq<Module>, b: Build, shared: bool): seq<Module> {
    if modules == [] then []
    else
      var m, rest := modules[|modules| - 1], Relevant(modules[..|modules| - 1], b, shared);
      if Concerns(m, b, shared) then rest + [m] else rest
  }

  /** The modules that take part: those of the very build, or, when every build's listing is given, those
      of its target with any features. */
  lemma {:induction false} RelevantIff(modules: seq<Module>, b: Build, shared: bool, m: Module)
    ensures m in Relevant(modules, b, shared) <==>
              && m in modules && m.build.Some?
              && (!shared ==> m.build.value == b)
              && (shared ==> m.build.value == b.(features := m.build.value.features))
    decreases |modules|
  {
    if modules != [] {
      var front, last := modules[..|modules| - 1], modules[|modules| - 1];
      assert modules == front + [last];
      RelevantIff(front, b, shared, m);
    }
  }

  /** Each module is scoped to its own build's listing, or to the checked one when none are given. */
  ghost predicate ScopedTo(mods: seq<Module>, scoped: seq<Scoped>, names: set<string>, listings: Listings) {
    && |scoped| == |mods|
    && forall i | 0 <= i < |mods| ::
         && scoped[i].mod == mods[i]
         && match listings
            case None => scoped[i].scope == names
            case Some(docs) =>
              && mods[i].build.Some? && mods[i].build.value in docs
              && Discovered(docs[mods[i].build.value], mods[i].build.value)
              && scoped[i].scope == Names(docs[mods[i].build.value], mods[i].build.value)
  }

  /** The whole check. With `listings`, modules of every feature set of the target take part, each
      with the tests its own build discovered; a missing listing is a failure. */
  method ValidateOwnership(doc: Document, b: Build, modules: seq<Module>, listings: Listings)
    returns (ok: bool, ghost scoped: seq<Scoped>)
    ensures ok ==> Discovered(doc, b) && Accepted(Names(doc, b), scoped)
    ensures ok ==> ScopedTo(Relevant(modules, b, listings.Some?), scoped, Names(doc, b), listings)
    ensures !ok && Discovered(doc, b) ==>
              !exists good :: ScopedTo(Relevant(modules, b, listings.Some?), good, Names(doc, b), listings)
                              && Accepted(Names(doc, b), good)
  {
    var mods := Relevant(modules, b, listings.Some?);
    var names := DiscoveredNames(doc, b);
    if names.None? {
      return false, [];
    }
    assert Elements(names.value) == Names(doc, b);
    var actual: seq<Scoped> := [];
    for i := 0 to |mods|
      invariant ScopedTo(mods[..i], actual, Names(doc, b), listings)
    {
      var scope := Elements(names.value);
      if listings.Some? {
        RelevantHaveBuilds(modules, b, listings.Some?, i);
        var own := mods[i].build.value;
        if own !in listings.value {
          NoScope(mods, i, Names(doc, b), listings);
          return false, [];
        }
        var found := DiscoveredNames(listings.value[own], own);
        if found.None? {
          NoScope(mods, i, Names(doc, b), listings);
          return false, [];
        }
        scope := Elements(found.value);
        assert scope == Names(listings.value[own], own);
      }
      assert mods[..i + 1][..i] == mods[..i];
      actual := actual + [Scoped(mods[i], scope)];
    }
    assert mods[..|mods|] == mods;
    ok := CheckOwners(names.value, actual);
    scoped := actual;
    forall good | ScopedTo(mods, good, Names(doc, b), listings) ensures good == actual {
      ScopesAgree(mods, good, actual, Names(doc, b), listings);
    }
  }

  lemma {:induction false} RelevantHaveBuilds(modules: seq<Module>, b: Build, shared: bool, i: nat)
    requires i < |Relevant(modules, b, shared)|
    ensures Concerns(Relevant(modules, b, shared)[i], b, shared)
    decreases |modules|
  {
    var front := modules[..|modules| - 1];
    if i < |Relevant(front, b, shared)| {
      RelevantHaveBuilds(front, b, shared, i);
    }
  }

  /** A module whose own listing is missing or incomplete leaves nothing to accept. */
  lemma NoScope(mods: seq<Module>, i: nat, names: set<string>, listings: Listings)
    requires i < |mods| && listings.Some? && mods[i].build.Some?
    requires mods[i].build.value !in listings.value
             || !Discovered(listings.value[mods[i].build.value], mods[i].build.value)
    ensures !exists good :: ScopedTo(mods, good, names, listings)
  {
  }

  lemma ScopesAgree(mods: seq<Module>, a: seq<Scoped>, c: seq<Scoped>, names: set<string>, listings: Listings)
    requires ScopedTo(mods, a, names, listings) && ScopedTo(mods, c, names, listings)
    ensures a == c
  {
    forall i | 0 <= i < |mods| ensures a[i] == c[i] {
      assert a[i].mod == c[i].mod && a[i].scope == c[i].scope;
    }
  }

  // ---------------------------------------------------------------- listings

  function FeatureList(features: seq<string>): string {
    if features == [] then ""
    else if |features| == 1 then features[0]
    else features[0] + "," + FeatureList(features[1..])
  }

  function Prefix(b: Build): string {
    b.package + "/" + b.kind + (if b.target != "" then ":" + b.target else "") + "[" + FeatureList(b.features) + "]/"
  }

  function CaseId(c: Case): string {
    Prefix(c.build) + c.name
  }

  lemma SameIdSameName(b: Build, x: string, y: string)
    requires Prefix(b) + x == Prefix(b) + y
    ensures x == y
  {
    assert x == (Prefix(b) + x)[|Prefix(b)|..];
  }

  /** The feature list holds the features in order, separated by commas. */
  lemma {:induction false} FeaturesSplitBack(features: seq<string>)
    requires features != [] && forall f | f in features :: ',' !in f
    ensures Split(FeatureList(features), ',') == features
    decreases |features|
  {
    if |features| == 1 {
      UnsplitWhole(features[0], ',');
    } else {
      FeaturesSplitBack(features[1..]);
      SplitField(features[0], FeatureList(features[1..]), ',');
      assert features[0] + "," + FeatureList(features[1..]) == features[0] + [','] + FeatureList(features[1..]);
      assert features == [features[0]] + features[1..];
    }
  }

  lemma CutAtBracket(f: string, g: string, x: string, y: string)
    requires ']' !in f && ']' !in g && f + "]/" + x == g + "]/" + y
    ensures f == g && x == y
  {
    var s := f + "]/" + x;
    assert s[|f|] == ']' && (g + "]/" + y)[|g|] == ']';
    assert forall i | 0 <= i < |f| :: s[i] == f[i] && f[i] in f;
    assert forall i | 0 <= i < |g| :: s[i] == g[i] && g[i] in g;
    assert |f| == |g|;
    assert f == s[..|f|] && x == s[|f| + 2..];
  }

  /** Cases of one target are told apart by feature list and name. */
  lemma IdTellsFeaturesApart(a: Case, c: Case)
    requires SameTarget(a.build, c.build) && CaseId(a) == CaseId(c)
    requires ']' !in FeatureList(a.build.features) && ']' !in FeatureList(c.build.features)
    ensures FeatureList(a.build.features) == FeatureList(c.build.features) && a.name == c.name
  {
    var b := a.build;
    var head := b.package + "/" + b.kind + (if b.target != "" then ":" + b.target else "") + "[";
    var f, g := FeatureList(a.build.features), FeatureList(c.build.features);
    assert CaseId(a) == head + (f + "]/" + a.name);
    assert CaseId(c) == head + (g + "]/" + c.name);
    assert f + "]/" + a.name == CaseId(a)[|head|..];
    assert g + "]/" + c.name == CaseId(c)[|head|..];
    CutAtBracket(f, g, a.name, c.name);
  }

  predicate Wanted(m: Module, t: Test) {
    t.matches && t.ignored && Includes(m, t.name)
  }

  /** The cases of the first `j` tests of one suite. */
  function CasesIn(m: Module, b: Build, s: Suite, j: nat): seq<Case>
    requires j <= |s.tests|
  {
    if j == 0 then []
    else CasesIn(m, b, s, j - 1)
         + if Wanted(m, s.tests[j - 1]) then [Case(b, s.key, s.path, s.tests[j - 1].name)] else []
  }

  function Cases(m: Module, b: Build, doc: Document, k: nat): seq<Case>
    requires k <= |doc|
  {
    if k == 0 then []
    else Cases(m, b, doc, k - 1) + if Belongs(b, doc[k - 1]) then CasesIn(m, b, doc[k - 1], |doc[k - 1].tests|) else []
  }

  ghost predicate NoRepeats(names: seq<string>) {
    forall i, j :: 0 <= i < j < |names| ==> names[i] != names[j]
  }

  ghost predicate Complete(doc: Document, b: Build) {
    forall i :: 0 <= i < |doc| && Belongs(b, doc[i]) ==> doc[i].key == doc[i].binaryId && doc[i].listed
  }

  function CaseNames(cases: seq<Case>): (r: seq<string>)
    ensures |r| == |cases|
  {
    seq(|cases|, i requires 0 <= i < |cases| => cases[i].name)
  }

  function CaseIds(cases: seq<Case>): (r: seq<string>)
    ensures |r| == |cases|
  {
    seq(|cases|, i requires 0 <= i < |cases| => CaseId(cases[i]))
  }

  /** The length test for duplicates is exact. */
  lemma {:induction false} DistinctByLength(xs: seq<string>)
    ensures |Elements(xs)| <= |xs|
    ensures |Elements(xs)| == |xs| <==> NoRepeats(xs)
    decreases |xs|
  {
    if xs != [] {
      var init, x := xs[..|xs| - 1], xs[|xs| - 1];
      DistinctByLength(init);
      assert Elements(xs) == Elements(init) + {x};
      if x in init {
        assert Elements(xs) == Elements(init);
        var i :| 0 <= i < |init| && init[i] == x;
        assert xs[i] == xs[|xs| - 1];
      }
    }
  }

  lemma IdsRepeatLikeNames(cases: seq<Case>, b: Build)
    requires forall c | c in cases :: c.build == b
    ensures NoRepeats(CaseIds(cases)) <==> NoRepeats(CaseNames(cases))
  {
    var ids, names := CaseIds(cases), CaseNames(cases);
    forall i, j | 0 <= i < j < |cases| ensures ids[i] == ids[j] <==> names[i] == names[j] {
      assert cases[i] in cases && cases[j] in cases;
      if ids[i] == ids[j] {
        SameIdSameName(b, cases[i].name, cases[j].name);
      }
    }
  }

  lemma {:induction false} CasesInAreWanted(m: Module, b: Build, s: Suite, j: nat)
    requires j <= |s.tests|
    ensures forall c | c in CasesIn(m, b, s, j) :: c.build == b
    ensures forall n :: n in CaseNames(CasesIn(m, b, s, j)) <==>
              exists i :: 0 <= i < j && Wanted(m, s.tests[i]) && s.tests[i].name == n
  {
    if j > 0 {
      CasesInAreWanted(m, b, s, j - 1);
      var init := CasesIn(m, b, s, j - 1);
      if Wanted(m, s.tests[j - 1]) {
        assert CaseNames(CasesIn(m, b, s, j)) == CaseNames(init) + [s.tests[j - 1].name];
      } else {
        assert CasesIn(m, b, s, j) == init;
      }
    }
  }

  ghost predicate WantedBefore(m: Module, b: Build, doc: Document, k: nat, n: string)
    requires k <= |doc|
  {
    exists i, j :: 0 <= i < k && Belongs(b, doc[i]) && 0 <= j < |doc[i].tests|
                   && Wanted(m, doc[i].tests[j]) && doc[i].tests[j].name == n
  }

  lemma {:induction false} CasesAreWanted(m: Module, b: Build, doc: Document, k: nat)
    requires k <= |doc|
    ensures forall c | c in Cases(m, b, doc, k) :: c.build == b
    ensures forall n :: n in CaseNames(Cases(m, b, doc, k)) <==> WantedBefore(m, b, doc, k, n)
  {
    if k > 0 {
      CasesAreWanted(m, b, doc, k - 1);
      var s := doc[k - 1];
      if Belongs(b, s) {
        CasesInAreWanted(m, b, s, |s.tests|);
        var init, more := Cases(m, b, doc, k - 1), CasesIn(m, b, s, |s.tests|);
        assert CaseNames(init + more) == CaseNames(init) + CaseNames(more);
        forall n ensures n in CaseNames(Cases(m, b, doc, k)) <==> WantedBefore(m, b, doc, k, n) {
          assert WantedBefore(m, b, doc, k, n) <==> WantedBefore(m, b, doc, k - 1, n) || n in CaseNames(more);
        }
      } else {
        assert Cases(m, b, doc, k) == Cases(m, b, doc, k - 1);
        forall n ensures WantedBefore(m, b, doc, k, n) <==> WantedBefore(m, b, doc, k - 1, n) {
        }
      }
    }
  }

  /** A module's cases are exactly the matching ignored tests it selects. */
  lemma CasesAreParsed(m: Module, b: Build, doc: Document)
    ensures Elements(CaseNames(Cases(m, b, doc, |doc|))) == Parsed(doc, b, m)
  {
    CasesAreWanted(m, b, doc, |doc|);
    forall n ensures WantedBefore(m, b, doc, |doc|, n) <==> n in Parsed(doc, b, m) {
      if n in Parsed(doc, b, m) {
        var s, t :| s in doc && Belongs(b, s) && t in s.tests && t.ignored && t.matches && t.name == n;
        var i :| 0 <= i < |doc| && doc[i] == s;
        var j :| 0 <= j < |doc[i].tests| && doc[i].tests[j] == t;
      }
    }
  }

  /** The case that one wanted test of one suite gives. */
  ghost predicate CaseOf(m: Module, b: Build, s: Suite, j: nat, c: Case)
    requires j < |s.tests|
  {
    var t := s.tests[j];
    && t.matches && t.ignored && Includes(m, t.name)
    && c.build == b && c.binary == s.key && c.executable == s.path && c.name == t.name
  }

  lemma {:induction false} CasesInIff(m: Module, b: Build, s: Suite, k: nat, c: Case)
    requires k <= |s.tests|
    ensures c in CasesIn(m, b, s, k) <==> exists j: nat :: j < k && CaseOf(m, b, s, j, c)
  {
    if k > 0 {
      CasesInIff(m, b, s, k - 1, c);
      if j: nat :| j < k && CaseOf(m, b, s, j, c) {
        assert j == k - 1 || (j < k - 1 && CaseOf(m, b, s, j, c));
      }
      if c in CasesIn(m, b, s, k) && c !in CasesIn(m, b, s, k - 1) {
        assert CaseOf(m, b, s, k - 1, c);
      }
    }
  }

  ghost predicate CaseFrom(m: Module, b: Build, doc: Document, i: nat, c: Case)
    requires i < |doc|
  {
    Belongs(b, doc[i]) && exists j: nat :: j < |doc[i].tests| && CaseOf(m, b, doc[i], j, c)
  }

  lemma {:induction false} CasesIff(m: Module, b: Build, doc: Document, k: nat, c: Case)
    requires k <= |doc|
    ensures c in Cases(m, b, doc, k) <==> exists i: nat :: i < k && CaseFrom(m, b, doc, i, c)
  {
    if k > 0 {
      CasesIff(m, b, doc, k - 1, c);
      CasesInIff(m, b, doc[k - 1], |doc[k - 1].tests|, c);
      if c in Cases(m, b, doc, k) && c !in Cases(m, b, doc, k - 1) {
        assert CaseFrom(m, b, doc, k - 1, c);
      }
      if i: nat :| i < k && CaseFrom(m, b, doc, i, c) {
        assert i == k - 1 || (i < k - 1 && CaseFrom(m, b, doc, i, c));
      }
    }
  }

  /** The listing of one module: rejected on an incomplete suite, an unexpected number of cases,
      none at all, or two cases of one identity; otherwise one case per selected test. */
  method ParseListing(doc: Document, m: Module) returns (r: Option<seq<Case>>)
    requires m.build.Some?
    ensures var b := m.build.value;
            var cases := Cases(m, b, doc, |doc|);
            r.Some? <==> Complete(doc, b) && cases != [] && NoRepeats(CaseNames(cases))
                         && (m.expected.Some? ==> |cases| == m.expected.value)
    ensures r.Some? ==> var names := CaseNames(r.value);
                        NoRepeats(names) && Elements(names) == Parsed(doc, m.build.value, m)
    ensures r.Some? ==> |r.value| == |Parsed(doc, m.build.value, m)|
    ensures r.Some? ==>
              forall c :: c in r.value <==> exists i: nat :: i < |doc| && CaseFrom(m, m.build.value, doc, i, c)
  {
    var b := m.build.value;
    var cases := [];
    for k := 0 to |doc|
      invariant forall i :: 0 <= i < k && Belongs(b, doc[i]) ==> doc[i].key == doc[i].binaryId && doc[i].listed
      invariant cases == Cases(m, b, doc, k)
    {
      if Belongs(b, doc[k]) {
        if doc[k].key != doc[k].binaryId || !doc[k].listed {
          return None;
        }
        var more := SuiteCases(m, b, doc[k]);
        cases := cases + more;
      }
    }
    CasesAreParsed(m, b, doc);
    CasesAreWanted(m, b, doc, |doc|);
    IdsRepeatLikeNames(cases, b);
    DistinctByLength(CaseIds(cases));
    DistinctByLength(CaseNames(cases));
    if cases == [] || (m.expected.Some? && |cases| != m.expected.value) || |Elements(CaseIds(cases))| != |cases| {
      return None;
    }
    r := Some(cases);
    forall c ensures c in cases <==> exists i: nat :: i < |doc| && CaseFrom(m, b, doc, i, c) {
      CasesIff(m, b, doc, |doc|, c);
    }
  }

  method SuiteCases(m: Module, b: Build, s: Suite) returns (cases: seq<Case>)
    ensures cases == CasesIn(m, b, s, |s.tests|)
  {
    cases := [];
    for j := 0 to |s.tests|
      invariant cases == CasesIn(m, b, s, j)
    {
      if s.tests[j].matches && s.tests[j].ignored && Includes(m, s.tests[j].name) {
        cases := cases + [Case(b, s.key, s.path, s.tests[j].name)];
      }
    }
  }
}
