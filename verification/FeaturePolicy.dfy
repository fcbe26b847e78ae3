/** `validate_binding_value_feature_policy` of the release preflight: which binding ships with which
    value-affecting features, and which opt-outs are approved. Manifests are given parsed. */
module FeaturePolicy {
  import opened Options
  import opened FeatureClosure

  /** A dependency table: the keys the policy knows, and the names of any others. */
  datatype DependencyEdge = DependencyEdge(
    workspace: Option<bool>,
    path: Option<string>,
    version: Option<string>,
    package: Option<string>,
    features: Option<seq<string>>,
    defaultFeatures: Option<bool>,
    optional: Option<bool>,
    others: set<string>)

  type Target = Option<string>

  type Table = map<string, DependencyEdge>

  datatype Manifest = Manifest(
    package: string,
    features: Features,
    dependencies: map<Target, Table>,
    optOuts: Option<map<string, map<string, string>>>)

  /** The manifests of a checkout by path, the workspace's dependency table, and the product's
      value-affecting features with their rationales. */
  datatype Checkout = Checkout(
    manifests: map<string, Manifest>,
    workspaceDependencies: Table,
    valueFeatures: map<string, string>)

  datatype Profile = Profile(name: string, manifest: string, dependency: string, target: Target, source: string)

  const PRODUCT := "crates/formualizer/Cargo.toml"
  const CFFI := "crates/formualizer-cffi/Cargo.toml"
  const PYTHON := "bindings/python/Cargo.toml"
  const WASM := "bindings/wasm/Cargo.toml"
  const WORKBOOK := "crates/formualizer-workbook/Cargo.toml"

  const PROFILES: seq<Profile> := [
    Profile("cffi-native", CFFI, "formualizer-workbook", None, WORKBOOK),
    Profile("python-native", PYTHON, "formualizer", Some("cfg(not(target_os = \"emscripten\"))"), PRODUCT),
    Profile("python-pyodide", PYTHON, "formualizer", Some("cfg(target_os = \"emscripten\")"), PRODUCT),
    Profile("wasm-browser", WASM, "formualizer", None, PRODUCT)
  ]

  const BINDINGS: set<string> := {CFFI, PYTHON, WASM}

  const APPROVED: set<(string, string)> := {("python-pyodide", "system-clock")}

  const SEMANTIC: set<string> := {"formualizer", "formualizer-eval", "formualizer-workbook", "formualizer-sheetport"}

  datatype Coverage = Enabled | OptedOut(rationale: string)

  // ----- Text -----

  predicate IsSpace(c: char) {
    c == ' ' || '\U{9}' <= c <= '\U{D}' || '\U{1C}' <= c <= '\U{1F}' || c == '\U{85}' || c == '\U{A0}'
    || c == '\U{1680}' || '\U{2000}' <= c <= '\U{200A}' || c == '\U{2028}' || c == '\U{2029}'
    || c == '\U{202F}' || c == '\U{205F}' || c == '\U{3000}'
  }

  /** `str.strip`. */
  function Strip(s: string): string
    decreases |s|
  {
    if s == "" then ""
    else if IsSpace(s[0]) then Strip(s[1..])
    else if IsSpace(s[|s| - 1]) then Strip(s[..|s| - 1])
    else s
  }

  /** `len(str.split())`: maximal runs of non-space characters. */
  function WordCount(s: string, inWord: bool): nat {
    if s == "" then if inWord then 1 else 0
    else if IsSpace(s[0]) then (if inWord then 1 else 0) + WordCount(s[1..], false)
    else WordCount(s[1..], true)
  }

  predicate Substantive(rationale: string) {
    |Strip(rationale)| >= 40 && WordCount(rationale, false) >= 8
  }

  // ----- The parts of the check -----

  ghost predicate ValueFeaturesOk(c: Checkout) {
    && c.valueFeatures != map[]
    && PRODUCT in c.manifests
    && forall f <- c.valueFeatures :: f in c.manifests[PRODUCT].features && Strip(c.valueFeatures[f]) != ""
  }

  /** The package a dependency entry really names. */
  function RealPackage(c: Checkout, name: string, edge: DependencyEdge): string {
    var declaration := if edge.workspace == Some(true) then
      (if name in c.workspaceDependencies then c.workspaceDependencies[name].package else None)
    else edge.package;
    if declaration.Some? then declaration.value else name
  }

  predicate ExpectedEdge(manifest: string, dependency: string, target: Target) {
    exists i :: 0 <= i < |PROFILES|
             && PROFILES[i].manifest == manifest && PROFILES[i].dependency == dependency && PROFILES[i].target == target
  }

  /** The entry is no way around the profiles. */
  predicate EntryOk(c: Checkout, m: string, target: Target, name: string)
    requires m in c.manifests && target in c.manifests[m].dependencies && name in c.manifests[m].dependencies[target]
  {
    RealPackage(c, name, c.manifests[m].dependencies[target][name]) in SEMANTIC ==> ExpectedEdge(m, name, target)
  }

  ghost predicate NoAlternateEdges(c: Checkout)
    requires BINDINGS <= c.manifests.Keys
  {
    forall m <- BINDINGS :: forall target <- c.manifests[m].dependencies ::
      forall name <- c.manifests[m].dependencies[target] :: EntryOk(c, m, target, name)
  }

  /** Opt-outs may stand in the Python manifest only, for known profiles, with approval and a
      substantive rationale. */
  ghost predicate OptOutsOk(c: Checkout)
    requires BINDINGS <= c.manifests.Keys
  {
    && c.manifests[CFFI].optOuts.None? && c.manifests[WASM].optOuts.None?
    && forall p <- OptOuts(c) :: KnownProfile(p) && forall f <- OptOuts(c)[p] :: OptOutOk(p, f, OptOuts(c)[p][f])
  }

  function OptOuts(c: Checkout): map<string, map<string, string>>
    requires BINDINGS <= c.manifests.Keys
  {
    if c.manifests[PYTHON].optOuts.Some? then c.manifests[PYTHON].optOuts.value else map[]
  }

  function Rationale(c: Checkout, profile: string, feature: string): Option<string>
    requires BINDINGS <= c.manifests.Keys
  {
    if profile in OptOuts(c) && feature in OptOuts(c)[profile] then Some(OptOuts(c)[profile][feature]) else None
  }

  /** `dependency_edges`: no entry hides the dependency under another name, and the entries stand
      under exactly the targets the profiles expect. */
  ghost predicate EdgesOk(c: Checkout, p: Profile)
    requires BINDINGS <= c.manifests.Keys && p.manifest in BINDINGS
  {
    var dependencies := c.manifests[p.manifest].dependencies;
    && (forall target <- dependencies :: forall name <- dependencies[target] ::
          name != p.dependency ==> dependencies[target][name].package != Some(p.dependency))
    && (forall target <- dependencies ::
          p.dependency in dependencies[target] ==> ExpectedEdge(p.manifest, p.dependency, target))
    && (forall i :: 0 <= i < |PROFILES| && PROFILES[i].manifest == p.manifest && PROFILES[i].dependency == p.dependency
          ==> PROFILES[i].target in dependencies && p.dependency in dependencies[PROFILES[i].target])
  }

  /** What the binding's own features forward to the dependency. */
  function Forwarded(features: Features, prefix: string): set<string> {
    set f, i | f in features && 0 <= i < |features[f]| && StartsWith(features[f][i], prefix)
      :: features[f][i][|prefix|..]
  }

  predicate NotSet(b: Option<bool>) {
    b == None || b == Some(false)
  }

  function Listed(features: Option<seq<string>>): seq<string> {
    if features.Some? then features.value else []
  }

  /** What `effective_edge` hands on: the feature list, the path, and the package the edge names. */
  datatype Effective = Effective(features: seq<string>, defaults: bool, path: Option<string>, package: Option<string>)

  /** `effective_edge`, for the entry of a profile. */
  function EffectiveEdge(c: Checkout, p: Profile, edge: DependencyEdge): Option<Effective> {
    if p.name == "cffi-native" then
      if edge.workspace != Some(true) || edge.path.Some? || edge.version.Some? || edge.package.Some?
         || edge.defaultFeatures.Some? || edge.optional.Some? || edge.others != {}
         || p.dependency !in c.workspaceDependencies then None
      else
        var inherited := c.workspaceDependencies[p.dependency];
        if inherited.workspace.Some? || inherited.optional.Some? || inherited.others != {} then None
        else
          Some(Effective(
                 Listed(inherited.features) + Listed(edge.features),
                 inherited.defaultFeatures.None? || inherited.defaultFeatures.value,
                 inherited.path, inherited.package))
    else if edge.workspace.Some? || edge.others != {} || !NotSet(edge.optional) then None
    else
      Some(Effective(Listed(edge.features), edge.defaultFeatures.None? || edge.defaultFeatures.value,
                     edge.path, edge.package))
  }

  /** The effective edge of a profile's own entry. */
  function ProfileEdge(c: Checkout, p: Profile): Option<Effective> {
    if p.manifest !in c.manifests then None
    else
      var dependencies := c.manifests[p.manifest].dependencies;
      if p.target in dependencies && p.dependency in dependencies[p.target]
      then EffectiveEdge(c, p, dependencies[p.target][p.dependency])
      else None
  }

  /** The features a profile asks its source package for. */
  function InitialFeatures(e: Effective): seq<string> {
    e.features + if e.defaults then ["default"] else []
  }

  /** The manifest a profile builds from is there, under the package name the edge gives. */
  predicate SourceOk(c: Checkout, p: Profile, e: Effective) {
    && e.path.Some?
    && p.source in c.manifests
    && c.manifests[p.source].package == if e.package.Some? then e.package.value else p.dependency
  }

  // ----- What a passing check means -----

  ghost predicate Activates(c: Checkout, p: Profile, initial: set<string>, feature: string)
    requires p.source in c.manifests
  {
    Reaches(c.manifests[p.source].features, initial, feature)
  }

  /** The binding's own features forward nothing weakly, and nothing that reaches a value-affecting
      feature. */
  ghost predicate ForwardingOk(c: Checkout, p: Profile)
    requires p.manifest in c.manifests
  {
    var features := c.manifests[p.manifest].features;
    && Forwarded(features, p.dependency + "?/") == {}
    && forall item <- Forwarded(features, p.dependency + "/") :: Harmless(c, p, item)
  }

  ghost predicate Harmless(c: Checkout, p: Profile, item: string) {
    && p.source in c.manifests
    && AllDeclared(c.manifests[p.source].features, {item})
    && forall f :: f in c.valueFeatures ==> !Activates(c, p, {item}, f)
  }

  /** Exactly one of the two holds: the feature is reached, or its opt-out is on record. */
  ghost predicate Covered(c: Checkout, p: Profile, e: Effective, feature: string)
    requires BINDINGS <= c.manifests.Keys && p.source in c.manifests
  {
    Activates(c, p, Elements(InitialFeatures(e)), feature) != Rationale(c, p.name, feature).Some?
  }

  ghost predicate ProfileOk(c: Checkout, p: Profile)
    requires BINDINGS <= c.manifests.Keys
  {
    && var e := ProfileEdge(c, p);
       && e.Some? && SourceOk(c, p, e.value)
       && AllDeclared(c.manifests[p.source].features, Elements(InitialFeatures(e.value)))
       && forall f :: f in c.valueFeatures ==> Covered(c, p, e.value, f)
  }

  ghost predicate PolicyHolds(c: Checkout) {
    && BINDINGS <= c.manifests.Keys
    && ValueFeaturesOk(c) && NoAlternateEdges(c) && OptOutsOk(c)
    && forall p <- PROFILES ::
         && p.manifest in BINDINGS
         && EdgesOk(c, p) && ForwardingOk(c, p) && ProfileOk(c, p)
  }

  /** Each entry of a coverage report says which of the two accounts for the feature. */
  predicate Accounts(c: Checkout, p: Profile, coverage: map<string, Coverage>)
    requires BINDINGS <= c.manifests.Keys
  {
    forall f <- coverage ::
      coverage[f] == match Rationale(c, p.name, f)
                     case Some(rationale) => OptedOut(rationale)
                     case None => Enabled
  }

  // ----- The check -----

  /** The loop over the product's value-affecting features. */
  method CheckValueFeatures(c: Checkout) returns (ok: bool)
    ensures ok <==> ValueFeaturesOk(c)
  {
    hide Strip;
    if c.valueFeatures == map[] || PRODUCT !in c.manifests {
      return false;
    }
    var left := c.valueFeatures.Keys;
    while left != {}
      invariant left <= c.valueFeatures.Keys
      invariant forall f <- c.valueFeatures.Keys - left ::
          f in c.manifests[PRODUCT].features && Strip(c.valueFeatures[f]) != ""
      decreases |left|
    {
      var f :| f in left;
      if f !in c.manifests[PRODUCT].features || Strip(c.valueFeatures[f]) == "" {
        return false;
      }
      left := left - {f};
    }
    return true;
  }

  /** The entries of one dependency table. */
  method CheckTable(c: Checkout, m: string, target: Target) returns (ok: bool)
    requires m in c.manifests && target in c.manifests[m].dependencies
    ensures ok <==> forall name <- c.manifests[m].dependencies[target] :: EntryOk(c, m, target, name)
  {
    hide EntryOk;
    var table := c.manifests[m].dependencies[target];
    var left := table.Keys;
    while left != {}
      invariant left <= table.Keys
      invariant forall name <- table.Keys - left :: EntryOk(c, m, target, name)
      decreases |left|
    {
      var name :| name in left;
      if !EntryOk(c, m, target, name) {
        return false;
      }
      left := left - {name};
    }
    return true;
  }

  ghost predicate TablesOk(c: Checkout, m: string)
    requires m in c.manifests
  {
    forall target <- c.manifests[m].dependencies ::
      forall name <- c.manifests[m].dependencies[target] :: EntryOk(c, m, target, name)
  }

  method CheckTables(c: Checkout, m: string) returns (ok: bool)
    requires m in c.manifests
    ensures ok <==> TablesOk(c, m)
  {
    hide EntryOk;
    var left := c.manifests[m].dependencies.Keys;
    while left != {}
      invariant left <= c.manifests[m].dependencies.Keys
      invariant forall target <- c.manifests[m].dependencies.Keys - left ::
          forall name <- c.manifests[m].dependencies[target] :: EntryOk(c, m, target, name)
      decreases |left|
    {
      var target :| target in left;
      ok := CheckTable(c, m, target);
      if !ok {
        return;
      }
      left := left - {target};
    }
    return true;
  }

  /** `reject_alternate_semantic_edges`: all entries of all tables of all bindings. */
  method CheckAlternateEdges(c: Checkout) returns (ok: bool)
    requires BINDINGS <= c.manifests.Keys
    ensures ok <==> NoAlternateEdges(c)
  {
    var left := BINDINGS;
    hide EntryOk, BINDINGS, TablesOk;
    while left != {}
      invariant left <= BINDINGS
      invariant forall m <- BINDINGS - left :: TablesOk(c, m)
      decreases |left|
    {
      var m :| m in left;
      ok := CheckTables(c, m);
      if !ok {
        AlternatesByTables(c);
        return;
      }
      left := left - {m};
    }
    AlternatesByTables(c);
    return true;
  }

  lemma AlternatesByTables(c: Checkout)
    requires BINDINGS <= c.manifests.Keys
    ensures NoAlternateEdges(c) <==> forall m <- BINDINGS :: TablesOk(c, m)
  {
    hide EntryOk, BINDINGS;
  }

  predicate KnownProfile(name: string) {
    exists i :: 0 <= i < |PROFILES| && PROFILES[i].name == name
  }

  predicate OptOutOk(profile: string, feature: string, rationale: string) {
    (profile, feature) in APPROVED && Substantive(rationale)
  }

  /** The opt-outs of one profile. */
  method CheckProfileOptOuts(profile: string, values: map<string, string>) returns (ok: bool)
    ensures ok <==> forall f <- values :: OptOutOk(profile, f, values[f])
  {
    hide OptOutOk;
    var left := values.Keys;
    while left != {}
      invariant left <= values.Keys
      invariant forall f <- values.Keys - left :: OptOutOk(profile, f, values[f])
      decreases |left|
    {
      var f :| f in left;
      if !OptOutOk(profile, f, values[f]) {
        return false;
      }
      left := left - {f};
    }
    return true;
  }

  method CheckOptOuts(c: Checkout) returns (ok: bool)
    requires BINDINGS <= c.manifests.Keys
    ensures ok <==> OptOutsOk(c)
  {
    if c.manifests[CFFI].optOuts.Some? || c.manifests[WASM].optOuts.Some? {
      return false;
    }
    var optOuts := OptOuts(c);
    var left := optOuts.Keys;
    hide OptOuts, KnownProfile, OptOutOk;
    while left != {}
      invariant left <= optOuts.Keys && optOuts == OptOuts(c)
      invariant forall p <- optOuts.Keys - left ::
          KnownProfile(p) && forall f <- optOuts[p] :: OptOutOk(p, f, optOuts[p][f])
      decreases |left|
    {
      var p :| p in left;
      ok := CheckProfileOptOuts(p, optOuts[p]);
      if !ok || !KnownProfile(p) {
        return false;
      }
      left := left - {p};
    }
    return true;
  }

  predicate NoAlias(table: Table, dependency: string) {
    forall name <- table :: name != dependency ==> table[name].package != Some(dependency)
  }

  /** `dependency_edges`: the targets with an entry, or none when an entry goes by another name. */
  method DependencyEdges(m: Manifest, dependency: string) returns (r: Option<set<Target>>)
    ensures r.Some? <==> forall target <- m.dependencies :: NoAlias(m.dependencies[target], dependency)
    ensures r.Some? ==> r.value == set target | target in m.dependencies && dependency in m.dependencies[target]
  {
    hide NoAlias;
    var left, found: set<Target> := m.dependencies.Keys, {};
    while left != {}
      invariant left <= m.dependencies.Keys
      invariant forall target <- m.dependencies.Keys - left :: NoAlias(m.dependencies[target], dependency)
      invariant found == set target | target in m.dependencies.Keys - left && dependency in m.dependencies[target]
      decreases |left|
    {
      var target :| target in left;
      if !NoAlias(m.dependencies[target], dependency) {
        return None;
      }
      if dependency in m.dependencies[target] {
        found := found + {target};
      }
      left := left - {target};
    }
    return Some(found);
  }

  /** The targets under which the profiles expect a binding's dependency. */
  function ExpectedTargets(manifest: string, dependency: string): set<Target> {
    set i | 0 <= i < |PROFILES| && PROFILES[i].manifest == manifest && PROFILES[i].dependency == dependency
      :: PROFILES[i].target
  }

  method CheckEdges(c: Checkout, p: Profile) returns (ok: bool)
    requires BINDINGS <= c.manifests.Keys && p.manifest in BINDINGS
    ensures ok <==> EdgesOk(c, p)
  {
    hide PROFILES, NoAlias;
    var actual := DependencyEdges(c.manifests[p.manifest], p.dependency);
    EdgesBySets(c, p);
    return actual == Some(ExpectedTargets(p.manifest, p.dependency));
  }

  lemma EdgesBySets(c: Checkout, p: Profile)
    requires BINDINGS <= c.manifests.Keys && p.manifest in BINDINGS
    ensures var dependencies := c.manifests[p.manifest].dependencies;
            EdgesOk(c, p)
            <==> (forall target <- dependencies :: NoAlias(dependencies[target], p.dependency))
                 && (set target | target in dependencies && p.dependency in dependencies[target])
                    == ExpectedTargets(p.manifest, p.dependency)
  {
    hide PROFILES;
    var dependencies := c.manifests[p.manifest].dependencies;
    var found := set target | target in dependencies && p.dependency in dependencies[target];
    var expected := ExpectedTargets(p.manifest, p.dependency);
    forall target ensures target in expected <==> ExpectedEdge(p.manifest, p.dependency, target) {
    }
    if EdgesOk(c, p) {
      forall target | target in expected ensures target in found {
        var i :| 0 <= i < |PROFILES| && PROFILES[i].manifest == p.manifest && PROFILES[i].dependency == p.dependency
                 && PROFILES[i].target == target;
      }
      assert found == expected;
    }
    if found == expected {
      forall i | 0 <= i < |PROFILES| && PROFILES[i].manifest == p.manifest && PROFILES[i].dependency == p.dependency
        ensures PROFILES[i].target in found
      {
        assert PROFILES[i].target in expected;
      }
    }
  }

  method CheckForwarding(c: Checkout, p: Profile) returns (ok: bool)
    requires p.manifest in c.manifests
    ensures ok <==> ForwardingOk(c, p)
  {
    hide Reaches, Forwarded, AllDeclared;
    var features := c.manifests[p.manifest].features;
    if Forwarded(features, p.dependency + "?/") != {} {
      return false;
    }
    ghost var all := Forwarded(features, p.dependency + "/");
    var left := Forwarded(features, p.dependency + "/");
    while left != {}
      invariant left <= all
      invariant forall item <- all - left :: Harmless(c, p, item)
      decreases |left|
    {
      var item :| item in left;
      if p.source !in c.manifests {
        return false;
      }
      var activated := AliasClosure(c.manifests[p.source].features, [item]);
      assert Elements([item]) == {item};
      if activated.None? {
        return false;
      }
      if relevant :| relevant in activated.value && relevant in c.valueFeatures {
        assert Activates(c, p, {item}, relevant);
        return false;
      }
      assert Harmless(c, p, item);
      left := left - {item};
    }
    assert all - left == all;
    return true;
  }

  /** The coverage of one profile: each value-affecting feature, and how it is accounted for. */
  method CheckProfile(c: Checkout, p: Profile) returns (r: Option<map<string, Coverage>>)
    requires BINDINGS <= c.manifests.Keys && OptOutsOk(c)
    ensures r.Some? <==> ProfileOk(c, p)
    ensures r.Some? ==> r.value.Keys == c.valueFeatures.Keys && Accounts(c, p, r.value)
  {
    hide Reaches, AllDeclared, OptOutsOk, ProfileEdge;
    var effective := ProfileEdge(c, p);
    if effective.None? || !SourceOk(c, p, effective.value) {
      return None;
    }
    var e := effective.value;
    var active := AliasClosure(c.manifests[p.source].features, InitialFeatures(e));
    if active.None? {
      return None;
    }
    var coverage: map<string, Coverage>, left := map[], c.valueFeatures.Keys;
    while left != {}
      invariant left <= c.valueFeatures.Keys && coverage.Keys == c.valueFeatures.Keys - left
      invariant forall f <- coverage :: Covered(c, p, e, f)
      invariant Accounts(c, p, coverage)
      decreases |left|
    {
      var feature :| feature in left;
      var rationale := Rationale(c, p.name, feature);
      if rationale.Some? {
        RationaleIsSubstantive(c, p.name, feature);
      }
      if feature in active.value && rationale.Some? && rationale.value != "" {
        assert !Covered(c, p, e, feature);
        return None;
      }
      if !(feature in active.value || rationale.Some?) {
        assert !Covered(c, p, e, feature);
        return None;
      }
      coverage := coverage[feature := if feature in active.value then Enabled else OptedOut(rationale.value)];
      left := left - {feature};
    }
    return Some(coverage);
  }

  lemma RationaleIsSubstantive(c: Checkout, profile: string, feature: string)
    requires BINDINGS <= c.manifests.Keys && OptOutsOk(c) && Rationale(c, profile, feature).Some?
    ensures Rationale(c, profile, feature).value != ""
    ensures (profile, feature) in APPROVED && Substantive(Rationale(c, profile, feature).value)
  {
    assert Strip("") == "";
  }

  predicate Reports(c: Checkout, p: Profile, coverage: map<string, map<string, Coverage>>)
    requires BINDINGS <= c.manifests.Keys
  {
    && p.name in coverage && coverage[p.name].Keys == c.valueFeatures.Keys
    && Accounts(c, p, coverage[p.name])
  }

  lemma ProfilesAreDistinct()
    ensures forall i, j :: 0 <= i < j < |PROFILES| ==> PROFILES[i].name != PROFILES[j].name
    ensures forall p <- PROFILES :: p.manifest in BINDINGS
  {
    assert PROFILES[0].name[0] == 'c' && PROFILES[1].name[7] == 'n' && PROFILES[2].name[7] == 'p'
           && PROFILES[3].name[0] == 'w';
    assert PROFILES[1].name[0] == 'p' && PROFILES[2].name[0] == 'p';
  }

  /** `validate_binding_value_feature_policy`. It passes exactly when the policy holds, and the
      coverage it returns says for every profile and value-affecting feature which of the two
      accounts for it. */
  method Validate(c: Checkout) returns (r: Option<map<string, map<string, Coverage>>>)
    ensures r.Some? <==> PolicyHolds(c)
    ensures r.Some? ==> forall p <- PROFILES :: Reports(c, p, r.value)
  {
    hide OptOutsOk, NoAlternateEdges, ValueFeaturesOk, ForwardingOk, ProfileOk, EdgesOk, Accounts, BINDINGS;
    var profiles := PROFILES;
    ProfilesAreDistinct();
    hide PROFILES;
    var features := CheckValueFeatures(c);
    if !features || !(BINDINGS <= c.manifests.Keys) {
      return None;
    }
    var alternates := CheckAlternateEdges(c);
    var optOuts := CheckOptOuts(c);
    if !alternates || !optOuts {
      return None;
    }
    for i := 0 to |profiles|
      invariant forall j :: 0 <= j < i ==> EdgesOk(c, profiles[j]) && ForwardingOk(c, profiles[j])
    {
      var edges := CheckEdges(c, profiles[i]);
      var forwarding := CheckForwarding(c, profiles[i]);
      if !edges || !forwarding {
        assert profiles[i] in PROFILES;
        return None;
      }
    }
    var coverage: map<string, map<string, Coverage>> := map[];
    for i := 0 to |profiles|
      invariant forall j :: 0 <= j < i ==> ProfileOk(c, profiles[j]) && Reports(c, profiles[j], coverage)
    {
      var profile := CheckProfile(c, profiles[i]);
      if profile.None? {
        assert profiles[i] in PROFILES;
        return None;
      }
      coverage := coverage[profiles[i].name := profile.value];
    }
    return Some(coverage);
  }

  // ----- A checkout that passes -----

  const CLOCK: Features := map["clock" := []]

  function PlainEdge(): DependencyEdge {
    DependencyEdge(None, Some("path"), None, None, Some(["clock"]), Some(false), None, {})
  }

  function PlainTable(): Table {
    map["formualizer" := PlainEdge()]
  }

  function WorkspaceEdge(): DependencyEdge {
    DependencyEdge(Some(true), None, None, None, Some(["clock"]), None, None, {})
  }

  function Binding(dependencies: map<Target, Table>): Manifest {
    Manifest("binding", map[], dependencies, None)
  }

  const NATIVE: Target := Some("cfg(not(target_os = \"emscripten\"))")
  const PYODIDE: Target := Some("cfg(target_os = \"emscripten\")")

  function Sample(): Checkout {
    Checkout(
      map[PRODUCT := Manifest("formualizer", CLOCK, map[], None)]
        [WORKBOOK := Manifest("formualizer-workbook", CLOCK, map[], None)]
        [CFFI := Binding(map[None := map["formualizer-workbook" := WorkspaceEdge()]])]
        [PYTHON := Binding(map[NATIVE := PlainTable()][PYODIDE := PlainTable()])]
        [WASM := Binding(map[None := map["formualizer" := PlainEdge()]])],
      map["formualizer-workbook" := PlainEdge().(features := None)],
      map["clock" := "x"])
  }

  lemma PathsDiffer()
    ensures PRODUCT !in {WORKBOOK, CFFI, PYTHON, WASM} && WORKBOOK !in {CFFI, PYTHON, WASM}
    ensures CFFI !in {PYTHON, WASM} && PYTHON != WASM && NATIVE != PYODIDE
  {
    assert |PRODUCT| == 29 && |WORKBOOK| == 38 && |CFFI| == 34 && |PYTHON| == 26 && |WASM| == 24;
    assert |NATIVE.value| != |PYODIDE.value|;
  }

  lemma SampleManifests()
    ensures var m := Sample().manifests;
            && m.Keys == {PRODUCT, WORKBOOK, CFFI, PYTHON, WASM}
            && m[PRODUCT] == Manifest("formualizer", CLOCK, map[], None)
            && m[WORKBOOK] == Manifest("formualizer-workbook", CLOCK, map[], None)
            && m[CFFI] == Binding(map[None := map["formualizer-workbook" := WorkspaceEdge()]])
            && m[PYTHON] == Binding(map[NATIVE := PlainTable()][PYODIDE := PlainTable()])
            && m[WASM] == Binding(map[None := map["formualizer" := PlainEdge()]])
    ensures Sample().workspaceDependencies == map["formualizer-workbook" := PlainEdge().(features := None)]
    ensures Sample().valueFeatures == map["clock" := "x"]
  {
    hide PRODUCT, WORKBOOK, CFFI, PYTHON, WASM, NATIVE, PYODIDE, Binding, PlainEdge, WorkspaceEdge;
    PathsDiffer();
  }

  lemma ClockReaches(feature: string)
    ensures Reaches(CLOCK, {"clock"}, feature) <==> feature == "clock"
    ensures AllDeclared(CLOCK, {"clock"})
  {
    assert Closed(CLOCK, {"clock"});
    ReachesSelf(CLOCK, {"clock"}, "clock");
    forall f | Reaches(CLOCK, {"clock"}, f) ensures f == "clock" {
      ClosedHoldsReachable(CLOCK, {"clock"}, {"clock"}, f);
    }
  }

  lemma SampleProfile(p: Profile, e: Effective)
    requires ProfileEdge(Sample(), p) == Some(e) && SourceOk(Sample(), p, e) && BINDINGS <= Sample().manifests.Keys
    requires e.features == ["clock"] && !e.defaults && Sample().manifests[p.source].features == CLOCK
    requires Rationale(Sample(), p.name, "clock").None?
    ensures ProfileOk(Sample(), p)
  {
    hide ProfileEdge, SourceOk, BINDINGS, CLOCK, Reaches, AllDeclared, Rationale;
    assert InitialFeatures(e) == ["clock"];
    assert Elements(["clock"]) == {"clock"};
    ClockReaches("clock");
    assert Sample().valueFeatures.Keys == {"clock"};
  }

  const PLAIN := Effective(["clock"], false, Some("path"), None)

  lemma SampleProfileEdge(i: nat)
    requires i < |PROFILES|
    ensures ProfileEdge(Sample(), PROFILES[i]) == Some(PLAIN) && SourceOk(Sample(), PROFILES[i], PLAIN)
    ensures Sample().manifests[PROFILES[i].source].features == CLOCK
  {
    SampleManifests();
    PathsDiffer();
    hide Sample, CLOCK;
    assert |PROFILES[0].name| == 11 && |PROFILES[1].name| == 13 && |PROFILES[2].name| == 14 && |PROFILES[3].name| == 12;
    assert PROFILES[0].name == "cffi-native" && |"cffi-native"| == 11;
    assert ["clock"] == [] + ["clock"];
  }

  lemma SampleOptOuts()
    ensures BINDINGS <= Sample().manifests.Keys && OptOuts(Sample()) == map[] && OptOutsOk(Sample())
  {
    SampleManifests();
    hide Sample, PRODUCT, WORKBOOK, CFFI, PYTHON, WASM;
  }

  lemma SampleProfilesHold(i: nat)
    requires i < |PROFILES|
    ensures BINDINGS <= Sample().manifests.Keys && ProfileOk(Sample(), PROFILES[i])
  {
    SampleOptOuts();
    SampleProfileEdge(i);
    hide ProfileEdge, ProfileOk, Sample, SourceOk, PROFILES;
    SampleProfile(PROFILES[i], PLAIN);
  }

  lemma SampleForwarding(i: nat)
    requires i < |PROFILES|
    ensures PROFILES[i].manifest in Sample().manifests && ForwardingOk(Sample(), PROFILES[i])
  {
    SampleManifests();
    hide Sample;
  }

  lemma SampleValueFeatures()
    ensures ValueFeaturesOk(Sample())
  {
    SampleManifests();
    hide Sample, PRODUCT, WORKBOOK, CFFI, PYTHON, WASM;
    assert Strip("x") == "x";
    assert "clock" in CLOCK;
    assert Sample().valueFeatures["clock"] == "x";
  }

  lemma SampleExpected()
    ensures ExpectedEdge(CFFI, "formualizer-workbook", None)
    ensures ExpectedEdge(PYTHON, "formualizer", NATIVE) && ExpectedEdge(PYTHON, "formualizer", PYODIDE)
    ensures ExpectedEdge(WASM, "formualizer", None)
  {
    assert PROFILES[0].manifest == CFFI && PROFILES[1].manifest == PYTHON && PROFILES[2].manifest == PYTHON
           && PROFILES[3].manifest == WASM;
  }

  lemma SampleEdges(i: nat)
    requires i < |PROFILES|
    ensures BINDINGS <= Sample().manifests.Keys && PROFILES[i].manifest in BINDINGS && EdgesOk(Sample(), PROFILES[i])
  {
    SampleManifests();
    SampleExpected();
    PathsDiffer();
    hide Sample, ExpectedEdge;
    assert |"formualizer"| == 11 && |"formualizer-workbook"| == 20;
  }

  lemma SampleAlternates()
    ensures BINDINGS <= Sample().manifests.Keys && NoAlternateEdges(Sample())
  {
    SampleManifests();
    SampleExpected();
    PathsDiffer();
    hide Sample, ExpectedEdge, RealPackage, SEMANTIC;
  }

  /** The policy can be met: a checkout in which every profile asks for the one value-affecting feature. */
  lemma PolicyCanHold()
    ensures PolicyHolds(Sample())
  {
    SampleAlternates();
    SampleValueFeatures();
    SampleOptOuts();
    hide EdgesOk, ProfileOk, ForwardingOk, NoAlternateEdges, OptOutsOk, ValueFeaturesOk, Sample, PROFILES;
    forall p | p in PROFILES
      ensures p.manifest in BINDINGS && EdgesOk(Sample(), p) && ForwardingOk(Sample(), p) && ProfileOk(Sample(), p)
    {
      var i :| 0 <= i < |PROFILES| && PROFILES[i] == p;
      SampleEdges(i);
      SampleForwarding(i);
      SampleProfilesHold(i);
    }
  }

  // ----- Consequences -----

  /** Whatever else a checkout does, once the policy holds a binding can miss a value-affecting
      feature in one way only: the Pyodide build without the system clock. */
  lemma OnlyOneOptOut(c: Checkout, p: Profile, feature: string)
    requires PolicyHolds(c) && p in PROFILES && feature in c.valueFeatures
    requires p.name != "python-pyodide" || feature != "system-clock"
    ensures ProfileEdge(c, p).Some? && p.source in c.manifests
    ensures Activates(c, p, Elements(InitialFeatures(ProfileEdge(c, p).value)), feature)
  {
    hide Reaches, AllDeclared, EdgesOk, ForwardingOk, OptOutsOk, ValueFeaturesOk, NoAlternateEdges, PROFILES,
         ProfileEdge;
    assert ProfileOk(c, p);
    assert Covered(c, p, ProfileEdge(c, p).value, feature);
    if Rationale(c, p.name, feature).Some? {
      RationaleIsSubstantive(c, p.name, feature);
    }
  }

  /** No way into the semantic crates goes unchecked: every dependency entry of a binding whose real
      package is one of them is the entry of a profile. */
  lemma EverySemanticEdgeIsAProfile(c: Checkout, manifest: string, target: Target, name: string)
    requires PolicyHolds(c) && manifest in BINDINGS
    requires target in c.manifests[manifest].dependencies && name in c.manifests[manifest].dependencies[target]
    requires RealPackage(c, name, c.manifests[manifest].dependencies[target][name]) in SEMANTIC
    ensures exists p <- PROFILES ::
              p.manifest == manifest && p.target == target && p.dependency == name && ProfileOk(c, p)
  {
    hide ProfileOk, EdgesOk, ForwardingOk, OptOutsOk, ValueFeaturesOk, PROFILES, BINDINGS, SEMANTIC;
    assert ExpectedEdge(manifest, name, target);
    var i :| 0 <= i < |PROFILES| && PROFILES[i].manifest == manifest && PROFILES[i].dependency == name
             && PROFILES[i].target == target;
    assert PROFILES[i] in PROFILES;
  }

  /** Turning on any features of the binding itself activates no value-affecting feature beyond those
      its profile already activates. */
  lemma ForwardingAddsNothing(c: Checkout, p: Profile, forwarded: set<string>, initial: set<string>, feature: string)
    requires PolicyHolds(c) && p in PROFILES && p.source in c.manifests && feature in c.valueFeatures
    requires p.manifest in c.manifests && forwarded <= Forwarded(c.manifests[p.manifest].features, p.dependency + "/")
    ensures Activates(c, p, initial + forwarded, feature) <==> Activates(c, p, initial, feature)
    decreases |forwarded|
  {
    hide Reaches, AllDeclared, EdgesOk, ProfileOk, Forwarded, ValueFeaturesOk, NoAlternateEdges, OptOutsOk, PROFILES;
    assert ForwardingOk(c, p);
    if forwarded == {} {
      assert initial + forwarded == initial;
    } else {
      var item :| item in forwarded;
      var rest := forwarded - {item};
      ForwardingAddsNothing(c, p, rest, initial, feature);
      assert initial + forwarded == (initial + rest) + {item};
      ReachesUnion(c.manifests[p.source].features, initial + rest, {item}, feature);
      assert Harmless(c, p, item);
    }
  }
}
