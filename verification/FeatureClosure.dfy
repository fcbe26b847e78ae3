/** `alias_closure` of the release preflight: a worklist over the feature table of one package. */
module FeatureClosure {
  import opened Options

  /** Features and their members: other features of the package, `dep:` activations, and
      `package/feature` forwardings. */
  type Features = map<string, seq<string>>

  predicate StartsWith(s: string, prefix: string) {
    |prefix| <= |s| && s[..|prefix|] == prefix
  }

  predicate SamePackage(member: string) {
    !StartsWith(member, "dep:") && '/' !in member
  }

  predicate Edge(features: Features, a: string, b: string) {
    a in features && b in features[a] && SamePackage(b)
  }

  /** Every step of `path` follows an edge. */
  predicate IsPath(features: Features, path: seq<string>) {
    path != [] && forall i :: 0 <= i < |path| - 1 ==> Edge(features, path[i], path[i + 1])
  }

  predicate Joins(features: Features, initial: set<string>, feature: string, path: seq<string>) {
    IsPath(features, path) && path[0] in initial && path[|path| - 1] == feature
  }

  /** `feature` can be reached from `initial` through same-package members. It need not be declared. */
  ghost predicate Reaches(features: Features, initial: set<string>, feature: string) {
    exists path :: Joins(features, initial, feature, path)
  }

  ghost predicate AllDeclared(features: Features, initial: set<string>) {
    forall feature :: Reaches(features, initial, feature) ==> feature in features
  }

  lemma ReachesSelf(features: Features, initial: set<string>, feature: string)
    requires feature in initial
    ensures Reaches(features, initial, feature)
  {
    assert Joins(features, initial, feature, [feature]);
  }

  lemma ReachesStep(features: Features, initial: set<string>, a: string, b: string)
    requires Reaches(features, initial, a) && Edge(features, a, b)
    ensures Reaches(features, initial, b)
  {
    var path :| Joins(features, initial, a, path);
    assert Joins(features, initial, b, path + [b]);
  }

  /** A set that holds the initial features and follows every edge holds everything reachable. */
  ghost predicate Closed(features: Features, s: set<string>) {
    forall a, b :: a in s && Edge(features, a, b) ==> b in s
  }

  lemma {:induction false} ClosedHolds(features: Features, initial: set<string>, s: set<string>, path: seq<string>)
    requires Closed(features, s) && initial <= s && IsPath(features, path) && path[0] in initial
    ensures path[|path| - 1] in s
    decreases |path|
  {
    if |path| > 1 {
      var front := path[..|path| - 1];
      assert forall i :: 0 <= i < |front| - 1 ==> Edge(features, front[i], front[i + 1]);
      ClosedHolds(features, initial, s, front);
      assert Edge(features, path[|path| - 2], path[|path| - 1]);
    }
  }

  lemma ClosedHoldsReachable(features: Features, initial: set<string>, s: set<string>, feature: string)
    requires Closed(features, s) && initial <= s && Reaches(features, initial, feature)
    ensures feature in s
  {
    var path :| Joins(features, initial, feature, path);
    ClosedHolds(features, initial, s, path);
  }

  function Elements(s: seq<string>): set<string> {
    set x | x in s
  }

  /** The worklist. `initial` is the initial set in whatever order `list` enumerates it. It raises
      exactly when an undeclared name is reachable, and otherwise returns exactly the reachable
      features; cycles are no obstacle. */
  method AliasClosure(features: Features, initial: seq<string>) returns (r: Option<set<string>>)
    ensures r.Some? <==> AllDeclared(features, Elements(initial))
    ensures r.Some? ==> forall feature :: feature in r.value <==> Reaches(features, Elements(initial), feature)
  {
    hide Reaches, StartsWith;
    var active: set<string>, pending := {}, initial;
    ghost var start := Elements(initial);
    forall feature | feature in pending ensures Reaches(features, start, feature) {
      ReachesSelf(features, start, feature);
    }
    while pending != []
      invariant active <= features.Keys
      invariant forall feature :: feature in active ==> Reaches(features, start, feature)
      invariant forall feature :: feature in pending ==> Reaches(features, start, feature)
      invariant forall feature :: feature in start ==> feature in active || feature in pending
      invariant forall a, b :: a in active && Edge(features, a, b) ==> b in active || b in pending
      decreases features.Keys - active, |pending|
    {
      var feature := pending[|pending| - 1];
      ghost var before := pending;
      pending := pending[..|pending| - 1];
      assert before == pending + [feature];
      if feature in active {
        continue;
      }
      if feature !in features {
        return None;
      }
      ghost var active0 := active;
      active := active + {feature};
      for i := 0 to |features[feature]|
        invariant before[..|before| - 1] <= pending
        invariant forall f :: f in pending ==> Reaches(features, start, f)
        invariant forall j :: 0 <= j < i && SamePackage(features[feature][j]) ==> features[feature][j] in pending
      {
        var member := features[feature][i];
        if StartsWith(member, "dep:") || '/' in member {
          continue;
        }
        ReachesStep(features, start, feature, member);
        if member !in features {
          return None;
        }
        pending := pending + [member];
      }
      assert features.Keys - active < features.Keys - active0 by {
        assert feature in features.Keys - active0;
      }
    }
    forall feature | Reaches(features, start, feature) ensures feature in active {
      ClosedHoldsReachable(features, start, active, feature);
    }
    return Some(active);
  }

  // ----- Laws of the closure -----

  lemma ReachesUnion(features: Features, a: set<string>, b: set<string>, feature: string)
    ensures Reaches(features, a + b, feature) <==> Reaches(features, a, feature) || Reaches(features, b, feature)
  {
    if Reaches(features, a + b, feature) {
      var path :| Joins(features, a + b, feature, path);
      assert Joins(features, a, feature, path) || Joins(features, b, feature, path);
    }
    if path :| Joins(features, a, feature, path) {
      assert Joins(features, a + b, feature, path);
    }
    if path :| Joins(features, b, feature, path) {
      assert Joins(features, a + b, feature, path);
    }
  }

  /** Starting from what is already reachable reaches nothing new. */
  lemma ReachesIdempotent(features: Features, initial: set<string>, closure: set<string>, feature: string)
    requires forall f :: f in closure <==> Reaches(features, initial, f)
    ensures Reaches(features, closure, feature) <==> Reaches(features, initial, feature)
  {
    if Reaches(features, initial, feature) {
      ReachesSelf(features, closure, feature);
    }
    forall a, b | a in closure && Edge(features, a, b) ensures b in closure {
      ReachesStep(features, initial, a, b);
    }
    if Reaches(features, closure, feature) {
      ClosedHoldsReachable(features, closure, closure, feature);
    }
  }
}
