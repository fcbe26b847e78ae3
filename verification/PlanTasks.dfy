/** Resolving a benchmark plan: batches select scenarios, and every (scenario, engine, mode) triple
    becomes one task, in the first batch that covers it. */
module PlanTasks {
  import opened Options

  datatype Scenario = Scenario(
    id: string, comparisonProfiles: set<string>, tier: Option<string>, family: Option<string>,
    profile: Option<string>, regressionGate: bool, runtimeModes: set<string>)

  datatype Batch = Batch(
    name: string, scenarios: seq<string>, comparisonProfiles: seq<string>, tiers: seq<string>, families: seq<string>,
    profiles: seq<string>, regressionGateOnly: bool, modes: seq<string>, engines: seq<string>)

  datatype Key = Key(scenario: string, engine: string, mode: string)

  datatype Task = Task(key: Key, batch: string)

  datatype PlanError = NoScenarios(batch: string) | NothingRunnable(batch: string)

  function Elements(s: seq<string>): set<string> {
    set x | x in s
  }

  predicate Selects(selector: seq<string>, value: Option<string>) {
    selector == [] || (value.Some? && value.value in selector)
  }

  /** `_scenario_matches_batch`. */
  predicate Matches(s: Scenario, b: Batch) {
    && (b.scenarios == [] || s.id in b.scenarios)
    && (b.comparisonProfiles == [] || Elements(b.comparisonProfiles) * s.comparisonProfiles != {})
    && Selects(b.tiers, s.tier) && Selects(b.families, s.family) && Selects(b.profiles, s.profile)
    && (b.regressionGateOnly ==> s.regressionGate)
    && Elements(b.modes) * s.runtimeModes != {}
  }

  function Matched(scenarios: seq<Scenario>, b: Batch): seq<Scenario> {
    if scenarios == [] then []
    else (if Matches(scenarios[0], b) then [scenarios[0]] else []) + Matched(scenarios[1..], b)
  }

  /** A batch covers a triple when it selects a scenario of that id which supports the mode, and lists
      the engine and the mode. */
  predicate Covers(scenarios: seq<Scenario>, b: Batch, key: Key) {
    && key.engine in b.engines && key.mode in b.modes
    && exists i :: 0 <= i < |scenarios| && Fits(scenarios[i], b, key)
  }

  predicate Fits(s: Scenario, b: Batch, key: Key) {
    Matches(s, b) && s.id == key.scenario && key.mode in s.runtimeModes
  }

  // ----- The triples in the order of the loops -----

  function ByEngine(b: Batch, s: Scenario, mode: string, n: nat): seq<Task>
    requires n <= |b.engines|
  {
    if n == 0 then [] else ByEngine(b, s, mode, n - 1) + [Task(Key(s.id, b.engines[n - 1], mode), b.name)]
  }

  function ByMode(b: Batch, s: Scenario, n: nat): seq<Task>
    requires n <= |b.modes|
  {
    if n == 0 then []
    else
      ByMode(b, s, n - 1)
      + if b.modes[n - 1] in s.runtimeModes then ByEngine(b, s, b.modes[n - 1], |b.engines|) else []
  }

  function ByScenario(b: Batch, matched: seq<Scenario>, n: nat): seq<Task>
    requires n <= |matched|
  {
    if n == 0 then [] else ByScenario(b, matched, n - 1) + ByMode(b, matched[n - 1], |b.modes|)
  }

  function OfBatch(scenarios: seq<Scenario>, b: Batch): seq<Task> {
    ByScenario(b, Matched(scenarios, b), |Matched(scenarios, b)|)
  }

  function Candidates(scenarios: seq<Scenario>, batches: seq<Batch>, n: nat): seq<Task>
    requires n <= |batches|
  {
    if n == 0 then [] else Candidates(scenarios, batches, n - 1) + OfBatch(scenarios, batches[n - 1])
  }

  function Keys(tasks: seq<Task>): set<Key> {
    set t | t in tasks :: t.key
  }

  /** The tasks whose key does not occur earlier. */
  function Firsts(tasks: seq<Task>): seq<Task> {
    if tasks == [] then []
    else
      var front, last := tasks[..|tasks| - 1], tasks[|tasks| - 1];
      Firsts(front) + if last.key in Keys(front) then [] else [last]
  }

  function BatchErrors(scenarios: seq<Scenario>, batches: seq<Batch>, n: nat): seq<PlanError>
    requires n < |batches|
  {
    var b := batches[n];
    if Matched(scenarios, b) == [] then [NoScenarios(b.name)]
    else if |Firsts(Candidates(scenarios, batches, n + 1))| == |Firsts(Candidates(scenarios, batches, n))|
    then [NothingRunnable(b.name)]
    else []
  }

  function Errors(scenarios: seq<Scenario>, batches: seq<Batch>, n: nat): seq<PlanError>
    requires n <= |batches|
  {
    if n == 0 then [] else Errors(scenarios, batches, n - 1) + BatchErrors(scenarios, batches, n - 1)
  }

  lemma FirstsStep(done: seq<Task>, t: Task)
    ensures Firsts(done + [t]) == Firsts(done) + if t.key in Keys(done) then [] else [t]
    ensures Keys(done + [t]) == Keys(done) + {t.key}
  {
    assert (done + [t])[..|done + [t]| - 1] == done;
    forall key ensures key in Keys(done + [t]) <==> key in Keys(done) + {t.key} {
      if key in Keys(done) {
        var u :| u in done && u.key == key;
        assert u in done + [t];
      }
      if key == t.key {
        assert t in done + [t];
      }
    }
  }

  /** `tasks` and `seen` after the triples of `done`. */
  ghost predicate After(done: seq<Task>, tasks: seq<Task>, seen: set<Key>) {
    tasks == Firsts(done) && seen == Keys(done)
  }

  /** The three inner loops: one batch over the scenarios it matched. */
  method AddBatch(b: Batch, matched: seq<Scenario>, tasks0: seq<Task>, seen0: set<Key>, ghost before: seq<Task>)
    returns (tasks: seq<Task>, seen: set<Key>, batchTasks: nat)
    requires After(before, tasks0, seen0)
    ensures After(before + ByScenario(b, matched, |matched|), tasks, seen)
    ensures |tasks| == |tasks0| + batchTasks
  {
    hide After;
    tasks, seen, batchTasks := tasks0, seen0, 0;
    ghost var done := before;
    for i := 0 to |matched|
      invariant done == before + ByScenario(b, matched, i) && After(done, tasks, seen)
      invariant |tasks| == |tasks0| + batchTasks
    {
      ghost var atScenario := done;
      for j := 0 to |b.modes|
        invariant done == atScenario + ByMode(b, matched[i], j) && After(done, tasks, seen)
        invariant |tasks| == |tasks0| + batchTasks
      {
        var mode := b.modes[j];
        if mode !in matched[i].runtimeModes {
          continue;
        }
        ghost var atMode := done;
        for k := 0 to |b.engines|
          invariant done == atMode + ByEngine(b, matched[i], mode, k) && After(done, tasks, seen)
          invariant |tasks| == |tasks0| + batchTasks
        {
          var key := Key(matched[i].id, b.engines[k], mode);
          AfterStep(done, tasks, seen, Task(key, b.name));
          done := done + [Task(key, b.name)];
          if key in seen {
            continue;
          }
          seen := seen + {key};
          tasks := tasks + [Task(key, b.name)];
          batchTasks := batchTasks + 1;
        }
      }
    }
  }

  lemma AfterStep(done: seq<Task>, tasks: seq<Task>, seen: set<Key>, t: Task)
    requires After(done, tasks, seen)
    ensures t.key in seen ==> After(done + [t], tasks, seen)
    ensures t.key !in seen ==> After(done + [t], tasks + [t], seen + {t.key})
  {
    hide Firsts, Keys;
    FirstsStep(done, t);
    if t.key in seen {
      assert seen + {t.key} == seen;
    }
  }

  /** `_resolve_plan_tasks`. */
  method ResolvePlanTasks(scenarios: seq<Scenario>, batches: seq<Batch>)
    returns (tasks: seq<Task>, errors: seq<PlanError>)
    ensures tasks == Firsts(Candidates(scenarios, batches, |batches|))
    ensures errors == Errors(scenarios, batches, |batches|)
  {
    hide Firsts, Keys, Matched;
    tasks, errors := [], [];
    var seen: set<Key> := {};
    EmptyFirsts();
    for n := 0 to |batches|
      invariant After(Candidates(scenarios, batches, n), tasks, seen)
      invariant errors == Errors(scenarios, batches, n)
    {
      var b := batches[n];
      var matched := Matched(scenarios, b);
      if matched == [] {
        errors := errors + [NoScenarios(b.name)];
        assert OfBatch(scenarios, b) == [];
        assert Candidates(scenarios, batches, n + 1) == Candidates(scenarios, batches, n);
        continue;
      }
      var batchTasks;
      tasks, seen, batchTasks := AddBatch(b, matched, tasks, seen, Candidates(scenarios, batches, n));
      if batchTasks == 0 {
        errors := errors + [NothingRunnable(b.name)];
      }
    }
  }

  lemma EmptyFirsts()
    ensures Firsts([]) == [] && Keys([]) == {}
  {
  }

  // ----- What the triples are -----

  lemma {:induction false} ByEngineIs(b: Batch, s: Scenario, mode: string, n: nat, t: Task)
    requires n <= |b.engines|
    ensures t in ByEngine(b, s, mode, n)
            <==> t.batch == b.name && t.key.scenario == s.id && t.key.mode == mode && t.key.engine in b.engines[..n]
  {
    if n > 0 {
      ByEngineIs(b, s, mode, n - 1, t);
      assert b.engines[..n] == b.engines[..n - 1] + [b.engines[n - 1]];
    }
  }

  lemma {:induction false} ByModeIs(b: Batch, s: Scenario, n: nat, t: Task)
    requires n <= |b.modes|
    ensures t in ByMode(b, s, n)
            <==> t.batch == b.name && t.key.scenario == s.id && t.key.mode in b.modes[..n]
                 && t.key.mode in s.runtimeModes && t.key.engine in b.engines
  {
    if n > 0 {
      ByModeIs(b, s, n - 1, t);
      ByEngineIs(b, s, b.modes[n - 1], |b.engines|, t);
      assert b.engines[..|b.engines|] == b.engines;
      assert b.modes[..n] == b.modes[..n - 1] + [b.modes[n - 1]];
    }
  }

  lemma {:induction false} ByScenarioIs(b: Batch, matched: seq<Scenario>, n: nat, t: Task)
    requires n <= |matched|
    ensures t in ByScenario(b, matched, n)
            <==> t.batch == b.name && t.key.engine in b.engines && t.key.mode in b.modes
                 && exists i :: 0 <= i < n && matched[i].id == t.key.scenario && t.key.mode in matched[i].runtimeModes
  {
    if n > 0 {
      ByScenarioIs(b, matched, n - 1, t);
      ByModeIs(b, matched[n - 1], |b.modes|, t);
      assert b.modes[..|b.modes|] == b.modes;
    }
  }

  lemma {:induction false} MatchedAre(scenarios: seq<Scenario>, b: Batch, s: Scenario)
    ensures s in Matched(scenarios, b) <==> s in scenarios && Matches(s, b)
  {
    hide Matches;
    if scenarios != [] {
      MatchedAre(scenarios[1..], b, s);
      assert scenarios == [scenarios[0]] + scenarios[1..];
    }
  }

  lemma OfBatchIs(scenarios: seq<Scenario>, b: Batch, t: Task)
    ensures t in OfBatch(scenarios, b) <==> t.batch == b.name && Covers(scenarios, b, t.key)
  {
    hide Matches, Matched, ByScenario;
    var matched := Matched(scenarios, b);
    ByScenarioIs(b, matched, |matched|, t);
    if i :| 0 <= i < |matched| && matched[i].id == t.key.scenario && t.key.mode in matched[i].runtimeModes {
      MatchedAre(scenarios, b, matched[i]);
      var j :| 0 <= j < |scenarios| && scenarios[j] == matched[i];
      assert Fits(scenarios[j], b, t.key);
    }
    if i :| 0 <= i < |scenarios| && Fits(scenarios[i], b, t.key) {
      MatchedAre(scenarios, b, scenarios[i]);
      var j :| 0 <= j < |matched| && matched[j] == scenarios[i];
    }
  }

  predicate CoveredBefore(scenarios: seq<Scenario>, batches: seq<Batch>, n: nat, key: Key)
    requires n <= |batches|
  {
    exists b :: 0 <= b < n && Covers(scenarios, batches[b], key)
  }

  lemma {:induction false} CandidatesAre(scenarios: seq<Scenario>, batches: seq<Batch>, n: nat, key: Key)
    requires n <= |batches|
    ensures key in Keys(Candidates(scenarios, batches, n)) <==> CoveredBefore(scenarios, batches, n, key)
  {
    hide Covers, OfBatch;
    if n > 0 {
      var b := batches[n - 1];
      CandidatesAre(scenarios, batches, n - 1, key);
      OfBatchIs(scenarios, b, Task(key, b.name));
      forall t | t in OfBatch(scenarios, b) ensures Covers(scenarios, b, t.key) {
        OfBatchIs(scenarios, b, t);
      }
      KeysAppend(Candidates(scenarios, batches, n - 1), OfBatch(scenarios, b));
    }
  }

  lemma KeysAppend(a: seq<Task>, b: seq<Task>)
    ensures Keys(a + b) == Keys(a) + Keys(b)
  {
  }

  predicate Distinct(tasks: seq<Task>) {
    forall i, j :: 0 <= i < j < |tasks| ==> tasks[i].key != tasks[j].key
  }

  lemma {:induction false} FirstsAre(tasks: seq<Task>)
    ensures Keys(Firsts(tasks)) == Keys(tasks) && Distinct(Firsts(tasks))
  {
    if tasks != [] {
      var front, last := tasks[..|tasks| - 1], tasks[|tasks| - 1];
      FirstsAre(front);
      assert tasks == front + [last];
      FirstsStep(front, last);
      KeysAppend(front, [last]);
      KeysAppend(Firsts(front), [last]);
      assert forall i :: 0 <= i < |Firsts(front)| ==> Firsts(front)[i].key in Keys(Firsts(front));
    }
  }

  /** What `b` adds after `a`. */
  function Fresh(a: seq<Task>, b: seq<Task>): seq<Task> {
    if b == [] then []
    else
      var front, last := b[..|b| - 1], b[|b| - 1];
      Fresh(a, front) + if last.key in Keys(a + front) then [] else [last]
  }

  lemma {:induction false} FirstsAppend(a: seq<Task>, b: seq<Task>)
    ensures Firsts(a + b) == Firsts(a) + Fresh(a, b)
    decreases |b|
  {
    hide Keys;
    if b == [] {
      assert a + b == a;
    } else {
      var front, last := b[..|b| - 1], b[|b| - 1];
      FirstsAppend(a, front);
      assert a + b == (a + front) + [last];
      FirstsStep(a + front, last);
    }
  }

  /** Only keys not seen before are added, and all of those. */
  lemma {:induction false} FreshAre(a: seq<Task>, b: seq<Task>)
    ensures forall t <- Fresh(a, b) :: t in b && t.key !in Keys(a)
    ensures Fresh(a, b) == [] <==> Keys(b) <= Keys(a)
    decreases |b|
  {
    hide Keys;
    if b == [] {
      EmptyFirsts();
    } else {
      var front, last := b[..|b| - 1], b[|b| - 1];
      FreshAre(a, front);
      assert b == front + [last];
      KeysAppend(a, front);
      FirstsStep(front, last);
    }
  }

  // ----- The plan -----

  /** No two tasks share a triple, and the triples are exactly those that some batch covers. */
  lemma TasksCoverThePlan(scenarios: seq<Scenario>, batches: seq<Batch>, key: Key)
    ensures var tasks := Firsts(Candidates(scenarios, batches, |batches|));
            Distinct(tasks) && (key in Keys(tasks) <==> CoveredBefore(scenarios, batches, |batches|, key))
  {
    FirstsAre(Candidates(scenarios, batches, |batches|));
    CandidatesAre(scenarios, batches, |batches|, key);
  }

  ghost predicate FirstCover(scenarios: seq<Scenario>, batches: seq<Batch>, n: nat, t: Task)
    requires n <= |batches|
  {
    exists b :: 0 <= b < n && Covers(scenarios, batches[b], t.key) && t.batch == batches[b].name
                && !CoveredBefore(scenarios, batches, b, t.key)
  }

  /** Every task carries the name of the first batch that covers its triple. */
  lemma {:induction false} FirstBatchLabels(scenarios: seq<Scenario>, batches: seq<Batch>, n: nat, t: Task)
    requires n <= |batches| && t in Firsts(Candidates(scenarios, batches, n))
    ensures FirstCover(scenarios, batches, n, t)
  {
    hide Covers, OfBatch, CoveredBefore, Firsts;
    if n == 0 {
      EmptyFirsts();
    } else {
      var earlier, own := Candidates(scenarios, batches, n - 1), OfBatch(scenarios, batches[n - 1]);
      FirstsAppend(earlier, own);
      FreshAre(earlier, own);
      if t in Firsts(earlier) {
        FirstBatchLabels(scenarios, batches, n - 1, t);
      } else {
        OfBatchIs(scenarios, batches[n - 1], t);
        CandidatesAre(scenarios, batches, n - 1, t.key);
      }
    }
  }

  /** A batch is reported exactly when it covers no triple that earlier batches have not covered; and
      as one without scenarios exactly when it matches none. */
  lemma ErrorIffNothingNew(scenarios: seq<Scenario>, batches: seq<Batch>, n: nat)
    requires n < |batches|
    ensures var b := batches[n]; var errors := BatchErrors(scenarios, batches, n);
            && (errors == [] <==> exists key :: Covers(scenarios, b, key) && !CoveredBefore(scenarios, batches, n, key))
            && (errors == [NoScenarios(b.name)] <==> forall s <- scenarios :: !Matches(s, b))
            && (errors == [] || errors == [NoScenarios(b.name)] || errors == [NothingRunnable(b.name)])
  {
    hide Covers, Matches, CoveredBefore, Firsts, OfBatch, Matched, Keys;
    var b := batches[n];
    var earlier, own := Candidates(scenarios, batches, n), OfBatch(scenarios, b);
    FirstsAppend(earlier, own);
    FreshAre(earlier, own);
    NewKeys(scenarios, batches, n);
    NothingMatched(scenarios, b);
  }

  lemma NewKeys(scenarios: seq<Scenario>, batches: seq<Batch>, n: nat)
    requires n < |batches|
    ensures Keys(OfBatch(scenarios, batches[n])) <= Keys(Candidates(scenarios, batches, n))
            <==> forall key :: Covers(scenarios, batches[n], key) ==> CoveredBefore(scenarios, batches, n, key)
  {
    hide Covers, CoveredBefore, OfBatch, Candidates;
    var b := batches[n];
    forall key
      ensures key in Keys(OfBatch(scenarios, b)) <==> Covers(scenarios, b, key)
      ensures key in Keys(Candidates(scenarios, batches, n)) <==> CoveredBefore(scenarios, batches, n, key)
    {
      CandidatesAre(scenarios, batches, n, key);
      OfBatchIs(scenarios, b, Task(key, b.name));
      if t :| t in OfBatch(scenarios, b) && t.key == key {
        OfBatchIs(scenarios, b, t);
      }
    }
  }

  lemma NothingMatched(scenarios: seq<Scenario>, b: Batch)
    ensures Matched(scenarios, b) == [] <==> forall s <- scenarios :: !Matches(s, b)
    ensures Matched(scenarios, b) == [] ==> OfBatch(scenarios, b) == [] && forall key :: !Covers(scenarios, b, key)
  {
    hide Matches;
    forall s ensures s in Matched(scenarios, b) <==> s in scenarios && Matches(s, b) {
      MatchedAre(scenarios, b, s);
    }
    if Matched(scenarios, b) == [] {
      forall s | s in scenarios ensures !Matches(s, b) {
        assert s !in Matched(scenarios, b);
      }
    } else {
      assert Matched(scenarios, b)[0] in Matched(scenarios, b);
    }
  }
}
