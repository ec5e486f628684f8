/** Runs as a relation between states. */
module ProtocolPaths {
  import opened Protocol
  import opened ProtocolInvariant
  import opened ProtocolTheorems

  /** A run without stale steps, of actions of one sort only, leads from one state to the other. */
  ghost predicate Leads(c: Config, sort: Action -> bool, s: State, t: State)
    requires ValidConfig(c)
  {
    exists steps :: Path(c, sort, s, steps, t)
  }

  ghost predicate Path(c: Config, sort: Action -> bool, s: State, steps: seq<Action>, t: State)
    requires ValidConfig(c)
  {
    && Runs(c, s, steps) && NeverStale(c, s, steps) && Exec(c, s, steps) == t
    && forall k :: 0 <= k < |steps| ==> sort(steps[k])
  }

  lemma Stays(c: Config, sort: Action -> bool, s: State)
    requires ValidConfig(c)
    ensures Leads(c, sort, s, s)
  {
    assert Path(c, sort, s, [], s);
  }

  lemma {:induction false} PathAppend(c: Config, sort: Action -> bool, s: State, steps: seq<Action>, t: State,
                                      more: seq<Action>, u: State)
    requires ValidConfig(c) && Path(c, sort, s, steps, t) && Path(c, sort, t, more, u)
    ensures Path(c, sort, s, steps + more, u)
    decreases |steps|
  {
    hide Enabled, Apply, Stale;
    var longer := steps + more;
    if steps == [] {
      assert longer == more;
    } else {
      assert longer[0] == steps[0] && longer[1..] == steps[1..] + more;
      PathAppend(c, sort, Apply(c, s, steps[0]), steps[1..], t, more, u);
    }
  }

  lemma OneStep(c: Config, sort: Action -> bool, s: State, a: Action)
    requires ValidConfig(c) && Enabled(c, s, a) && !Stale(s, a) && sort(a)
    ensures Path(c, sort, s, [a], Apply(c, s, a))
  {
    hide Enabled, Apply, Stale;
    var t, steps := Apply(c, s, a), [a];
    assert steps[1..] == [];
    assert Runs(c, t, []) && NeverStale(c, t, []) && Exec(c, t, []) == t;
  }

  lemma Then(c: Config, sort: Action -> bool, s: State, t: State, a: Action, u: State)
    requires ValidConfig(c) && Leads(c, sort, s, t)
    requires Enabled(c, t, a) && !Stale(t, a) && sort(a) && u == Apply(c, t, a)
    ensures Leads(c, sort, s, u)
  {
    hide Enabled, Apply, Stale, Path;
    var steps :| Path(c, sort, s, steps, t);
    OneStep(c, sort, t, a);
    PathAppend(c, sort, s, steps, t, [a], u);
  }

  lemma Onwards(c: Config, sort: Action -> bool, s: State, t: State, u: State)
    requires ValidConfig(c) && Leads(c, sort, s, t) && Leads(c, sort, t, u)
    ensures Leads(c, sort, s, u)
  {
    hide Path;
    var steps :| Path(c, sort, s, steps, t);
    var more :| Path(c, sort, t, more, u);
    PathAppend(c, sort, s, steps, t, more, u);
  }

  /** A run of one sort of actions is one of any wider sort. */
  lemma Widen(c: Config, sort: Action -> bool, wider: Action -> bool, s: State, t: State)
    requires ValidConfig(c) && Leads(c, sort, s, t) && forall a :: sort(a) ==> wider(a)
    ensures Leads(c, wider, s, t)
  {
    hide Enabled, Apply, Stale, Runs, NeverStale, Exec;
    var steps :| Path(c, sort, s, steps, t);
    assert Path(c, wider, s, steps, t);
  }

  predicate Any(a: Action) {
    true
  }

  lemma ReachableOnwards(c: Config, sort: Action -> bool, s: State, t: State)
    requires ValidConfig(c) && ReachableWithoutStale(c, s) && Leads(c, sort, s, t)
    ensures ReachableWithoutStale(c, t)
  {
    hide Enabled, Apply, Stale, Runs, NeverStale, Exec;
    var steps :| Runs(c, Init(), steps) && NeverStale(c, Init(), steps) && Exec(c, Init(), steps) == s;
    var more :| Path(c, sort, s, more, t);
    PathAppend(c, Any, Init(), steps, s, more, t);
  }

  lemma Go(c: Config, s: State, a: Action, t: State)
    requires ValidConfig(c) && ReachableWithoutStale(c, s) && Enabled(c, s, a) && !Stale(s, a) && t == Apply(c, s, a)
    ensures ReachableWithoutStale(c, t)
  {
    hide Enabled, Apply, Stale, ReachableWithoutStale;
    Stays(c, Any, s);
    Then(c, Any, s, s, a, t);
    ReachableOnwards(c, Any, s, t);
  }

  lemma InitReachable(c: Config)
    requires ValidConfig(c)
    ensures ReachableWithoutStale(c, Init())
  {
    assert Runs(c, Init(), []) && NeverStale(c, Init(), []) && Exec(c, Init(), []) == Init();
  }

  // ---------------------------------------------------------------- reachability with stale steps

  lemma {:induction false} RunsAppend(c: Config, s: State, steps: seq<Action>, more: seq<Action>)
    requires ValidConfig(c) && Runs(c, s, steps) && Runs(c, Exec(c, s, steps), more)
    ensures Runs(c, s, steps + more) && Exec(c, s, steps + more) == Exec(c, Exec(c, s, steps), more)
    decreases |steps|
  {
    hide Enabled, Apply;
    var longer := steps + more;
    if steps == [] {
      assert longer == more;
    } else {
      assert longer[0] == steps[0] && longer[1..] == steps[1..] + more;
      RunsAppend(c, Apply(c, s, steps[0]), steps[1..], more);
    }
  }

  lemma ReachableByStep(c: Config, s: State, a: Action)
    requires ValidConfig(c) && Reachable(c, s) && Enabled(c, s, a)
    ensures Reachable(c, Apply(c, s, a))
  {
    hide Enabled, Apply;
    var steps :| Runs(c, Init(), steps) && Exec(c, Init(), steps) == s;
    var t := Apply(c, s, a);
    assert [a][1..] == [] && Runs(c, t, []) && Exec(c, t, []) == t;
    RunsAppend(c, Init(), steps, [a]);
  }

  lemma ReachableByRun(c: Config, sort: Action -> bool, s: State, t: State)
    requires ValidConfig(c) && Reachable(c, s) && Leads(c, sort, s, t)
    ensures Reachable(c, t)
  {
    hide Enabled, Apply, Stale, Runs, NeverStale, Exec;
    var steps :| Runs(c, Init(), steps) && Exec(c, Init(), steps) == s;
    var more :| Path(c, sort, s, more, t);
    RunsAppend(c, Init(), steps, more);
  }
}
