/** Properties of the playbook manager's model: recursion bound, examples, and the per-target correction. */
module PlaybookProperties {
  import opened Optional
  import opened JsonModel
  import opened Automation
  import opened Playbooks
  import Flatten
  import Seqs

  /**
   * Only modules that ran to completion are skipped later, so the skip list gains at most as
   * many modules as were pending: the recursion is at most that deep.
   */
  lemma RecursionBound(rules: Matcher, playbooks: PlaybookModules, flat: string, silent: bool, st: State)
    ensures |MatchFrom(rules, playbooks, flat, silent, 0, st).skip| - |st.skip| <= |Pending(rules(flat), st.skip)|
  {
    var r := MatchFrom(rules, playbooks, flat, silent, 0, st);
    MatchFromGrows(rules, playbooks, flat, silent, 0, st);
    var gained := r.skip[|st.skip|..];
    forall i, j | 0 <= i < j < |gained| ensures gained[i] != gained[j] {
      assert gained[i] == r.skip[|st.skip| + i] && gained[j] == r.skip[|st.skip| + j];
    }
    DistinctCard(gained);
    forall m | m in gained ensures m in Pending(rules(flat), st.skip) {
      var k :| 0 <= k < |gained| && gained[k] == m;
      assert r.skip[|st.skip| + k] == m;
    }
    SubsetCard((set m | m in gained), Pending(rules(flat), st.skip));
  }

  lemma {:induction false} DistinctCard(s: seq<string>)
    requires forall i, j :: 0 <= i < j < |s| ==> s[i] != s[j]
    ensures |set m | m in s| == |s|
  {
    if s != [] {
      var rest := s[1..];
      DistinctCard(rest);
      assert (set m | m in s) == (set m | m in rest) + {s[0]};
      assert s[0] !in rest;
    }
  }

  /** One rule naming playbook `p`, which returns `t1`: `p` runs once and the target becomes `t1`. */
  lemma SingleRulePass(rules: Matcher, playbooks: PlaybookModules, flat: string, t0: Json, t1: Json)
    requires rules(flat) == [Rule("r", Some("p"))]
    requires playbooks("p", t0) == Ran(t1, Null)
    ensures MatchFrom(rules, playbooks, flat, true, 0, State(t0, [], [])) == State(t1, ["p"], [Invoked("p")])
  {
    var after := State(t1, ["p"], [Invoked("p")]);
    SkippedPass(rules, playbooks, flat, after);
    var st := State(t0, [], []);
    var rule := Rule("r", Some("p"));
    assert HasModule(rule) && rule.moduleName.value == "p" && "p" !in st.skip;
    assert !Truthy(Null);
    assert [] + [Invoked("p")] == [Invoked("p")];
    assert st.skip + ["p"] == ["p"];
    assert Callback(rules, playbooks, flat, true, Rule("r", Some("p")), State(t0, [], []))
      == MatchFrom(rules, playbooks, flat, true, 0, after);
    assert MatchFrom(rules, playbooks, flat, true, 1, after) == after;
  }

  /** One rule naming playbook `p`, already skipped: the pass changes nothing. */
  lemma SkippedPass(rules: Matcher, playbooks: PlaybookModules, flat: string, st: State)
    requires rules(flat) == [Rule("r", Some("p"))] && st.skip == ["p"]
    ensures MatchFrom(rules, playbooks, flat, true, 0, st) == st
  {
    assert Callback(rules, playbooks, flat, true, Rule("r", Some("p")), st) == st;
    assert MatchFrom(rules, playbooks, flat, true, 1, st) == st;
  }

  /**
   * A playbook that raises is not added to the skip list, so it is invoked again by every later
   * match: with rules naming a failing `a` and a working `b`, `a` is invoked twice.
   */
  lemma FailingPlaybookInvokedAgain(rules: Matcher, playbooks: PlaybookModules, flat: string, t: Json)
    requires rules(flat) == [Rule("r1", Some("a")), Rule("r2", Some("b"))]
    requires forall x :: playbooks("a", x) == PlaybookRaised(x, MissingAttribute)
    requires forall x :: playbooks("b", x) == Ran(x, Null)
    ensures MatchFrom(rules, playbooks, flat, true, 0, State(t, [], [])).events
      == [Invoked("a"), Failed("a", MissingAttribute), Invoked("b"), Invoked("a"), Failed("a", MissingAttribute)]
  {
    var rs := rules(flat);
    var s0 := State(t, [], []);
    var s1 := State(t, [], [Invoked("a"), Failed("a", MissingAttribute)]);
    assert playbooks("a", t) == PlaybookRaised(t, MissingAttribute);
    assert playbooks("b", t) == Ran(t, Null);
    assert Callback(rules, playbooks, flat, true, rs[0], s0) == s1;
    var inner0 := State(t, ["b"], [Invoked("a"), Failed("a", MissingAttribute), Invoked("b")]);
    var inner1 := State(t, ["b"], [Invoked("a"), Failed("a", MissingAttribute), Invoked("b"), Invoked("a"), Failed("a", MissingAttribute)]);
    assert Callback(rules, playbooks, flat, true, rs[0], inner0) == inner1;
    assert Callback(rules, playbooks, flat, true, rs[1], inner1) == inner1;
    assert MatchFrom(rules, playbooks, flat, true, 2, inner1) == inner1;
    assert MatchFrom(rules, playbooks, flat, true, 1, inner1) == inner1;
    assert MatchFrom(rules, playbooks, flat, true, 0, inner0) == inner1;
    assert !Truthy(Null);
    assert s1.skip + ["b"] == ["b"] && s1.events + [Invoked("b")] == inner0.events;
    assert Callback(rules, playbooks, flat, true, rs[1], s1) == MatchFrom(rules, playbooks, flat, true, 0, inner0);
    assert MatchFrom(rules, playbooks, flat, true, 1, s1) == inner1;
  }

  /**
   * Re-matching uses the string flattened before any playbook ran: when playbook `p` changes
   * the target so that its new flattening would match a rule naming `q`, `q` is not run.
   */
  lemma StaleFlatStringExample(rules: Matcher, playbooks: PlaybookModules, flatten: Flattener, t0: Json, t1: Json)
    requires rules(flatten(t0)) == [Rule("r", Some("p"))]
    requires rules(flatten(t1)) == [Rule("r", Some("p")), Rule("s", Some("q"))]
    requires playbooks("p", t0) == Ran(t1, Null)
    ensures RunTarget(rules, playbooks, flatten, true, t0, [], []) == State(t1, ["p"], [Invoked("p")])
  {
    SingleRulePass(rules, playbooks, flatten(t0), t0, t1);
  }

  /** The same state with `e` printed before everything it records. */
  function AfterEvents(e: seq<Event>, st: State): State
  {
    st.(events := e + st.events)
  }

  /** A callback's effect on target and skip list does not depend on what was printed before. */
  lemma {:induction false} CallbackEvents(rules: Matcher, playbooks: PlaybookModules, flat: string, silent: bool, rule: Rule, t: Json, s: seq<string>, e: seq<Event>)
    requires rule in rules(flat)
    ensures Callback(rules, playbooks, flat, silent, rule, State(t, s, e))
      == AfterEvents(e, Callback(rules, playbooks, flat, silent, rule, State(t, s, [])))
    decreases |Pending(rules(flat), s)|, 0
  {
    if !HasModule(rule) {
      assert e + [NoModule(rule.name)] == e + ([] + [NoModule(rule.name)]);
    } else if rule.moduleName.value !in s {
      var m := rule.moduleName.value;
      match playbooks(m, t)
      case PlaybookRaised(t1, err) =>
        assert e + [Invoked(m)] + [Failed(m, err)] == e + ([] + [Invoked(m)] + [Failed(m, err)]);
      case Ran(t1, result) =>
        var pe := if Truthy(result) && !silent then e + [Invoked(m)] + [Printed(result)] else e + [Invoked(m)];
        var p0 := if Truthy(result) && !silent then [] + [Invoked(m)] + [Printed(result)] else [] + [Invoked(m)];
        assert Callback(rules, playbooks, flat, silent, rule, State(t, s, e)) == MatchFrom(rules, playbooks, flat, silent, 0, State(t1, s + [m], pe));
        assert Callback(rules, playbooks, flat, silent, rule, State(t, s, [])) == MatchFrom(rules, playbooks, flat, silent, 0, State(t1, s + [m], p0));
        assert pe == e + p0;
        assert MatchFrom(rules, playbooks, flat, silent, 0, State(t1, s + [m], e + p0))
          == AfterEvents(e, MatchFrom(rules, playbooks, flat, silent, 0, State(t1, s + [m], p0))) by {
          assert m in ModulesOf(rules(flat));
          PendingDrops(rules(flat), s, m);
          PassEvents(rules, playbooks, flat, silent, t1, s + [m], p0, e);
        }
    }
  }

  /** The pass a returning playbook starts, with `e` printed before the callback. */
  lemma {:induction false} PassEvents(rules: Matcher, playbooks: PlaybookModules, flat: string, silent: bool, t: Json, s: seq<string>, p: seq<Event>, e: seq<Event>)
    ensures MatchFrom(rules, playbooks, flat, silent, 0, State(t, s, e + p))
      == AfterEvents(e, MatchFrom(rules, playbooks, flat, silent, 0, State(t, s, p)))
    decreases |Pending(rules(flat), s)|, 2
  {
    MatchFromEvents(rules, playbooks, flat, silent, 0, t, s, e + p);
    MatchFromEvents(rules, playbooks, flat, silent, 0, t, s, p);
    var x := MatchFrom(rules, playbooks, flat, silent, 0, State(t, s, []));
    Seqs.AppendAssoc(e, p, x.events);
  }

  /** The matching pass's effect on target and skip list does not depend on what was printed before. */
  lemma {:induction false} MatchFromEvents(rules: Matcher, playbooks: PlaybookModules, flat: string, silent: bool, i: nat, t: Json, s: seq<string>, e: seq<Event>)
    requires i <= |rules(flat)|
    ensures MatchFrom(rules, playbooks, flat, silent, i, State(t, s, e))
      == AfterEvents(e, MatchFrom(rules, playbooks, flat, silent, i, State(t, s, [])))
    decreases |Pending(rules(flat), s)|, 1, |rules(flat)| - i
  {
    if i < |rules(flat)| {
      var rule := rules(flat)[i];
      var n0 := Callback(rules, playbooks, flat, silent, rule, State(t, s, []));
      CallbackEvents(rules, playbooks, flat, silent, rule, t, s, e);
      PendingShrinks(rules(flat), s, n0.skip);
      MatchFromEvents(rules, playbooks, flat, silent, i + 1, n0.target, n0.skip, e + n0.events);
      MatchFromEvents(rules, playbooks, flat, silent, i + 1, n0.target, n0.skip, n0.events);
      assert State(n0.target, n0.skip, n0.events) == n0;
      assert State(n0.target, n0.skip, e + n0.events) == AfterEvents(e, n0);
      var x := MatchFrom(rules, playbooks, flat, silent, i + 1, State(n0.target, n0.skip, []));
      Seqs.AppendAssoc(e, n0.events, x.events);
    } else {
      assert e + [] == e;
    }
  }

  /**
   * As written, the skip list is shared by all targets of a call (and, through the default
   * argument, by all calls): of two identical targets only the first gets playbook `p`.
   */
  lemma SharedSkipListSkipsSecondTarget(rules: Matcher, playbooks: PlaybookModules, flatten: Flattener, t: Json, t1: Json, acc: AutoState)
    requires t.Obj? && rules(flatten(t)) == [Rule("r", Some("p"))]
    requires playbooks("p", t) == Ran(t1, Null)
    requires acc.processed == [] && acc.skip == [] && acc.events == []
    ensures AutomateFrom(rules, playbooks, flatten, true, [t, t], acc).processed == [t1, t]
  {
    FirstTargetRuns(rules, playbooks, flatten, t, t1, acc);
    SkippedTargetStays(rules, playbooks, flatten, t, AutomateStep(rules, playbooks, flatten, true, acc, t));
    AutomateTwo(rules, playbooks, flatten, true, t, t, acc);
  }

  lemma FirstTargetRuns(rules: Matcher, playbooks: PlaybookModules, flatten: Flattener, t: Json, t1: Json, acc: AutoState)
    requires t.Obj? && rules(flatten(t)) == [Rule("r", Some("p"))]
    requires playbooks("p", t) == Ran(t1, Null)
    requires acc.skip == [] && acc.events == []
    ensures var a1 := AutomateStep(rules, playbooks, flatten, true, acc, t);
      a1.processed == acc.processed + [t1] && a1.skip == ["p"]
  {
    SingleRulePass(rules, playbooks, flatten(t), t, t1);
  }

  lemma SkippedTargetStays(rules: Matcher, playbooks: PlaybookModules, flatten: Flattener, t: Json, acc: AutoState)
    requires t.Obj? && rules(flatten(t)) == [Rule("r", Some("p"))]
    requires acc.skip == ["p"]
    ensures AutomateStep(rules, playbooks, flatten, true, acc, t).processed == acc.processed + [t]
  {
    SkippedPass(rules, playbooks, flatten(t), State(t, acc.skip, acc.events));
  }

  lemma AutomateTwo(rules: Matcher, playbooks: PlaybookModules, flatten: Flattener, silent: bool, x: Json, y: Json, acc: AutoState)
    ensures AutomateFrom(rules, playbooks, flatten, silent, [x, y], acc)
      == AutomateStep(rules, playbooks, flatten, silent, AutomateStep(rules, playbooks, flatten, silent, acc, x), y)
  {
    var s1 := AutomateStep(rules, playbooks, flatten, silent, acc, x);
    assert [x, y][1..] == [y];
    assert AutomateFrom(rules, playbooks, flatten, silent, [x, y], acc) == AutomateFrom(rules, playbooks, flatten, silent, [y], s1);
    assert [y][1..] == [];
    var s2 := AutomateStep(rules, playbooks, flatten, silent, s1, y);
    assert AutomateFrom(rules, playbooks, flatten, silent, [y], s1) == AutomateFrom(rules, playbooks, flatten, silent, [], s2);
    assert AutomateFrom(rules, playbooks, flatten, silent, [], s2) == s2;
  }

  /** Corrected, the two identical targets both get playbook `p`. */
  lemma OwnSkipListRunsBothTargets(rules: Matcher, playbooks: PlaybookModules, flatten: Flattener, t: Json, t1: Json, acc: AutoState)
    requires t.Obj? && rules(flatten(t)) == [Rule("r", Some("p"))]
    requires playbooks("p", t) == Ran(t1, Null)
    requires acc.processed == []
    ensures AutomateEachFrom(rules, playbooks, flatten, true, [], [t, t], acc).processed == [t1, t1]
  {
    SingleRulePass(rules, playbooks, flatten(t), t, t1);
    assert Alone(rules, playbooks, flatten, true, [], t) == t1;
    AutomateEachIndependent(rules, playbooks, flatten, true, [], [t, t], acc);
    var r := AutomateEachFrom(rules, playbooks, flatten, true, [], [t, t], acc);
    assert r.processed[0] == Alone(rules, playbooks, flatten, true, [], [t, t][0]);
    assert r.processed[1] == Alone(rules, playbooks, flatten, true, [], [t, t][1]);
  }

  /**
   * With a skip list per target, every target ends as it would if processed alone: the
   * playbooks a target gets no longer depend on the targets before it.
   */
  lemma {:induction false} AutomateEachIndependent(rules: Matcher, playbooks: PlaybookModules, flatten: Flattener, silent: bool, skip: seq<string>, targets: seq<Json>, acc: AutoState)
    ensures var r := AutomateEachFrom(rules, playbooks, flatten, silent, skip, targets, acc);
      |r.processed| == |acc.processed| + |targets| && r.processed[..|acc.processed|] == acc.processed
      && forall i :: 0 <= i < |targets| ==> r.processed[|acc.processed| + i] == Alone(rules, playbooks, flatten, silent, skip, targets[i])
  {
    if targets != [] {
      var t := targets[0];
      var next := AutomateEachStep(rules, playbooks, flatten, silent, skip, acc, t);
      if t.Obj? {
        MatchFromEvents(rules, playbooks, flatten(t), silent, 0, t, skip, acc.events);
      }
      assert next.processed == acc.processed + [Alone(rules, playbooks, flatten, silent, skip, t)];
      AutomateEachIndependent(rules, playbooks, flatten, silent, skip, targets[1..], next);
      var r := AutomateEachFrom(rules, playbooks, flatten, silent, skip, targets, acc);
      assert r.processed[..|acc.processed|] == r.processed[..|next.processed|][..|acc.processed|];
      forall i | 0 <= i < |targets| ensures r.processed[|acc.processed| + i] == Alone(rules, playbooks, flatten, silent, skip, targets[i]) {
        if i == 0 {
          assert r.processed[|acc.processed|] == r.processed[..|next.processed|][|acc.processed|];
        } else {
          assert targets[1..][i - 1] == targets[i];
        }
      }
    } else {
      assert acc.processed[..|acc.processed|] == acc.processed;
    }
  }
}
