/**
 * The playbook manager: every dict target is flattened to text, the playbook rules are matched
 * against it, and each matched playbook not yet in the skip list runs on the target and then
 * triggers a new match over the same text.
 */
module Playbooks {
  import opened Optional
  import opened JsonModel
  import opened Automation
  import Flatten

  /** The playbooks a target and its skip list stand at; `events` is everything printed or invoked so far. */
  datatype State = State(target: Json, skip: seq<string>, events: seq<Event>)

  /** The modules the rules name. */
  function ModulesOf(rs: seq<Rule>): set<string>
  {
    set r | r in rs && HasModule(r) :: r.moduleName.value
  }

  /** The named modules not yet in the skip list: what bounds the recursion. */
  function Pending(rs: seq<Rule>, skip: seq<string>): set<string>
  {
    set m | m in ModulesOf(rs) && m !in skip
  }

  /**
   * `r` continues `st`: the skip list only gains distinct modules new to it, the events only
   * grow, and no module that was already skipped is invoked.
   */
  predicate Grows(st: State, r: State)
  {
    |st.skip| <= |r.skip| && r.skip[..|st.skip|] == st.skip
    && (forall i :: |st.skip| <= i < |r.skip| ==> r.skip[i] !in st.skip)
    && (forall i, j :: |st.skip| <= i < j < |r.skip| ==> r.skip[i] != r.skip[j])
    && |st.events| <= |r.events| && r.events[..|st.events|] == st.events
    && (forall i :: |st.events| <= i < |r.events| && r.events[i].Invoked? ==> r.events[i].playbook !in st.skip)
  }

  /** Every module the skip list gained is one of `mods`. */
  predicate GainedFrom(st: State, r: State, mods: set<string>)
  {
    forall i :: |st.skip| <= i < |r.skip| ==> r.skip[i] in mods
  }

  lemma GrowsTrans(a: State, b: State, c: State)
    requires Grows(a, b) && Grows(b, c)
    ensures Grows(a, c)
  {
    assert c.skip[..|a.skip|] == c.skip[..|b.skip|][..|a.skip|];
    assert c.events[..|a.events|] == c.events[..|b.events|][..|a.events|];
    assert forall x :: x in a.skip ==> x in b.skip by {
      forall x | x in a.skip ensures x in b.skip {
        var k :| 0 <= k < |a.skip| && a.skip[k] == x;
        assert b.skip[k] == x;
      }
    }
    forall i | |a.skip| <= i < |c.skip| ensures c.skip[i] !in a.skip {
      if i < |b.skip| {
        assert c.skip[i] == b.skip[i];
      }
    }
    forall i, j | |a.skip| <= i < j < |c.skip| ensures c.skip[i] != c.skip[j] {
      if j >= |b.skip| && i < |b.skip| {
        assert c.skip[i] == b.skip[i];
        assert c.skip[i] in b.skip;
      }
    }
    forall i | |a.events| <= i < |c.events| && c.events[i].Invoked? ensures c.events[i].playbook !in a.skip {
      if i < |b.events| {
        assert c.events[i] == b.events[i];
      }
    }
  }

  lemma GainedTrans(a: State, b: State, c: State, mods: set<string>)
    requires Grows(a, b) && Grows(b, c) && GainedFrom(a, b, mods) && GainedFrom(b, c, mods)
    ensures GainedFrom(a, c, mods)
  {
    forall i | |a.skip| <= i < |c.skip| ensures c.skip[i] in mods {
      if i < |b.skip| {
        assert c.skip[i] == c.skip[..|b.skip|][i];
      }
    }
  }

  /** A longer skip list leaves fewer modules pending. */
  lemma PendingShrinks(rs: seq<Rule>, skip: seq<string>, more: seq<string>)
    requires Extends(skip, more)
    ensures Pending(rs, more) <= Pending(rs, skip)
    ensures |Pending(rs, more)| <= |Pending(rs, skip)|
  {
    SubsetCard(Pending(rs, more), Pending(rs, skip));
  }

  lemma {:induction false} SubsetCard<T>(a: set<T>, b: set<T>)
    requires a <= b
    ensures |a| <= |b|
  {
    if a != {} {
      var x :| x in a;
      SubsetCard(a - {x}, b - {x});
    }
  }

  /** Skipping one more pending module leaves strictly fewer pending. */
  lemma PendingDrops(rs: seq<Rule>, skip: seq<string>, m: string)
    requires m in Pending(rs, skip)
    ensures Pending(rs, skip + [m]) == Pending(rs, skip) - {m}
    ensures |Pending(rs, skip + [m])| < |Pending(rs, skip)|
  {
  }

  /** `skip` is a prefix of `more`: the skip list was only appended to. */
  predicate Extends(skip: seq<string>, more: seq<string>)
  {
    |skip| <= |more| && more[..|skip|] == skip
  }

  /**
   * `yara_callback(match)` of the playbook manager: a rule without a module prints; a module in
   * the skip list is skipped; otherwise the playbook runs on the target; a raising playbook only
   * prints; a returning one is appended to the skip list, after which the rules are matched
   * again over the same flattened string, and the callback returns.
   */
  function Callback(rules: Matcher, playbooks: PlaybookModules, flat: string, silent: bool, rule: Rule, st: State): (r: State)
    requires rule in rules(flat)
    ensures Extends(st.skip, r.skip)
    decreases |Pending(rules(flat), st.skip)|, 0
  {
    if !HasModule(rule) then st.(events := st.events + [NoModule(rule.name)])
    else if rule.moduleName.value in st.skip then st
    else
      var m := rule.moduleName.value;
      var invoked := st.events + [Invoked(m)];
      match playbooks(m, st.target)
      case PlaybookRaised(t, e) => State(t, st.skip, invoked + [Failed(m, e)])
      case Ran(t, result) =>
        var printed := if Truthy(result) && !silent then invoked + [Printed(result)] else invoked;
        var next := State(t, st.skip + [m], printed);
        assert m in ModulesOf(rules(flat));
        PendingDrops(rules(flat), st.skip, m);
        var r := MatchFrom(rules, playbooks, flat, silent, 0, next);
        assert r.skip[..|st.skip|] == r.skip[..|next.skip|][..|st.skip|];
        r
  }

  /** The callbacks for the rules matched over `flat`, from the `i`-th on. */
  function MatchFrom(rules: Matcher, playbooks: PlaybookModules, flat: string, silent: bool, i: nat, st: State): (r: State)
    requires i <= |rules(flat)|
    ensures Extends(st.skip, r.skip)
    decreases |Pending(rules(flat), st.skip)|, 1, |rules(flat)| - i
  {
    if i == |rules(flat)| then
      assert st.skip[..|st.skip|] == st.skip;
      st
    else
      var next := Callback(rules, playbooks, flat, silent, rules(flat)[i], st);
      PendingShrinks(rules(flat), st.skip, next.skip);
      var r := MatchFrom(rules, playbooks, flat, silent, i + 1, next);
      assert r.skip[..|st.skip|] == r.skip[..|next.skip|][..|st.skip|];
      r
  }

  /**
   * A callback only appends distinct modules new to the skip list, all named by the rules, only
   * appends events, and never invokes a module that was already skipped.
   */
  lemma {:induction false} CallbackGrows(rules: Matcher, playbooks: PlaybookModules, flat: string, silent: bool, rule: Rule, st: State)
    requires rule in rules(flat)
    ensures var r := Callback(rules, playbooks, flat, silent, rule, st);
      Grows(st, r) && GainedFrom(st, r, ModulesOf(rules(flat)))
    decreases |Pending(rules(flat), st.skip)|, 0
  {
    var r := Callback(rules, playbooks, flat, silent, rule, st);
    if !HasModule(rule) || rule.moduleName.value in st.skip {
      assert st.skip[..|st.skip|] == st.skip && r.events[..|st.events|] == st.events;
    } else {
      var m := rule.moduleName.value;
      var invoked := st.events + [Invoked(m)];
      assert invoked[..|st.events|] == st.events;
      match playbooks(m, st.target)
      case PlaybookRaised(t, e) =>
        assert (invoked + [Failed(m, e)])[..|st.events|] == st.events;
        assert st.skip[..|st.skip|] == st.skip;
      case Ran(t, result) =>
        var printed := if Truthy(result) && !silent then invoked + [Printed(result)] else invoked;
        assert printed[..|st.events|] == st.events;
        var next := State(t, st.skip + [m], printed);
        assert next.skip[..|st.skip|] == st.skip;
        assert m in ModulesOf(rules(flat));
        assert Grows(st, next) && GainedFrom(st, next, ModulesOf(rules(flat)));
        PendingDrops(rules(flat), st.skip, m);
        MatchFromGrows(rules, playbooks, flat, silent, 0, next);
        GrowsTrans(st, next, r);
        GainedTrans(st, next, r, ModulesOf(rules(flat)));
    }
  }

  /** The pass from the `i`-th matched rule keeps what `CallbackGrows` states. */
  lemma {:induction false} MatchFromGrows(rules: Matcher, playbooks: PlaybookModules, flat: string, silent: bool, i: nat, st: State)
    requires i <= |rules(flat)|
    ensures var r := MatchFrom(rules, playbooks, flat, silent, i, st);
      Grows(st, r) && GainedFrom(st, r, ModulesOf(rules(flat)))
    decreases |Pending(rules(flat), st.skip)|, 1, |rules(flat)| - i
  {
    if i == |rules(flat)| {
      assert st.skip[..|st.skip|] == st.skip && st.events[..|st.events|] == st.events;
    } else {
      var next := Callback(rules, playbooks, flat, silent, rules(flat)[i], st);
      CallbackGrows(rules, playbooks, flat, silent, rules(flat)[i], st);
      PendingShrinks(rules(flat), st.skip, next.skip);
      MatchFromGrows(rules, playbooks, flat, silent, i + 1, next);
      var r := MatchFrom(rules, playbooks, flat, silent, i + 1, next);
      GrowsTrans(st, next, r);
      GainedTrans(st, next, r, ModulesOf(rules(flat)));
    }
  }

  /** Nothing pending: every rule only prints or is skipped, and target and skip list stay. */
  lemma {:induction false} NothingPendingNothingRuns(rules: Matcher, playbooks: PlaybookModules, flat: string, silent: bool, i: nat, st: State)
    requires i <= |rules(flat)| && Pending(rules(flat), st.skip) == {}
    ensures var r := MatchFrom(rules, playbooks, flat, silent, i, st);
      r.target == st.target && r.skip == st.skip
      && forall k :: |st.events| <= k < |r.events| ==> r.events[k].NoModule?
    decreases |rules(flat)| - i
  {
    if i < |rules(flat)| {
      var rule := rules(flat)[i];
      if HasModule(rule) {
        assert rule.moduleName.value in ModulesOf(rules(flat));
        assert rule.moduleName.value !in Pending(rules(flat), st.skip);
      }
      var next := Callback(rules, playbooks, flat, silent, rule, st);
      NothingPendingNothingRuns(rules, playbooks, flat, silent, i + 1, next);
      MatchFromGrows(rules, playbooks, flat, silent, i + 1, next);
      var r := MatchFrom(rules, playbooks, flat, silent, i + 1, next);
      forall k | |st.events| <= k < |next.events| ensures r.events[k].NoModule? {
        assert r.events[k] == r.events[..|next.events|][k];
      }
    }
  }

  /** How a target is turned into the text the rules are matched against (`flatten_dict` and `flatten_dict_to_string`). */
  type Flattener = Json -> string

  /** A pass over one target, starting from the skip list and events given. */
  function RunTarget(rules: Matcher, playbooks: PlaybookModules, flatten: Flattener, silent: bool, t: Json, skip: seq<string>, events: seq<Event>): State
  {
    MatchFrom(rules, playbooks, flatten(t), silent, 0, State(t, skip, events))
  }

  /** What `automate` leaves: targets afterwards, the shared skip list, events, and the manager's current target and flattened string. */
  datatype AutoState = AutoState(processed: seq<Json>, skip: seq<string>, events: seq<Event>, current: Json, flat: string)

  /**
   * One target of `automate`: a non-dict prints and is left as it is; a dict is flattened once
   * and matched, with the skip list carried over from the targets before it.
   */
  function AutomateStep(rules: Matcher, playbooks: PlaybookModules, flatten: Flattener, silent: bool, acc: AutoState, t: Json): AutoState
  {
    if !t.Obj? then AutoState(acc.processed + [t], acc.skip, acc.events + [NotADict(t)], t, acc.flat)
    else
      var r := RunTarget(rules, playbooks, flatten, silent, t, acc.skip, acc.events);
      AutoState(acc.processed + [r.target], r.skip, r.events, r.target, flatten(t))
  }

  function AutomateFrom(rules: Matcher, playbooks: PlaybookModules, flatten: Flattener, silent: bool, targets: seq<Json>, acc: AutoState): (r: AutoState)
    ensures |r.processed| == |acc.processed| + |targets| && r.processed[..|acc.processed|] == acc.processed
  {
    if targets == [] then acc else AutomateFrom(rules, playbooks, flatten, silent, targets[1..], AutomateStep(rules, playbooks, flatten, silent, acc, targets[0]))
  }

  /**
   * With one skip list for the whole call, the skip list only grows, by distinct modules new to
   * it, and a module that was in it is never invoked: a playbook runs to completion at most
   * once per call, over all targets together.
   */
  lemma {:induction false} AutomateSharesSkipList(rules: Matcher, playbooks: PlaybookModules, flatten: Flattener, silent: bool, targets: seq<Json>, acc: AutoState)
    ensures var r := AutomateFrom(rules, playbooks, flatten, silent, targets, acc);
      Grows(State(Null, acc.skip, acc.events), State(Null, r.skip, r.events))
      && |r.processed| == |acc.processed| + |targets| && r.processed[..|acc.processed|] == acc.processed
  {
    var s := State(Null, acc.skip, acc.events);
    if targets == [] {
      assert acc.skip[..|acc.skip|] == acc.skip && acc.events[..|acc.events|] == acc.events;
      assert acc.processed[..|acc.processed|] == acc.processed;
    } else {
      var next := AutomateStep(rules, playbooks, flatten, silent, acc, targets[0]);
      var s1 := State(Null, next.skip, next.events);
      if targets[0].Obj? {
        MatchFromGrows(rules, playbooks, flatten(targets[0]), silent, 0, State(targets[0], acc.skip, acc.events));
      } else {
        assert next.events[..|acc.events|] == acc.events;
        assert acc.skip[..|acc.skip|] == acc.skip;
      }
      assert Grows(s, s1);
      AutomateSharesSkipList(rules, playbooks, flatten, silent, targets[1..], next);
      var r := AutomateFrom(rules, playbooks, flatten, silent, targets, acc);
      GrowsTrans(s, s1, State(Null, r.skip, r.events));
      assert r.processed[..|acc.processed|] == r.processed[..|next.processed|][..|acc.processed|];
    }
  }

  /** Corrected: each dict target starts from its own copy of the skip list passed in. */
  function AutomateEachStep(rules: Matcher, playbooks: PlaybookModules, flatten: Flattener, silent: bool, skip: seq<string>, acc: AutoState, t: Json): AutoState
  {
    if !t.Obj? then AutoState(acc.processed + [t], acc.skip, acc.events + [NotADict(t)], t, acc.flat)
    else
      var r := RunTarget(rules, playbooks, flatten, silent, t, skip, acc.events);
      AutoState(acc.processed + [r.target], acc.skip, r.events, r.target, flatten(t))
  }

  function AutomateEachFrom(rules: Matcher, playbooks: PlaybookModules, flatten: Flattener, silent: bool, skip: seq<string>, targets: seq<Json>, acc: AutoState): (r: AutoState)
    ensures |r.processed| == |acc.processed| + |targets| && r.processed[..|acc.processed|] == acc.processed
    ensures r.skip == acc.skip
  {
    if targets == [] then acc
    else AutomateEachFrom(rules, playbooks, flatten, silent, skip, targets[1..], AutomateEachStep(rules, playbooks, flatten, silent, skip, acc, targets[0]))
  }

  /** A dict target of the corrected `automate`, matched on its flattened text `flat`. */
  lemma EachStepDict(rules: Matcher, playbooks: PlaybookModules, silent: bool, skip: seq<string>, acc: AutoState,
                     t: Json, flat: string, after: AutoState)
    requires t.Obj? && flat == Flatten.FlatString(t) && acc.skip == skip
    requires var r := MatchFrom(rules, playbooks, flat, silent, 0, State(t, skip, acc.events));
      after == AutoState(acc.processed + [r.target], skip, r.events, r.target, flat)
    ensures after == AutomateEachStep(rules, playbooks, Flatten.FlatString, silent, skip, acc, t)
  {
  }

  /** What a target becomes when it is the only one processed. */
  function Alone(rules: Matcher, playbooks: PlaybookModules, flatten: Flattener, silent: bool, skip: seq<string>, t: Json): Json
  {
    if t.Obj? then RunTarget(rules, playbooks, flatten, silent, t, skip, []).target else t
  }

  /** The list `automate` appends to; callers share it, as they share the default argument. */
  class SkipList {
    var items: seq<string>

    constructor (items: seq<string>)
      ensures this.items == items
    {
      this.items := items;
    }
  }

  /** The playbook manager: the current target, skip list and flattened string that the callbacks read. */
  class PlaybookManager {
    const rules: Matcher
    const playbooks: PlaybookModules
    /** The list object `skip_list=[]` creates once, when `automate` is defined. */
    const defaultSkipList: SkipList
    var currentTarget: Json
    var currentSkipList: SkipList?
    var currentSilent: bool
    var flatString: string
    var events: seq<Event>

    constructor (rules: Matcher, playbooks: PlaybookModules, defaultSkipList: SkipList)
      ensures this.rules == rules && this.playbooks == playbooks && this.defaultSkipList == defaultSkipList
      ensures currentTarget == Null && currentSkipList == null && !currentSilent && flatString == "" && events == []
    {
      this.rules := rules;
      this.playbooks := playbooks;
      this.defaultSkipList := defaultSkipList;
      currentTarget := Null;
      currentSkipList := null;
      currentSilent := false;
      flatString := "";
      events := [];
    }

    function Snapshot(): State
      requires currentSkipList != null
      reads this, currentSkipList
    {
      State(currentTarget, currentSkipList.items, events)
    }

    /** `yara_callback(match)` for one matched playbook rule. */
    method YaraCallback(rule: Rule)
      requires currentSkipList != null && rule in rules(flatString)
      modifies this, currentSkipList
      ensures currentSkipList == old(currentSkipList) && flatString == old(flatString) && currentSilent == old(currentSilent)
      ensures Snapshot() == Callback(rules, playbooks, flatString, currentSilent, rule, old(Snapshot()))
      decreases |Pending(rules(flatString), currentSkipList.items)|, 0
    {
      if !HasModule(rule) {
        events := events + [NoModule(rule.name)];
        return;
      }
      var m := rule.moduleName.value;
      if m in currentSkipList.items {
        return;
      }
      events := events + [Invoked(m)];
      var outcome := playbooks(m, currentTarget);
      currentTarget := outcome.target;
      if outcome.PlaybookRaised? {
        events := events + [Failed(m, outcome.error)];
        return;
      }
      if Truthy(outcome.result) && !currentSilent {
        events := events + [Printed(outcome.result)];
      }
      assert m in ModulesOf(rules(flatString));
      PendingDrops(rules(flatString), currentSkipList.items, m);
      currentSkipList.items := currentSkipList.items + [m];
      MatchAll();
    }

    /** `rules.match(data=flat_current_target_data_string, callback=yara_callback)`. */
    method MatchAll()
      requires currentSkipList != null
      modifies this, currentSkipList
      ensures currentSkipList == old(currentSkipList) && flatString == old(flatString) && currentSilent == old(currentSilent)
      ensures Snapshot() == MatchFrom(rules, playbooks, flatString, currentSilent, 0, old(Snapshot()))
      decreases |Pending(rules(flatString), currentSkipList.items)|, 1
    {
      var matches := rules(flatString);
      var i := 0;
      while i < |matches|
        invariant 0 <= i <= |matches|
        invariant currentSkipList == old(currentSkipList) && flatString == old(flatString) && currentSilent == old(currentSilent)
        invariant MatchFrom(rules, playbooks, flatString, currentSilent, i, Snapshot()) == MatchFrom(rules, playbooks, flatString, currentSilent, 0, old(Snapshot()))
        invariant |Pending(matches, currentSkipList.items)| <= |Pending(matches, old(currentSkipList.items))|
      {
        ghost var before := Snapshot();
        YaraCallback(matches[i]);
        PendingShrinks(matches, before.skip, currentSkipList.items);
        i := i + 1;
      }
    }

    /** The manager's state as `automate` leaves it, with `processed` the targets afterwards. */
    function Progress(processed: seq<Json>): AutoState
      requires currentSkipList != null
      reads this, currentSkipList
    {
      AutoState(processed, currentSkipList.items, events, currentTarget, flatString)
    }

    /** `automate(target_list, skip_list, silent)`. */
    method Automate(targetList: seq<Json>, skipList: SkipList, silent: bool) returns (processed: seq<Json>)
      modifies this, skipList
      ensures currentSkipList == skipList && currentSilent == silent
      ensures Progress(processed) == AutomateFrom(rules, playbooks, Flatten.FlatString, silent, targetList,
        AutoState([], old(skipList.items), old(events), old(currentTarget), old(flatString)))
    {
      currentSilent := silent;
      currentSkipList := skipList;
      processed := [];
      var i := 0;
      while i < |targetList|
        invariant 0 <= i <= |targetList|
        invariant currentSkipList == skipList && currentSilent == silent
        invariant AutomateFrom(rules, playbooks, Flatten.FlatString, silent, targetList[i..], Progress(processed))
          == AutomateFrom(rules, playbooks, Flatten.FlatString, silent, targetList, AutoState([], old(skipList.items), old(events), old(currentTarget), old(flatString)))
      {
        var target := targetList[i];
        currentTarget := target;
        if !target.Obj? {
          events := events + [NotADict(target)];
          processed := processed + [target];
        } else {
          var flat := Flatten.FlattenToString(target);
          flatString := flat;
          MatchAll();
          processed := processed + [currentTarget];
        }
        assert targetList[i..][1..] == targetList[i + 1..];
        i := i + 1;
      }
      assert targetList[i..] == [];
    }

    /** `automate(target_list, silent=silent)`: the skip list is the shared default object. */
    method AutomateDefault(targetList: seq<Json>, silent: bool) returns (processed: seq<Json>)
      modifies this, defaultSkipList
      ensures currentSkipList == defaultSkipList && currentSilent == silent
      ensures Progress(processed) == AutomateFrom(rules, playbooks, Flatten.FlatString, silent, targetList,
        AutoState([], old(defaultSkipList.items), old(events), old(currentTarget), old(flatString)))
    {
      processed := Automate(targetList, defaultSkipList, silent);
    }

    /** The manager's state with `processed` the targets so far and `skip` the caller's list. */
    function EachProgress(processed: seq<Json>, skip: seq<string>): AutoState
      reads this
    {
      AutoState(processed, skip, events, currentTarget, flatString)
    }

    /** One dict target of the corrected `automate`: matched on its text `flat` with its own copy of `skip`. */
    method RunFresh(target: Json, flat: string, skip: seq<string>)
      modifies this
      ensures currentSilent == old(currentSilent) && flatString == flat
      ensures var r := MatchFrom(rules, playbooks, flat, currentSilent, 0, State(target, skip, old(events)));
        currentTarget == r.target && events == r.events
    {
      var copy := new SkipList(skip);
      flatString := flat;
      currentTarget := target;
      currentSkipList := copy;
      MatchAll();
    }

    /** Corrected `automate`: every dict target gets a fresh copy of `skipList`, which is left as it is. */
    method AutomateEach(targetList: seq<Json>, skipList: SkipList, silent: bool) returns (processed: seq<Json>)
      modifies this
      ensures currentSilent == silent
      ensures EachProgress(processed, skipList.items) == AutomateEachFrom(rules, playbooks, Flatten.FlatString, silent,
        skipList.items, targetList, old(EachProgress([], skipList.items)))
    {
      ghost var goal := AutomateEachFrom(rules, playbooks, Flatten.FlatString, silent, skipList.items, targetList, EachProgress([], skipList.items));
      currentSilent := silent;
      processed := [];
      var i := 0;
      while i < |targetList|
        invariant 0 <= i <= |targetList|
        invariant currentSilent == silent
        invariant AutomateEachFrom(rules, playbooks, Flatten.FlatString, silent, skipList.items, targetList[i..],
          EachProgress(processed, skipList.items)) == goal
      {
        ghost var acc := EachProgress(processed, skipList.items);
        var target := targetList[i];
        currentTarget := target;
        if !target.Obj? {
          events := events + [NotADict(target)];
          processed := processed + [target];
        } else {
          var flat := Flatten.FlattenToString(target);
          RunFresh(target, flat, skipList.items);
          processed := processed + [currentTarget];
          EachStepDict(rules, playbooks, silent, skipList.items, acc, target, flat, EachProgress(processed, skipList.items));
        }
        assert EachProgress(processed, skipList.items) == AutomateEachStep(rules, playbooks, Flatten.FlatString, silent, skipList.items, acc, target);
        assert targetList[i..][1..] == targetList[i + 1..];
        i := i + 1;
      }
      assert targetList[i..] == [];
    }
  }
}
