/**
 * Automation dispatch: the parser manager turns a finished command into metadata and target
 * records, and the playbook manager runs playbooks over targets under a skip list.
 * YARA matching, module import and the modules themselves are oracles (function-valued fields).
 */
module Automation {
  import opened Optional
  import opened JsonModel
  import opened Commands
  import Flatten

  /** A matched rule: its name and the `module` entry of its meta section, if any. */
  datatype Rule = Rule(name: string, moduleName: Option<string>)

  /** The rule names a module: the entry is present and non-empty. */
  predicate HasModule(r: Rule)
  {
    r.moduleName.Some? && r.moduleName.value != ""
  }

  /** The exceptions both callbacks catch: ModuleNotFoundError, AttributeError, TypeError. */
  datatype HandlerError = ModuleNotFound | MissingAttribute | BadSignature

  /** What importing and running a parser module does: its (metadata, targets) pair, or an exception. */
  datatype ParserOutcome = Parsed(metadata: Json, targets: seq<Json>) | ParserRaised(error: HandlerError)

  /**
   * What importing and running a playbook does to a target: the target afterwards and the
   * returned result, or an exception (changes made before it are kept).
   */
  datatype PlaybookOutcome = Ran(target: Json, result: Json) | PlaybookRaised(target: Json, error: HandlerError)

  /** What the managers print and which playbooks they invoke, in order. */
  datatype Event =
    | NoModule(rule: string)
    | Invoked(playbook: string)
    | Printed(result: Json)
    | Failed(name: string, error: HandlerError)
    | NotADict(target: Json)

  /** Rules matched over a command's output, given the command text as an external. */
  type CommandMatcher = (string, string) -> seq<Rule>
  type ParserModules = (string, Command) -> ParserOutcome
  /** Rules matched over a flattened target string. */
  type Matcher = string -> seq<Rule>
  type PlaybookModules = (string, Json) -> PlaybookOutcome

  // ---------------------------------------------------------------------------------------------
  // Parsing

  datatype ParseState = ParseState(metadata: seq<Member>, targets: seq<Json>, events: seq<Event>)

  /** The metadata a parse starts from: the command's uuid and its serialised form. */
  function InitialMetadata(c: Command): (ms: seq<Member>)
    ensures Keys(ms) == ["SOURCE_UUID", "RAW_COMMAND"]
  {
    [Member("SOURCE_UUID", Str(c.uuid)), Member("RAW_COMMAND", ToJson(c))]
  }

  /** The target says which command it came from. */
  predicate Stamped(t: Json, uuid: string)
  {
    t.Obj? && Lookup(t.members, "source_command") == Some(Str(uuid))
  }

  /** `target['source_command'] = uuid` on a dict target. */
  function Stamp(t: Json, uuid: string): (r: Json)
    requires t.Obj?
    ensures Stamped(r, uuid)
    ensures forall k :: k != "source_command" ==> Lookup(r.members, k) == Lookup(t.members, k)
  {
    PutLookups(t.members, "source_command", Str(uuid));
    Obj(Put(t.members, "source_command", Str(uuid)))
  }

  /** Stamping every target, or `None` when one of them is not a dict (the TypeError). */
  function StampAll(ts: seq<Json>, uuid: string): (r: Option<seq<Json>>)
    ensures r.Some? <==> forall i :: 0 <= i < |ts| ==> ts[i].Obj?
    ensures r.Some? ==> |r.value| == |ts| && forall i :: 0 <= i < |ts| ==> ts[i].Obj? && r.value[i] == Stamp(ts[i], uuid)
    ensures r.Some? ==> forall i :: 0 <= i < |ts| ==> Stamped(r.value[i], uuid)
  {
    if ts == [] then Some([])
    else if !ts[0].Obj? then None
    else
      match StampAll(ts[1..], uuid)
      case None => None
      case Some(rest) => Some([Stamp(ts[0], uuid)] + rest)
  }

  /**
   * One parser-rule callback: a rule without a module only prints; a raising parser only prints;
   * otherwise the metadata entry for the module is set, then the targets are stamped and
   * appended. A non-dict target raises after the metadata was set, so nothing is appended.
   */
  function ParseCallback(parsers: ParserModules, c: Command, rule: Rule, st: ParseState): ParseState
  {
    if !HasModule(rule) then st.(events := st.events + [NoModule(rule.name)])
    else
      var m := rule.moduleName.value;
      match parsers(m, c)
      case ParserRaised(e) => st.(events := st.events + [Failed(m, e)])
      case Parsed(meta, ts) =>
        var md := Put(st.metadata, m, meta);
        match StampAll(ts, c.uuid)
        case None => ParseState(md, st.targets, st.events + [Failed(m, BadSignature)])
        case Some(stamped) => ParseState(md, st.targets + stamped, st.events)
  }

  /** A callback sets at most the metadata entry of its rule's module, and sets it when that module returned. */
  lemma CallbackMetadata(parsers: ParserModules, c: Command, rule: Rule, st: ParseState)
    ensures var next := ParseCallback(parsers, c, rule, st);
      (HasModule(rule) && parsers(rule.moduleName.value, c).Parsed? ==>
        Lookup(next.metadata, rule.moduleName.value) == Some(parsers(rule.moduleName.value, c).metadata))
      && forall k :: !(HasModule(rule) && k == rule.moduleName.value) ==> Lookup(next.metadata, k) == Lookup(st.metadata, k)
  {
    if HasModule(rule) && parsers(rule.moduleName.value, c).Parsed? {
      PutLookups(st.metadata, rule.moduleName.value, parsers(rule.moduleName.value, c).metadata);
    }
  }

  /** The callbacks for `matches`, in order. */
  function ParseAll(parsers: ParserModules, c: Command, matches: seq<Rule>, st: ParseState): ParseState
  {
    if matches == [] then st else ParseAll(parsers, c, matches[1..], ParseCallback(parsers, c, matches[0], st))
  }

  /** `parse(command)`: a fresh buffer pair run through every rule matched on the command's output. */
  function ParseSpec(rules: CommandMatcher, parsers: ParserModules, c: Command): ParseState
  {
    ParseAll(parsers, c, rules(c.output, c.command), ParseState(InitialMetadata(c), [], []))
  }

  /** The rule's module imports and runs without raising. */
  predicate Useful(parsers: ParserModules, c: Command, rule: Rule)
  {
    HasModule(rule) && parsers(rule.moduleName.value, c).Parsed?
  }

  /** Every target a parse collects is stamped with the command's uuid. */
  lemma {:induction false} ParseAllStamped(parsers: ParserModules, c: Command, matches: seq<Rule>, st: ParseState)
    requires forall i :: 0 <= i < |st.targets| ==> Stamped(st.targets[i], c.uuid)
    ensures forall i :: 0 <= i < |ParseAll(parsers, c, matches, st).targets| ==> Stamped(ParseAll(parsers, c, matches, st).targets[i], c.uuid)
  {
    if matches != [] {
      var next := ParseCallback(parsers, c, matches[0], st);
      forall i | 0 <= i < |next.targets| ensures Stamped(next.targets[i], c.uuid) {
        if i >= |st.targets| {
          var stamped := StampAll(parsers(matches[0].moduleName.value, c).targets, c.uuid).value;
          assert next.targets == st.targets + stamped;
          assert next.targets[i] == stamped[i - |st.targets|];
        }
      }
      ParseAllStamped(parsers, c, matches[1..], next);
      assert ParseAll(parsers, c, matches, st) == ParseAll(parsers, c, matches[1..], next);
    }
  }

  /** Every target a parse returns is stamped with the command's uuid. */
  lemma ParseStamped(rules: CommandMatcher, parsers: ParserModules, c: Command)
    ensures forall t :: t in ParseSpec(rules, parsers, c).targets ==> Stamped(t, c.uuid)
  {
    ParseAllStamped(parsers, c, rules(c.output, c.command), ParseState(InitialMetadata(c), [], []));
    var ts := ParseSpec(rules, parsers, c).targets;
    assert ts == ParseAll(parsers, c, rules(c.output, c.command), ParseState(InitialMetadata(c), [], [])).targets;
    forall t | t in ts ensures Stamped(t, c.uuid) {
      var i :| 0 <= i < |ts| && ts[i] == t;
    }
  }

  /**
   * Every module some matched rule names and whose parser returns holds that parser's metadata
   * at the end (all rules naming it write the same value); a module no rule names keeps what
   * it had.
   */
  lemma {:induction false} ParseAllMetadata(parsers: ParserModules, c: Command, matches: seq<Rule>, st: ParseState, m: string)
    requires parsers(m, c).Parsed?
    requires Lookup(st.metadata, m) == None || Lookup(st.metadata, m) == Some(parsers(m, c).metadata)
    ensures (exists i :: 0 <= i < |matches| && matches[i].moduleName == Some(m) && m != "") ==>
      Lookup(ParseAll(parsers, c, matches, st).metadata, m) == Some(parsers(m, c).metadata)
    ensures (forall i :: 0 <= i < |matches| ==> matches[i].moduleName != Some(m)) ==>
      Lookup(ParseAll(parsers, c, matches, st).metadata, m) == Lookup(st.metadata, m)
  {
    if matches != [] {
      var next := ParseCallback(parsers, c, matches[0], st);
      CallbackMetadata(parsers, c, matches[0], st);
      ParseAllMetadata(parsers, c, matches[1..], next, m);
      if matches[0].moduleName == Some(m) && m != "" {
        assert Lookup(next.metadata, m) == Some(parsers(m, c).metadata);
        ParseAllMetadataKept(parsers, c, matches[1..], next, m);
      }
      forall i | 1 <= i < |matches| ensures matches[1..][i - 1] == matches[i] { }
    }
  }

  /** Once a returning module's metadata is in, later rules do not change it. */
  lemma {:induction false} ParseAllMetadataKept(parsers: ParserModules, c: Command, matches: seq<Rule>, st: ParseState, m: string)
    requires parsers(m, c).Parsed?
    requires Lookup(st.metadata, m) == Some(parsers(m, c).metadata)
    ensures Lookup(ParseAll(parsers, c, matches, st).metadata, m) == Some(parsers(m, c).metadata)
  {
    if matches != [] {
      CallbackMetadata(parsers, c, matches[0], st);
      ParseAllMetadataKept(parsers, c, matches[1..], ParseCallback(parsers, c, matches[0], st), m);
    }
  }

  /** Dropping the rules that name no module or whose parser raises changes neither buffer. */
  lemma {:induction false} ParseIgnoresUseless(parsers: ParserModules, c: Command, matches: seq<Rule>, st: ParseState)
    ensures var r := ParseAll(parsers, c, matches, st);
      var f := ParseAll(parsers, c, UsefulRules(parsers, c, matches), st);
      r.metadata == f.metadata && r.targets == f.targets
  {
    if matches != [] {
      var next := ParseCallback(parsers, c, matches[0], st);
      if Useful(parsers, c, matches[0]) {
        ParseIgnoresUseless(parsers, c, matches[1..], next);
      } else {
        assert next.metadata == st.metadata && next.targets == st.targets;
        assert UsefulRules(parsers, c, matches) == UsefulRules(parsers, c, matches[1..]);
        ParseIgnoresUseless(parsers, c, matches[1..], next);
        ParseAllIgnoresEvents(parsers, c, UsefulRules(parsers, c, matches[1..]), next, st);
      }
    }
  }

  /** The buffers a parse ends with do not depend on what was printed before. */
  lemma {:induction false} ParseAllIgnoresEvents(parsers: ParserModules, c: Command, matches: seq<Rule>, a: ParseState, b: ParseState)
    requires a.metadata == b.metadata && a.targets == b.targets
    ensures ParseAll(parsers, c, matches, a).metadata == ParseAll(parsers, c, matches, b).metadata
    ensures ParseAll(parsers, c, matches, a).targets == ParseAll(parsers, c, matches, b).targets
  {
    if matches != [] {
      ParseAllIgnoresEvents(parsers, c, matches[1..], ParseCallback(parsers, c, matches[0], a), ParseCallback(parsers, c, matches[0], b));
    }
  }

  function UsefulRules(parsers: ParserModules, c: Command, matches: seq<Rule>): seq<Rule>
  {
    if matches == [] then []
    else (if Useful(parsers, c, matches[0]) then [matches[0]] else []) + UsefulRules(parsers, c, matches[1..])
  }

  /**
   * A module that raises and a rule without a module add nothing, and the rules after them still
   * run: here the second rule's targets are collected although the first rule's parser raised.
   */
  lemma ParseContinuesAfterFailure(rules: CommandMatcher, parsers: ParserModules, c: Command, t: seq<Member>)
    requires rules(c.output, c.command) == [Rule("a", Some("missing")), Rule("b", None), Rule("c", Some("nmap"))]
    requires parsers("missing", c) == ParserRaised(ModuleNotFound)
    requires parsers("nmap", c) == Parsed(Obj([]), [Obj(t)])
    ensures ParseSpec(rules, parsers, c).targets == [Stamp(Obj(t), c.uuid)]
    ensures ParseSpec(rules, parsers, c).events == [Failed("missing", ModuleNotFound), NoModule("b")]
  {
    var s0 := ParseState(InitialMetadata(c), [], []);
    var matches := rules(c.output, c.command);
    var s1 := ParseCallback(parsers, c, matches[0], s0);
    var s2 := ParseCallback(parsers, c, matches[1], s1);
    var s3 := ParseCallback(parsers, c, matches[2], s2);
    assert [Obj(t)][1..] == [];
    assert StampAll([], c.uuid) == Some([]);
    assert StampAll([Obj(t)], c.uuid) == Some([Stamp(Obj(t), c.uuid)] + []);
    assert ParseAll(parsers, c, matches[3..], s3) == s3;
    assert ParseAll(parsers, c, matches[2..], s2) == s3;
    assert ParseAll(parsers, c, matches[1..], s1) == s3;
  }

  /** The parser manager: per-command buffers that the rule callbacks fill in place. */
  class CommandParserManager {
    const rules: CommandMatcher
    const parsers: ParserModules
    var currentCommand: Option<Command>
    var metadataBuffer: seq<Member>
    var targetBuffer: seq<Json>
    var events: seq<Event>

    constructor (rules: CommandMatcher, parsers: ParserModules)
      ensures this.rules == rules && this.parsers == parsers
      ensures currentCommand == None && metadataBuffer == [] && targetBuffer == [] && events == []
    {
      this.rules := rules;
      this.parsers := parsers;
      currentCommand := None;
      metadataBuffer := [];
      targetBuffer := [];
      events := [];
    }

    function Buffers(): ParseState
      reads this
    {
      ParseState(metadataBuffer, targetBuffer, events)
    }

    /** `yara_callback(match)` for one matched parser rule. */
    method YaraCallback(rule: Rule)
      requires currentCommand.Some?
      modifies this
      ensures currentCommand == old(currentCommand)
      ensures Buffers() == ParseCallback(parsers, currentCommand.value, rule, old(Buffers()))
    {
      if !HasModule(rule) {
        events := events + [NoModule(rule.name)];
        return;
      }
      var m := rule.moduleName.value;
      var c := currentCommand.value;
      var outcome := parsers(m, c);
      if outcome.ParserRaised? {
        events := events + [Failed(m, outcome.error)];
        return;
      }
      metadataBuffer := Put(metadataBuffer, m, outcome.metadata);
      var ts := outcome.targets;
      var stamped: seq<Json> := [];
      var i := 0;
      while i < |ts|
        invariant 0 <= i <= |ts|
        invariant |stamped| == i
        invariant forall j :: 0 <= j < i ==> ts[j].Obj? && stamped[j] == Stamp(ts[j], c.uuid)
      {
        if !ts[i].Obj? {
          events := events + [Failed(m, BadSignature)];
          return;
        }
        stamped := stamped + [Stamp(ts[i], c.uuid)];
        i := i + 1;
      }
      assert stamped == StampAll(ts, c.uuid).value;
      targetBuffer := targetBuffer + stamped;
    }

    /** `parse(command)`: returns the metadata and target buffers. */
    method Parse(command: Command) returns (metadata: seq<Member>, targets: seq<Json>)
      modifies this
      ensures currentCommand == Some(command)
      ensures Buffers() == ParseSpec(rules, parsers, command).(events := old(events) + ParseSpec(rules, parsers, command).events)
      ensures metadata == metadataBuffer && targets == targetBuffer
    {
      currentCommand := Some(command);
      metadataBuffer := InitialMetadata(command);
      targetBuffer := [];
      var before := events;
      events := [];
      var matches := rules(command.output, command.command);
      var i := 0;
      while i < |matches|
        invariant 0 <= i <= |matches|
        invariant currentCommand == Some(command)
        invariant ParseAll(parsers, command, matches[i..], Buffers()) == ParseSpec(rules, parsers, command)
      {
        assert matches[i..][1..] == matches[i + 1..];
        YaraCallback(matches[i]);
        i := i + 1;
      }
      assert matches[i..] == [];
      events := before + events;
      metadata, targets := metadataBuffer, targetBuffer;
    }
  }
}
