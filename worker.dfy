/**
 * The distributed worker: it pulls a job from the server, runs its command, parses the output,
 * runs the playbooks silently, and hands each record to the sync queue. The server connection,
 * the subprocess and the sync queue are outside the model: the server's answers and what each
 * run produced are a sequence of inputs, and the sync calls are recorded as a trace.
 */
module Distributed {
  import opened Optional
  import opened JsonModel
  import opened Commands
  import opened Automation
  import opened Playbooks
  import Flatten
  import Constants
  import Seqs
  import opened Polling
  import PlaybookProperties
  import Exceptions

  /** What running a command leaves besides the command text and metadata it was given. */
  datatype RunResult = RunResult(
    stdout: string,
    stderr: string,
    output: string,
    startTime: Option<int>,
    endTime: Option<int>,
    host: string,
    ipaddr: string,
    cwd: string,
    uuid: string,
    returnCode: Option<int>)

  /** One answer of the server (`None` when it returned nothing) and what running its command produced. */
  datatype Pull = Pull(job: Option<seq<Member>>, run: RunResult)

  /** A call `queue_add_func(collection, record)`. */
  datatype Sync = Sync(collection: string, record: Json)

  /** `SystemCommand(command, additional_meta=meta)` after `run()`. */
  function Executed(command: string, meta: seq<Member>, r: RunResult): (c: Command)
    ensures c.command == command && c.additionalMeta == Some(meta) && c.uuid == r.uuid && c.endTime == r.endTime
  {
    Command(command, r.stdout, r.stderr, r.output, r.startTime, r.endTime, r.host, r.ipaddr, r.cwd, Some(meta), r.uuid, r.returnCode)
  }

  /**
   * The command text of the `SystemCommand` record. Only a string command gets past the launch
   * and the parsing without an exception (`LaunchFault`, `Fault`), so the text of any other
   * command is never synced or parsed.
   */
  function CommandText(v: Json): string
  {
    if v.Str? then v.s else ""
  }

  /**
   * The exception `subprocess.Popen(command, shell=True)` raises before anything runs, if any:
   * a text is one argument and must not hold a NUL character; any other command is turned into
   * a list (an integer or a boolean is not iterable; a list gives its items, a dictionary its
   * keys), and each item in turn must be a text without a NUL character.
   */
  function LaunchFault(command: Json): Option<Exceptions.PyError>
  {
    match command
    case Str(s) => if '\0' in s then Some(Exceptions.ValueError) else None
    case Arr(items) => ArgumentsFault(items)
    case Obj(members) => ArgumentsFault(seq(|members|, i requires 0 <= i < |members| => Str(members[i].key)))
    case _ => Some(Exceptions.TypeError)
  }

  /** The first argument that is not a text (TypeError) or holds a NUL character (ValueError). */
  function ArgumentsFault(args: seq<Json>): (r: Option<Exceptions.PyError>)
    ensures r.None? <==> forall i :: 0 <= i < |args| ==> args[i].Str? && '\0' !in args[i].s
  {
    if args == [] then None
    else if !args[0].Str? then Some(Exceptions.TypeError)
    else if '\0' in args[0].s then Some(Exceptions.ValueError)
    else
      var r := ArgumentsFault(args[1..]);
      assert forall i :: 1 <= i < |args| ==> args[i] == args[1..][i - 1];
      r
  }

  /**
   * `Popen` launches exactly a text without a NUL character, a list of such texts, or a dictionary
   * whose keys are such texts; an integer or a boolean never launches.
   */
  lemma LaunchesIff(command: Json)
    ensures LaunchFault(command).None? <==>
      (command.Str? && '\0' !in command.s)
      || (command.Arr? && forall i :: 0 <= i < |command.items| ==> command.items[i].Str? && '\0' !in command.items[i].s)
      || (command.Obj? && forall i :: 0 <= i < |command.members| ==> '\0' !in command.members[i].key)
    ensures command.Int? || command.Bool? ==> LaunchFault(command) == Some(Exceptions.TypeError)
  {
    if command.Obj? {
      var keys := seq(|command.members|, i requires 0 <= i < |command.members| => Str(command.members[i].key));
      assert forall i :: 0 <= i < |keys| ==> keys[i].Str? && keys[i].s == command.members[i].key;
    }
  }

  /** The job's `request_share` entry is present and truthy. */
  predicate RequestsShare(meta: seq<Member>)
  {
    var v := Lookup(meta, "request_share");
    v.Some? && Truthy(v.value)
  }

  /** The job metadata passed on: the job without `command`, plus `run-mode = "distributed"`. */
  function JobMeta(rest: seq<Member>): seq<Member>
  {
    Put(rest, "run-mode", Str("distributed"))
  }

  /** The share record of a run that did not complete: the metadata plus the command and `failed: True`. */
  function FailedRecord(meta: seq<Member>, command: Json): seq<Member>
  {
    UpdateWith(meta, [Member("command", command), Member("failed", Bool(true))])
  }

  /** The share record of a completed run: `{pull_command_uuid: uuid}` updated with the metadata. */
  function ShareRecord(uuid: string, meta: seq<Member>): seq<Member>
  {
    UpdateWith([Member("pull_command_uuid", Str(uuid))], meta)
  }

  /** The sync calls of a completed run, in order. */
  function CompletedSyncs(share: string, c: Command, metadata: seq<Member>, targets: seq<Json>, meta: seq<Member>): seq<Sync>
  {
    [Sync(Constants.DefaultCommandCollection, ToJson(c)), Sync(Constants.DefaultMetadataCollection, Obj(metadata))]
    + (if |targets| != 0 then [Sync(Constants.DefaultTargetCollection, Arr(targets))] else [])
    + (if RequestsShare(meta) then [Sync(share, Obj(ShareRecord(c.uuid, meta)))] else [])
  }

  /**
   * What the worker's collaborators do: `parse` is the parser manager's `parse`, `automate` the
   * playbook manager's silent `automate` from a given state, and `share` the share collection.
   */
  datatype Setup = Setup(
    parse: Command -> ParseState,
    automate: (seq<Json>, AutoState) -> AutoState,
    share: string)

  /** `CommandParserManager.parse` under the given rules and parser modules. */
  function Parser(rules: CommandMatcher, parsers: ParserModules): Command -> ParseState
  {
    (c: Command) => ParseSpec(rules, parsers, c)
  }

  /**
   * `PlaybookManager.automate(targets, silent=True)` under the given rules and playbook modules,
   * corrected so that each target starts from its own copy of the default skip list.
   */
  function SilentAutomation(rules: Matcher, playbooks: PlaybookModules): (r: (seq<Json>, AutoState) -> AutoState)
    ensures forall targets, a :: |r(targets, a).processed| == |a.processed| + |targets| && r(targets, a).skip == a.skip
  {
    (targets: seq<Json>, a: AutoState) => AutomateEachFrom(rules, playbooks, Flatten.FlatString, true, a.skip, targets, a)
  }

  /** The worker's setup from the rules and modules of its two managers. */
  function SetupFor(parserRules: CommandMatcher, parsers: ParserModules, playbookRules: Matcher,
                    playbooks: PlaybookModules, share: string): Setup
  {
    Setup(Parser(parserRules, parsers), SilentAutomation(playbookRules, playbooks), share)
  }

  /** One step: the sync calls it makes, whether it pulls again at once, and the playbook manager's state after it. */
  type Step = Turn<Sync, AutoState>

  /** The job names a command: `command_dict.pop("command", None)` is truthy. */
  predicate HasCommand(job: seq<Member>)
  {
    var v := Lookup(job, "command");
    v.Some? && Truthy(v.value)
  }

  /** The metadata of a job: what is left after popping `command`, with the run mode added. */
  function MetaOf(job: seq<Member>): seq<Member>
  {
    JobMeta(Remove(job, "command").1)
  }

  /** The passed-on metadata says `run-mode = "distributed"` and otherwise holds the job's entries except `command`. */
  lemma MetaOfLookups(job: seq<Member>)
    ensures Lookup(MetaOf(job), "run-mode") == Some(Str("distributed"))
    ensures forall k :: k != "run-mode" && k != "command" ==> Lookup(MetaOf(job), k) == Lookup(job, k)
  {
    RemoveLookups(job, "command");
    PutLookups(Remove(job, "command").1, "run-mode", Str("distributed"));
  }

  /** The command a job runs, with what the run produced. */
  function RunOf(job: seq<Member>, run: RunResult): Command
    requires HasCommand(job)
  {
    Executed(CommandText(Lookup(job, "command").value), MetaOf(job), run)
  }

  /** Parsing a completed command and running the playbooks over its targets silently with the given state. */
  function Automated(s: Setup, c: Command, pb: AutoState): AutoState
  {
    s.automate(s.parse(c).targets, AutoState([], pb.skip, pb.events, pb.current, pb.flat))
  }

  /**
   * The exception nobody catches that handling an answer raises, ending the worker's thread:
   * the launch's (system_command.py catches only KeyboardInterrupt and UnboundLocalError), or,
   * once a command that is not a text has completed, the TypeError of `parse`, whose rule
   * matching accepts only an integer, a float, a boolean or a text as the command.
   */
  function Fault(p: Pull): Option<Exceptions.PyError>
  {
    if p.job.None? || p.job.value == [] || !HasCommand(p.job.value) then None
    else
      var command := Lookup(p.job.value, "command").value;
      if LaunchFault(command).Some? then LaunchFault(command)
      else if Completed(RunOf(p.job.value, p.run)) && !command.Str? then Some(Exceptions.TypeError)
      else None
  }

  /**
   * One `__run_loop_once` up to its recursive call: a falsy answer or a job without a truthy
   * `command` makes no call and stops; a command that raises ends the thread with no call; a
   * run that did not complete shares a failure record when asked to and stops; a completed run
   * is parsed, run through the playbooks silently with a copy of the default skip list per
   * target, synced, and pulls again.
   */
  function StepSpec(s: Setup, p: Pull, pb: AutoState): Step
  {
    if p.job.None? || p.job.value == [] || !HasCommand(p.job.value) then Turn([], Stop, pb)
    else if Fault(p).Some? then Turn([], Crash, pb)
    else
      var job := p.job.value;
      var meta := MetaOf(job);
      var c := RunOf(job, p.run);
      if !Completed(c) then
        Turn(if RequestsShare(meta) then [Sync(s.share, Obj(FailedRecord(meta, Lookup(job, "command").value)))] else [], Stop, pb)
      else
        var a := Automated(s, c, pb);
        Turn(CompletedSyncs(s.share, c, s.parse(c).metadata, a.processed, meta), Again, a.(processed := []))
  }

  /** What one pulled answer does to the worker, given the playbook state before it. */
  type Stepper = (Pull, AutoState) -> Step

  /** The worker's step under the given rules, modules and share collection. */
  function StepOf(s: Setup): Stepper
  {
    (p: Pull, pb: AutoState) => StepSpec(s, p, pb)
  }

  /** A falsy answer, or a job without a truthy `command`, makes no sync call and stops. */
  lemma NothingToRun(s: Setup, p: Pull, pb: AutoState)
    requires p.job.None? || p.job.value == [] || !HasCommand(p.job.value)
    ensures StepSpec(s, p, pb) == Turn([], Stop, pb)
  {
  }

  /**
   * Handling an answer ends the worker's thread exactly when it raises, and then it has made no
   * sync call and left the playbook state as it was.
   */
  lemma CrashesOnFault(s: Setup, p: Pull, pb: AutoState)
    ensures StepSpec(s, p, pb).next == Crash <==> Fault(p).Some?
    ensures StepSpec(s, p, pb).next == Crash ==> StepSpec(s, p, pb).out == [] && StepSpec(s, p, pb).state == pb
  {
  }

  /**
   * The worker pulls again at once exactly when the job's command is a text without a NUL
   * character and its run completed.
   */
  lemma PullsAgainOnlyForText(s: Setup, p: Pull, pb: AutoState)
    ensures StepSpec(s, p, pb).next == Again
      <==> p.job.Some? && p.job.value != [] && RunsAsText(p.job.value) && Completed(RunOf(p.job.value, p.run))
  {
    if p.job.Some? && p.job.value != [] && HasCommand(p.job.value) {
      var command := Lookup(p.job.value, "command").value;
      if command.Str? && command.s != "" && '\0' !in command.s {
        assert LaunchFault(command).None?;
      }
    }
  }

  /**
   * A truthy command that is an integer or a boolean ends the worker's thread with a TypeError,
   * and one that is a list holding something other than texts ends it too, before anything
   * runs or is synced.
   */
  lemma NonTextArgumentsCrash(s: Setup, p: Pull, pb: AutoState)
    requires p.job.Some? && p.job.value != [] && HasCommand(p.job.value)
    requires var v := Lookup(p.job.value, "command").value;
      v.Int? || v.Bool? || (v.Arr? && exists i :: 0 <= i < |v.items| && !v.items[i].Str?)
    ensures StepSpec(s, p, pb) == Turn([], Crash, pb)
    ensures var v := Lookup(p.job.value, "command").value;
      v.Int? || v.Bool? ==> Fault(p) == Some(Exceptions.TypeError)
  {
  }

  /** A failure record: the job's entries, with `command` kept, `failed: True` and `run-mode = "distributed"`. */
  ghost predicate IsFailureRecord(rec: seq<Member>, job: seq<Member>)
  {
    && Lookup(rec, "command") == Lookup(job, "command")
    && Lookup(rec, "failed") == Some(Bool(true))
    && Lookup(rec, "run-mode") == Some(Str("distributed"))
    && (forall k :: k != "command" && k != "failed" && k != "run-mode" ==> Lookup(rec, k) == Lookup(job, k))
  }

  /**
   * A run without an end time stops without parsing or playbooks; when the job asked to share,
   * exactly one record goes to the share collection: the job without `command`, with
   * `run-mode = "distributed"`, then `command` and `failed: True` put back in.
   */
  lemma NotCompletedShares(s: Setup, p: Pull, pb: AutoState)
    requires p.job.Some? && p.job.value != [] && HasCommand(p.job.value)
    requires LaunchFault(Lookup(p.job.value, "command").value).None?
    requires p.run.endTime.None? || p.run.endTime.value == 0
    ensures var st := StepSpec(s, p, pb);
      var job := p.job.value;
      st.next == Stop && st.state == pb
      && (!RequestsShare(job) ==> st.out == [])
      && (RequestsShare(job) ==>
            |st.out| == 1 && st.out[0].collection == s.share && st.out[0].record.Obj?
            && IsFailureRecord(st.out[0].record.members, job))
  {
    var job := p.job.value;
    var meta := MetaOf(job);
    var command := Lookup(job, "command").value;
    assert StepSpec(s, p, pb) == Turn(if RequestsShare(meta) then [Sync(s.share, Obj(FailedRecord(meta, command)))] else [], Stop, pb) by {
      assert !Completed(RunOf(job, p.run));
      assert Fault(p).None?;
    }
    ShareFlagKept(job);
    FailedRecordOf(job);
  }

  /** The failure record built from a job's metadata keeps its command, marks it failed and distributed. */
  lemma FailedRecordOf(job: seq<Member>)
    requires HasCommand(job)
    ensures IsFailureRecord(FailedRecord(MetaOf(job), Lookup(job, "command").value), job)
  {
    var meta := MetaOf(job);
    MetaOfLookups(job);
    var other := [Member("command", Lookup(job, "command").value), Member("failed", Bool(true))];
    assert Keys(other) == ["command", "failed"];
    UpdateWithLookups(meta, other);
    UpdateWithOverrides(meta, other, "command");
    UpdateWithOverrides(meta, other, "failed");
  }

  /** The collections of a list of sync calls, in order. */
  function Collections(syncs: seq<Sync>): seq<string>
  {
    seq(|syncs|, i requires 0 <= i < |syncs| => syncs[i].collection)
  }

  /** Popping `command` and adding the run mode leave the job's `request_share` entry as it was. */
  lemma ShareFlagKept(job: seq<Member>)
    ensures RequestsShare(MetaOf(job)) == RequestsShare(job)
  {
    MetaOfLookups(job);
  }

  lemma CompletedSyncsShape(share: string, c: Command, metadata: seq<Member>, targets: seq<Json>, meta: seq<Member>)
    ensures var out := CompletedSyncs(share, c, metadata, targets, meta);
      Collections(out) == [Constants.DefaultCommandCollection, Constants.DefaultMetadataCollection]
        + (if |targets| != 0 then [Constants.DefaultTargetCollection] else [])
        + (if RequestsShare(meta) then [share] else [])
      && out[0].record == ToJson(c) && out[1].record == Obj(metadata)
      && (|targets| != 0 ==> out[2].record == Arr(targets))
  {
  }

  /** The job's command is a text without a NUL character: the only kind that launches and parses. */
  predicate RunsAsText(job: seq<Member>)
  {
    var v := Lookup(job, "command");
    v.Some? && v.value.Str? && v.value.s != "" && '\0' !in v.value.s
  }

  /** A completed run of a text command: the sync calls of `CompletedSyncs`, another pull, and the playbook state after automating. */
  lemma StepCompleted(s: Setup, p: Pull, pb: AutoState)
    requires p.job.Some? && p.job.value != [] && RunsAsText(p.job.value)
    requires p.run.endTime.Some? && p.run.endTime.value != 0
    ensures var c := RunOf(p.job.value, p.run);
      var a := Automated(s, c, pb);
      StepSpec(s, p, pb)
        == Turn(CompletedSyncs(s.share, c, s.parse(c).metadata, a.processed, MetaOf(p.job.value)),
             Again, a.(processed := []))
  {
  }

  /**
   * A completed run pulls again; its sync calls go, in order, to raw-commands (the serialised
   * command), command-metadata (the parsed metadata), targets (the targets after the
   * playbooks, only when there are any) and, when the job asked to share, the share collection.
   */
  lemma CompletedSyncsInOrder(s: Setup, p: Pull, pb: AutoState)
    requires p.job.Some? && p.job.value != [] && RunsAsText(p.job.value)
    requires p.run.endTime.Some? && p.run.endTime.value != 0
    ensures var st := StepSpec(s, p, pb);
      var c := RunOf(p.job.value, p.run);
      var targets := Automated(s, c, pb).processed;
      st.next == Again
      && Collections(st.out) == [Constants.DefaultCommandCollection, Constants.DefaultMetadataCollection]
        + (if |targets| != 0 then [Constants.DefaultTargetCollection] else [])
        + (if RequestsShare(p.job.value) then [s.share] else [])
      && st.out[0].record == ToJson(c)
      && st.out[1].record == Obj(s.parse(c).metadata)
      && (|targets| != 0 ==> st.out[2].record == Arr(targets))
  {
    var job := p.job.value;
    var c := RunOf(job, p.run);
    var a := Automated(s, c, pb);
    StepCompleted(s, p, pb);
    ShareFlagKept(job);
    CompletedSyncsShape(s.share, c, s.parse(c).metadata, a.processed, MetaOf(job));
  }

  /** The playbooks leave as many targets as they were given, so the targets record goes out exactly when parsing found targets. */
  lemma SilentAutomationKeepsCount(rules: Matcher, playbooks: PlaybookModules, targets: seq<Json>, a: AutoState)
    requires a.processed == []
    ensures |SilentAutomation(rules, playbooks)(targets, a).processed| == |targets|
  {
    PlaybookProperties.AutomateEachIndependent(rules, playbooks, Flatten.FlatString, true, a.skip, targets, a);
  }

  /** The entry `k` of a share record: the job's own entry, else the pulled command's uuid. */
  function SharedEntry(uuid: string, meta: seq<Member>, k: string): Option<Json>
  {
    if k in Keys(meta) then Lookup(meta, k) else if k == "pull_command_uuid" then Some(Str(uuid)) else None
  }

  /**
   * The share record of a completed run holds the job metadata, and `pull_command_uuid` only
   * when the metadata has no entry of that name: `update` lets the job override it.
   */
  lemma ShareRecordFields(uuid: string, meta: seq<Member>)
    requires UniqueKeys(meta)
    ensures forall k :: Lookup(ShareRecord(uuid, meta), k) == SharedEntry(uuid, meta, k)
  {
    UpdateWithLookups([Member("pull_command_uuid", Str(uuid))], meta);
    forall k ensures Lookup(ShareRecord(uuid, meta), k) == SharedEntry(uuid, meta, k) {
      if k in Keys(meta) {
        UpdateWithOverrides([Member("pull_command_uuid", Str(uuid))], meta, k);
      }
    }
  }

  /** `DistributedWatcher`: pulls jobs from the server and hands what they produced to the sync queue. */
  class DistributedWatcher {
    const interval: nat
    const share: string
    const parserManager: CommandParserManager
    const playbookManager: PlaybookManager
    /** What one answer does to the worker, under its managers' rules and modules. */
    ghost const step: Stepper
    /** The server's answers still to come. */
    var answers: seq<Pull>
    /** The sync calls and sleeps so far. */
    var trace: seq<Effect<Sync>>

    /**
     * `DistributedWatcher(queue_add_func, server_connection, watch_interval)`: a fresh parser
     * manager and playbook manager; `defaultSkipList` is the default skip list of `automate`,
     * one object for the whole process.
     */
    constructor (interval: nat, share: string, parserRules: CommandMatcher, parsers: ParserModules,
                 playbookRules: Matcher, playbooks: PlaybookModules, defaultSkipList: SkipList, answers: seq<Pull>)
      ensures this.interval == interval && this.answers == answers && trace == []
      ensures SetupOf() == SetupFor(parserRules, parsers, playbookRules, playbooks, share)
      ensures playbookManager.defaultSkipList == defaultSkipList
      ensures PlaybookState() == AutoState([], defaultSkipList.items, [], Null, "")
      ensures fresh(parserManager) && fresh(playbookManager)
      ensures Wired()
    {
      this.interval := interval;
      this.share := share;
      this.answers := answers;
      trace := [];
      parserManager := new CommandParserManager(parserRules, parsers);
      playbookManager := new PlaybookManager(playbookRules, playbooks, defaultSkipList);
      step := StepOf(SetupFor(parserRules, parsers, playbookRules, playbooks, share));
    }

    /** `step` is the worker's step under the rules and modules of its managers. */
    ghost predicate Wired()
    {
      step == StepOf(SetupOf())
    }

    /** The rules, modules and share collection the worker runs with. */
    function SetupOf(): Setup
    {
      SetupFor(parserManager.rules, parserManager.parsers, playbookManager.rules, playbookManager.playbooks, share)
    }

    /** The playbook manager's state that carries over from one job to the next. */
    function PlaybookState(): AutoState
      reads playbookManager, playbookManager.defaultSkipList
    {
      AutoState([], playbookManager.defaultSkipList.items, playbookManager.events, playbookManager.currentTarget,
        playbookManager.flatString)
    }

    /** The sync calls of a run that did not complete. */
    method ReportFailure(meta: seq<Member>, command: Json)
      modifies this
      ensures trace == old(trace) + Emit(if RequestsShare(meta) then [Sync(share, Obj(FailedRecord(meta, command)))] else [])
      ensures answers == old(answers)
    {
      if RequestsShare(meta) {
        trace := trace + [Emitted(Sync(share, Obj(FailedRecord(meta, command))))];
      }
    }

    /** The sync calls of a completed run. */
    method Report(c: Command, metadata: seq<Member>, targets: seq<Json>, meta: seq<Member>)
      modifies this
      ensures trace == old(trace) + Emit(CompletedSyncs(share, c, metadata, targets, meta))
      ensures answers == old(answers)
    {
      var commandJson := ToJson(c);
      var calls := [Sync(Constants.DefaultCommandCollection, commandJson), Sync(Constants.DefaultMetadataCollection, Obj(metadata))];
      if |targets| != 0 {
        calls := calls + [Sync(Constants.DefaultTargetCollection, Arr(targets))];
      }
      if RequestsShare(meta) {
        calls := calls + [Sync(share, Obj(ShareRecord(c.uuid, meta)))];
      }
      trace := trace + Emit(calls);
    }

    /**
     * One pulled answer: `__run_loop_once` after `get_distributed_command()` and before its
     * recursive call. A command that raises ends the thread: at the launch, or in `parse` (whose
     * buffers the model does not update then, as nothing reads them after the thread has ended).
     */
    method RunJob(p: Pull) returns (next: Next)
      requires Wired()
      modifies this, parserManager, playbookManager, playbookManager.defaultSkipList
      ensures var st := step(p, old(PlaybookState()));
        next == st.next && trace == old(trace) + Emit(st.out) && PlaybookState() == st.state
      ensures answers == old(answers)
    {
      if p.job.None? || p.job.value == [] {
        return Stop;
      }
      var popped := Remove(p.job.value, "command");
      RemoveLookups(p.job.value, "command");
      var command := popped.0;
      if command.None? || !Truthy(command.value) {
        return Stop;
      }
      var meta := JobMeta(popped.1);
      if LaunchFault(command.value).Some? {
        return Crash;
      }
      var c := Executed(CommandText(command.value), meta, p.run);
      if !Completed(c) {
        ReportFailure(meta, command.value);
        return Stop;
      }
      if !command.value.Str? {
        return Crash;
      }
      ghost var s := SetupOf();
      ghost var pb := PlaybookState();
      var metadata, targets := parserManager.Parse(c);
      var processed := playbookManager.AutomateEach(targets, playbookManager.defaultSkipList, true);
      ghost var a := Automated(s, c, pb);
      assert processed == a.processed && PlaybookState() == a.(processed := []);
      Report(c, metadata, processed, meta);
      StepCompleted(s, p, pb);
      next := Again;
    }

    /**
     * `__run_loop_once` with its recursive call made a loop: pull, run, parse, automate, sync,
     * and pull again while runs complete, until a run does not or a command raises.
     */
    method RunLoopOnce() returns (crashed: bool)
      requires Wired()
      modifies this, parserManager, playbookManager, playbookManager.defaultSkipList
      ensures var r := Drained(step, old(answers), old(PlaybookState()));
        crashed == r.crashed && answers == old(answers)[r.used..] && trace == old(trace) + Emit(r.out)
        && PlaybookState() == r.state
    {
      ghost var goal := Drained(step, answers, PlaybookState());
      ghost var out: seq<Sync> := [];
      ghost var used: nat := 0;
      var next := Again;
      assert goal == Joined(out, used, goal);
      while next == Again && answers != []
        invariant used <= |old(answers)| && answers == old(answers)[used..]
        invariant trace == old(trace) + Emit(out)
        invariant next == Again ==> goal == Joined(out, used, Drained(step, answers, PlaybookState()))
        invariant next != Again ==> goal == Drain(out, used, next == Crash, PlaybookState())
        decreases |answers|
      {
        var p := answers[0];
        var rest := answers[1..];
        ghost var t := step(p, PlaybookState());
        DrainFirst(step, out, used, answers, PlaybookState());
        answers := rest;
        next := RunJob(p);
        EmitAppend(out, t.out);
        Seqs.AppendAssoc(old(trace), Emit(out), Emit(t.out));
        out, used := out + t.out, used + 1;
        assert old(answers)[used..] == rest;
      }
      if next == Again {
        assert out + [] == out;
      }
      crashed := next == Crash;
    }

    /** One turn of `__run_loop`: `__run_loop_once`, then `time.sleep(interval)` unless the thread has ended. */
    method Round() returns (crashed: bool)
      requires Wired()
      modifies this, parserManager, playbookManager, playbookManager.defaultSkipList
      ensures var d := Drained(step, old(answers), old(PlaybookState()));
        crashed == d.crashed && answers == old(answers)[d.used..] && PlaybookState() == d.state
        && trace == old(trace) + RoundEffects(d, interval)
    {
      ghost var before := trace;
      crashed := RunLoopOnce();
      ghost var d := Drained(step, old(answers), old(PlaybookState()));
      if !crashed {
        trace := trace + [Slept(interval)];
        Seqs.AppendAssoc(before, Emit(d.out), [Slept(interval)]);
      } else {
        assert Emit(d.out) + [] == Emit(d.out);
      }
    }

    /** `rounds` turns of `__run_loop`, or fewer when a command ends the thread. */
    method RunLoop(rounds: nat) returns (crashed: bool)
      requires Wired()
      modifies this, parserManager, playbookManager, playbookManager.defaultSkipList
      ensures var r := Looped(step, old(answers), old(PlaybookState()), interval, rounds);
        crashed == r.crashed && trace == old(trace) + r.effects && answers == r.rest && PlaybookState() == r.state
    {
      ghost var goal := Looped(step, answers, PlaybookState(), interval, rounds);
      ghost var done: seq<Effect<Sync>> := [];
      var left := rounds;
      crashed := false;
      AheadStart(step, answers, PlaybookState(), interval, rounds);
      while left > 0 && !crashed
        invariant trace == old(trace) + done
        invariant Ahead(step, interval, goal, done, answers, PlaybookState(), left, crashed)
      {
        ghost var pulls, st, before, was := answers, PlaybookState(), done, left;
        ghost var d := Drained(step, pulls, st);
        crashed := Round();
        Seqs.AppendAssoc(old(trace), done, RoundEffects(d, interval));
        done, left := done + RoundEffects(d, interval), left - 1;
        LoopRound(step, interval, goal, before, pulls, st, was, done, answers, PlaybookState(), left, crashed);
      }
      AheadDone(step, interval, goal, done, answers, PlaybookState(), left, crashed);
    }
  }
}
