# RADAR core, modelled in Dafny

RADAR coordinates reconnaissance commands across a pool of worker agents and turns their output into
target records. A control server keeps a queue of distributed jobs and a set of collections. A worker
(the uplink side) pulls one job at a time, runs it, parses its output with the parser rules, runs the
playbooks the playbook rules select, and syncs the results back through an uplink queue. A commander
(`map_network`) hands out a batch of numbered scan jobs and polls the share collection until every job
has reported. `radar-ctl` is the operator's client.

This project models that core as Dafny code that mirrors the source file by file:

- `flatten.dfy`, `automation.dfy`, `playbooks.dfy`, `playbook_properties.dfy` cover
  `cyber_radar/automation_managers.py`:
  - target flattening;
  - the parser manager, which merges per-rule results;
  - the playbook manager, with its skip list and its re-match on the text flattened once per target.
- `worker.dfy`, `polling.dfy`, `command.dfy` cover `cyber_radar/distributed.py`: one pulled job becomes
  an ordered trace of sync calls, the loop pulls again at once after a completed job, and a command
  that `subprocess.Popen` or the rule matching rejects ends the worker's thread.
- `server.dfy` covers `scripts/radar-server.py`:
  - the distributed queue, as a class with a `seq` field;
  - the gates on pop, insert and bulk insert;
  - authorization;
  - the mission list;
  - `verify_config`.
- `uplink.dfy` covers `scripts/radar-uplink.py`:
  - the `db,collection,json` sync-queue records;
  - grouping of the drained queue;
  - `switch_mission`;
  - the queue file.
- `mapnet_targets.dfy`, `mapnet_jobs.dfy`, `mapnet_results.dfy` cover `cyber_radar/commanders/map_network.py`:
  - the prechecks and target expansion, with relative range ends;
  - job lists and the three poll loops, with the "may be stuck" test;
  - the UDP cell update of the spreadsheet.
- `nmap.dfy` covers `cyber_radar/parsers/parser_nmap.py`, a line-driven parser whose regular expressions
  are modelled as tokenisers.
- `prioritizer.dfy` covers `cyber_radar/helpers/target_prioritizer.py`, the host-type table and the
  value ranking.
- `msrpc.dfy` covers `cyber_radar/playbooks/enum_msrpc.py`. The rpcclient outputs are a parameter.
  `pyformat.dfy` models Python's printf-style `%` operator, which the playbook applies to a command
  format that holds the host's own text.
- `ctl.dfy` covers `scripts/radar-ctl.py`:
  - the syntax of a distributed command, target splitting, classification and `{}` substitution;
  - the manual playbook target;
  - the listings, the command document and `dispatch`.
- `client_config.dfy` covers `cyber_radar/client_configuration_manager.py`, the rules check and the
  singleton.
- `json.dfy`, `text.dfy`, `seqs.dfy`, `optional.dfy`, `exceptions.dfy`, `constants.dfy` are shared helpers:
  - JSON values as ordered member lists, so dict insertion order is kept;
  - Python string operations (`strip`, `split`, `partition`, `replace`, `find`);
  - sequence folds;
  - the Python exceptions the modelled code raises (`Exceptions.PyError`) and a result that returns or raises;
  - the constants module.

Code that updates state in place is modelled by classes:

| class | source |
|---|---|
| `RadarServer.ControlServer` | the server |
| `RadarUplink.Uplink` | the uplink |
| `Distributed.DistributedWatcher` | the worker |
| `Automation.CommandParserManager`, `Playbooks.PlaybookManager` | the two managers |
| `Playbooks.SkipList` | the skip list |
| `MapNetworkResults.Frame` | the spreadsheet |
| `ClientConfig.Manager` | the singleton |

Each loop of the source is a method whose `ensures` ties its result to a specification function. The
properties are proved as lemmas about those functions.

Two behaviours of the code can surprise a reader, and the model follows the code in both:

- The comment at `cyber_radar/automation_managers.py:122` says a playbook is not rerun. The append it
  annotates comes after the playbook returns. A playbook that raises (ModuleNotFoundError, AttributeError
  or TypeError) is therefore not added to the skip list, and a later match invokes it again
  (`PlaybookProperties.FailingPlaybookInvokedAgain`).
- `radar-ctl`'s help text gives `10.10.10.100-150` as an example range. Its range pattern needs a full
  address at both ends, so that target is classified and sent as a host name
  (`RadarCtl.RelativeEndNotRange`). The commander completes such ends (`MapNetworkTargets.RelativeRangeEndExample`).

Seven places where the code evidently does not do what its authors meant are listed under Findings. Each
has a member for the code as written and a corrected member. The rest of the model uses the corrected
member. The rows of members built on a corrected half say so, and the gaps this leaves are listed under
Left out, one line per member.

## Model

| member | source | states |
|---|---|---|
| Constants.Attribute | cyber_radar/constants.py:18-48 | `const.<name>` gives a text attribute's value exactly when the module defines that name, and otherwise raises AttributeError; every defined text value is non-empty, and no name is both a text and a list attribute |
| Constants.SharePatternsUndefined | cyber_radar/constants.py:18-48 | as written, the module has no `DEFAULT_SHARE_COLLECTION`, `IPADDR_REX`, `IPRANGE_REX` or `IPCIDR_REX`, while the three collections beside them are defined |
| Flatten.ItemKey | cyber_radar/automation_managers.py:75-76 | the key of list element `i` is `parent[i]`, which extends the parent key |
| Flatten.MemberKey | cyber_radar/automation_managers.py:80-81 | the key of a dict member is `parent.key`, or plain `key` at the top level, and extends the parent key |
| Flatten.FlattenAt | cyber_radar/automation_managers.py:72-85 | `_flatten` yields a dict with distinct keys whose every value is a scalar stored under a key extending the parent key |
| Flatten.FlattenItems | cyber_radar/automation_managers.py:73-77 | the list loop merges each element's entries and keeps the keys distinct and under the parent |
| Flatten.FlattenMembers | cyber_radar/automation_managers.py:78-83 | the dict loop merges each member's entries and keeps the keys distinct and under the parent |
| Flatten.FlattenScalar | cyber_radar/automation_managers.py:84-85 | a scalar yields exactly `{parent: value}` |
| Flatten.FlattenEmpty | cyber_radar/automation_managers.py:73-83 | an empty list and an empty dict contribute no entries |
| Flatten.FlattenFlatDict | cyber_radar/automation_managers.py:78-83 | a dict of scalars with distinct keys flattens to itself, order kept |
| Flatten.FlattenNestedDictExample | cyber_radar/automation_managers.py:78-82 | a dict inside a dict gives the dotted key `details.os` |
| Flatten.FlattenNestedListExample | cyber_radar/automation_managers.py:73-82 | a list inside a dict gives the indexed key `ports[0]` |
| Flatten.FlattenToString | cyber_radar/automation_managers.py:88-93 | the loop's text equals the `key = value` lines of the flattened entries, in order, stripped |
| Flatten.LinesAppend | cyber_radar/automation_managers.py:91-92 | one more entry adds exactly its own `key = value` line at the end |
| Flatten.FlattenToStringSingle | cyber_radar/automation_managers.py:88-93 | a one-entry dict renders as the single line `key = value` |
| Automation.InitialMetadata | cyber_radar/automation_managers.py:66 | a parse's metadata starts with exactly the keys `SOURCE_UUID` and `RAW_COMMAND` |
| Automation.Stamp | cyber_radar/automation_managers.py:50-51 | a stamped target carries `source_command = uuid` and every other key unchanged |
| Automation.StampAll | cyber_radar/automation_managers.py:50-52 | stamping succeeds exactly when every target is a dict, and then stamps each in order |
| Automation.CallbackMetadata | cyber_radar/automation_managers.py:43-52 | a parser callback sets `metadata[module]` to the parser's metadata when the module returns, and changes no other entry (metadata stored as a value, not shared with the stamped targets, see Left out) |
| Automation.ParseAllStamped | cyber_radar/automation_managers.py:50-52 | every target the callbacks collect is stamped with the command's uuid |
| Automation.ParseStamped | cyber_radar/automation_managers.py:60-69 | every target `parse` returns carries `source_command = command.uuid` |
| Automation.ParseAllMetadata | cyber_radar/automation_managers.py:47-49 | a module named by some matched rule ends holding its parser's metadata; a module no rule names keeps its entry (metadata stored as a value, not shared with the stamped targets, see Left out) |
| Automation.ParseAllMetadataKept | cyber_radar/automation_managers.py:49 | later rules never change a returning module's metadata entry once set (metadata stored as a value, not shared with the stamped targets, see Left out) |
| Automation.ParseIgnoresUseless | cyber_radar/automation_managers.py:43-58 | rules without a module and raising parsers can be dropped without changing either buffer |
| Automation.ParseAllIgnoresEvents | cyber_radar/automation_managers.py:41-58 | the buffers a parse ends with do not depend on what was printed before |
| Automation.ParseContinuesAfterFailure | cyber_radar/automation_managers.py:43-58 | a raising parser and a module-less rule only print, and the next rule's targets are still collected |
| Automation.CommandParserManager.constructor | cyber_radar/automation_managers.py:37-39 | the buffers and the current command start empty |
| Automation.CommandParserManager.YaraCallback | cyber_radar/automation_managers.py:41-58 | the in-place callback leaves the buffers as the callback function describes (metadata stored as a value, not shared with the stamped targets, see Left out) |
| Automation.CommandParserManager.Parse | cyber_radar/automation_managers.py:60-69 | `parse` sets the current command and returns the buffers of the fresh parse specification (metadata stored as a value, not shared with the stamped targets, see Left out) |
| Playbooks.GrowsTrans | cyber_radar/automation_managers.py:117-122 | growing the skip list only by new modules is transitive |
| Playbooks.PendingShrinks | cyber_radar/automation_managers.py:117-122 | a longer skip list leaves no more modules pending |
| Playbooks.PendingDrops | cyber_radar/automation_managers.py:122 | skipping one more pending module leaves strictly fewer pending, which bounds the recursion |
| Playbooks.Callback | cyber_radar/automation_managers.py:112-130 | a playbook callback only appends to the skip list |
| Playbooks.MatchFrom | cyber_radar/automation_managers.py:123 | a match pass over the same flattened string only appends to the skip list |
| Playbooks.CallbackGrows | cyber_radar/automation_managers.py:117-124 | a callback adds only distinct, previously absent modules that the rules name, and never invokes a module already skipped |
| Playbooks.MatchFromGrows | cyber_radar/automation_managers.py:123 | a whole match pass keeps the same growth property |
| Playbooks.NothingPendingNothingRuns | cyber_radar/automation_managers.py:114-117 | with nothing pending, a pass changes neither target nor skip list and only prints module-less rules |
| Playbooks.AutomateSharesSkipList | cyber_radar/automation_managers.py:132-142 | over one `automate` call the shared skip list only grows, so a playbook runs to completion at most once over all targets; one output per target, in order |
| Playbooks.AutomateFrom | cyber_radar/automation_managers.py:132-142 | as written, `automate` over a list of targets leaves one processed target per target, in order, after those processed before |
| Playbooks.EachStepDict | cyber_radar/automation_managers.py:135-142 | a dict target of the corrected `automate` is matched on its own flattened text with its own skip-list copy |
| Playbooks.SkipList.constructor | cyber_radar/automation_managers.py:132 | the list object holds the given items |
| Playbooks.PlaybookManager.constructor | cyber_radar/automation_managers.py:108-110 | target, skip list and silent flag start unset |
| Playbooks.PlaybookManager.YaraCallback | cyber_radar/automation_managers.py:112-130 | the in-place callback leaves manager and skip list as the callback function describes, reading the same flattened string |
| Playbooks.PlaybookManager.MatchAll | cyber_radar/automation_managers.py:123 | a match over the stored flattened string acts as the match pass |
| Playbooks.PlaybookManager.Automate | cyber_radar/automation_managers.py:132-142 | `automate` leaves the processed targets, skip list and events as the specification describes, with the caller's list object as skip list |
| Playbooks.PlaybookManager.AutomateDefault | cyber_radar/automation_managers.py:132 | without a skip list, the one default list object is used, and it keeps what earlier calls appended |
| Playbooks.PlaybookManager.RunFresh | cyber_radar/automation_managers.py:141-142 | one target of the corrected `automate` is matched on its own text from a fresh skip-list copy |
| Playbooks.PlaybookManager.AutomateEach | cyber_radar/automation_managers.py:132-142 | the corrected `automate` gives each dict target its own copy of the skip list and leaves the caller's list unchanged |
| PlaybookProperties.RecursionBound | cyber_radar/automation_managers.py:117-124 | a pass adds at most as many modules to the skip list as were pending, so the recursion is at most that deep |
| PlaybookProperties.SingleRulePass | cyber_radar/automation_managers.py:117-124 | a single rule naming a returning playbook runs it once and adds it to the skip list |
| PlaybookProperties.SkippedPass | cyber_radar/automation_managers.py:117 | a rule whose module is already skipped changes nothing |
| PlaybookProperties.FailingPlaybookInvokedAgain | cyber_radar/automation_managers.py:122-130 | a raising playbook is never added to the skip list, so a later re-match invokes it again |
| PlaybookProperties.StaleFlatStringExample | cyber_radar/automation_managers.py:141-142 | the re-match uses the string flattened before any playbook ran, so a rule only the changed target would match does not fire |
| PlaybookProperties.CallbackEvents | cyber_radar/automation_managers.py:112-130 | a callback's effect on target and skip list does not depend on earlier output |
| PlaybookProperties.MatchFromEvents | cyber_radar/automation_managers.py:123 | a match pass's effect on target and skip list does not depend on earlier output |
| PlaybookProperties.SharedSkipListSkipsSecondTarget | cyber_radar/automation_managers.py:132-142 | as written, of two identical targets only the first gets the playbook |
| PlaybookProperties.AutomateTwo | cyber_radar/automation_managers.py:135 | two targets are processed one after the other, the second from the state the first left |
| PlaybookProperties.OwnSkipListRunsBothTargets | cyber_radar/automation_managers.py:132-142 | corrected, both identical targets get the playbook |
| PlaybookProperties.AutomateEachIndependent | cyber_radar/automation_managers.py:132-142 | corrected, every target ends as it would if processed alone |
| Commands.ToJson | cyber_radar/system_command.py:41-42 | a command serialises to a dict |
| Commands.PartKeys | cyber_radar/system_command.py:27-39 | the serialised attributes come in creation order: the nine set first, `additional_meta` only when given non-empty, `uuid`, and `command_return_code` only once the run set it |
| Commands.KeyListDistinct | cyber_radar/system_command.py:27-39 | no attribute name appears twice |
| Commands.ToJsonKeys | cyber_radar/system_command.py:41-42 | the serialised dict has exactly those keys, in that order, distinct |
| Commands.ToJsonLookups | cyber_radar/system_command.py:27-39 | the serialised dict carries the command text and the uuid |
| Distributed.Executed | cyber_radar/distributed.py:54-56 | the command run has the job's command text, its metadata as `additional_meta`, and the run's uuid and end time (the text of a command that is not a string is never used: such a command raises first, `Distributed.CrashesOnFault`) |
| Distributed.MetaOfLookups | cyber_radar/distributed.py:44-52 | the metadata passed on is the job without `command`, with `run-mode = "distributed"` |
| Distributed.NothingToRun | cyber_radar/distributed.py:41-47 | a falsy answer or a job without a truthy `command` makes no sync call and does not pull again |
| Distributed.LaunchesIff | cyber_radar/system_command.py:50 | `Popen(command, shell=True)` launches exactly a text without NUL, a list of such texts or a dict whose keys are such texts; an integer or a boolean raises TypeError |
| Distributed.ArgumentsFault | cyber_radar/system_command.py:50 | a list of arguments is accepted exactly when every item is a text without NUL |
| Distributed.CrashesOnFault | cyber_radar/distributed.py:54-69 | an answer ends the worker's thread exactly when launching its command raises (system_command.py:66 catches only KeyboardInterrupt and UnboundLocalError) or a completed non-text command reaches the rule matching (automation_managers.py:68); it then has made no sync call and left the playbook state alone |
| Distributed.PullsAgainOnlyForText | cyber_radar/distributed.py:54-86 | the worker pulls again at once exactly when the job's command is a non-empty text without NUL and its run completed |
| Distributed.NonTextArgumentsCrash | cyber_radar/distributed.py:54-56 | a truthy integer, boolean, or list holding a non-text command ends the thread before any sync call; an integer or boolean with TypeError |
| Distributed.NotCompletedShares | cyber_radar/distributed.py:58-64 | a command that launches but whose run has no end time stops with no parse or playbooks; with `request_share` it emits exactly one share record holding the metadata, `command` and `failed: True`, otherwise none |
| Distributed.FailedRecordOf | cyber_radar/distributed.py:61-63 | the failure record keeps the job's entries and command, marked failed and distributed |
| Distributed.ShareFlagKept | cyber_radar/distributed.py:44-61 | popping `command` and adding the run mode leave `request_share` as the job had it |
| Distributed.CompletedSyncsShape | cyber_radar/distributed.py:74-83 | a completed run's sync calls go to raw-commands, command-metadata, targets (only when non-empty) and share (only when requested), with those records (the share collection is a parameter: the constants module has no `DEFAULT_SHARE_COLLECTION`, see Findings) |
| Distributed.StepCompleted | cyber_radar/distributed.py:65-86 | a completed run of a text command is parsed, run through the playbooks, synced, and pulls again (corrected automation: each target starts from its own copy of the default skip list) |
| Distributed.CompletedSyncsInOrder | cyber_radar/distributed.py:67-86 | a completed text job pulls again, and its sync calls come in the order raw-commands, command-metadata, targets, share, with the targets after the playbooks |
| Distributed.SilentAutomationKeepsCount | cyber_radar/distributed.py:69-77 | the corrected playbook run keeps the number of targets, so the targets record goes out exactly when parsing found targets |
| Distributed.SilentAutomation | cyber_radar/distributed.py:70 | the worker's silent `automate`, corrected to give each target its own copy of the skip list: one processed target per target, and the default skip list unchanged |
| Distributed.ShareRecordFields | cyber_radar/distributed.py:80-83 | each entry of the share record is the job's own entry, else `pull_command_uuid` |
| Distributed.DistributedWatcher.constructor | cyber_radar/distributed.py:28-33 | a fresh parser manager and playbook manager and an empty trace; the playbook manager holds the process-wide default skip list, which the corrected run copies for each target and never extends |
| Distributed.DistributedWatcher.ReportFailure | cyber_radar/distributed.py:61-63 | the trace gains the share record only when `request_share` is set (the share collection is a parameter: the constants module has no `DEFAULT_SHARE_COLLECTION`, see Findings) |
| Distributed.DistributedWatcher.Report | cyber_radar/distributed.py:74-83 | the trace gains exactly the completed run's sync calls, in order (the share collection is a parameter: the constants module has no `DEFAULT_SHARE_COLLECTION`, see Findings) |
| Distributed.DistributedWatcher.RunJob | cyber_radar/distributed.py:41-85 | one pulled answer emits the step's sync calls, leaves the playbook state the step describes, and reports whether to stop, pull again, or end the thread (corrected automation: each target starts from its own copy of the default skip list) |
| Distributed.DistributedWatcher.RunLoopOnce | cyber_radar/distributed.py:40-86 | corrected `__run_loop_once`, a loop in place of the self-call: it uses answers in order, emits the drained sync calls, and reports whether a command ended the thread, exactly as `Polling.Drained` (corrected automation) |
| Distributed.DistributedWatcher.Round | cyber_radar/distributed.py:89-91 | one loop turn drains the server, then sleeps for the interval unless a command ended the thread (corrected automation) |
| Distributed.DistributedWatcher.RunLoop | cyber_radar/distributed.py:88-91 | `rounds` turns of the endless loop, or fewer when a command ends the thread, produce exactly the effects, answers used and state of `Polling.Looped` (corrected automation) |
| Polling.Drained | cyber_radar/distributed.py:85-86 | a drain uses no more answers than there are, and at least one when any remain |
| Polling.DrainStopsOnlyWhenAsked | cyber_radar/distributed.py:85-86 | every answer used except the last asked for another pull, the drain stops early only on an answer that did not, and it ends the thread exactly when the last answer used did |
| Polling.DrainFirst | cyber_radar/distributed.py:85-86 | draining answer by answer gives the same result as draining the rest after the first answer |
| Polling.AllAgainDrainsAll | cyber_radar/distributed.py:85-86 | with the self-call read as a loop, answers that all ask for another are all used, however many, and the thread lives |
| Polling.ShallowDrainAgrees | cyber_radar/distributed.py:86 | as written, while the stack has room for every nested call, the recursion drains exactly as the loop does |
| Polling.DrainedAsWritten | cyber_radar/distributed.py:86 | the self-calling drain as written, with `room` frames of stack: it never uses more answers than there are, and with no frame left the call raises RecursionError |
| Polling.DeepDrainCrashes | cyber_radar/distributed.py:86 | as written, `room` jobs in a row that ask for another end the thread with a RecursionError, where the loop uses more answers or ends alive |
| Polling.Emit | cyber_radar/distributed.py:74-83 | the outputs become effects one for one, in order |
| Polling.AheadStart | cyber_radar/distributed.py:88-91 | before the first turn, the whole loop is still ahead |
| Polling.LoopRound | cyber_radar/distributed.py:89-91 | one turn's drain and sleep join what was done before it, and a drain that ends the thread ends the loop |
| Polling.AheadDone | cyber_radar/distributed.py:88-91 | with no turn left or the thread ended, what was done is the whole loop |
| Polling.OneSleepPerRound | cyber_radar/distributed.py:88-91 | the worker sleeps exactly once per turn while its thread lives and in fewer turns when it ends, and what it leaves of the answers is a suffix of them |
| Polling.LoopedSleeps | cyber_radar/distributed.py:88-91 | `rounds` live turns sleep exactly `rounds` times; a thread that ends sleeps fewer times |
| Polling.LoopedRest | cyber_radar/distributed.py:88-91 | the answers left after the loop are a suffix of the answers it started with |
| RadarServer.LocalhostAuthorized | scripts/radar-server.py:403-408 | a request from 127.0.0.1 is authorized whatever the client table holds, even for superuser routes |
| RadarServer.NoKeyNeverAuthorized | scripts/radar-server.py:414-418 | a remote request without a non-empty `key` cookie is never authorized |
| RadarServer.IsAuthorized | scripts/radar-server.py:398-429 | a remote request is authorized only with a non-empty `key` cookie that some document of `radar-control.clients` holds |
| RadarServer.SuperuserIsAuthorized | scripts/radar-server.py:419-425 | the superuser query only adds a condition, so superuser authorization implies plain authorization |
| RadarServer.StampedClientAuthorizes | scripts/radar-server.py:410-425 | a client document `{authorized: true, key: K}` (with `level: superuser` for the superuser routes) inserted into `radar-control.clients` with its `inserted_at` stamp authorizes every later request carrying the cookie `key=K` |
| RadarServer.Drain | scripts/radar-server.py:371 | successive pops hand out every queued element exactly once |
| RadarServer.DrainIsReverse | scripts/radar-server.py:371 | popping from the end serves the queue in reverse list order |
| RadarServer.FifoAfterAdd | scripts/radar-server.py:393-394 | a batch inserted at index 0 is served after everything queued before it, in its own order |
| RadarServer.FifoAcrossBatches | scripts/radar-server.py:393-394 | two batches are served in the order they were added, each in its own order |
| RadarServer.FirstNonDict | scripts/radar-server.py:237-239 | the index of the first non-dict element: all before it are dicts, and it is not one |
| RadarServer.Stamp | scripts/radar-server.py:234 | a stamped document is a dict carrying `inserted_at` |
| RadarServer.StampedPrefix | scripts/radar-server.py:237-241 | the documents inserted before a list's first non-dict, one per element |
| RadarServer.AppendedStep | scripts/radar-server.py:241 | inserting one more document appends it after those already inserted |
| RadarServer.CollsFromKeeps | scripts/radar-server.py:277-281 | writing the collections of one database leaves other databases alone and only appends |
| RadarServer.BulkFromKeeps | scripts/radar-server.py:276-281 | a bulk insert writes only to databases named in its body and never removes a document |
| RadarServer.BulkSparesGuarded | scripts/radar-server.py:266-271 | a bulk insert that passes the gate leaves every protected and restricted database unchanged |
| RadarServer.TerminatedJoin | scripts/radar-server.py:112-113 | dropping the last character of the comma-terminated names gives the comma-joined list |
| RadarServer.MissionListSplits | scripts/radar-server.py:109-114 | when the names hold no comma, the reported list splits back into the mission names |
| RadarServer.MissionNamed | scripts/radar-server.py:110-112 | every database name containing `mission-` contributes its name minus the first eight characters |
| RadarServer.ControlServer.constructor | scripts/radar-server.py:42-43 | the queue starts empty and the database is the one the server connects to, client table included |
| RadarServer.ControlServer.AddDistributedCommand | scripts/radar-server.py:374-395 | 401 without superuser, 400 with the queue unchanged unless the body is a list of dicts with a truthy `command`, otherwise 200 with each command inserted at index 0 |
| RadarServer.ControlServer.PopDistributedCommand | scripts/radar-server.py:361-371 | 401 unless authorized, 304 with no change on an empty queue, otherwise the oldest command is returned and exactly one element removed |
| RadarServer.ControlServer.PopData | scripts/radar-server.py:157-198 | superuser, an unguarded database, the share collection and a truthy filter are all checked before any read; a filter that is not a dict makes `find` raise, which answers 500 with nothing deleted; then the matching documents are returned and deleted and the rest kept, and the client table never changes (the share collection is a parameter: the constants module has no `DEFAULT_SHARE_COLLECTION`, see Findings) |
| RadarServer.ControlServer.InsertData | scripts/radar-server.py:201-247 | the gates give 401, 403 or 401 before anything is decoded; a dict is stamped and inserted once; a list is inserted up to its first non-dict, which gives 400 after the earlier elements were inserted; any other value gives 400; the gates read the client table before the insert, and only a superuser's insert into `radar-control.clients` changes who is authorized |
| RadarServer.ControlServer.InsertParsed | scripts/radar-server.py:232-243 | the insertion after decoding: one stamped dict, or the stamped dicts of a list up to its first non-dict |
| RadarServer.ControlServer.BulkInsert | scripts/radar-server.py:250-284 | 401, 400 or 403 with nothing written; every database is checked before any write; then the collections are inserted in body order; the client table never changes, since `radar-control` is restricted |
| RadarServer.ControlServer.MissionList | scripts/radar-server.py:101-114 | 401 unless authorized; otherwise the mission names comma-joined with no trailing comma, empty when there are none |
| RadarServer.CheckWebServer | scripts/radar-server.py:447-461 | only a missing `web_server` section is fatal |
| RadarServer.CheckCertificates | scripts/radar-server.py:463-478 | the section is optional, but when present a missing `private_key` or `public_key` is fatal |
| RadarServer.CheckDatabase | scripts/radar-server.py:480-507 | a missing `database` section or `host` is fatal; the other keys only warn |
| RadarServer.VerifyConfig | scripts/radar-server.py:444-509 | fails exactly when `web_server`, `database` or `database.host` is missing, or `certificates` is present without both keys; a fatal message is written exactly then |
| RadarUplink.DecodeEncode | scripts/radar-uplink.py:89-95 | for mission and collection names without commas, `split(',', 2)` recovers `mission-<mission>`, the collection and the whole JSON text, even when the JSON holds commas |
| RadarUplink.EncodeDecode | scripts/radar-uplink.py:89-95 | a record that decodes is exactly its three fields joined with commas |
| RadarUplink.DecodeFailsIffFewCommas | scripts/radar-uplink.py:89-92 | an item is rejected exactly when it holds fewer than two commas |
| RadarUplink.AddDocDocsAt | scripts/radar-uplink.py:98 | `setdefault(db, {}).setdefault(coll, []).append(doc)` appends to that collection and to no other |
| RadarUplink.AddDocsDocsAt | scripts/radar-uplink.py:96-98 | appending a list's documents adds them in order to their collection and to no other |
| RadarUplink.AddDocNonEmpty | scripts/radar-uplink.py:98-103 | after one document the grouped dict is non-empty |
| RadarUplink.GroupGoodStep | scripts/radar-uplink.py:88-100 | a good item after good ones adds its payload's documents under its database and collection |
| RadarUplink.GroupedDocs | scripts/radar-uplink.py:87-100 | each collection of the grouped data holds exactly the documents sent to it, in processing order |
| RadarUplink.GroupedIffAllGood | scripts/radar-uplink.py:88-95 | the pass groups everything exactly when every item splits into three parts and carries JSON |
| RadarUplink.GroupedLast | scripts/radar-uplink.py:88-95 | grouping ends well exactly when the grouping before the last item did and that item is good |
| RadarUplink.GroupedEmpty | scripts/radar-uplink.py:96-103 | the grouped data is empty, and nothing is sent, exactly when no item contributed a document |
| RadarUplink.GroupFailsAtLast | scripts/radar-uplink.py:90-92 | a malformed item after good ones ends the pass |
| RadarUplink.GroupStaysFailed | scripts/radar-uplink.py:90-92 | once the pass has ended early, later items change nothing |
| RadarUplink.GroupStopsAt | scripts/radar-uplink.py:88-95 | the first bad item decides how the pass ends |
| RadarUplink.MissionListOf | cyber_radar/uplink_server_connection.py:111-114 | the mission list always contains the default mission |
| RadarUplink.ServerMissionsListed | cyber_radar/uplink_server_connection.py:111-114 | every mission database the server lists can be switched to |
| RadarUplink.QueueTextLines | scripts/radar-uplink.py:120-122 | the queue file text followed by one more line splits into the non-empty items and that line |
| RadarUplink.LoadedStep | scripts/radar-uplink.py:60-62 | each further file line is kept, stripped, exactly when it is not blank |
| RadarUplink.LoadedKeeps | scripts/radar-uplink.py:60-62 | reloading lines that are already stripped and non-empty gives them back |
| RadarUplink.NonEmptyItems | scripts/radar-uplink.py:120-122 | every item the file keeps is a non-empty item of the queue |
| RadarUplink.QueueFileRoundTrip | scripts/radar-uplink.py:57-66 | writing the queue file and reloading it gives back the non-empty items in order, for single-line items without surrounding whitespace |
| RadarUplink.Uplink.constructor | scripts/radar-uplink.py:46-48 | the mission starts as the default mission, with an empty queue and nothing sent |
| RadarUplink.Uplink.AppendToSyncQueue | scripts/radar-uplink.py:129-132 | appends exactly `mission-<current_mission>,<collection>,<json.dumps(data)>` and changes nothing else |
| RadarUplink.Uplink.SyncPass | scripts/radar-uplink.py:79-106 | an empty queue only sleeps; otherwise the queue is drained newest-first, grouped, and sent once only when the grouped map is non-empty, with malformed items ending the daemon |
| RadarUplink.Uplink.SwitchMission | scripts/radar-uplink.py:152-176 | 400 without a name; 404 for an unknown name unless `create` is non-empty, which gives 201; 200 for a known name; the mission changes only on 200 and 201 |
| RadarUplink.Uplink.WriteQueueFile | scripts/radar-uplink.py:111-126 | nothing is written for an empty queue or an unwritable file; otherwise one line per non-empty item |
| RadarUplink.Uplink.ReloadQueueFile | scripts/radar-uplink.py:57-66 | every non-blank stripped line of the file is appended to the queue, and the file is deleted |
| RadarUplink.GroupItems | scripts/radar-uplink.py:87-100 | the grouping loop computes the grouping specification, stopping at the first malformed item or non-JSON payload |
| RadarUplink.AddAllDocs | scripts/radar-uplink.py:96-98 | the inner loop appends each document to its own collection and leaves every other collection alone |
| NmapParser.TargetJson | cyber_radar/parsers/parser_nmap.py:36 | a target record is a dict with the keys `target_host`, `services` and `details`, in that order |
| NmapParser.Span | cyber_radar/parsers/parser_nmap.py:44 | a character-class run is the longest prefix of matching characters |
| NmapParser.PortFields | cyber_radar/parsers/parser_nmap.py:44-47 | an accepted port line has a port made of digits |
| NmapParser.Duration | cyber_radar/parsers/parser_nmap.py:80-81 | the captured duration is digits and dots, a space, then the rest of the line |
| NmapParser.SetDetail | cyber_radar/parsers/parser_nmap.py:40-41 | setting a detail changes only the latest target and leaves the count and the totals |
| NmapParser.AddService | cyber_radar/parsers/parser_nmap.py:61 | adding a service changes only the latest target and leaves the count and the totals |
| NmapParser.DoneStep | cyber_radar/parsers/parser_nmap.py:79-87 | an `Nmap done` line never touches the targets |
| NmapParser.RateAll | cyber_radar/parsers/parser_nmap.py:94-99 | when the prioritiser never raises, there is one rated target per target |
| NmapParser.Finals | cyber_radar/parsers/parser_nmap.py:101-102 | one stamped record per rated target |
| NmapParser.Run | cyber_radar/parsers/parser_nmap.py:25-104 | `run` computes the parse specification of the command output: the line loop, then rating, then stamping (corrected `Network Distance` branch, which stores the hop count, see Findings) |
| NmapParser.Parse | cyber_radar/parsers/parser_nmap.py:25-104 | `run` returns one target per parsed report line, and the metadata's first entry `targets` holds that list |
| NmapParser.ReadLines | cyber_radar/parsers/parser_nmap.py:28-91 | the line loop computes the fold of the per-line step over the output split at newlines (corrected `Network Distance` branch, which stores the hop count, see Findings) |
| NmapParser.RateTargets | cyber_radar/parsers/parser_nmap.py:94-99 | the rating loop rates each target in order and stops at the first prioritiser exception |
| NmapParser.StampTargets | cyber_radar/parsers/parser_nmap.py:101-102 | the stamping loop adds `scan_time` to each target (one `now` for the whole run, see Left out) |
| NmapParser.ParseLine | cyber_radar/parsers/parser_nmap.py:30-91 | one line: stripped, blanks skipped, only the first matching branch applies, and a line that needs a target before any exists is skipped (corrected `Network Distance` branch, which stores the hop count, see Findings) |
| NmapParser.RateAllStops | cyber_radar/parsers/parser_nmap.py:94-95 | after the first prioritiser exception the rest of the targets do not matter |
| NmapParser.PortFieldsRoundTrip | cyber_radar/parsers/parser_nmap.py:44-60 | a port line written as port/protocol, state, service and version gives those fields back, with service and version absent when empty |
| NmapParser.PortHead | cyber_radar/parsers/parser_nmap.py:44 | the port and protocol are read off the line's head, and the rest is split into columns |
| NmapParser.ColumnsRoundTrip | cyber_radar/parsers/parser_nmap.py:44 | state, service and version are the first word, the second word, and the rest |
| NmapParser.MacFieldsRoundTrip | cyber_radar/parsers/parser_nmap.py:67-75 | `<label>: <mac> (<vendor>)` gives the MAC address and the vendor |
| NmapParser.DurationAfter | cyber_radar/parsers/parser_nmap.py:81 | the lazy `.*?scanned in` stops at the first `scanned in` and captures the duration after it |
| NmapParser.DoneFieldsRoundTrip | cyber_radar/parsers/parser_nmap.py:79-87 | a well-formed `Nmap done` line gives the scanned count, the online count and the duration, with or without the plural `es` |
| NmapParser.AddressRoundTrip | cyber_radar/parsers/parser_nmap.py:80-81 | after `IP address(es)` the online count and duration are captured |
| NmapParser.HopDistanceIsLabel | cyber_radar/parsers/parser_nmap.py:63-65 | as written, the hop distance stored is the second space-separated word of the line, which is the label `Distance:` |
| NmapParser.HopDistanceIsCount | cyber_radar/parsers/parser_nmap.py:63-65 | corrected, `Network Distance: N hops` stores the count `N` on the latest target |
| NmapParser.DistanceStepAsWritten | cyber_radar/parsers/parser_nmap.py:63-65 | as written, a `Network Distance` line changes only the latest target and the totals not at all |
| NmapParser.DistanceStep | cyber_radar/parsers/parser_nmap.py:63-65 | corrected, a `Network Distance` line changes only the latest target and the totals not at all |
| NmapParser.DistanceWords | cyber_radar/parsers/parser_nmap.py:64 | a `Network Distance: <n>` line splits into `Network`, `Distance:`, then the rest |
| NmapParser.Hosts | cyber_radar/parsers/parser_nmap.py:94-104 | the host names of the targets, in order |
| NmapParser.SetDetailLatest | cyber_radar/parsers/parser_nmap.py:40-41 | setting a detail only changes the latest target |
| NmapParser.AddServiceLatest | cyber_radar/parsers/parser_nmap.py:61 | appending a service only changes the latest target |
| NmapParser.LatestOnlyKeeps | cyber_radar/parsers/parser_nmap.py:40-75 | a change to the latest target keeps every host name and every earlier target |
| NmapParser.StepShape | cyber_radar/parsers/parser_nmap.py:30-91 | a `scan report for` line with a fifth word appends a target with that host, no services and no details; any other line changes only the latest target; only `Nmap done` changes the totals |
| NmapParser.ReportShape | cyber_radar/parsers/parser_nmap.py:34-36 | a report line appends one fresh target, or changes nothing when it has fewer than five words |
| NmapParser.DoneShape | cyber_radar/parsers/parser_nmap.py:79-87 | an `Nmap done` line adds no target and changes no target |
| NmapParser.OtherShape | cyber_radar/parsers/parser_nmap.py:38-77 | every other branch changes only the latest target and never the totals |
| NmapParser.HostStepLatest | cyber_radar/parsers/parser_nmap.py:38-41 | a `Host is` line sets `status` and `latency` on the latest target only |
| NmapParser.MacStepLatest | cyber_radar/parsers/parser_nmap.py:67-77 | a `MAC Address` line sets the address and vendor on the latest target only |
| NmapParser.SetMacLatest | cyber_radar/parsers/parser_nmap.py:74-75 | setting both MAC details changes only the latest target |
| NmapParser.ParseLinesHosts | cyber_radar/parsers/parser_nmap.py:29-36 | the targets are exactly the hosts of the report lines, in output order |
| NmapParser.SkippedWithoutTarget | cyber_radar/parsers/parser_nmap.py:89-91 | a line that needs a target before any exists is skipped and parsing goes on |
| NmapParser.ParseLinesFrozen | cyber_radar/parsers/parser_nmap.py:40-75 | once a later target exists, an earlier target never changes again |
| NmapParser.ServiceJsonGood | cyber_radar/parsers/parser_nmap.py:48-60 | a service record holds port, protocol and state, and `service` exactly when it is non-empty |
| NmapParser.ParseLinesWellFormed | cyber_radar/parsers/parser_nmap.py:29-91 | every target the loop builds has a host, a list of well-formed services and a details dict |
| NmapParser.StepWellFormed | cyber_radar/parsers/parser_nmap.py:30-91 | each line keeps every target well-formed |
| NmapParser.TypesFromRaises | cyber_radar/helpers/target_prioritizer.py:140-149 | matching one service against the table can raise only a TypeError, and never does when the service name is a string |
| NmapParser.ServicesFromRaises | cyber_radar/helpers/target_prioritizer.py:130-149 | over parsed services the prioritiser raises only a TypeError, and never when every service has a name |
| NmapParser.InfoOfTarget | cyber_radar/helpers/target_prioritizer.py:119-124 | a target without services is rated `("unknown", "generic")`; otherwise its services are scanned |
| NmapParser.RateAllRaises | cyber_radar/parsers/parser_nmap.py:94-95 | the rating loop raises only a TypeError, and never when every service is named |
| NmapParser.ParseRaisesOnlyTypeError | cyber_radar/parsers/parser_nmap.py:25-104 | `run` can raise only a TypeError |
| NmapParser.OutcomeHandled | cyber_radar/automation_managers.py:47-58 | running the nmap parser always ends in a parse or in a TypeError the parser manager catches |
| NmapParser.NamedServicesParse | cyber_radar/parsers/parser_nmap.py:94-104 | when every service has a name, `run` returns |
| NmapParser.NamelessServiceRaises | cyber_radar/parsers/parser_nmap.py:94-95 | a first service without a name whose port no host type lists makes the prioritiser raise |
| NmapParser.NamelessFirst | cyber_radar/helpers/target_prioritizer.py:140-147 | a nameless service whose port the first host type does not list raises a TypeError in the name check |
| NmapParser.DoneSetsTotals | cyber_radar/parsers/parser_nmap.py:79-87 | a matching `Nmap done` line sets `total_scanned`, `total_online` and `scan_duration` and nothing else |
| NmapParser.RateAllAt | cyber_radar/parsers/parser_nmap.py:94-99 | the i-th rated target is the i-th target rated by the prioritiser |
| NmapParser.InfoValueKnown | cyber_radar/helpers/target_prioritizer.py:124-147 | the value the prioritiser returns is a key of the value table |
| NmapParser.ParseMetadata | cyber_radar/parsers/parser_nmap.py:26-27 | the metadata's first entry is `targets`, holding the returned list, with one target per report line; the other entries are the totals |
| NmapParser.ParseTarget | cyber_radar/parsers/parser_nmap.py:94-104 | each returned target keeps its host, services and details, plus `value` and `host_type` from the prioritiser and `scan_time` |
| NmapParser.FinalTarget | cyber_radar/parsers/parser_nmap.py:94-102 | rating and stamping add exactly `value`, `host_type` and `scan_time` to the details |
| NmapParser.TargetJsonGets | cyber_radar/parsers/parser_nmap.py:36 | the record holds the host, the services and the details |
| Prioritizer.Rank | cyber_radar/helpers/target_prioritizer.py:23-29 | each value name has its rank in the value table |
| Prioritizer.HostTypesValid | cyber_radar/helpers/target_prioritizer.py:36-106 | the host-type table has known values and distinct names, none containing another or a `;` |
| Prioritizer.HostTypesKnown | cyber_radar/helpers/target_prioritizer.py:36-106 | every host type's value is a key of the value table |
| Prioritizer.HostTypeNamed | cyber_radar/helpers/target_prioritizer.py:36-106 | the host types come in table order: webserver, database, fileserver, mailserver, ics, domain_controller |
| Prioritizer.NamesApart | cyber_radar/helpers/target_prioritizer.py:36-106 | no host-type name occurs inside another, so the substring skip test cannot confuse two types |
| Prioritizer.ParseIntRoundTrip | cyber_radar/helpers/target_prioritizer.py:131 | `int()` reads back the decimal text of any integer |
| Prioritizer.ParseInt | cyber_radar/helpers/target_prioritizer.py:131 | `int()` of a text raises only ValueError, and accepts only a stripped text whose characters after the first are digits |
| Prioritizer.IntOf | cyber_radar/helpers/target_prioritizer.py:130-131 | `int(service.get("port"))`: an integer passes unchanged, a missing, null, list or dict port is a TypeError, and only a text can give a ValueError |
| Prioritizer.TypesFrom | cyber_radar/helpers/target_prioritizer.py:134-149 | the value stays a key of the value table across the host-type loop |
| Prioritizer.ServicesFrom | cyber_radar/helpers/target_prioritizer.py:130-149 | the value stays a key of the value table across the service loop |
| Prioritizer.SearchPatterns | cyber_radar/helpers/target_prioritizer.py:145-149 | the pattern loop hits exactly when some pattern occurs in the service name, stopping at the first |
| Prioritizer.GetInfo | cyber_radar/helpers/target_prioritizer.py:109-151 | `get_info` with the built-in table computes the specification, including its exceptions |
| Prioritizer.GetInfoWith | cyber_radar/helpers/target_prioritizer.py:119-151 | the nested loops compute the specification for any table |
| Prioritizer.ScanTypes | cyber_radar/helpers/target_prioritizer.py:134-149 | the host-type loop for one service computes the per-service fold, or the exception it raises |
| Prioritizer.TypesRaised | cyber_radar/helpers/target_prioritizer.py:146 | after the first exception in the host-type loop, later host types do not matter |
| Prioritizer.ServicesRaised | cyber_radar/helpers/target_prioritizer.py:130-131 | after the first exception in the service loop, later services do not matter |
| Prioritizer.MaxRank | cyber_radar/helpers/target_prioritizer.py:141-147 | the largest rank among the flagged types, and 0 when none is flagged |
| Prioritizer.FlagsContain | cyber_radar/helpers/target_prioritizer.py:142-148 | every flagged name occurs in the type string |
| Prioritizer.FlagsOccurrence | cyber_radar/helpers/target_prioritizer.py:136 | a `;`-free text occurring in the type string occurs inside one flagged name |
| Prioritizer.FlaggedIffFound | cyber_radar/helpers/target_prioritizer.py:136-137 | a table name occurs in the type string exactly when that type was flagged |
| Prioritizer.DetectConsistent | cyber_radar/helpers/target_prioritizer.py:141-142 | flagging a type not yet in the type string keeps value, type string and flagged list in step |
| Prioritizer.TypeStepGrows | cyber_radar/helpers/target_prioritizer.py:136-149 | one host type is either left alone or flagged because it matches |
| Prioritizer.TypesFromGrows | cyber_radar/helpers/target_prioritizer.py:134-149 | the host-type loop only adds matching table types, each once |
| Prioritizer.TypeStepKeeps | cyber_radar/helpers/target_prioritizer.py:136-149 | a host type never removes text from the type string, and a matching type ends up in it |
| Prioritizer.TypesFromKeeps | cyber_radar/helpers/target_prioritizer.py:134-149 | the host-type loop never removes a name from the type string |
| Prioritizer.TypesFromComplete | cyber_radar/helpers/target_prioritizer.py:134-149 | every table type matching the service ends up in the type string |
| Prioritizer.ServiceStepGrows | cyber_radar/helpers/target_prioritizer.py:130-149 | one service only flags types it matches |
| Prioritizer.ServicesFromGrows | cyber_radar/helpers/target_prioritizer.py:130-149 | every flagged type is in the table and matches some service |
| Prioritizer.ServicesFromKeeps | cyber_radar/helpers/target_prioritizer.py:130-149 | later services never remove a name from the type string |
| Prioritizer.ServicesFromComplete | cyber_radar/helpers/target_prioritizer.py:130-149 | every table type that matches some service ends up in the type string |
| Prioritizer.ServicesRaisedOrOk | cyber_radar/helpers/target_prioritizer.py:130-131 | when the whole loop returns, every prefix of it returns |
| Prioritizer.FlagsJoin | cyber_radar/helpers/target_prioritizer.py:142-151 | dropping the leading `;` gives the flagged names joined with `;` |
| Prioritizer.FoundIffMatched | cyber_radar/helpers/target_prioritizer.py:140-149 | a type is flagged exactly when some service matches it: by port, or by a name pattern when the port does not match |
| Prioritizer.GetInfoReports | cyber_radar/helpers/target_prioritizer.py:119-151 | with services, the value is the highest-ranked flagged value (`unknown` when none) and the type string is the flagged names `;`-joined in first-detection order, `unknown` when none |
| Prioritizer.InfoWithScans | cyber_radar/helpers/target_prioritizer.py:119-124 | with services present, the result is the scan of those services |
| Prioritizer.ScanReports | cyber_radar/helpers/target_prioritizer.py:124-151 | the value is the maximum over `unknown` and the matched types, the flagged names are distinct, and a type is flagged exactly when some service matches it |
| Prioritizer.ReportMeaning | cyber_radar/helpers/target_prioritizer.py:151 | the returned pair is the maximum value and the `;`-joined names, or `unknown` when nothing matched |
| Prioritizer.NoServicesIsGeneric | cyber_radar/helpers/target_prioritizer.py:119-122 | missing, null or empty `services` gives `("unknown", "generic")` |
| Prioritizer.BadServiceRaises | cyber_radar/helpers/target_prioritizer.py:130-131 | a service that is not a dict or has no integer `port` makes `get_info` raise |
| Msrpc.Field | cyber_radar/playbooks/enum_msrpc.py:64-66 | a line without `:` is a stripped name with an empty value |
| Msrpc.LastValue | cyber_radar/playbooks/enum_msrpc.py:63-69 | the value a key ends with is one the filter keeps |
| Msrpc.FieldsLookup | cyber_radar/playbooks/enum_msrpc.py:181-189 | each key ends with the value of its last kept line, later duplicates overwriting, or keeps its initial entry |
| Msrpc.FieldsKeepInit | cyber_radar/playbooks/enum_msrpc.py:203-211 | the initial entries stay first, in order |
| Msrpc.FieldsValues | cyber_radar/playbooks/enum_msrpc.py:182-189 | every collected value is a string the filter keeps |
| Msrpc.PasswordLineDropped | cyber_radar/playbooks/enum_msrpc.py:63-69 | as written, a `name: value` line with a non-empty value is dropped; corrected, it is kept |
| Msrpc.PasswordRequirementsAsWritten | cyber_radar/playbooks/enum_msrpc.py:62-71 | as written, every kept password requirement has an empty value |
| Msrpc.PasswordRequirements | cyber_radar/playbooks/enum_msrpc.py:62-71 | corrected, every kept password requirement has a non-empty value |
| Msrpc.FieldsOne | cyber_radar/playbooks/enum_msrpc.py:64-69 | a single line contributes its field exactly when the filter keeps its value |
| Msrpc.FieldOfLine | cyber_radar/playbooks/enum_msrpc.py:64-66 | `name: value` partitions into the stripped name and value |
| Msrpc.FindAt | cyber_radar/playbooks/enum_msrpc.py:82-83 | the search finds the first occurrence of a pattern |
| Msrpc.BracketedRoundTrip | cyber_radar/playbooks/enum_msrpc.py:82-86 | `<open><a>] rid:[<b>]` captures `a` and `b` when neither holds `]`, as the lazy groups do |
| Msrpc.BracketedAt | cyber_radar/playbooks/enum_msrpc.py:82-83 | the two captures lie between the opening mark, the middle mark and the next `]` |
| Msrpc.CollectAppend | cyber_radar/playbooks/enum_msrpc.py:81-87 | collecting over concatenated outputs concatenates the captures |
| Msrpc.RidsAppend | cyber_radar/playbooks/enum_msrpc.py:80-87 | the RID list of concatenated lines is the concatenation of their RID lists, in output order |
| Msrpc.RidsOfLine | cyber_radar/playbooks/enum_msrpc.py:82-87 | a matching line contributes its stripped RID capture |
| Msrpc.UserInfoFields | cyber_radar/playbooks/enum_msrpc.py:181-190 | without access denied, each user key holds the last non-empty value of its lines |
| Msrpc.GroupInfoStartsWithRid | cyber_radar/playbooks/enum_msrpc.py:198-211 | the group dict always starts with `group_rid`, which holds the RID unless a line overwrites it |
| Msrpc.Users | cyber_radar/playbooks/enum_msrpc.py:91-95 | one user record per listed RID |
| Msrpc.UsersAt | cyber_radar/playbooks/enum_msrpc.py:92-95 | the i-th user record is the i-th RID's query result tagged `data-source = msrpc` |
| Msrpc.UsersTagged | cyber_radar/playbooks/enum_msrpc.py:93-94 | every listed user carries `data-source = msrpc` and otherwise its query result |
| Msrpc.JoinedRefl | cyber_radar/playbooks/enum_msrpc.py:144-156 | the known-users lists extend themselves |
| Msrpc.JoinedTrans | cyber_radar/playbooks/enum_msrpc.py:155-156 | extending the known-users lists is transitive |
| Msrpc.MemberStepJoined | cyber_radar/playbooks/enum_msrpc.py:143-161 | an unknown member RID is queried once and appended to both user lists; a known one changes nothing |
| Msrpc.MembersJoined | cyber_radar/playbooks/enum_msrpc.py:129-161 | a group's member loop only appends queried users to both lists, kept parallel |
| Msrpc.Groups | cyber_radar/playbooks/enum_msrpc.py:116-164 | one group record per group RID |
| Msrpc.GroupsSnoc | cyber_radar/playbooks/enum_msrpc.py:117-164 | one more group RID adds one more record from where the earlier groups left the user lists |
| Msrpc.GroupsJoined | cyber_radar/playbooks/enum_msrpc.py:116-164 | the group loop only appends queried users to both lists, so later groups reuse them |
| Msrpc.EntryLookups | cyber_radar/playbooks/enum_msrpc.py:119-163 | a group record holds `data-source = msrpc`, its `member-info` list and otherwise its query result |
| Msrpc.GroupsTagged | cyber_radar/playbooks/enum_msrpc.py:119-164 | every group record carries `data-source`, a `member-info` list and its query result |
| Msrpc.GroupsAt | cyber_radar/playbooks/enum_msrpc.py:116-164 | the i-th group record comes from the user lists the earlier groups left |
| Msrpc.GroupStepEntry | cyber_radar/playbooks/enum_msrpc.py:119-164 | one group record carries `data-source`, a `member-info` list and its query result |
| Msrpc.SetDefault | cyber_radar/playbooks/enum_msrpc.py:46-53 | `setdefault` returns the stored value; it adds the default only when the key is absent and changes nothing else |
| Msrpc.TailPercent | cyber_radar/playbooks/enum_msrpc.py:38 | the only `%` of the format's tail is the one of its `%s` |
| Msrpc.TailTakesArgument | cyber_radar/playbooks/enum_msrpc.py:38-43 | the tail's `%s` takes the subcommand when it is still unused |
| Msrpc.TailNeedsArgument | cyber_radar/playbooks/enum_msrpc.py:38-43 | from anywhere before its `%s`, the tail raises TypeError when no argument is left |
| Msrpc.LoneFails | cyber_radar/playbooks/enum_msrpc.py:38-43 | a host text with a `%` that does not pair up makes `rpcclient_cmd_format % 'getusername'` raise |
| Msrpc.LoneSpecifier | cyber_radar/playbooks/enum_msrpc.py:38-43 | a host text that starts with a `%` not followed by another makes the command line raise, whatever follows it |
| Msrpc.LoneConversion | cyber_radar/playbooks/enum_msrpc.py:38-43 | a host's first `%` followed by a character that starts no text conversion raises TypeError for a numeric conversion and ValueError otherwise |
| Msrpc.HostFormatsIff | cyber_radar/playbooks/enum_msrpc.py:38-43 | the command line is built exactly when every `%` of the host's text is half of a `%%` |
| Msrpc.SkipHostHead | cyber_radar/playbooks/enum_msrpc.py:38-43 | a host's text before its first `%` is copied and does not change the outcome |
| Msrpc.NumberConversionRaises | cyber_radar/playbooks/enum_msrpc.py:38-43 | a lone `%` followed by a conversion that needs a number (the zone id of `fe80::1%eth0`) raises TypeError |
| Msrpc.UnknownConversionRaises | cyber_radar/playbooks/enum_msrpc.py:38-43 | a lone `%` followed by a character that is no specifier part and no conversion raises ValueError |
| Msrpc.SecondSpecifierRaises | cyber_radar/playbooks/enum_msrpc.py:38-43 | a host holding `%s` takes the only argument, so the format's own `%s` raises TypeError |
| Msrpc.DoubledPercentFormats | cyber_radar/playbooks/enum_msrpc.py:38-43 | a host `a%%b` builds its command line |
| Msrpc.UnformattableHostUntouched | cyber_radar/playbooks/enum_msrpc.py:38-46 | a host whose text does not format raises before `details` is created, leaving the target unchanged, as written and corrected |
| Msrpc.FillLookups | cyber_radar/playbooks/enum_msrpc.py:71-166 | the filled details hold the password requirements, user info and group info and keep every other key |
| Msrpc.Message | cyber_radar/playbooks/enum_msrpc.py:27-168 | every early return says the enumeration failed; a completed run names the host |
| Msrpc.EarlyFailureUntouched | cyber_radar/playbooks/enum_msrpc.py:29-35 | a missing rpcclient or a missing `target_host` returns an error with the target unchanged |
| Msrpc.ProbeDenied | cyber_radar/playbooks/enum_msrpc.py:46-50 | access denied creates `details`, sets `anonymous-smb = False` and adds no vulnerability |
| Msrpc.ProbeAccepted | cyber_radar/playbooks/enum_msrpc.py:52-166 | otherwise `anonymous-smb` is appended to `vulnerabilities` and the details are filled, every other key kept |
| Msrpc.DeniedHostNotFlagged | cyber_radar/playbooks/enum_msrpc.py:43-50 | corrected: a host whose text formats into the command line and that answers access denied is not flagged and gets `anonymous-smb = False` (an unformattable host raises first, `Msrpc.UnformattableHostUntouched`) |
| Msrpc.CompletedFlagsHost | cyber_radar/playbooks/enum_msrpc.py:52-168 | corrected: an open host whose text formats into the command line is flagged and gets the password requirements, user info and group info its outputs give |
| Msrpc.GatheredUsers | cyber_radar/playbooks/enum_msrpc.py:89-166 | the final user list is the listed users followed by the group members found on the way |
| Msrpc.NoRids | cyber_radar/playbooks/enum_msrpc.py:81-87 | an empty output gives no RIDs |
| Msrpc.UnreadGathers | cyber_radar/playbooks/enum_msrpc.py:59-166 | with every output empty, the password dict is `{"": ""}` and there are no users and no groups |
| Msrpc.AsWrittenFlagsEveryHost | cyber_radar/playbooks/enum_msrpc.py:43-53 | as written the commands are never run, so every host with a `target_host` whose text formats into the command line is flagged `anonymous-smb` and gets empty information |
| Msrpc.EnumerateAsWritten | cyber_radar/playbooks/enum_msrpc.py:42-53 | as written, no rpcclient output is read, so no host is ever found to deny anonymous access |
| Msrpc.ReadFields | cyber_radar/playbooks/enum_msrpc.py:181-189 | the key/value loop computes the field specification |
| Msrpc.QueryUserInfo | cyber_radar/playbooks/enum_msrpc.py:171-190 | `query_user_info` returns `{user_rid, error-message}` on access denied, else the non-empty key/value fields |
| Msrpc.QueryGroupInfo | cyber_radar/playbooks/enum_msrpc.py:193-212 | `query_group_info` does the same, always starting from `group_rid` |
| Msrpc.ReadRids | cyber_radar/playbooks/enum_msrpc.py:80-87 | the RID loop collects the stripped RID captures of matching lines, in order |
| Msrpc.FindName | cyber_radar/playbooks/enum_msrpc.py:144-149 | the user name of the first known user record with that RID |
| Msrpc.ReadMembers | cyber_radar/playbooks/enum_msrpc.py:128-161 | the member loop computes the member specification and the extended user lists |
| Msrpc.QueryUsers | cyber_radar/playbooks/enum_msrpc.py:91-95 | the user loop queries each RID in order and tags the result |
| Msrpc.EnumerateGroup | cyber_radar/playbooks/enum_msrpc.py:117-164 | one group iteration computes the group step |
| Msrpc.QueryGroups | cyber_radar/playbooks/enum_msrpc.py:116-164 | the group loop computes the groups specification |
| Msrpc.Gathering | cyber_radar/playbooks/enum_msrpc.py:59-166 | the gathering phase computes the corrected gathered information |
| Msrpc.Run | cyber_radar/playbooks/enum_msrpc.py:27-168 | the corrected `run` computes the enumeration specification, including the exception of a host that does not format (TypeError, or ValueError for an unknown conversion or an oversized width or precision) and the TypeError or AttributeError of a malformed `details` or `vulnerabilities` |
| PyFormat.SkipFrom | cyber_radar/playbooks/enum_msrpc.py:43 | the run of characters of a class that starts at a position ends at the first character outside it |
| PyFormat.FlagsAndWidth | cyber_radar/playbooks/enum_msrpc.py:43 | flags and a width only cover flag characters and digits, and an accepted width is at most `PY_SSIZE_T_MAX`; `*` raises TypeError, since the argument is text, and a larger width raises ValueError ("width too big") |
| PyFormat.PrecisionAndLength | cyber_radar/playbooks/enum_msrpc.py:43 | a precision and a length modifier only cover `.`, digits and `h`, `l` or `L`, and an accepted precision is at most `INT_MAX`; `.*` raises TypeError and a larger precision raises ValueError ("precision too big") |
| PyFormat.Conversion | cyber_radar/playbooks/enum_msrpc.py:43 | a conversion goes on only for `s`, `r` or `a` with an argument left, using one character and one argument |
| PyFormat.Specifier | cyber_radar/playbooks/enum_msrpc.py:43 | a specifier that goes on uses one argument and at least one character, and everything before its conversion character is a flag, digit, `.` or length modifier; an oversized width or precision raises ValueError before any argument is taken |
| PyFormat.PlainConversion | cyber_radar/playbooks/enum_msrpc.py:43 | a specifier with nothing before its conversion character is just that conversion |
| PyFormat.NoPercent | cyber_radar/playbooks/enum_msrpc.py:43 | text without `%` is copied and uses no argument |
| PyFormat.PairedSkips | cyber_radar/playbooks/enum_msrpc.py:43 | paired `%%` are copied and use no argument |
| PyFormat.TextTakesOne | cyber_radar/playbooks/enum_msrpc.py:43 | `%s` takes one argument when one is left |
| PyFormat.TextSpecifier | cyber_radar/playbooks/enum_msrpc.py:43 | `%s` followed by text without `%` succeeds exactly with one argument, and raises TypeError otherwise |
| PyFormat.SingleText | cyber_radar/playbooks/enum_msrpc.py:43 | a text whose only `%` starts a `%s` succeeds exactly with one argument |
| PyFormat.TextBefore | cyber_radar/playbooks/enum_msrpc.py:43 | `%s` and text without `%` use the only argument, leaving none for what follows |
| PyFormat.TextThenStarved | cyber_radar/playbooks/enum_msrpc.py:43 | after `%s` and text without `%`, the rest is formatted with no argument left |
| PyFormat.NumberNotSkipped | cyber_radar/playbooks/enum_msrpc.py:43 | a numeric conversion character is not a specifier part, not a text conversion, and not `(`, `*` or `%` |
| PyFormat.RejectedConversion | cyber_radar/playbooks/enum_msrpc.py:43 | a `%` directly followed by a conversion that does not take text raises TypeError for a numeric one and ValueError otherwise |
| PyFormat.NoArgumentLeft | cyber_radar/playbooks/enum_msrpc.py:43 | with no argument left, a failing tail keeps failing whatever comes before it |
| PyFormat.SpecifierStopsBefore | cyber_radar/playbooks/enum_msrpc.py:43 | a specifier stops at the first character it cannot hold: it fails, or leaves no argument for the failing text after it |
| PyFormat.SpecifierFirst | cyber_radar/playbooks/enum_msrpc.py:43 | a text starting with a specifier fails when the specifier fails or leaves a failing rest |
| PyFormat.LoneStarves | cyber_radar/playbooks/enum_msrpc.py:43 | a lone `%` before a character no specifier holds and a part that needs an argument makes the formatting raise |
| PyFormat.LoneBefore | cyber_radar/playbooks/enum_msrpc.py:43 | the same for a lone `%` at the head of one text placed before another |
| PyFormat.ValuePrefix | cyber_radar/playbooks/enum_msrpc.py:43 | a run of digits is worth at least any of its prefixes |
| PyFormat.RunningCheck | cyber_radar/playbooks/enum_msrpc.py:43 | checking the running value after each digit, as CPython's parser does, finds an overflow exactly when the whole run's value is past the bound |
| PyFormat.LeadingDigit | cyber_radar/playbooks/enum_msrpc.py:43 | a run of digits is at least its leading digit times ten to the number of the other digits |
| PyFormat.DigitsEnd | cyber_radar/playbooks/enum_msrpc.py:43 | a run of `n` digits followed by a non-digit ends exactly `n` places on |
| PyFormat.WidthTooBig | cyber_radar/playbooks/enum_msrpc.py:43 | a specifier whose width is past `PY_SSIZE_T_MAX` raises ValueError; a smaller width is read in full |
| PyFormat.PrecisionTooBig | cyber_radar/playbooks/enum_msrpc.py:43 | a specifier whose precision is past `INT_MAX` raises ValueError; a smaller precision (and a length modifier after it) is read in full |
| PyFormat.WidthRaises | cyber_radar/playbooks/enum_msrpc.py:43 | a `%` whose width is past `PY_SSIZE_T_MAX` makes the formatting raise ValueError |
| PyFormat.PrecisionRaises | cyber_radar/playbooks/enum_msrpc.py:43 | a `%.` whose precision is past `INT_MAX` makes the formatting raise ValueError |
| PyFormat.WidthRaisesBefore | cyber_radar/playbooks/enum_msrpc.py:43 | the same for an oversized width followed by any text that does not continue its digits |
| PyFormat.PrecisionRaisesBefore | cyber_radar/playbooks/enum_msrpc.py:43 | the same for an oversized precision followed by any text that does not continue its digits |
| PyFormat.WideNines | cyber_radar/playbooks/enum_msrpc.py:43 | twenty nines are a digit run past `PY_SSIZE_T_MAX` |
| PyFormat.PreciseNines | cyber_radar/playbooks/enum_msrpc.py:43 | ten nines are a digit run past `INT_MAX` |
| Msrpc.WidthTooBigRaises | cyber_radar/playbooks/enum_msrpc.py:38-43 | a host whose first `%` starts a width past `PY_SSIZE_T_MAX` makes the command line raise ValueError |
| Msrpc.PrecisionTooBigRaises | cyber_radar/playbooks/enum_msrpc.py:38-43 | a host whose first `%` starts a precision past `INT_MAX` makes the command line raise ValueError |
| Msrpc.WideExample | cyber_radar/playbooks/enum_msrpc.py:38-43 | the host `x%99999999999999999999s` makes the command line raise ValueError |
| Msrpc.PreciseExample | cyber_radar/playbooks/enum_msrpc.py:38-43 | the host `x%.9999999999s` makes the command line raise ValueError |
| RadarCtl.LastSplit | scripts/radar-ctl.py:35 | the greedy target group ends at the last place where a keyword and a command holding `{}` can still follow |
| RadarCtl.ParseSyntax | scripts/radar-ctl.py:35-36 | the pattern matches exactly when the single line can be split; the groups are the longest target text and the command after ` into ` |
| RadarCtl.NoLaterSplit | scripts/radar-ctl.py:35 | once the keyword follows the targets, a command without a keyword of its own leaves no later split |
| RadarCtl.ParseJoined | scripts/radar-ctl.py:35-36 | `targets into command` parses back into the same targets and command (any letter case of `into`) |
| RadarCtl.JoinedParts | scripts/radar-ctl.py:35 | where the targets, the keyword and the command sit in the joined line |
| RadarCtl.KeywordNeeded | scripts/radar-ctl.py:35-36 | a line with no `i` or `I` never matches the pattern |
| RadarCtl.ParsedCommandNotBlank | scripts/radar-ctl.py:38-55 | on a match the targets group is non-empty and the stripped command is not blank, so the `Missing` checks cannot fire |
| RadarCtl.BraceNotBlank | scripts/radar-ctl.py:52-53 | a command holding `{}` is not blank once stripped |
| RadarCtl.StripKeepsNonSpace | scripts/radar-ctl.py:48-52 | stripping keeps a text with a non-space character non-empty |
| RadarCtl.StripTrimmed | scripts/radar-ctl.py:48 | `strip()` is idempotent and adds no character |
| RadarCtl.KeptTrimmedAll | scripts/radar-ctl.py:47-50 | every kept target is already stripped |
| RadarCtl.KeptLacks | scripts/radar-ctl.py:45-50 | kept targets hold no character that no piece held |
| RadarCtl.TargetList | scripts/radar-ctl.py:45-50 | every target is stripped, non-empty and holds no comma |
| RadarCtl.SplitTargets | scripts/radar-ctl.py:45-50 | the split-and-strip loop computes the target list |
| RadarCtl.KeepStripped | scripts/radar-ctl.py:47-50 | the loop keeps each stripped non-empty piece, in order |
| RadarCtl.KeptTrimmed | scripts/radar-ctl.py:47-50 | pieces that are already clean are all kept, in order |
| RadarCtl.BlankDropped | scripts/radar-ctl.py:49-50 | a blank piece anywhere drops out without disturbing the others |
| RadarCtl.TargetListJoin | scripts/radar-ctl.py:45-50 | joining clean targets with commas and splitting again gives the same targets |
| RadarCtl.DropLeadingBlanks | scripts/radar-ctl.py:59 | the text after the leading spaces is a suffix of the input |
| RadarCtl.JoinDigits | scripts/radar-ctl.py:58-60 | dot-joined digit groups hold only digits and dots |
| RadarCtl.AddressChars | scripts/radar-ctl.py:58 | an address holds only digits and dots |
| RadarCtl.NoSplit | scripts/radar-ctl.py:86 | a text of digits, dots and slashes has no `-` to split at |
| RadarCtl.ShapesExclusive | scripts/radar-ctl.py:58-60 | no target matches two of the address, range and network patterns |
| RadarCtl.ClassifyShapes | scripts/radar-ctl.py:64-72 | a target is an address, range, network or host name exactly when its pattern matches, tried in this order |
| RadarCtl.RelativeEndNotRange | scripts/radar-ctl.py:59 | a range whose end is not a full address (`10.10.10.100-150`) does not match the range pattern |
| RadarCtl.ExpandTargets | scripts/radar-ctl.py:79-97 | the expansion loop yields every target's hosts in order, skipping the rejected ones |
| RadarCtl.RejectedSkipped | scripts/radar-ctl.py:81-97 | a target the address library rejects is dropped without stopping the later ones |
| RadarCtl.HostnameKept | scripts/radar-ctl.py:94-95 | a target matching no address pattern is one host, taken as written |
| RadarCtl.Substitute | scripts/radar-ctl.py:104 | one command per host |
| RadarCtl.SubstituteOnce | scripts/radar-ctl.py:104 | a command holding one `{}` becomes, for each host, the command with that host in its place |
| RadarCtl.MalformedCrashes | scripts/radar-ctl.py:36-40 | as written, a line that does not match crashes on `.group` of `None`; corrected, it exits 1 |
| RadarCtl.MissingKeywordCrashes | scripts/radar-ctl.py:36-38 | as written, `10.0.0.1 nmap {}` (no `into`) raises AttributeError |
| RadarCtl.DistributeAsWritten | scripts/radar-ctl.py:34-112 | as written, `distribute_command` crashes exactly on a line the syntax does not match, and otherwise ends as the corrected version does |
| RadarCtl.DistributeOutcomes | scripts/radar-ctl.py:34-112 | exit 1 without targets or hosts, exit 2 when either confirmation is declined, otherwise one substituted command per host, in order |
| RadarCtl.DistributeParsedCodes | scripts/radar-ctl.py:53-109 | which exit code a matched line gets, both directions |
| RadarCtl.DistributeParsedCommands | scripts/radar-ctl.py:102-112 | the commands sent are the stripped command with `{}` replaced by each host, in order |
| RadarCtl.DistributeCommand | scripts/radar-ctl.py:34-112 | the steps of `distribute_command` compute the corrected distribution specification, which exits 1 on a line the syntax does not match (see Findings) |
| RadarCtl.ArgKeyDistinct | scripts/radar-ctl.py:122-123 | different arguments get different `arg{i}` keys, none of them a base key |
| RadarCtl.BuildManualTarget | scripts/radar-ctl.py:121-123 | the argument loop builds the manual target |
| RadarCtl.ManualTargetKeys | scripts/radar-ctl.py:121-123 | the keys are `target_host`, `details`, then `arg0`, `arg1`, ... in order |
| RadarCtl.ArgKeysAt | scripts/radar-ctl.py:122-123 | the i-th argument key is `arg{i}` |
| RadarCtl.ArgKeysLength | scripts/radar-ctl.py:122-123 | one key per argument |
| RadarCtl.ManualTargetLookups | scripts/radar-ctl.py:121-123 | the manual target holds the host, `run_method = manual` and each argument under its own key |
| RadarCtl.BaseLookups | scripts/radar-ctl.py:121 | the base manual target holds the host and the manual details |
| RadarCtl.ArgLookupStep | scripts/radar-ctl.py:122-123 | storing the last argument keeps every earlier lookup |
| RadarCtl.RunPlaybook | scripts/radar-ctl.py:119-136 | the playbook runs on the manual target and the target it leaves is sent to the targets collection, whether or not it raised |
| RadarCtl.FailedRunStillSent | scripts/radar-ctl.py:124-136 | a playbook that raises still has the whole manual target sent to `targets` |
| RadarCtl.DatabaseLabelMarks | scripts/radar-ctl.py:142-147 | `! ` marks exactly the protected databases, `# ` exactly the restricted ones, and no mark the rest |
| RadarCtl.DatabaseBlockLines | scripts/radar-ctl.py:141-149 | a database block is its label, then one `--- ` line per collection, in order |
| RadarCtl.ListDatabaseStructure | scripts/radar-ctl.py:139-149 | the nested loops print the listing specification |
| RadarCtl.Listing | scripts/radar-ctl.py:152-167 | one line per collection or mission |
| RadarCtl.ListingRoundTrip | scripts/radar-ctl.py:154-167 | each listed line is the prefix followed by the name, so the names read back |
| RadarCtl.OutputLines | scripts/radar-ctl.py:221-222 | one documented line per line break of the output |
| RadarCtl.OutputOfLines | scripts/radar-ctl.py:221-222 | output whose every line ends in a line break is documented line by line, each stripped |
| RadarCtl.UnterminatedLineLost | scripts/radar-ctl.py:221 | a last line without a line break is dropped by `[:-1]` |
| RadarCtl.SingleLineLost | scripts/radar-ctl.py:221 | output without a line break leaves the fenced block empty |
| RadarCtl.DocumentStops | scripts/radar-ctl.py:189-224 | once a record raises, later records write nothing |
| RadarCtl.DocumentGrows | scripts/radar-ctl.py:189-224 | more records only append to the document; earlier text is never rewritten |
| RadarCtl.DocumentCommands | scripts/radar-ctl.py:183-224 | the writing loop produces the document specification |
| RadarCtl.DispatchNames | scripts/radar-ctl.py:227-256 | every known sub-command reaches the handler of that name; any other does nothing |
| RadarCtl.DispatchAuth | scripts/radar-ctl.py:250-253 | granting passes the superuser flag on; removing never makes a superuser and withdraws authorization |
| MapNetworkTargets.PrecheckCodes | cyber_radar/commanders/map_network.py:44-52 | no arguments exits 1; a non-empty authorization answer without `SU=True` exits 3; otherwise the commander goes on (both directions) |
| MapNetworkTargets.UnknownAuthorizationGoesOn | cyber_radar/commanders/map_network.py:49-50 | a failed or empty authorization answer does not stop the commander |
| MapNetworkTargets.ClassifyFirstMatch | cyber_radar/commanders/map_network.py:64-72 | an argument is an address, range, network or host name by the first pattern it matches (the three address patterns are parameters: the constants module does not define them, see Findings) |
| MapNetworkTargets.RelativeRangeEndFields | cyber_radar/commanders/map_network.py:93-95 | a relative range end takes the start's leading fields it lacks and ends with as many dots as the start; a full end is kept |
| MapNetworkTargets.RelativeRangeEndOctets | cyber_radar/commanders/map_network.py:93-95 | a one-octet end of a dotted-quad range takes the start's three leading octets |
| MapNetworkTargets.RelativeRangeEndExample | cyber_radar/commanders/map_network.py:93-95 | the end of `10.0.0.5-20` is completed to `10.0.0.20` |
| MapNetworkTargets.AllTargetsAppend | cyber_radar/commanders/map_network.py:82-106 | each argument contributes its hosts on its own, in order; a rejected one drops out without stopping the rest (the three address patterns are parameters: the constants module does not define them, see Findings) |
| MapNetworkTargets.HostnamesKept | cyber_radar/commanders/map_network.py:103-104 | arguments matching no address pattern are scanned as given, in order (the three address patterns are parameters: the constants module does not define them, see Findings) |
| MapNetworkTargets.Tokenise | cyber_radar/commanders/map_network.py:82-106 | the expansion loop computes every argument's hosts in order (the three address patterns are parameters: the constants module does not define them, see Findings) |
| MapNetworkTargets.TargetsEndCodes | cyber_radar/commanders/map_network.py:73-111 | an answer other than empty or `y…` exits 2; a confirmed run whose arguments yield no host exits 1; otherwise the commander goes on (both directions) |
| MapNetworkTargets.HostnameGoesOn | cyber_radar/commanders/map_network.py:103-111 | an argument taken for a host name is scanned as given, so a confirmed run holding one never exits 1 (the address patterns are parameters, see Left out) |
| MapNetworkTargets.Start | cyber_radar/commanders/map_network.py:44-111 | the first stage in source order: exit 1 or 3 from the checks, then exit 2 on a refusal, then exit 1 on an empty expansion; otherwise the expanded hosts, which are non-empty (the address patterns are parameters, see Left out) |
| MapNetworkJobs.NmapOnTarget | cyber_radar/commanders/map_network.py:120-122 | replacing `TARGET` in `nmap TARGET <options>` gives `nmap <target> <options>` when the options do not mention it |
| MapNetworkJobs.NoPlaceholder | cyber_radar/commanders/map_network.py:122 | options without an `A` cannot hold `TARGET` |
| MapNetworkJobs.FastScanCommandFor | cyber_radar/commanders/map_network.py:120-122 | the fast scan is `nmap <target> -T4 --top-ports 500` |
| MapNetworkJobs.IntenseTcpScanCommandFor | cyber_radar/commanders/map_network.py:208-210 | the intense scan is `nmap <target> -T4 -p 1-65535 -sV -Pn` |
| MapNetworkJobs.UdpScanCommandFor | cyber_radar/commanders/map_network.py:303-305 | the UDP scan is `nmap <target> -T4 --top-ports 500 -sU -sV -Pn` |
| MapNetworkJobs.JobsFields | cyber_radar/commanders/map_network.py:121-129 | the i-th job runs the template on the i-th target with `job_number` i, the commander's id and `request_share` set |
| MapNetworkJobs.BuildJobs | cyber_radar/commanders/map_network.py:121-129 | the job loop computes one job per target, in order |
| MapNetworkJobs.MarkCompleted | cyber_radar/commanders/map_network.py:157-165 | the marking loop strikes off each reported outstanding job and keeps its pull uuid |
| MapNetworkJobs.Keep | cyber_radar/commanders/map_network.py:162-164 | the jobs still outstanding are no more than before |
| MapNetworkJobs.KeepMembers | cyber_radar/commanders/map_network.py:162-164 | a job stays outstanding exactly when it was outstanding and was not reported |
| MapNetworkJobs.KeepNothing | cyber_radar/commanders/map_network.py:162-164 | an empty report strikes off nothing |
| MapNetworkJobs.KeepAbsent | cyber_radar/commanders/map_network.py:162-163 | reporting a job that is not outstanding changes nothing (the duplicate check) |
| MapNetworkJobs.KeepTwice | cyber_radar/commanders/map_network.py:146-165 | two polls strike off the union of what they report |
| MapNetworkJobs.RemoveFirstKeep | cyber_radar/commanders/map_network.py:164 | in a list without repeats `remove` strikes off the job and shortens the list by one |
| MapNetworkJobs.KeepNoDup | cyber_radar/commanders/map_network.py:143-164 | the outstanding list keeps having no repeats |
| MapNetworkJobs.MarkKeeps | cyber_radar/commanders/map_network.py:157-165 | a batch leaves outstanding exactly the jobs it did not report, in order, with one pull uuid per job struck off |
| MapNetworkJobs.PollJobs | cyber_radar/commanders/map_network.py:143-174 | the poll loop computes the phase specification (the share collection is a parameter: the constants module has no `DEFAULT_SHARE_COLLECTION`, see Findings) |
| MapNetworkJobs.ReportedSnoc | cyber_radar/commanders/map_network.py:146-165 | one more poll adds its reported numbers |
| MapNetworkJobs.PollOnceKeeps | cyber_radar/commanders/map_network.py:147-165 | one pass leaves outstanding exactly the jobs its batch did not report |
| MapNetworkJobs.PollFromUsed | cyber_radar/commanders/map_network.py:146-148 | the loop stops only when nothing is outstanding or the answers run out, one answer per pass |
| MapNetworkJobs.PollFromKeeps | cyber_radar/commanders/map_network.py:146-174 | what is outstanding is exactly the jobs no used answer reported, in order |
| MapNetworkJobs.KeepsStep | cyber_radar/commanders/map_network.py:146-165 | the first pass followed by the rest keeps what all the used answers did not report |
| MapNetworkJobs.ReportedStep | cyber_radar/commanders/map_network.py:146-165 | striking off the first answer, then the rest, strikes off all of them |
| MapNetworkJobs.PollNext | cyber_radar/commanders/map_network.py:146-148 | with jobs outstanding and answers left, the loop makes one more pass |
| MapNetworkJobs.PhaseDoneOnlyWhenAllReported | cyber_radar/commanders/map_network.py:143-174 | a phase ends with nothing outstanding only when every job number 0..count-1 was reported, and does not stop earlier while answers last |
| MapNetworkJobs.KeepAscending | cyber_radar/commanders/map_network.py:143-164 | the outstanding jobs stay ascending, so the head is the oldest |
| MapNetworkJobs.StuckWhenOldestUnreported | cyber_radar/commanders/map_network.py:157-170 | a poll warns of a stuck job exactly when its batch is non-empty, jobs remain and the oldest was not reported |
| MapNetworkJobs.PollOnceEvents | cyber_radar/commanders/map_network.py:147-174 | a pass records one sleep, then with a non-empty batch the stuck warning when due and the query for the pulled uuids (the share collection is a parameter: the constants module has no `DEFAULT_SHARE_COLLECTION`, see Findings) |
| MapNetworkResults.FastScanHandOver | cyber_radar/commanders/map_network.py:185-217 | no online host exits 0 and nothing else does; the intense scan has one job per result, the i-th on the i-th host with number i |
| MapNetworkResults.WithColumn | cyber_radar/commanders/map_network.py:389 | `df[name] = v` adds the column when new and sets it on every existing row only |
| MapNetworkResults.WithCell | cyber_radar/commanders/map_network.py:391 | `df.at[row, name] = v` sets one cell, adding the row and the column when new |
| MapNetworkResults.Frame.constructor | cyber_radar/commanders/map_network.py:289 | the DataFrame holds the table it is built from |
| MapNetworkResults.Frame.SetColumn | cyber_radar/commanders/map_network.py:389 | the DataFrame becomes the table with the column set |
| MapNetworkResults.Frame.SetCell | cyber_radar/commanders/map_network.py:391 | the DataFrame becomes the table with the cell set |
| MapNetworkResults.ServiceCellChoice | cyber_radar/commanders/map_network.py:390 | the cell is the first truthy of version, service and state, and `MISSING` exactly when none is |
| MapNetworkResults.ApplySnoc | cyber_radar/commanders/map_network.py:382-391 | the loop over one more service is one more body step |
| MapNetworkResults.ApplyStep | cyber_radar/commanders/map_network.py:384-391 | the loop body run once more continues the loop specification |
| MapNetworkResults.ApplyAppend | cyber_radar/commanders/map_network.py:382-391 | the loop over `a + b` is the loop over `a`, then over `b` |
| MapNetworkResults.ApplyAdded | cyber_radar/commanders/map_network.py:385-389 | the added-column list only grows, holds every service's column once and nothing else |
| MapNetworkResults.ApplyAddedOrigin | cyber_radar/commanders/map_network.py:385-389 | every added column is one the loop started with or a service's own |
| MapNetworkResults.AddServiceAdded | cyber_radar/commanders/map_network.py:387-388 | a column is added to the list exactly when it is new |
| MapNetworkResults.LastWriteWins | cyber_radar/commanders/map_network.py:387-391 | a service's cell keeps its value unless a later service writes the same row and column |
| MapNetworkResults.AddServiceWrites | cyber_radar/commanders/map_network.py:390-391 | a service writes its own cell and its column is then listed |
| MapNetworkResults.AddServiceKeeps | cyber_radar/commanders/map_network.py:387-391 | a service leaves every other cell as it was, unless its new column blanks it |
| MapNetworkResults.OtherCellsKept | cyber_radar/commanders/map_network.py:382-391 | cells of columns no service writes are left as they were |
| MapNetworkResults.EntriesFailKept | cyber_radar/commanders/map_network.py:382-384 | once the loop raises on earlier targets, it raises on the whole list |
| MapNetworkResults.ServiceEntriesFailKept | cyber_radar/commanders/map_network.py:384-385 | once a target's services hold a non-dict, the loop raises |
| MapNetworkResults.AddOneService | cyber_radar/commanders/map_network.py:385-391 | the inner loop body changes the DataFrame as the body step says |
| MapNetworkResults.AddTargetServices | cyber_radar/commanders/map_network.py:384-391 | the inner loop over one target's services raises exactly when a service is not a dict, otherwise updates the DataFrame as specified |
| MapNetworkResults.AddServiceColumns | cyber_radar/commanders/map_network.py:381-391 | the UDP update loop raises exactly where the entries cannot be read, otherwise updates the DataFrame as specified from an empty column list |
| ClientConfig.ReportIff | cyber_radar/client_configuration_manager.py:21-36 | the configuration is accepted exactly when `rules` is a dict with truthy `parser_rules` and `playbook_rules`; the check raises exactly when a truthy `rules` is not a dict |
| ClientConfig.ReportMessages | cyber_radar/client_configuration_manager.py:24-35 | a missing `rules` section is reported alone; otherwise each missing rule key is reported once, parser rules first |
| ClientConfig.VerifyConfig | cyber_radar/client_configuration_manager.py:21-36 | the flag loop returns true exactly when nothing was printed, prints the report's messages, and raises exactly when the report does |
| ClientConfig.ConfigPathDefault | cyber_radar/client_configuration_manager.py:52-56 | without a path, or with an empty one, the package's `config/client_config.toml` is used; otherwise the given path; `None` and `""` name the same file, and a resolved non-empty path resolves to itself |
| ClientConfig.Configuration.constructor | cyber_radar/client_configuration_manager.py:41-44 | the loaded configuration keeps its path and the parsed file |
| ClientConfig.Manager.constructor | cyber_radar/client_configuration_manager.py:49 | there is no instance before the first construction |
| ClientConfig.Manager.Construct | cyber_radar/client_configuration_manager.py:51-58 | the first construction loads the file (exit 1 when it is missing); every later one returns the same configuration and ignores its path |
| ClientConfig.ConstructTwice | cyber_radar/client_configuration_manager.py:51-58 | a second construction with another path gets the first one's configuration |

## Left out

- Subprocess execution (`cyber_radar/system_command.py`). A run is a `Command` value with an optional end
  time, a return code and its output. Streaming and the KeyboardInterrupt handling are not modelled. Of the
  ways `Popen(command, shell=True)` can raise, the model keeps the TypeError of a command that is not text or
  a list or dict of texts and the ValueError of an embedded NUL (`Distributed.LaunchFault`); the OS errors of
  a failed launch (no shell, no memory, too many processes) are not modelled.
- Python's `%` formatting (`pyformat.dfy`): the model decides whether a format succeeds or raises a
  TypeError or ValueError, and which, for the one text argument that `enum_msrpc.py:43` passes. A width past
  `PY_SSIZE_T_MAX` and a precision past `INT_MAX` raise ValueError; `PY_SSIZE_T_MAX` is taken from a 64-bit
  build. The text it renders, the mapping key
  form `%(name)s`, and tuple or mapping arguments are not modelled; the host's text is what `HostText` gives.
- PyFormat.Specifier: a width that is at most `PY_SSIZE_T_MAX` but whose padding cannot be allocated (for
  example `%99999999999s`) raises MemoryError in the source when the text is padded. The model accepts it,
  because memory is not modelled.
- Msrpc.Run: for the same reason, a host holding such a width is modelled as building its command line,
  where the source raises MemoryError.
- Threads, processes and sleeping:
  - the worker's thread;
  - the uplink's multiprocessing daemon;
  - the length of `time.sleep`.
  Sleeps appear only as events in the worker's and the commander's traces.
- YARA. Rule compilation and matching are a function parameter from text to an ordered list of rules.
- HTTP, Flask and MongoDB:
  - the request wrappers and the routing are left out;
  - the database is a map from database and collection to documents;
  - the registered clients are the documents of `radar-control.clients` in that map, so an insert there
    changes who is authorized, as in the source;
  - a route's answer is a status code and a value.
- TOML loading. The parsed file is a parameter (`files`), and decode errors are not modelled.
- The `__getattr__` and `__setattr__` forwarding of `ClientConfigurationManager`. The model's manager
  returns the configuration object itself.
- Library and nondeterministic calls:
  - netaddr parsing and range/network expansion are the `Netaddr` parameter;
  - the commander's `uuid4` id is a parameter;
  - time stamps are integers;
  - local-time formatting is the `clock` parameter.
- Text renderings of values (`repr`, `json.dumps`, `json.loads`) are function parameters.
- pandas: the spreadsheet is the `Table` value. `cyber_radar/helpers/target_formatter.py` and the CSV
  writing are not part of this model.
- Interaction and output:
  - `input()` answers are parameters;
  - printing, progress bars and the JSON dump files are left out.
- Floating point. Scan durations and times are integers.
- The address, range and CIDR patterns the commander reads from the constants module do not exist there
  (see Findings). The commander takes them as the `Patterns` parameter. radar-ctl's own patterns are
  modelled.
- Python regular expressions in general. The nmap and rpcclient line formats are modelled as tokenisers
  with round-trip lemmas for the lines they describe.
- The FTP playbooks and `scripts/radar.py`. Playbooks are an opaque `PlaybookModules` function from a
  module name and target to an outcome.
- The legacy first-generation copies (`radar/`, `server.py`, `uplink.py`, `client.py`,
  `radar_internal.py`). Only their import name matters to the model: `radar-ctl`'s `run-playbook` imports
  `radar.playbooks.<name>` (`RadarCtl.RunPlaybook`), and that module is an opaque parameter.
- Prioritizer.ParseInt: accepts an optional sign and ASCII digits only. Python's `int()` also accepts
  underscores between digits (`1_000`) and non-ASCII decimal digits; the model raises ValueError on those.
- Wire-format mismatches between client and server are not reproduced; the model passes decoded values
  from one side to the other. These are:
  - the base64 body of `send_distributed_commands`;
  - the response text of `get_distributed_command`;
  - the plain strings `radar-ctl` sends.
- NmapParser.Run: the metadata's `targets` entry is the same list object as the returned targets. The
  model states only that the two are equal values on return; it does not model aliasing. It also stamps every
  target with one `now`, as StampTargets does.
- Exceptions a playbook or parser raises other than ModuleNotFoundError, AttributeError and TypeError are
  not modelled in `automate`. The ValueError (or MemoryError) that enum_msrpc can raise while building its
  command line is not caught at `cyber_radar/automation_managers.py:125-130`, so it leaves `automate`; the
  model of `automate` takes playbooks as an opaque parameter that only reports the caught exceptions.
- Automation.ParseCallback: stores the parser's metadata as a value. In the source, `parser_nmap.py:26-27` puts
  the target list itself into the metadata, and `automation_managers.py:49-51` stores that object and then
  stamps the same dicts with `source_command`. So the source's entry shows the stamps (and any later playbook
  changes), and the model's entry is the parser's metadata before stamping.
- Automation.CallbackMetadata: the entry it states is the parser's metadata before stamping, as for ParseCallback.
- Automation.ParseAllMetadata: the final entry is the parser's value before stamping and playbooks, not the
  shared, mutated object, as for ParseCallback.
- Automation.ParseAllMetadataKept: "never changes once set" is about the value the model stores. The source's
  shared entry still changes when later stamping or playbooks change its target dicts.
- Automation.CommandParserManager.YaraCallback: the metadata buffer holds the parser's unstamped value, as for
  ParseCallback.
- Automation.CommandParserManager.Parse: the returned metadata's nmap `targets` lack the `source_command`
  stamp that the source's shared record carries, as for ParseCallback.
- NmapParser.StampTargets: one `now` for every target. `parser_nmap.py:101-102` reads `int(time.time())` once
  per target, so the targets of one run can carry different `scan_time` values.
- NmapParser.Finals: the same single `now` as StampTargets.
- NmapParser.Parse: the same single `now` as StampTargets, besides the corrected branch below.
- RadarCtl.DistributeCommand: the corrected half of the malformed-line finding. On a line the syntax does not
  match it exits 1, where `radar-ctl.py:36-38` raises AttributeError (`RadarCtl.DistributeAsWritten`).
- Distributed.NotCompletedShares: the share record goes to a `share` parameter. As written, `distributed.py:63`
  raises AttributeError on the undefined share constant instead of queueing the record.
- Distributed.CompletedSyncsShape: the share sync goes to a `share` parameter. As written, `distributed.py:83`
  raises AttributeError after the three other syncs and ends the worker's thread. The command-metadata record
  holds the parsers' metadata as they returned it. In the source, an nmap entry's `targets` list is the same
  set of dicts that `automation_managers.py:50-51` stamps and the playbooks of `distributed.py:70` change.
  So the record synced at `distributed.py:75` carries those stamps and changes, and the model's record
  does not.
- Distributed.StepCompleted: runs the corrected automation, in which each target starts from its own copy of
  the default skip list. As written, `distributed.py:70` shares one default list across every target of every
  job. The share sync also uses the `share` parameter that the source lacks.
- Distributed.CompletedSyncsInOrder: the same two gaps as StepCompleted (corrected automation, `share`
  parameter).
- Distributed.SilentAutomationKeepsCount: stated for the corrected automation. The as-written shared-list
  `automate` keeps the count too (`Playbooks.AutomateFrom`), but this lemma does not state it for the worker.
- Distributed.SilentAutomation: the corrected automation. The process-wide default skip list is copied for
  each target and never extended, so a playbook can run again in a later job.
- Distributed.DistributedWatcher.constructor: the default skip list it installs is only read by the corrected
  run, never extended as the source extends it.
- Distributed.DistributedWatcher.ReportFailure: queues to the `share` parameter where the source raises
  AttributeError.
- Distributed.DistributedWatcher.Report: queues the share record to the `share` parameter where the source
  raises AttributeError after the third sync. The queued metadata lacks the stamps and playbook changes that
  the source's shared `targets` dicts carry, as for CompletedSyncsShape.
- Distributed.DistributedWatcher.RunJob: corrected automation and the `share` parameter, as for
  StepCompleted.
- Distributed.DistributedWatcher.RunLoopOnce: the same two gaps as RunJob. It is also the corrected half of
  the recursion finding: a loop in place of the self-call at `distributed.py:86`, so it never runs out of
  stack (`Polling.DrainedAsWritten` models the self-call).
- Polling.DeepDrainCrashes: `room` stands for the frames the interpreter has left (about 1000 under Python's
  default recursion limit, less the frames below `__run_loop`); the model checks the budget only when the
  self-call is entered, not in the calls each job makes.
- Polling.AllAgainDrainsAll: stated for the loop, the corrected reading of `distributed.py:86`.
- Distributed.DistributedWatcher.Round: the same two gaps as RunJob, and the loop in place of the self-call.
- Distributed.DistributedWatcher.RunLoop: the same two gaps as RunJob, and the loop in place of the self-call.
- RadarServer.ControlServer.PopData: compares the collection with a `share` parameter. As written,
  `radar-server.py:174` raises AttributeError once the superuser and database gates pass.
- RadarServer.IsAuthorized: matches the query fields by equality. Mongo's query language also matches a
  document whose `authorized`, `key` or `level` is an array holding the queried value; the model does not.
- MapNetworkJobs.PollJobs: the uplink client's `pop_share_data` is modelled as answering. As written it
  raises AttributeError at `client_uplink_connection.py:155` before sending, so the first pass ends the
  commander.
- MapNetworkJobs.PollOnceEvents: the same gap as PollJobs. As written, a pass sleeps and then raises.
- MapNetworkTargets.ClassifyFirstMatch: takes the address patterns as a parameter. As written,
  `map_network.py:65` raises AttributeError on the first argument.
- MapNetworkTargets.AllTargetsAppend: the same gap as ClassifyFirstMatch. As written, no argument yields hosts.
- MapNetworkTargets.HostnamesKept: the same gap as ClassifyFirstMatch. As written, the run stops before any
  host name is kept.
- MapNetworkTargets.Tokenise: the same gap as ClassifyFirstMatch. As written, the commander stops at
  `map_network.py:65` before this loop, and inside it `map_network.py:85` would raise the same way.
- MapNetworkTargets.HostnameGoesOn: the same gap as ClassifyFirstMatch. As written, no argument reaches the
  host-name branch.
- MapNetworkTargets.Start: the same gap as ClassifyFirstMatch. As written, a run past the checks raises at
  `map_network.py:65` before the operator is asked. The classification printout is not modelled.
- NmapParser.Run: uses the corrected `Network Distance` branch, which stores the hop count where
  `parser_nmap.py:64` stores the label `Distance:`.
- NmapParser.ReadLines: the same corrected branch as Run.
- NmapParser.ParseLine: the same corrected branch as Run.
- NmapParser.Parse: the same corrected branch as Run.

## Findings

| source | as written | input that shows it | evidently intended | confidence | as-written member | corrected member |
|---|---|---|---|---|---|---|
| cyber_radar/playbooks/enum_msrpc.py:42-47 | `SystemCommand.run()` is a generator and is called without being iterated, so no rpcclient command runs and every `command_output` is empty | any target with a `target_host`, including a host that answers access denied | run each command and read its output, so that a denied host gets `anonymous-smb = False` and no vulnerability | high, not executed | Msrpc.EnumerateAsWritten, Msrpc.AsWrittenFlagsEveryHost | Msrpc.Run, Msrpc.DeniedHostNotFlagged |
| cyber_radar/distributed.py:86 | `__run_loop_once` calls itself after every completed job, so each job in a row adds a stack frame | about 1000 completed jobs waiting on the server (Python's default recursion limit is 1000): the next self-call raises RecursionError, which nothing catches, and the worker's thread ends | keep pulling in a loop, whatever the number of completed jobs | high, not executed | Polling.DeepDrainCrashes | Polling.AllAgainDrainsAll, Distributed.DistributedWatcher.RunLoopOnce |
| cyber_radar/playbooks/enum_msrpc.py:66-68 | `if field_value != "": continue` keeps only lines without a value | a `getdompwinfo` line `min_password_length: 7` | keep the lines that carry a value | high, not executed | Msrpc.PasswordRequirementsAsWritten, Msrpc.PasswordLineDropped | Msrpc.PasswordRequirements |
| cyber_radar/automation_managers.py:132-142 | one skip list serves every target of a call, and the default `[]` serves every call that omits it | two dict targets whose flattened text both match a rule naming playbook `p`: `p` runs on the first target only | each target starts from its own copy of the skip list, which bounds recursion per target | medium, not executed | Playbooks.PlaybookManager.AutomateDefault, PlaybookProperties.SharedSkipListSkipsSecondTarget | Playbooks.PlaybookManager.AutomateEach, PlaybookProperties.AutomateEachIndependent |
| scripts/radar-ctl.py:36-43 | `re.search` returns `None` for a line that does not fit, and `.group` on it raises AttributeError before the "Missing targets" check | `10.0.0.1 nmap {}` | print the missing-targets message and exit 1 | high, not executed | RadarCtl.DistributeAsWritten, RadarCtl.MissingKeywordCrashes | RadarCtl.DistributeCommand, RadarCtl.MalformedCrashes |
| cyber_radar/parsers/parser_nmap.py:63-65 | `line.split(' ')[1]` stores the second word as `hop_distance` | `Network Distance: 2 hops` stores `Distance:` | store the hop count, the third word | high, not executed | NmapParser.DistanceStepAsWritten, NmapParser.HopDistanceIsLabel | NmapParser.DistanceStep, NmapParser.HopDistanceIsCount |
| cyber_radar/constants.py:18-48 | the module defines no `DEFAULT_SHARE_COLLECTION`, `IPADDR_REX`, `IPRANGE_REX` or `IPCIDR_REX`, yet `distributed.py:63,83`, `radar-server.py:174`, `client_uplink_connection.py:155` and `map_network.py:65-69,85-99` read them, so each read raises AttributeError | a completed job with `request_share` set: the worker syncs raw-commands, metadata and targets, then raises at `distributed.py:83` | a share collection and the three address patterns defined in the module | high, not executed | Constants.Attribute, Constants.SharePatternsUndefined | RadarServer.ControlServer.PopData, Distributed.DistributedWatcher.Report, MapNetworkJobs.PollJobs, MapNetworkTargets.Tokenise |
