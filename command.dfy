/**
 * The record a system command leaves behind once run. Running it (a subprocess) is outside the
 * model: its outputs, times, host and uuid arrive as field values.
 */
module Commands {
  import opened Optional
  import opened JsonModel

  datatype Command = Command(
    command: string,
    stdout: string,
    stderr: string,
    output: string,
    startTime: Option<int>,
    endTime: Option<int>,
    host: string,
    ipaddr: string,
    cwd: string,
    additionalMeta: Option<seq<Member>>,
    uuid: string,
    returnCode: Option<int>)

  /** A time attribute: `None` until the run sets it. */
  function TimeJson(t: Option<int>): Json
  {
    match t
    case None => Null
    case Some(v) => Int(v)
  }

  /** The run finished: its end time is set and truthy. */
  predicate Completed(c: Command)
  {
    c.endTime.Some? && c.endTime.value != 0
  }

  /**
   * `to_json()`: the instance attributes in creation order; `additional_meta` only when it was
   * given and non-empty, `command_return_code` only once the run has set it.
   */
  function ToJson(c: Command): (j: Json)
    ensures j.Obj?
  {
    Obj(BaseMembers(c) + MetaMembers(c) + [Member("uuid", Str(c.uuid))] + ReturnCodeMembers(c))
  }

  function BaseMembers(c: Command): seq<Member>
  {
    [Member("command", Str(c.command)),
     Member("stdout", Str(c.stdout)),
     Member("stderr", Str(c.stderr)),
     Member("command_output", Str(c.output)),
     Member("execution_time_start", TimeJson(c.startTime)),
     Member("execution_time_end", TimeJson(c.endTime)),
     Member("executed_on_host", Str(c.host)),
     Member("executed_on_ipaddr", Str(c.ipaddr)),
     Member("current_working_directory", Str(c.cwd))]
  }

  function MetaMembers(c: Command): seq<Member>
  {
    if c.additionalMeta.Some? && c.additionalMeta.value != [] then [Member("additional_meta", Obj(c.additionalMeta.value))] else []
  }

  function ReturnCodeMembers(c: Command): seq<Member>
  {
    if c.returnCode.Some? then [Member("command_return_code", Int(c.returnCode.value))] else []
  }

  /** The attribute names of a serialised command, in order. */
  function KeyList(c: Command): seq<string>
  {
    ["command", "stdout", "stderr", "command_output", "execution_time_start",
     "execution_time_end", "executed_on_host", "executed_on_ipaddr", "current_working_directory"]
    + (if c.additionalMeta.Some? && c.additionalMeta.value != [] then ["additional_meta"] else [])
    + ["uuid"]
    + (if c.returnCode.Some? then ["command_return_code"] else [])
  }

  /**
   * The serialised command lists the nine attributes set at creation first, then
   * `additional_meta` when it was given and non-empty, then `uuid`, then
   * `command_return_code` once the run has set it; no name appears twice.
   */
  lemma PartKeys(c: Command)
    ensures Keys(BaseMembers(c)) == ["command", "stdout", "stderr", "command_output", "execution_time_start",
      "execution_time_end", "executed_on_host", "executed_on_ipaddr", "current_working_directory"]
    ensures Keys(MetaMembers(c)) == if c.additionalMeta.Some? && c.additionalMeta.value != [] then ["additional_meta"] else []
    ensures Keys(ReturnCodeMembers(c)) == if c.returnCode.Some? then ["command_return_code"] else []
  {
  }

  lemma KeyListDistinct(c: Command)
    ensures Seqs.NoDup(KeyList(c))
  {
    var ks := KeyList(c);
    forall i, j | 0 <= i < j < |ks| ensures ks[i] != ks[j] {
      assert |ks[i]| != |ks[j]| || ks[i][0] != ks[j][0] || ks[i][|ks[i]| - 1] != ks[j][|ks[j]| - 1];
    }
  }

  lemma ToJsonKeys(c: Command)
    ensures Keys(ToJson(c).members) == KeyList(c)
    ensures UniqueKeys(ToJson(c).members)
  {
    var base, meta, rc := BaseMembers(c), MetaMembers(c), ReturnCodeMembers(c);
    PartKeys(c);
    KeysAppend(base, meta);
    KeysAppend(base + meta, [Member("uuid", Str(c.uuid))]);
    KeysAppend(base + meta + [Member("uuid", Str(c.uuid))], rc);
    KeyListDistinct(c);
  }

  /** The serialised command carries its command text and its uuid. */
  lemma ToJsonLookups(c: Command)
    ensures Lookup(ToJson(c).members, "command") == Some(Str(c.command))
    ensures Lookup(ToJson(c).members, "uuid") == Some(Str(c.uuid))
  {
    var ms := ToJson(c).members;
    var meta := MetaMembers(c);
    ToJsonKeys(c);
    assert ms[0] == Member("command", Str(c.command));
    assert ms[9 + |meta|] == Member("uuid", Str(c.uuid));
    LookupAt(ms, 0);
    LookupAt(ms, 9 + |meta|);
  }
}
