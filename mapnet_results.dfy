/**
 * What the map-network commander does with scan results: the hand-over from the fast scan to
 * the intense scan, and the spreadsheet of targets that gains one column per `port/protocol`.
 */
module MapNetworkResults {
  import opened Optional
  import opened JsonModel
  import Seqs
  import MapNetworkJobs

  // ---------------------------------------------------------------------------------------------
  // From the fast scan to the intense scan

  /** An entry whose `target_host` is a string, the only kind the command template accepts. */
  predicate HasHostName(t: Json)
  {
    t.Obj? && Lookup(t.members, "target_host").Some? && Lookup(t.members, "target_host").value.Str?
  }

  function HostName(t: Json): string
    requires HasHostName(t)
  {
    Lookup(t.members, "target_host").value.s
  }

  /**
   * How the fast scan ends: no online host exits with 0; an entry that is not a dict (its
   * `.get` raises) or whose host is not a string (the template's `replace` raises) fails;
   * otherwise the intense scan targets each entry's host, in order.
   */
  datatype FastScanEnd = NoHostsOnline | Failed | IntenseScan(targets: seq<string>)

  function AfterFastScan(results: seq<Json>): FastScanEnd
  {
    if results == [] then NoHostsOnline
    else if exists i :: 0 <= i < |results| && !HasHostName(results[i]) then Failed
    else IntenseScan(seq(|results|, i requires 0 <= i < |results| => HostName(results[i])))
  }

  /** The process exit code at this point, if it stops here. */
  function ExitCode(e: FastScanEnd): Option<int>
  {
    if e.NoHostsOnline? then Some(0) else None
  }

  /**
   * Zero fast-scan results exit with 0 and nothing else does; when the intense scan goes ahead
   * it has one job per result, the `i`-th scanning the `i`-th result's host with number `i`.
   */
  lemma FastScanHandOver(results: seq<Json>, commander: string, i: nat)
    ensures ExitCode(AfterFastScan(results)) == Some(0) <==> results == []
    ensures AfterFastScan(results).Failed? <==> exists k :: 0 <= k < |results| && !HasHostName(results[k])
    ensures AfterFastScan(results).IntenseScan? && i < |results| ==>
      var jobs := MapNetworkJobs.Jobs(MapNetworkJobs.IntenseTcpScanCommand, AfterFastScan(results).targets, commander);
      && |jobs| == |results|
      && Get(jobs[i], "command") == Some(Str("nmap " + HostName(results[i]) + " -T4 -p 1-65535 -sV -Pn"))
      && Get(jobs[i], "job_number") == Some(Int(i))
  {
    if AfterFastScan(results).IntenseScan? && i < |results| {
      var targets := AfterFastScan(results).targets;
      assert targets[i] == HostName(results[i]);
      MapNetworkJobs.JobsFields(MapNetworkJobs.IntenseTcpScanCommand, targets, commander, i);
      MapNetworkJobs.IntenseTcpScanCommandFor(targets[i]);
    }
  }

  // ---------------------------------------------------------------------------------------------
  // The target spreadsheet

  /**
   * A spreadsheet: its row labels, its column names in order, and the cells that hold a value
   * (a cell not in `cells` is empty).
   */
  datatype Table = Table(index: seq<Json>, columns: seq<string>, cells: map<(Json, string), Json>)

  /** `df[name] = v`: every existing row gets `v` in the column, which is added if new. */
  function WithColumn(t: Table, name: string, v: Json): (r: Table)
    ensures r.index == t.index
    ensures r.columns == if name in t.columns then t.columns else t.columns + [name]
    ensures forall row, col :: (row, col) in r.cells <==> (row, col) in t.cells || (col == name && row in t.index)
    ensures forall row, col :: (row, col) in r.cells ==>
      r.cells[(row, col)] == if col == name && row in t.index then v else t.cells[(row, col)]
  {
    Table(t.index, if name in t.columns then t.columns else t.columns + [name],
          t.cells + map row | row in t.index :: (row, name) := v)
  }

  /** `df.at[row, name] = v`: the row (like the column) is added if new. */
  function WithCell(t: Table, row: Json, name: string, v: Json): (r: Table)
    ensures r.index == if row in t.index then t.index else t.index + [row]
    ensures r.columns == if name in t.columns then t.columns else t.columns + [name]
    ensures r.cells == t.cells[(row, name) := v]
  {
    Table(if row in t.index then t.index else t.index + [row],
          if name in t.columns then t.columns else t.columns + [name],
          t.cells[(row, name) := v])
  }

  /** The DataFrame the commander updates in place. */
  class Frame {
    var index: seq<Json>
    var columns: seq<string>
    var cells: map<(Json, string), Json>

    function Contents(): Table
      reads this
    {
      Table(index, columns, cells)
    }

    constructor (t: Table)
      ensures Contents() == t
    {
      index, columns, cells := t.index, t.columns, t.cells;
    }

    method SetColumn(name: string, v: Json)
      modifies this
      ensures Contents() == WithColumn(old(Contents()), name, v)
    {
      if name !in columns {
        columns := columns + [name];
      }
      cells := cells + map row | row in index :: (row, name) := v;
    }

    method SetCell(row: Json, name: string, v: Json)
      modifies this
      ensures Contents() == WithCell(old(Contents()), row, name, v)
    {
      if row !in index {
        index := index + [row];
      }
      if name !in columns {
        columns := columns + [name];
      }
      cells := cells[(row, name) := v];
    }
  }

  /** `f"{v}"` for a value `.get` returned: `None` for a missing key, `repr` for a list or dict. */
  function Formatted(o: Option<Json>, repr: Json -> string): string
  {
    match o
    case None => "None"
    case Some(v) => if IsScalar(v) then PyStr(v) else repr(v)
  }

  /** A service's column, `port/protocol`. */
  function ColumnName(service: seq<Member>, repr: Json -> string): string
  {
    Formatted(Lookup(service, "port"), repr) + "/" + Formatted(Lookup(service, "protocol"), repr)
  }

  /** `service.get("version") or service.get("service") or service.get("state") or "MISSING"`. */
  function ServiceCell(service: seq<Member>): Json
  {
    if Present(service, "version") then Lookup(service, "version").value
    else if Present(service, "service") then Lookup(service, "service").value
    else if Present(service, "state") then Lookup(service, "state").value
    else Str("MISSING")
  }

  /**
   * A cell is never blank: it is the first truthy one of version, service name and state,
   * and `MISSING` exactly when none of them is truthy.
   */
  lemma ServiceCellChoice(service: seq<Member>)
    ensures Truthy(ServiceCell(service))
    ensures Present(service, "version") ==> ServiceCell(service) == Lookup(service, "version").value
    ensures !Present(service, "version") && Present(service, "service") ==>
      ServiceCell(service) == Lookup(service, "service").value
    ensures !Present(service, "version") && !Present(service, "service") && Present(service, "state") ==>
      ServiceCell(service) == Lookup(service, "state").value
    ensures !Present(service, "version") && !Present(service, "service") && !Present(service, "state") ==>
      ServiceCell(service) == Str("MISSING")
  {
  }

  /** One row of the loop: a target's label and one of its services. */
  type Entry = (Json, seq<Member>)

  /**
   * What `target.get("services", [])` iterates: a missing key gives no services; a list gives
   * its items; an empty string or dict gives nothing; anything else makes the loop raise
   * (a non-iterable, or characters and keys, which have no `.get`).
   */
  function Services(t: seq<Member>): Option<seq<Json>>
  {
    match Lookup(t, "services")
    case None => Some([])
    case Some(v) =>
      if v.Arr? then Some(v.items)
      else if (v.Str? && v.s == "") || (v.Obj? && v.members == []) then Some([])
      else None
  }

  /** The rows the loop visits for one target's services; `None` when a service is not a dict. */
  function ServiceEntries(row: Json, services: seq<Json>): Option<seq<Entry>>
  {
    if services == [] then Some([])
    else
      match ServiceEntries(row, services[..|services| - 1])
      case None => None
      case Some(es) =>
        var s := services[|services| - 1];
        if s.Obj? then Some(es + [(row, s.members)]) else None
  }

  /** The rows the loop visits over all targets; `None` where it raises. */
  function Entries(targets: seq<Json>): Option<seq<Entry>>
  {
    if targets == [] then Some([])
    else
      match Entries(targets[..|targets| - 1])
      case None => None
      case Some(es) =>
        var t := targets[|targets| - 1];
        if !t.Obj? then None
        else match Services(t.members)
          case None => None
          case Some(services) =>
            match ServiceEntries(Lookup(t.members, "target_host").GetOr(Null), services)
            case None => None
            case Some(more) => Some(es + more)
  }

  /** The spreadsheet and the list of columns added so far. */
  datatype Progress = Progress(table: Table, added: seq<string>)

  /** One pass of the inner loop body: add the column on first sight (blank), then set the cell. */
  function AddService(p: Progress, e: Entry, name: seq<Member> -> string): Progress
  {
    var column := name(e.1);
    if column in p.added then Progress(WithCell(p.table, e.0, column, ServiceCell(e.1)), p.added)
    else Progress(WithCell(WithColumn(p.table, column, Str("")), e.0, column, ServiceCell(e.1)), p.added + [column])
  }

  /** The inner loop body as a step function. */
  function Step(name: seq<Member> -> string): (Progress, Entry) -> Progress
  {
    (q: Progress, x: Entry) => AddService(q, x, name)
  }

  /** The spreadsheet after the loop body has run for each of `es`, in order. */
  function Apply(p: Progress, es: seq<Entry>, name: seq<Member> -> string): Progress
  {
    Seqs.FoldLeft(p, es, Step(name))
  }

  /** The last row visited is the last step taken. */
  lemma ApplySnoc(p: Progress, es: seq<Entry>, x: Entry, name: seq<Member> -> string)
    ensures Apply(p, es + [x], name) == AddService(Apply(p, es, name), x, name)
  {
    assert (es + [x])[..|es + [x]| - 1] == es;
  }

  /** The loop body run once more after `es` is the loop body run over `es + [x]`. */
  lemma ApplyStep(p: Progress, es: seq<Entry>, x: Entry, name: seq<Member> -> string, before: Progress, after: Progress)
    requires before == Apply(p, es, name) && after == AddService(before, x, name)
    ensures after == Apply(p, es + [x], name)
  {
    ApplySnoc(p, es, x, name);
  }

  /** Running the loop body over `a + b` is running it over `a`, then over `b`. */
  lemma ApplyAppend(p: Progress, a: seq<Entry>, b: seq<Entry>, name: seq<Member> -> string)
    ensures Apply(p, a + b, name) == Apply(Apply(p, a, name), b, name)
  {
    Seqs.FoldLeftAppend(p, a, b, Step(name));
  }

  /**
   * The column list only grows, by each service's column the first time it is seen: it ends
   * holding exactly the columns it started with and the columns of the services, each once.
   */
  lemma {:induction false} ApplyAdded(p: Progress, es: seq<Entry>, name: seq<Member> -> string)
    ensures p.added <= Apply(p, es, name).added
    ensures forall k :: 0 <= k < |es| ==> name(es[k].1) in Apply(p, es, name).added
    ensures forall n :: n in Apply(p, es, name).added ==>
      n in p.added || exists k :: 0 <= k < |es| && name(es[k].1) == n
    ensures Seqs.NoDup(p.added) ==> Seqs.NoDup(Apply(p, es, name).added)
  {
    if es != [] {
      var init, e := es[..|es| - 1], es[|es| - 1];
      ApplyAdded(p, init, name);
      assert es == init + [e];
      ApplySnoc(p, init, e, name);
      var q := Apply(p, init, name);
      AddServiceAdded(q, e, name);
      forall k | 0 <= k < |es| ensures name(es[k].1) in Apply(p, es, name).added {
        if k < |es| - 1 {
          assert es[k] == init[k];
        }
      }
      ApplyAddedOrigin(p, init, e, name);
    }
  }

  /** Each column added by the last step is that step's own. */
  lemma ApplyAddedOrigin(p: Progress, init: seq<Entry>, e: Entry, name: seq<Member> -> string)
    requires forall n :: n in Apply(p, init, name).added ==>
      n in p.added || exists k :: 0 <= k < |init| && name(init[k].1) == n
    requires Apply(p, init + [e], name).added == Seqs.AddNew(Apply(p, init, name).added, name(e.1))
    ensures forall n :: n in Apply(p, init + [e], name).added ==>
      n in p.added || exists k :: 0 <= k < |init + [e]| && name((init + [e])[k].1) == n
  {
    var es := init + [e];
    forall n | n in Apply(p, es, name).added
      ensures n in p.added || exists k :: 0 <= k < |es| && name(es[k].1) == n
    {
      if n !in Apply(p, init, name).added {
        assert name(es[|init|].1) == n;
      } else if n !in p.added {
        var k :| 0 <= k < |init| && name(init[k].1) == n;
        assert es[k] == init[k];
      }
    }
  }

  /** A step adds its column to the list when, and only when, it is new. */
  lemma AddServiceAdded(q: Progress, x: Entry, name: seq<Member> -> string)
    ensures AddService(q, x, name).added == Seqs.AddNew(q.added, name(x.1))
  {
  }

  /**
   * The cell a service writes keeps its value unless a later service writes the same row and
   * column: a column first seen later is blanked without touching it.
   */
  lemma {:induction false} LastWriteWins(p: Progress, pre: seq<Entry>, e: Entry, post: seq<Entry>, name: seq<Member> -> string)
    requires forall k :: 0 <= k < |post| ==> (post[k].0, name(post[k].1)) != (e.0, name(e.1))
    ensures (e.0, name(e.1)) in Apply(p, pre + [e] + post, name).table.cells
    ensures Apply(p, pre + [e] + post, name).table.cells[(e.0, name(e.1))] == ServiceCell(e.1)
    ensures name(e.1) in Apply(p, pre + [e] + post, name).added
  {
    if post == [] {
      assert pre + [e] + post == pre + [e];
      ApplySnoc(p, pre, e, name);
      AddServiceWrites(Apply(p, pre, name), e, name);
    } else {
      var init, x := post[..|post| - 1], post[|post| - 1];
      forall k | 0 <= k < |init|
        ensures (init[k].0, name(init[k].1)) != (e.0, name(e.1))
      {
        assert init[k] == post[k];
      }
      LastWriteWins(p, pre, e, init, name);
      assert pre + [e] + post == (pre + [e] + init) + [x];
      ApplySnoc(p, pre + [e] + init, x, name);
      AddServiceKeeps(Apply(p, pre + [e] + init, name), x, (e.0, name(e.1)), name);
    }
  }

  /** A service writes its cell and its column is then among the added ones. */
  lemma AddServiceWrites(q: Progress, x: Entry, name: seq<Member> -> string)
    ensures name(x.1) in AddService(q, x, name).added
    ensures (x.0, name(x.1)) in AddService(q, x, name).table.cells
    ensures AddService(q, x, name).table.cells[(x.0, name(x.1))] == ServiceCell(x.1)
  {
  }

  /**
   * A service leaves any other cell as it was, as long as the cell's column is not the one it
   * blanks on first sight.
   */
  lemma AddServiceKeeps(q: Progress, x: Entry, key: (Json, string), name: seq<Member> -> string)
    requires key.1 in q.added || key.1 != name(x.1)
    requires key != (x.0, name(x.1))
    ensures key.1 in q.added ==> key.1 in AddService(q, x, name).added
    ensures key in AddService(q, x, name).table.cells <==> key in q.table.cells
    ensures key in q.table.cells ==> AddService(q, x, name).table.cells[key] == q.table.cells[key]
  {
    var column := name(x.1);
    if column !in q.added {
      var t := WithColumn(q.table, column, Str(""));
      assert key in t.cells <==> key in q.table.cells;
      assert key in q.table.cells ==> t.cells[key] == q.table.cells[key];
    }
  }

  /**
   * Cells of columns no service writes are left as they were (new rows and columns aside,
   * nothing else changes).
   */
  lemma {:induction false} OtherCellsKept(p: Progress, es: seq<Entry>, name: seq<Member> -> string, row: Json, col: string)
    requires col in p.added || forall k :: 0 <= k < |es| ==> name(es[k].1) != col
    requires forall k :: 0 <= k < |es| ==> (es[k].0, name(es[k].1)) != (row, col)
    ensures (row, col) in Apply(p, es, name).table.cells <==> (row, col) in p.table.cells
    ensures (row, col) in p.table.cells ==> Apply(p, es, name).table.cells[(row, col)] == p.table.cells[(row, col)]
  {
    if es != [] {
      var init, x := es[..|es| - 1], es[|es| - 1];
      forall k | 0 <= k < |init|
        ensures (init[k].0, name(init[k].1)) != (row, col)
        ensures col in p.added || name(init[k].1) != col
      {
        assert init[k] == es[k];
      }
      OtherCellsKept(p, init, name, row, col);
      ApplyAdded(p, init, name);
      assert es == init + [x];
      ApplySnoc(p, init, x, name);
      AddServiceKeeps(Apply(p, init, name), x, (row, col), name);
    }
  }

  /** Once the loop raises on a prefix of the targets, it raises on the whole. */
  lemma {:induction false} EntriesFailKept(targets: seq<Json>, i: nat)
    requires i <= |targets| && Entries(targets[..i]).None?
    ensures Entries(targets).None?
    decreases |targets|
  {
    if i < |targets| {
      var init := targets[..|targets| - 1];
      assert init[..i] == targets[..i];
      EntriesFailKept(init, i);
    } else {
      assert targets[..i] == targets;
    }
  }

  /** Once a target's services hold a non-dict, the target's rows are not produced. */
  lemma {:induction false} ServiceEntriesFailKept(row: Json, services: seq<Json>, j: nat)
    requires j <= |services| && ServiceEntries(row, services[..j]).None?
    ensures ServiceEntries(row, services).None?
    decreases |services|
  {
    if j < |services| {
      var init := services[..|services| - 1];
      assert init[..j] == services[..j];
      ServiceEntriesFailKept(row, init, j);
    } else {
      assert services[..j] == services;
    }
  }

  /** The column-naming in use: `port/protocol` as the f-string renders them. */
  function Columns(repr: Json -> string): seq<Member> -> string
  {
    s => ColumnName(s, repr)
  }

  /** The inner loop body on the DataFrame. */
  method AddOneService(frame: Frame, added: seq<string>, row: Json, service: seq<Member>, repr: Json -> string)
    returns (added': seq<string>)
    modifies frame
    ensures Progress(frame.Contents(), added') == AddService(Progress(old(frame.Contents()), added), (row, service), Columns(repr))
  {
    var name := ColumnName(service, repr);
    assert Columns(repr)(service) == name;
    added' := added;
    if name !in added {
      added' := added + [name];
      frame.SetColumn(name, Str(""));
    }
    frame.SetCell(row, name, ServiceCell(service));
  }

  /** The inner loop, over one target's services; `cur` is the rows it adds. */
  method AddTargetServices(frame: Frame, added: seq<string>, row: Json, services: seq<Json>, repr: Json -> string)
    returns (ok: bool, added': seq<string>, ghost cur: seq<Entry>)
    modifies frame
    ensures ok <==> ServiceEntries(row, services).Some?
    ensures ok ==> cur == ServiceEntries(row, services).value
    ensures ok ==> Progress(frame.Contents(), added') == Apply(Progress(old(frame.Contents()), added), cur, Columns(repr))
  {
    ghost var p0 := Progress(frame.Contents(), added);
    cur := [];
    added' := added;
    var j := 0;
    while j < |services|
      invariant j <= |services|
      invariant ServiceEntries(row, services[..j]) == Some(cur)
      invariant Progress(frame.Contents(), added') == Apply(p0, cur, Columns(repr))
    {
      var service := services[j];
      if !service.Obj? {
        assert ServiceEntries(row, services[..j + 1]).None? by {
          assert services[..j + 1][..j] == services[..j];
        }
        ServiceEntriesFailKept(row, services, j + 1);
        return false, added', cur;
      }
      assert ServiceEntries(row, services[..j + 1]) == Some(cur + [(row, service.members)]) by {
        assert services[..j + 1][..j] == services[..j];
      }
      ghost var e: Entry := (row, service.members);
      ghost var before := Progress(frame.Contents(), added');
      added' := AddOneService(frame, added', row, service.members, repr);
      ApplyStep(p0, cur, e, Columns(repr), before, Progress(frame.Contents(), added'));
      cur := cur + [e];
      j := j + 1;
    }
    assert services[..j] == services;
    ok := true;
  }

  /**
   * The loop over the targets and their services (cyber_radar/commanders/map_network.py and
   * the spreadsheet builder run the same one). `ok` is false where the loop raises.
   */
  method AddServiceColumns(frame: Frame, targets: seq<Json>, repr: Json -> string)
    returns (ok: bool, added: seq<string>)
    modifies frame
    ensures ok <==> Entries(targets).Some?
    ensures ok ==> Progress(frame.Contents(), added) == Apply(Progress(old(frame.Contents()), []), Entries(targets).value, Columns(repr))
  {
    ghost var start := Progress(frame.Contents(), []);
    ghost var done: seq<Entry> := [];
    added := [];
    var i := 0;
    while i < |targets|
      invariant i <= |targets|
      invariant Entries(targets[..i]) == Some(done)
      invariant Progress(frame.Contents(), added) == Apply(start, done, Columns(repr))
    {
      var target := targets[i];
      assert targets[..i + 1][..i] == targets[..i];
      if !target.Obj? {
        EntriesFailKept(targets, i + 1);
        return false, added;
      }
      var row := Lookup(target.members, "target_host").GetOr(Null);
      var services := Services(target.members);
      if services.None? {
        EntriesFailKept(targets, i + 1);
        return false, added;
      }
      var fine;
      ghost var cur;
      fine, added, cur := AddTargetServices(frame, added, row, services.value, repr);
      if !fine {
        EntriesFailKept(targets, i + 1);
        return false, added;
      }
      ApplyAppend(start, done, cur, Columns(repr));
      done := done + cur;
      i := i + 1;
    }
    assert targets[..i] == targets;
    ok := true;
  }
}
