/**
 * The uplink (scripts/radar-uplink.py): the send queue of `db,collection,json` records, the sync pass
 * that drains it and groups the documents per database and collection, the current mission and
 * its switch, and the queue file written at shutdown and read back at start-up.
 * JSON text is produced and read by the `dumps` and `loads` parameters; `loads` answers None when
 * the text is not JSON.
 */
module RadarUplink {
  import opened Optional
  import opened JsonModel
  import Text
  import Seqs
  import Constants
  import RadarServer

  /** `append_to_sync_queue`'s record: `mission-<mission>,<collection>,<json>`. */
  function Encode(mission: string, collection: string, dataText: string): string
  {
    Constants.MissionPrefix + mission + "," + collection + "," + dataText
  }

  /** A queued record cut into its three fields. */
  datatype Record = Record(database: string, collection: string, dataText: string)

  /** `item.split(',', 2)`, accepted only when it gives three pieces. */
  function Decode(item: string): Option<Record>
  {
    var parts := Text.SplitMax(item, ',', 2);
    if |parts| == 3 then Some(Record(parts[0], parts[1], parts[2])) else None
  }

  /** Decoding recovers the database and collection, even when the JSON text holds commas. */
  lemma DecodeEncode(mission: string, collection: string, dataText: string)
    requires ',' !in mission && ',' !in collection
    ensures Decode(Encode(mission, collection, dataText)) == Some(Record(Constants.MissionPrefix + mission, collection, dataText))
  {
    var db := Constants.MissionPrefix + mission;
    assert ',' !in Constants.MissionPrefix;
    assert ',' !in db;
    assert Encode(mission, collection, dataText) == db + [','] + (collection + [','] + dataText);
    Text.SplitMaxFirst(db, ',', collection + [','] + dataText, 2);
    Text.SplitMaxFirst(collection, ',', dataText, 1);
    if dataText == [] {
      assert Text.SplitMax(dataText, ',', 0) == [""];
    } else {
      assert Text.SplitMax(dataText, ',', 0) == [dataText];
    }
  }

  /** A record that decodes is exactly its three fields rejoined with commas. */
  lemma EncodeDecode(item: string)
    requires Decode(item).Some?
    ensures var r := Decode(item).value; r.database + "," + r.collection + "," + r.dataText == item
  {
    var parts := Text.SplitMax(item, ',', 2);
    Text.SplitMaxJoin(item, ',', 2);
    assert parts[1..][1..] == [parts[2]];
    assert Text.Join([parts[2]], ',') == parts[2];
    assert Text.Join(parts[1..], ',') == parts[1] + [','] + parts[2];
    assert Text.Join(parts, ',') == parts[0] + [','] + (parts[1] + [','] + parts[2]);
  }

  /** An item is malformed exactly when it holds fewer than two commas. */
  lemma DecodeFailsIffFewCommas(item: string)
    ensures Decode(item).None? <==> Text.CountChar(item, ',') < 2
  {
    Text.SplitMaxCount(item, ',', 2);
  }

  // ---------------------------------------------------------------------------------------------
  // Grouping per database and collection

  /** The documents a payload contributes: each element of a list, otherwise the value itself. */
  function Documents(data: Json): seq<Json>
  {
    if data.Arr? then data.items else [data]
  }

  /** `data_to_send.get(db, {})`. */
  function CollsIn(d: seq<Member>, db: string): seq<Member>
  {
    match Lookup(d, db)
    case Some(Obj(ms)) => ms
    case _ => []
  }

  /** `data_to_send.get(db, {}).get(coll, [])`. */
  function DocsAt(d: seq<Member>, db: string, coll: string): seq<Json>
  {
    match Lookup(CollsIn(d, db), coll)
    case Some(Arr(xs)) => xs
    case _ => []
  }

  /** `data_to_send.setdefault(db, {}).setdefault(coll, []).append(doc)`. */
  function AddDoc(d: seq<Member>, db: string, coll: string, doc: Json): seq<Member>
  {
    Put(d, db, Obj(Put(CollsIn(d, db), coll, Arr(DocsAt(d, db, coll) + [doc]))))
  }

  /** Appending the documents one after the other. */
  function AddDocs(d: seq<Member>, db: string, coll: string, docs: seq<Json>): seq<Member>
  {
    if docs == [] then d else AddDoc(AddDocs(d, db, coll, docs[..|docs| - 1]), db, coll, docs[|docs| - 1])
  }

  /** Adding a document appends it to its own collection and to no other. */
  lemma AddDocDocsAt(d: seq<Member>, a: string, c: string, doc: Json, db: string, coll: string)
    ensures DocsAt(AddDoc(d, a, c, doc), db, coll) == DocsAt(d, db, coll) + (if a == db && c == coll then [doc] else [])
  {
    var inner := Put(CollsIn(d, a), c, Arr(DocsAt(d, a, c) + [doc]));
    PutLookups(d, a, Obj(inner));
    PutLookups(CollsIn(d, a), c, Arr(DocsAt(d, a, c) + [doc]));
    if db == a {
      assert CollsIn(AddDoc(d, a, c, doc), db) == inner;
    } else {
      assert CollsIn(AddDoc(d, a, c, doc), db) == CollsIn(d, db);
    }
  }

  /** Adding documents appends them, in order, to their own collection and to no other. */
  lemma {:induction false} AddDocsDocsAt(d: seq<Member>, a: string, c: string, docs: seq<Json>, db: string, coll: string)
    ensures DocsAt(AddDocs(d, a, c, docs), db, coll) == DocsAt(d, db, coll) + (if a == db && c == coll then docs else [])
  {
    if docs != [] {
      var init := docs[..|docs| - 1];
      var x := docs[|docs| - 1];
      var mid := AddDocs(d, a, c, init);
      var here := a == db && c == coll;
      assert AddDocs(d, a, c, docs) == AddDoc(mid, a, c, x);
      assert DocsAt(mid, db, coll) == DocsAt(d, db, coll) + (if here then init else []) by {
        AddDocsDocsAt(d, a, c, init, db, coll);
      }
      assert DocsAt(AddDoc(mid, a, c, x), db, coll) == DocsAt(mid, db, coll) + (if here then [x] else []) by {
        AddDocDocsAt(mid, a, c, x, db, coll);
      }
      if here {
        assert init + [x] == docs;
        assert DocsAt(d, db, coll) + init + [x] == DocsAt(d, db, coll) + docs;
      }
    }
  }

  /** Adding a document leaves a dict that holds at least one database. */
  lemma AddDocNonEmpty(d: seq<Member>, a: string, c: string, doc: Json)
    ensures AddDoc(d, a, c, doc) != []
  {
    PutLookups(d, a, Obj(Put(CollsIn(d, a), c, Arr(DocsAt(d, a, c) + [doc]))));
  }

  /** What grouping the drained items gives: the grouped data, or how the pass ended early. */
  datatype Grouping =
    | Grouped(data: seq<Member>)
    | Malformed  // an item without two commas: `sync_data` returns and the daemon ends
    | BadJson    // a payload that is not JSON: the decode error ends the daemon

  /** Grouping the items in processing order; the first bad item decides the outcome. */
  function GroupAll(items: seq<string>, loads: string -> Option<Json>): Grouping
  {
    if items == [] then Grouped([])
    else
      var n := |items|;
      match GroupAll(items[..n - 1], loads)
      case Grouped(d) =>
        (match Decode(items[n - 1])
         case None => Malformed
         case Some(r) =>
           (match loads(r.dataText)
            case None => BadJson
            case Some(v) => Grouped(AddDocs(d, r.database, r.collection, Documents(v)))))
      case other => other
  }

  /** The documents one item carries: none when it is malformed or its payload is not JSON. */
  function Yield(item: string, loads: string -> Option<Json>): seq<Json>
  {
    match Decode(item)
    case None => []
    case Some(r) => if loads(r.dataText).Some? then Documents(loads(r.dataText).value) else []
  }

  /** The documents one item contributes to `db.coll`. */
  function Contribution(item: string, loads: string -> Option<Json>, db: string, coll: string): seq<Json>
  {
    match Decode(item)
    case None => []
    case Some(r) => if r.database == db && r.collection == coll then Yield(item, loads) else []
  }

  /** The documents all items contribute to `db.coll`, in processing order. */
  function Contributed(items: seq<string>, loads: string -> Option<Json>, db: string, coll: string): seq<Json>
  {
    if items == [] then []
    else Contributed(items[..|items| - 1], loads, db, coll) + Contribution(items[|items| - 1], loads, db, coll)
  }

  /** The item decodes and its payload is JSON. */
  predicate Good(item: string, loads: string -> Option<Json>)
  {
    Decode(item).Some? && loads(Decode(item).value.dataText).Some?
  }

  /** Every item decodes and its payload is JSON. */
  predicate AllGood(items: seq<string>, loads: string -> Option<Json>)
  {
    forall i :: 0 <= i < |items| ==> Good(items[i], loads)
  }

  /** A good last item after good ones adds its documents to its collection. */
  lemma GroupGoodStep(p: seq<string>, loads: string -> Option<Json>)
    requires p != [] && GroupAll(p[..|p| - 1], loads).Grouped? && Good(p[|p| - 1], loads)
    ensures var r := Decode(p[|p| - 1]).value;
      GroupAll(p, loads) == Grouped(AddDocs(GroupAll(p[..|p| - 1], loads).data, r.database, r.collection,
        Documents(loads(r.dataText).value)))
  {
  }

  /** Each collection of the grouped data holds exactly the documents sent to it, in processing order. */
  lemma {:induction false} GroupedDocs(items: seq<string>, loads: string -> Option<Json>, db: string, coll: string)
    requires GroupAll(items, loads).Grouped?
    ensures DocsAt(GroupAll(items, loads).data, db, coll) == Contributed(items, loads, db, coll)
  {
    if items != [] {
      var n := |items|;
      GroupedDocs(items[..n - 1], loads, db, coll);
      var d := GroupAll(items[..n - 1], loads).data;
      var r := Decode(items[n - 1]).value;
      AddDocsDocsAt(d, r.database, r.collection, Documents(loads(r.dataText).value), db, coll);
    }
  }

  /** Grouping ends early exactly when some item is malformed or carries no JSON. */
  lemma {:induction false} GroupedIffAllGood(items: seq<string>, loads: string -> Option<Json>)
    ensures GroupAll(items, loads).Grouped? <==> AllGood(items, loads)
  {
    if items != [] {
      var n := |items|;
      var init := items[..n - 1];
      assert GroupAll(init, loads).Grouped? <==> AllGood(init, loads) by {
        GroupedIffAllGood(init, loads);
      }
      assert AllGood(items, loads) <==> AllGood(init, loads) && Good(items[n - 1], loads) by {
        assert forall i :: 0 <= i < n - 1 ==> init[i] == items[i];
      }
      GroupedLast(items, loads);
    }
  }

  /** A grouping ends well exactly when the one before its last item did and that item is good. */
  lemma GroupedLast(p: seq<string>, loads: string -> Option<Json>)
    requires p != []
    ensures GroupAll(p, loads).Grouped? <==> GroupAll(p[..|p| - 1], loads).Grouped? && Good(p[|p| - 1], loads)
  {
    if !GroupAll(p[..|p| - 1], loads).Grouped? {
      GroupStaysFailed(p, loads);
    } else if Good(p[|p| - 1], loads) {
      GroupGoodStep(p, loads);
    } else {
      GroupFailsAtLast(p, loads);
    }
  }

  /** The grouped data is empty exactly when no item contributed a document (an empty list payload adds no key). */
  lemma {:induction false} GroupedEmpty(items: seq<string>, loads: string -> Option<Json>)
    requires GroupAll(items, loads).Grouped?
    ensures GroupAll(items, loads).data == [] <==> forall i :: 0 <= i < |items| ==> Yield(items[i], loads) == []
  {
    GroupedIffAllGood(items, loads);
    if items != [] {
      var n := |items|;
      var init := items[..n - 1];
      assert forall i :: 0 <= i < n - 1 ==> init[i] == items[i];
      GroupedIffAllGood(init, loads);
      GroupedEmpty(init, loads);
      var d := GroupAll(init, loads).data;
      var r := Decode(items[n - 1]).value;
      var docs := Documents(loads(r.dataText).value);
      assert Yield(items[n - 1], loads) == docs;
      assert GroupAll(items, loads).data == AddDocs(d, r.database, r.collection, docs);
      if docs != [] {
        AddDocNonEmpty(AddDocs(d, r.database, r.collection, docs[..|docs| - 1]), r.database, r.collection, docs[|docs| - 1]);
      }
    }
  }

  // ---------------------------------------------------------------------------------------------
  // Mission list and switch

  /** The client's `get_mission_list`: the server's text split at commas ("" meaning none), plus `default` when absent. */
  function MissionListOf(text: string): (l: seq<string>)
    ensures Constants.DefaultMission in l
  {
    var listed := if |text| > 0 then Text.Split(text, ',') else [];
    if Constants.DefaultMission in listed then listed else listed + [Constants.DefaultMission]
  }

  /** Every mission database the server lists can be switched to (names without commas). */
  lemma ServerMissionsListed(names: seq<string>, i: nat)
    requires i < |names| && Text.Contains(names[i], Constants.MissionPrefix)
    requires forall j :: 0 <= j < |RadarServer.MissionNames(names)| ==> ',' !in RadarServer.MissionNames(names)[j]
    requires Text.Join(RadarServer.MissionNames(names), ',') != ""
    ensures |names[i]| >= |Constants.MissionPrefix|
    ensures names[i][|Constants.MissionPrefix|..] in MissionListOf(Text.Join(RadarServer.MissionNames(names), ','))
  {
    RadarServer.MissionNamed(names, i);
    RadarServer.MissionListSplits(names);
  }

  /** Which queue items the queue file keeps: the non-empty ones. */
  function NonEmpty(q: seq<string>): seq<string>
  {
    if q == [] then [] else NonEmpty(q[..|q| - 1]) + (if q[|q| - 1] != "" then [q[|q| - 1]] else [])
  }

  /** `write_queue_file`'s text: one line per non-empty item. */
  function QueueText(q: seq<string>): string
  {
    if q == [] then "" else QueueText(q[..|q| - 1]) + (if q[|q| - 1] != "" then q[|q| - 1] + "\n" else "")
  }

  /** The reload: every line of the file, stripped, that is not blank. */
  function Loaded(lines: seq<string>): seq<string>
  {
    if lines == [] then []
    else Loaded(lines[..|lines| - 1]) + (if Text.Strip(lines[|lines| - 1]) != "" then [Text.Strip(lines[|lines| - 1])] else [])
  }

  /** The lines of a text file, without their line ends. */
  function FileLines(text: string): seq<string>
  {
    Text.Split(text, '\n')
  }

  /** An item that survives the file untouched: one line, no surrounding whitespace. */
  predicate LineSafe(item: string)
  {
    '\n' !in item && Text.Strip(item) == item
  }

  /** The queue text followed by one more line splits into the kept items and that line. */
  lemma {:induction false} QueueTextLines(q: seq<string>, x: string)
    requires '\n' !in x && forall i :: 0 <= i < |q| ==> '\n' !in q[i]
    ensures Text.Split(QueueText(q) + x, '\n') == NonEmpty(q) + [x]
  {
    if q == [] {
      assert QueueText(q) + x == x;
      Text.SplitNoSep(x, '\n');
    } else {
      var init, y := q[..|q| - 1], q[|q| - 1];
      if y == "" {
        assert QueueText(q) == QueueText(init) && NonEmpty(q) == NonEmpty(init);
        QueueTextLines(init, x);
      } else {
        assert QueueText(q) == QueueText(init) + y + "\n" && NonEmpty(q) == NonEmpty(init) + [y];
        QueueTextLines(init, y);
        assert QueueText(q) + x == (QueueText(init) + y) + ['\n'] + x;
        Text.SplitAppendSep(QueueText(init) + y, '\n', x);
        Text.SplitNoSep(x, '\n');
      }
    }
  }

  /** One more line of the file: kept, stripped, when it is not blank. */
  lemma LoadedStep(lines: seq<string>, i: nat)
    requires i < |lines|
    ensures Loaded(lines[..i + 1]) == Loaded(lines[..i]) + (if Text.Strip(lines[i]) != "" then [Text.Strip(lines[i])] else [])
  {
    assert lines[..i + 1][..i] == lines[..i];
  }

  /** Reloading lines that are already stripped and non-empty gives them back. */
  lemma {:induction false} LoadedKeeps(lines: seq<string>)
    requires forall i :: 0 <= i < |lines| ==> lines[i] != "" && Text.Strip(lines[i]) == lines[i]
    ensures Loaded(lines) == lines
  {
    if lines != [] {
      var init, x := lines[..|lines| - 1], lines[|lines| - 1];
      assert forall i :: 0 <= i < |init| ==> init[i] == lines[i];
      LoadedKeeps(init);
      assert Loaded(lines) == Loaded(init) + [x];
      assert init + [x] == lines;
    }
  }

  /** Every item `NonEmpty` keeps is an item of the queue and not empty. */
  lemma {:induction false} NonEmptyItems(q: seq<string>)
    ensures forall i :: 0 <= i < |NonEmpty(q)| ==> NonEmpty(q)[i] in q && NonEmpty(q)[i] != ""
  {
    if q != [] {
      NonEmptyItems(q[..|q| - 1]);
      forall i | 0 <= i < |NonEmpty(q)| ensures NonEmpty(q)[i] in q && NonEmpty(q)[i] != "" {
        if i < |NonEmpty(q[..|q| - 1])| {
          assert NonEmpty(q)[i] in q[..|q| - 1];
        }
      }
    }
  }

  /** Writing the queue file and reading it back gives the non-empty items, in order. */
  lemma QueueFileRoundTrip(q: seq<string>)
    requires forall x :: x in q ==> LineSafe(x)
    ensures Loaded(FileLines(QueueText(q))) == NonEmpty(q)
  {
    forall i | 0 <= i < |q| ensures '\n' !in q[i] {
      assert LineSafe(q[i]);
    }
    QueueTextLines(q, "");
    assert QueueText(q) + "" == QueueText(q);
    var kept := NonEmpty(q);
    NonEmptyItems(q);
    assert Loaded(kept + [""]) == Loaded(kept) by {
      assert (kept + [""])[..|kept|] == kept;
      assert Text.Strip("") == "";
    }
    forall i | 0 <= i < |kept| ensures kept[i] != "" && Text.Strip(kept[i]) == kept[i] {
      assert LineSafe(kept[i]);
    }
    LoadedKeeps(kept);
  }

  /** How one pass of the sync daemon ended. */
  datatype PassResult =
    | Slept                     // nothing queued
    | Synced(data: seq<Member>) // everything grouped; sent when non-empty
    | Stopped                   // a malformed item: the daemon returns
    | Crashed                   // a payload that is not JSON: the daemon dies

  /** The pass result a grouping leads to. */
  function ResultOf(g: Grouping): PassResult
  {
    match g
    case Grouped(d) => Synced(d)
    case Malformed => Stopped
    case BadJson => Crashed
  }

  /** The uplink process: its mission, its send queue, what it has bulk-sent, and its queue file. */
  class Uplink {
    const dumps: Json -> string
    const loads: string -> Option<Json>
    var currentMission: string
    var sendQueue: seq<string>
    /** The bodies of `bulk_send_data`, in order. */
    var sent: seq<Json>
    /** The content of `uplink_queue.txt`, when the file exists. */
    var queueFile: Option<string>

    constructor (dumps: Json -> string, loads: string -> Option<Json>, queueFile: Option<string>)
      ensures this.dumps == dumps && this.loads == loads && this.queueFile == queueFile
      ensures currentMission == Constants.DefaultMission && sendQueue == [] && sent == []
    {
      this.dumps := dumps;
      this.loads := loads;
      this.queueFile := queueFile;
      currentMission := Constants.DefaultMission;
      sendQueue := [];
      sent := [];
    }

    /** `append_to_sync_queue`: one record for the current mission. */
    method AppendToSyncQueue(collection: string, data: Json)
      modifies this
      ensures sendQueue == old(sendQueue) + [Encode(currentMission, collection, dumps(data))]
      ensures currentMission == old(currentMission) && sent == old(sent) && queueFile == old(queueFile)
    {
      sendQueue := sendQueue + [Encode(currentMission, collection, dumps(data))];
    }

    /** One turn of `sync_data`'s loop: drain the queue newest-first, group, and send once if anything was grouped. */
    method SyncPass() returns (result: PassResult)
      modifies this
      ensures old(sendQueue) == [] ==> result == Slept && sendQueue == [] && sent == old(sent)
      ensures old(sendQueue) != [] ==>
        var g := GroupAll(Seqs.Reverse(old(sendQueue)), loads);
        sendQueue == [] && result == ResultOf(g)
        && sent == old(sent) + (if g.Grouped? && g.data != [] then [Obj(g.data)] else [])
      ensures currentMission == old(currentMission) && queueFile == old(queueFile)
    {
      if |sendQueue| == 0 {
        return Slept;
      }
      var items: seq<string> := [];
      while |sendQueue| > 0
        invariant items + Seqs.Reverse(sendQueue) == Seqs.Reverse(old(sendQueue))
        invariant sent == old(sent) && currentMission == old(currentMission) && queueFile == old(queueFile)
        decreases |sendQueue|
      {
        ghost var before := items;
        var last := sendQueue[|sendQueue| - 1];
        var rest := sendQueue[..|sendQueue| - 1];
        assert Seqs.Reverse(sendQueue) == [last] + Seqs.Reverse(rest) by {
          Seqs.ReverseLast(sendQueue);
        }
        items := items + [last];
        sendQueue := rest;
        assert items + Seqs.Reverse(sendQueue) == before + ([last] + Seqs.Reverse(rest));
      }
      assert items == Seqs.Reverse(old(sendQueue)) by {
        assert Seqs.Reverse(sendQueue) == [];
      }
      var g := GroupItems(items, loads);
      if g.Grouped? && g.data != [] {
        sent := sent + [Obj(g.data)];
      }
      result := ResultOf(g);
    }

    /** `switch_mission`: 400 without a name, 404 for an unknown one unless `create` is non-empty, then 201 or 200. */
    method SwitchMission(newMission: Option<string>, create: Option<string>, listing: string) returns (status: int)
      modifies this
      ensures newMission.None? || newMission.value == "" ==> status == 400
      ensures newMission.Some? && newMission.value != "" && newMission.value !in MissionListOf(listing) ==>
        status == (if create.Some? && create.value != "" then 201 else 404)
      ensures newMission.Some? && newMission.value != "" && newMission.value in MissionListOf(listing) ==> status == 200
      ensures status == 200 || status == 201 ==> currentMission == newMission.value
      ensures status != 200 && status != 201 ==> currentMission == old(currentMission)
      ensures sendQueue == old(sendQueue) && sent == old(sent) && queueFile == old(queueFile)
    {
      if newMission.None? || newMission.value == "" {
        return 400;
      }
      var createFlag := create.Some? && create.value != "";
      var missions := MissionListOf(listing);
      if newMission.value !in missions {
        if !createFlag {
          return 404;
        }
        currentMission := newMission.value;
        return 201;
      }
      currentMission := newMission.value;
      return 200;
    }

    /** `write_queue_file`: nothing for an empty queue or an unwritable file, else one line per non-empty item. */
    method WriteQueueFile(writable: bool)
      modifies this
      ensures old(sendQueue) == [] || !writable ==> queueFile == old(queueFile)
      ensures old(sendQueue) != [] && writable ==> queueFile == Some(QueueText(old(sendQueue)))
      ensures sendQueue == old(sendQueue) && sent == old(sent) && currentMission == old(currentMission)
    {
      if |sendQueue| == 0 || !writable {
        return;
      }
      var text := "";
      var i := 0;
      while i < |sendQueue|
        invariant 0 <= i <= |sendQueue|
        invariant text == QueueText(sendQueue[..i])
      {
        assert sendQueue[..i + 1][..i] == sendQueue[..i];
        if sendQueue[i] != "" {
          text := text + sendQueue[i] + "\n";
        }
        i := i + 1;
      }
      assert sendQueue[..i] == sendQueue;
      queueFile := Some(text);
    }

    /** The reload in `start_sync_daemon`: queue every non-blank stripped line of the file, then delete it. */
    method ReloadQueueFile()
      modifies this
      ensures old(queueFile).None? ==> sendQueue == old(sendQueue) && queueFile == None
      ensures old(queueFile).Some? ==> sendQueue == old(sendQueue) + Loaded(FileLines(old(queueFile).value)) && queueFile == None
      ensures sent == old(sent) && currentMission == old(currentMission)
    {
      if queueFile.None? {
        return;
      }
      var lines := FileLines(queueFile.value);
      var added: seq<string> := [];
      var i := 0;
      while i < |lines|
        invariant 0 <= i <= |lines|
        invariant added == Loaded(lines[..i])
        invariant sendQueue == old(sendQueue) && queueFile == old(queueFile)
        invariant sent == old(sent) && currentMission == old(currentMission)
      {
        LoadedStep(lines, i);
        var line := Text.Strip(lines[i]);
        if line != "" {
          added := added + [line];
        }
        i := i + 1;
      }
      assert lines[..i] == lines;
      sendQueue := sendQueue + added;
      queueFile := None;
    }
  }

  /**
   * The grouping loop of `sync_data`: each item's documents are added under its database and
   * collection, in order; a malformed item or a payload that is not JSON ends the loop.
   */
  method GroupItems(items: seq<string>, loads: string -> Option<Json>) returns (g: Grouping)
    ensures g == GroupAll(items, loads)
  {
    var data: seq<Member> := [];
    var i := 0;
    while i < |items|
      invariant 0 <= i <= |items|
      invariant GroupAll(items[..i], loads) == Grouped(data)
    {
      var r := Decode(items[i]);
      if r.None? {
        GroupStopsAt(items, i, loads);
        return Malformed;
      }
      var v := loads(r.value.dataText);
      if v.None? {
        GroupStopsAt(items, i, loads);
        return BadJson;
      }
      ghost var p := items[..i + 1];
      assert p[..|p| - 1] == items[..i] && p[|p| - 1] == items[i];
      GroupGoodStep(p, loads);
      data := AddAllDocs(data, r.value.database, r.value.collection, Documents(v.value));
      i := i + 1;
    }
    assert items[..i] == items;
    g := Grouped(data);
  }

  /** The inner loop of `sync_data`: each document of one item, appended under its database and collection. */
  method AddAllDocs(d: seq<Member>, db: string, coll: string, docs: seq<Json>) returns (r: seq<Member>)
    ensures r == AddDocs(d, db, coll, docs)
    ensures forall a, c :: DocsAt(r, a, c) == DocsAt(d, a, c) + (if a == db && c == coll then docs else [])
  {
    r := d;
    var j := 0;
    while j < |docs|
      invariant 0 <= j <= |docs|
      invariant r == AddDocs(d, db, coll, docs[..j])
    {
      assert docs[..j + 1][..j] == docs[..j];
      r := AddDoc(r, db, coll, docs[j]);
      j := j + 1;
    }
    assert docs[..j] == docs;
    forall a, c ensures DocsAt(r, a, c) == DocsAt(d, a, c) + (if a == db && c == coll then docs else []) {
      AddDocsDocsAt(d, db, coll, docs, a, c);
    }
  }

  /** A bad last item after good ones ends the grouping. */
  lemma GroupFailsAtLast(p: seq<string>, loads: string -> Option<Json>)
    requires p != [] && GroupAll(p[..|p| - 1], loads).Grouped?
    requires Decode(p[|p| - 1]).None? || loads(Decode(p[|p| - 1]).value.dataText).None?
    ensures GroupAll(p, loads) == (if Decode(p[|p| - 1]).None? then Malformed else BadJson)
  {
  }

  /** Once grouping has ended early, later items do not change how it ended. */
  lemma GroupStaysFailed(p: seq<string>, loads: string -> Option<Json>)
    requires p != [] && !GroupAll(p[..|p| - 1], loads).Grouped?
    ensures GroupAll(p, loads) == GroupAll(p[..|p| - 1], loads)
  {
  }

  /** A bad item at `i` after good ones decides the grouping of every longer prefix. */
  lemma {:induction false} GroupStopsAt(items: seq<string>, i: nat, loads: string -> Option<Json>)
    requires i < |items| && GroupAll(items[..i], loads).Grouped?
    requires Decode(items[i]).None? || loads(Decode(items[i]).value.dataText).None?
    ensures GroupAll(items, loads) == (if Decode(items[i]).None? then Malformed else BadJson)
  {
    var init := items[..|items| - 1];
    if |items| == i + 1 {
      assert init == items[..i];
      GroupFailsAtLast(items, loads);
    } else {
      assert init[..i] == items[..i] && init[i] == items[i];
      GroupStopsAt(init, i, loads);
      GroupStaysFailed(items, loads);
    }
  }
}
