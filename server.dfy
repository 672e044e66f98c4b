/**
 * The RADAR control server (scripts/radar-server.py): the distributed-command queue, the
 * authorization test, the gates in front of the database routes, the mission-list string and the
 * configuration check. The Mongo database is an abstract map from (database, collection) to the
 * documents stored there, in insertion order; HTTP plumbing is left to the caller.
 */
module RadarServer {
  import opened Optional
  import opened JsonModel
  import Text
  import Seqs
  import Constants

  /** The only peer address that is trusted without a key. */
  const Localhost := "127.0.0.1"

  /** The database and collection `is_authorized` reads the registered clients from. */
  const ControlDatabase := "radar-control"
  const ClientCollection := "clients"

  /** What the server uses of a request: the peer address and the `key` cookie, if sent. */
  datatype Request = Request(remoteAddr: string, key: Option<string>)

  /** A client document answering the query `{authorized: True, key: key}`, plus `level: superuser` when asked. */
  predicate Matches(doc: Json, key: string, superuser: bool)
  {
    doc.Obj? && Lookup(doc.members, "authorized") == Some(Bool(true))
    && Lookup(doc.members, "key") == Some(Str(key))
    && (superuser ==> Lookup(doc.members, "level") == Some(Str("superuser")))
  }

  /**
   * `is_authorized`: localhost always; otherwise a non-empty key cookie that some matching document
   * of `radar-control.clients` holds.
   */
  predicate IsAuthorized(req: Request, clients: seq<Json>, superuser: bool)
    ensures IsAuthorized(req, clients, superuser) && req.remoteAddr != Localhost ==>
      req.key.Some? && req.key.value != ""
      && exists c :: c in clients && c.Obj? && Lookup(c.members, "key") == Some(Str(req.key.value))
  {
    req.remoteAddr == Localhost
    || (req.key.Some? && req.key.value != ""
        && exists i :: 0 <= i < |clients| && Matches(clients[i], req.key.value, superuser))
  }

  /** Localhost is authorized whatever the client table holds, even for superuser routes. */
  lemma LocalhostAuthorized(key: Option<string>, clients: seq<Json>, superuser: bool)
    ensures IsAuthorized(Request(Localhost, key), clients, superuser)
  {
  }

  /** A remote request without a (non-empty) key cookie is never authorized. */
  lemma NoKeyNeverAuthorized(req: Request, clients: seq<Json>, superuser: bool)
    requires req.remoteAddr != Localhost && (req.key.None? || req.key.value == "")
    ensures !IsAuthorized(req, clients, superuser)
  {
  }

  /** A request authorized as superuser is authorized for the plain routes too. */
  lemma SuperuserIsAuthorized(req: Request, clients: seq<Json>)
    requires IsAuthorized(req, clients, true)
    ensures IsAuthorized(req, clients, false)
  {
    if req.remoteAddr != Localhost {
      var i :| 0 <= i < |clients| && Matches(clients[i], req.key.value, true);
      assert Matches(clients[i], req.key.value, false);
    }
  }

  /**
   * A client document inserted the way `database_insert_data` inserts it (stamped with
   * `inserted_at`) authorizes every later request that carries its key.
   */
  lemma StampedClientAuthorizes(req: Request, clients: seq<Json>, d: Json, t: int, superuser: bool)
    requires d.Obj? && req.key.Some? && req.key.value != "" && Matches(d, req.key.value, superuser)
    ensures IsAuthorized(req, clients + [Stamp(d, t)], superuser)
  {
    PutLookups(d.members, "inserted_at", Int(t));
    assert (clients + [Stamp(d, t)])[|clients|] == Stamp(d, t);
  }

  // ---------------------------------------------------------------------------------------------
  // The distributed-command queue

  /** A queued command: a dict whose `command` is truthy. */
  predicate IsCommand(c: Json)
  {
    c.Obj? && TruthyOpt(Lookup(c.members, "command"))
  }

  predicate TruthyOpt(v: Option<Json>)
  {
    v.Some? && Truthy(v.value)
  }

  /** The body `add` accepts: a list of commands. */
  predicate ValidBatch(body: Json)
  {
    body.Arr? && forall i :: 0 <= i < |body.items| ==> IsCommand(body.items[i])
  }

  /** The order in which successive `pop()` calls hand out the queue's elements. */
  function Drain(q: seq<Json>): (r: seq<Json>)
    ensures |r| == |q|
  {
    if q == [] then [] else [q[|q| - 1]] + Drain(q[..|q| - 1])
  }

  /** Popping from the end serves the queue in reverse list order. */
  lemma {:induction false} DrainIsReverse(q: seq<Json>)
    ensures Drain(q) == Seqs.Reverse(q)
  {
    if q != [] {
      DrainIsReverse(q[..|q| - 1]);
      Seqs.ReverseLast(q);
    }
  }

  /** FIFO: after a batch is inserted at the front, it is served after everything queued before, in its own order. */
  lemma FifoAfterAdd(q: seq<Json>, batch: seq<Json>)
    ensures Drain(Seqs.Reverse(batch) + q) == Drain(q) + batch
  {
    DrainIsReverse(Seqs.Reverse(batch) + q);
    DrainIsReverse(q);
    Seqs.ReverseAppend(Seqs.Reverse(batch), q);
    Seqs.ReverseReverse(batch);
  }

  /** Two batches added one after the other are served in the order they were added. */
  lemma FifoAcrossBatches(q: seq<Json>, first: seq<Json>, second: seq<Json>)
    ensures Drain(Seqs.Reverse(second) + (Seqs.Reverse(first) + q)) == Drain(q) + first + second
  {
    FifoAfterAdd(Seqs.Reverse(first) + q, second);
    FifoAfterAdd(q, first);
  }

  // ---------------------------------------------------------------------------------------------
  // Database gates

  /** A payload of `database/.../insert` after base64 and JSON decoding. */
  datatype Payload =
    | Decoded(value: Json)
    | Undecodable  // invalid base64 or invalid JSON: answered with 400
    | NotUtf8      // base64 of bytes that are not UTF-8: the decode error escapes the handler

  /** Index of the first element that is not a dict, or the length when all are dicts. */
  function FirstNonDict(items: seq<Json>): (k: nat)
    ensures k <= |items|
    ensures forall j :: 0 <= j < k ==> items[j].Obj?
    ensures k < |items| ==> !items[k].Obj?
  {
    if items == [] || !items[0].Obj? then 0 else 1 + FirstNonDict(items[1..])
  }

  /** A dict with `inserted_at` set to the time `t`. */
  function Stamp(d: Json, t: int): (r: Json)
    requires d.Obj?
    ensures r.Obj? && Lookup(r.members, "inserted_at") == Some(Int(t))
  {
    PutLookups(d.members, "inserted_at", Int(t));
    Obj(Put(d.members, "inserted_at", Int(t)))
  }

  /** The first `k` dicts of a list, each stamped with its own clock reading. */
  function StampedPrefix(items: seq<Json>, k: nat, clock: nat -> int): (r: seq<Json>)
    requires k <= |items| && forall j :: 0 <= j < k ==> items[j].Obj?
    ensures |r| == k
  {
    if k == 0 then [] else StampedPrefix(items, k - 1, clock) + [Stamp(items[k - 1], clock(k - 1))]
  }

  /** The documents of one collection; a collection never written is empty. */
  function DocsIn(s: map<(string, string), seq<Json>>, db: string, coll: string): seq<Json>
  {
    if (db, coll) in s then s[(db, coll)] else []
  }

  /** The store with `docs` appended to one collection; nothing changes when there is nothing to append. */
  function Appended(s: map<(string, string), seq<Json>>, db: string, coll: string, docs: seq<Json>): map<(string, string), seq<Json>>
  {
    if docs == [] then s else s[(db, coll) := DocsIn(s, db, coll) + docs]
  }

  /** Appending one more document to an appended collection appends both at once. */
  lemma AppendedStep(s: map<(string, string), seq<Json>>, db: string, coll: string, docs: seq<Json>, doc: Json,
                     cur: map<(string, string), seq<Json>>, next: map<(string, string), seq<Json>>)
    requires cur == Appended(s, db, coll, docs)
    requires next == cur[(db, coll) := DocsIn(cur, db, coll) + [doc]]
    ensures next == Appended(s, db, coll, docs + [doc])
  {
    if docs == [] {
      assert docs + [doc] == [doc];
    } else {
      assert DocsIn(cur, db, coll) == DocsIn(s, db, coll) + docs;
      assert DocsIn(s, db, coll) + docs + [doc] == DocsIn(s, db, coll) + (docs + [doc]);
      assert next == s[(db, coll) := DocsIn(s, db, coll) + (docs + [doc])];
    }
  }

  /** `insert_many` accepts a non-empty list of documents. */
  predicate Insertable(v: Json)
  {
    v.Arr? && v.items != [] && forall j :: 0 <= j < |v.items| ==> v.items[j].Obj?
  }

  /** The store after the collections of `colls`, from index `j` on, are inserted into `db`; false when one fails. */
  function CollsFrom(s: map<(string, string), seq<Json>>, db: string, colls: seq<Member>, j: nat): (r: (map<(string, string), seq<Json>>, bool))
    requires j <= |colls|
    decreases |colls| - j
  {
    if j == |colls| then (s, true)
    else if !Insertable(colls[j].value) then (s, false)
    else CollsFrom(s[(db, colls[j].key) := DocsIn(s, db, colls[j].key) + colls[j].value.items], db, colls, j + 1)
  }

  /** The store after the databases of `dbs`, from index `i` on, are written; false when a write fails. */
  function BulkFrom(s: map<(string, string), seq<Json>>, dbs: seq<Member>, i: nat): (r: (map<(string, string), seq<Json>>, bool))
    requires i <= |dbs|
    decreases |dbs| - i
  {
    if i == |dbs| then (s, true)
    else if !dbs[i].value.Obj? then (s, false)
    else
      var r := CollsFrom(s, dbs[i].key, dbs[i].value.members, 0);
      if !r.1 then r else BulkFrom(r.0, dbs, i + 1)
  }

  /** Writing collections of `db` never touches another database, and only appends. */
  lemma {:induction false} CollsFromKeeps(s: map<(string, string), seq<Json>>, db: string, colls: seq<Member>, j: nat, d: string, c: string)
    requires j <= |colls|
    ensures var t := CollsFrom(s, db, colls, j).0;
      (d != db ==> DocsIn(t, d, c) == DocsIn(s, d, c))
      && DocsIn(s, d, c) <= DocsIn(t, d, c)
    decreases |colls| - j
  {
    if j < |colls| && Insertable(colls[j].value) {
      var s' := s[(db, colls[j].key) := DocsIn(s, db, colls[j].key) + colls[j].value.items];
      assert DocsIn(s, d, c) <= DocsIn(s', d, c);
      CollsFromKeeps(s', db, colls, j + 1, d, c);
    }
  }

  /** A bulk insert writes only to databases named in its body, and never removes a document. */
  lemma {:induction false} BulkFromKeeps(s: map<(string, string), seq<Json>>, dbs: seq<Member>, i: nat, d: string, c: string)
    requires i <= |dbs|
    ensures var t := BulkFrom(s, dbs, i).0;
      (d !in Keys(dbs[i..]) ==> DocsIn(t, d, c) == DocsIn(s, d, c))
      && DocsIn(s, d, c) <= DocsIn(t, d, c)
    decreases |dbs| - i
  {
    if i < |dbs| && dbs[i].value.Obj? {
      var r := CollsFrom(s, dbs[i].key, dbs[i].value.members, 0);
      CollsFromKeeps(s, dbs[i].key, dbs[i].value.members, 0, d, c);
      KeysCons(dbs[i..]);
      assert dbs[i..][1..] == dbs[i + 1..];
      if r.1 {
        BulkFromKeeps(r.0, dbs, i + 1, d, c);
      }
    }
  }

  /** A name in `PROTECTED_DATABASES` or `RESTRICTED_DATABASES`. */
  predicate Guarded(db: string)
  {
    db in Constants.ProtectedDatabases || db in Constants.RestrictedDatabases
  }

  /** Some database named by a bulk-insert body is protected or restricted. */
  predicate AnyGuarded(dbs: seq<Member>)
  {
    exists i :: 0 <= i < |dbs| && Guarded(dbs[i].key)
  }

  /** A bulk insert that gets past the gate leaves every protected and restricted database as it was. */
  lemma BulkSparesGuarded(s: map<(string, string), seq<Json>>, dbs: seq<Member>, d: string, c: string)
    requires !AnyGuarded(dbs) && Guarded(d)
    ensures DocsIn(BulkFrom(s, dbs, 0).0, d, c) == DocsIn(s, d, c)
  {
    BulkFromKeeps(s, dbs, 0, d, c);
    assert dbs[0..] == dbs;
  }

  // ---------------------------------------------------------------------------------------------
  // Mission list

  /** The mission names the server reports: every database name containing `mission-`, minus its first eight characters, in listing order. */
  function MissionNames(names: seq<string>): seq<string>
  {
    if names == [] then []
    else
      var n := names[|names| - 1];
      MissionNames(names[..|names| - 1])
      + (if Text.Contains(n, Constants.MissionPrefix) then [n[|Constants.MissionPrefix|..]] else [])
  }

  /** Each name followed by a comma: what the loop builds before dropping the last character. */
  function Terminated(parts: seq<string>): string
  {
    if parts == [] then "" else Terminated(parts[..|parts| - 1]) + parts[|parts| - 1] + [',']
  }

  /** Dropping the trailing comma of the terminated list gives the comma-joined list. */
  lemma {:induction false} TerminatedJoin(parts: seq<string>)
    requires parts != []
    ensures Terminated(parts) == Text.Join(parts, ',') + [',']
  {
    var init := parts[..|parts| - 1];
    var last := parts[|parts| - 1];
    if init == [] {
      assert parts == [last];
    } else {
      TerminatedJoin(init);
      Text.JoinSnoc(init, last, ',');
      assert init + [last] == parts;
    }
  }

  /** Without commas in the names, a non-empty reported list splits back into the names. */
  lemma MissionListSplits(names: seq<string>)
    requires MissionNames(names) != []
    requires forall i :: 0 <= i < |MissionNames(names)| ==> ',' !in MissionNames(names)[i]
    ensures Text.Split(Text.Join(MissionNames(names), ','), ',') == MissionNames(names)
  {
    Text.JoinSplit(MissionNames(names), ',');
  }

  /** A database whose name contains `mission-` contributes its name minus the first eight characters. */
  lemma {:induction false} MissionNamed(names: seq<string>, i: nat)
    requires i < |names| && Text.Contains(names[i], Constants.MissionPrefix)
    ensures |names[i]| >= |Constants.MissionPrefix|
    ensures names[i][|Constants.MissionPrefix|..] in MissionNames(names)
  {
    var n := |names|;
    if i < n - 1 {
      MissionNamed(names[..n - 1], i);
    }
  }

  // ---------------------------------------------------------------------------------------------
  // Configuration

  /** A message `verify_config` writes: the section, the key (empty for the section itself), and whether it is fatal. */
  datatype Warning = Warning(section: string, key: string, critical: bool)

  /** `config.get(name)` read as a section by its truthiness. */
  function Section(config: seq<Member>, name: string): Option<Json>
  {
    Lookup(config, name)
  }

  /** A section that is present and truthy must be a dict for its keys to be read. */
  predicate Readable(v: Option<Json>)
  {
    !TruthyOpt(v) || v.value.Obj?
  }

  /** Every section `verify_config` reads into is a dict or falsy. */
  predicate SectionsReadable(config: seq<Member>)
  {
    Readable(Section(config, "web_server")) && Readable(Section(config, "certificates"))
    && Readable(Section(config, "database"))
  }

  /** A truthy key of a (readable, truthy) section. */
  predicate HasKey(v: Option<Json>, key: string)
  {
    TruthyOpt(v) && v.value.Obj? && TruthyOpt(Lookup(v.value.members, key))
  }

  /**
   * The server can start: a `web_server` section, a `database` section with a `host`, and, when a
   * `certificates` section is given, both key files in it.
   */
  predicate ServerConfigValid(config: seq<Member>)
  {
    var web, certs, db := Section(config, "web_server"), Section(config, "certificates"), Section(config, "database");
    TruthyOpt(web) && TruthyOpt(db) && HasKey(db, "host")
    && (TruthyOpt(certs) ==> HasKey(certs, "private_key") && HasKey(certs, "public_key"))
  }

  /** No message of the list is fatal. */
  predicate NoneCritical(ws: seq<Warning>)
  {
    forall w :: w in ws ==> !w.critical
  }

  /** The server process: its queue and the database it is connected to. */
  class ControlServer {
    /** `DEFAULT_SHARE_COLLECTION`, the one collection records may be popped from. */
    const share: string
    /** `distributed_command_queue`: inserted at the front, popped from the end. */
    var queue: seq<Json>
    /** `database_client`: the documents of every collection, the client table included. */
    var store: map<(string, string), seq<Json>>

    /** The registered clients `is_authorized` queries: the documents of `radar-control.clients`. */
    function Clients(): seq<Json>
      reads this
    {
      DocsIn(store, ControlDatabase, ClientCollection)
    }

    constructor (share: string, store: map<(string, string), seq<Json>>)
      ensures this.share == share && queue == [] && this.store == store
    {
      this.share := share;
      queue := [];
      this.store := store;
    }

    /** `add_distributed_command`: every command of a valid batch is inserted at index 0, in batch order. */
    method AddDistributedCommand(req: Request, body: Json) returns (status: int)
      modifies this
      ensures status == (if !IsAuthorized(req, Clients(), true) then 401 else if !ValidBatch(body) then 400 else 200)
      ensures status == 200 ==> queue == Seqs.Reverse(body.items) + old(queue)
      ensures status != 200 ==> queue == old(queue)
      ensures store == old(store)
    {
      if !IsAuthorized(req, Clients(), true) {
        return 401;
      }
      if !body.Arr? {
        return 400;
      }
      var items := body.items;
      var i := 0;
      while i < |items|
        invariant 0 <= i <= |items|
        invariant forall k :: 0 <= k < i ==> IsCommand(items[k])
        invariant queue == old(queue)
      {
        if !IsCommand(items[i]) {
          return 400;
        }
        i := i + 1;
      }
      i := 0;
      while i < |items|
        invariant 0 <= i <= |items|
        invariant queue == Seqs.Reverse(items[..i]) + old(queue)
        invariant store == old(store)
      {
        Seqs.ReversePrefixStep(items, i);
        queue := [items[i]] + queue;
        i := i + 1;
      }
      assert items[..i] == items;
      return 200;
    }

    /** `pop_distributed_command`: the oldest queued command, or 304 on an empty queue. */
    method PopDistributedCommand(req: Request) returns (status: int, command: Option<Json>)
      modifies this
      ensures status == (if !IsAuthorized(req, Clients(), false) then 401 else if old(queue) == [] then 304 else 200)
      ensures status == 200 ==> command == Some(Drain(old(queue))[0]) && Drain(queue) == Drain(old(queue))[1..]
      ensures status == 200 ==> |queue| == |old(queue)| - 1
      ensures status != 200 ==> command.None? && queue == old(queue)
      ensures store == old(store)
    {
      if !IsAuthorized(req, Clients(), false) {
        return 401, None;
      }
      if |queue| == 0 {
        return 304, None;
      }
      command := Some(queue[|queue| - 1]);
      queue := queue[..|queue| - 1];
      status := 200;
    }

    /** `database_pop_data`: every document of the share collection matching the filter is returned and deleted. */
    method PopData(req: Request, db: string, coll: string, filter: Option<Json>, matches: (Json, Json) -> bool)
      returns (status: int, found: seq<Json>)
      modifies this
      ensures status == (if !old(IsAuthorized(req, Clients(), true)) then 401
                         else if Guarded(db) then 403
                         else if coll != share then 400
                         else if !TruthyOpt(filter) then 400
                         else if !filter.value.Obj? then 500
                         else 200)
      ensures status != 200 ==> found == [] && store == old(store)
      ensures status == 200 ==>
        found == Seqs.Filter(DocsIn(old(store), db, coll), d => matches(filter.value, d))
        && store == old(store)[(db, coll) := Seqs.Filter(DocsIn(old(store), db, coll), d => !matches(filter.value, d))]
      ensures Clients() == old(Clients()) && queue == old(queue)
    {
      if !IsAuthorized(req, Clients(), true) {
        return 401, [];
      }
      if db in Constants.ProtectedDatabases || db in Constants.RestrictedDatabases {
        return 403, [];
      }
      if coll != share {
        return 400, [];
      }
      if filter.None? || !Truthy(filter.value) {
        return 400, [];
      }
      if !filter.value.Obj? {
        // pymongo's `find` raises TypeError on a filter that is not a mapping: Flask answers 500
        return 500, [];
      }
      var docs := DocsIn(store, db, coll);
      var f := filter.value;
      found := Seqs.Filter(docs, d => matches(f, d));
      store := store[(db, coll) := Seqs.Filter(docs, d => !matches(f, d))];
      status := 200;
    }

    /** `database_insert_data`: a dict is stamped and inserted; a list is inserted element by element until its first non-dict. */
    method InsertData(req: Request, db: string, coll: string, payload: Payload, clock: nat -> int) returns (status: int)
      modifies this
      ensures !old(IsAuthorized(req, Clients(), false)) ==> status == 401
      ensures old(IsAuthorized(req, Clients(), false)) && db in Constants.ProtectedDatabases ==> status == 403
      ensures (old(IsAuthorized(req, Clients(), false)) && db !in Constants.ProtectedDatabases
               && db in Constants.RestrictedDatabases && !old(IsAuthorized(req, Clients(), true))) ==> status == 401
      ensures old(InsertAllowed(req, db)) && payload.Undecodable? ==> status == 400
      ensures old(InsertAllowed(req, db)) && payload.NotUtf8? ==> status == 500
      ensures old(InsertAllowed(req, db)) && payload.Decoded? && payload.value.Obj? ==>
        status == 200 && store == old(store)[(db, coll) := DocsIn(old(store), db, coll) + [Stamp(payload.value, clock(0))]]
      ensures old(InsertAllowed(req, db)) && payload.Decoded? && payload.value.Arr? ==>
        var items := payload.value.items;
        var k := FirstNonDict(items);
        status == (if k == |items| then 200 else 400)
        && store == Appended(old(store), db, coll, StampedPrefix(items, k, clock))
      ensures old(InsertAllowed(req, db)) && payload.Decoded? && !payload.value.Obj? && !payload.value.Arr? ==> status == 400
      ensures !old(InsertAllowed(req, db)) || !payload.Decoded? || IsScalar(payload.value) ==> store == old(store)
      // The client table is data like any other: only a superuser's insert into `radar-control.clients` changes it.
      ensures Clients() != old(Clients()) ==>
        db == ControlDatabase && coll == ClientCollection && old(IsAuthorized(req, Clients(), true))
      ensures queue == old(queue)
    {
      if !IsAuthorized(req, Clients(), false) {
        return 401;
      }
      if db in Constants.ProtectedDatabases {
        return 403;
      }
      if db in Constants.RestrictedDatabases && !IsAuthorized(req, Clients(), true) {
        return 401;
      }
      if payload.Undecodable? {
        return 400;
      }
      if payload.NotUtf8? {
        return 500;
      }
      status := InsertParsed(db, coll, payload.value, clock);
    }

    /** The part of `database_insert_data` after decoding: a dict is stamped and inserted, a list element by element. */
    method InsertParsed(db: string, coll: string, data: Json, clock: nat -> int) returns (status: int)
      modifies this
      ensures data.Obj? ==>
        status == 200 && store == old(store)[(db, coll) := DocsIn(old(store), db, coll) + [Stamp(data, clock(0))]]
      ensures data.Arr? ==>
        var k := FirstNonDict(data.items);
        status == (if k == |data.items| then 200 else 400)
        && store == Appended(old(store), db, coll, StampedPrefix(data.items, k, clock))
      ensures !data.Obj? && !data.Arr? ==> status == 400 && store == old(store)
      ensures queue == old(queue)
    {
      if data.Obj? {
        store := store[(db, coll) := DocsIn(store, db, coll) + [Stamp(data, clock(0))]];
        return 200;
      }
      if !data.Arr? {
        return 400;
      }
      var items := data.items;
      var i := 0;
      while i < |items|
        invariant 0 <= i <= |items|
        invariant forall j :: 0 <= j < i ==> items[j].Obj?
        invariant store == Appended(old(store), db, coll, StampedPrefix(items, i, clock))
        invariant queue == old(queue)
      {
        if !items[i].Obj? {
          assert FirstNonDict(items) == i;
          return 400;
        }
        ghost var before, cur := StampedPrefix(items, i, clock), store;
        var doc := Stamp(items[i], clock(i));
        store := store[(db, coll) := DocsIn(store, db, coll) + [doc]];
        AppendedStep(old(store), db, coll, before, doc, cur, store);
        assert StampedPrefix(items, i + 1, clock) == before + [doc];
        i := i + 1;
      }
      return 200;
    }

    /** The caller may write to `db` through `database_insert_data`. */
    predicate InsertAllowed(req: Request, db: string)
      reads this
    {
      IsAuthorized(req, Clients(), false) && db !in Constants.ProtectedDatabases
      && (db in Constants.RestrictedDatabases ==> IsAuthorized(req, Clients(), true))
    }

    /**
     * `bulk_insert_data`: every database of the body is checked before anything is written; then each
     * collection's documents are inserted in body order, stopping (status 500) at the first entry the
     * database rejects.
     */
    method BulkInsert(req: Request, body: Option<Json>) returns (status: int)
      modifies this
      ensures !old(IsAuthorized(req, Clients(), false)) ==> status == 401 && store == old(store)
      ensures old(IsAuthorized(req, Clients(), false)) && !TruthyOpt(body) ==> status == 400 && store == old(store)
      ensures old(IsAuthorized(req, Clients(), false)) && TruthyOpt(body) && !body.value.Obj? ==> status == 500 && store == old(store)
      ensures old(IsAuthorized(req, Clients(), false)) && TruthyOpt(body) && body.value.Obj? ==>
        if AnyGuarded(body.value.members) then status == 403 && store == old(store)
        else var r := BulkFrom(old(store), body.value.members, 0);
          store == r.0 && status == (if r.1 then 200 else 500)
      // `radar-control` is restricted, so a bulk insert never changes who is authorized.
      ensures Clients() == old(Clients()) && queue == old(queue)
    {
      if !IsAuthorized(req, Clients(), false) {
        return 401;
      }
      if body.None? || !Truthy(body.value) {
        return 400;
      }
      if !body.value.Obj? {
        return 500;
      }
      var dbs := body.value.members;
      var i := 0;
      while i < |dbs|
        invariant 0 <= i <= |dbs|
        invariant forall k :: 0 <= k < i ==> !Guarded(dbs[k].key)
        invariant store == old(store)
      {
        if dbs[i].key in Constants.ProtectedDatabases || dbs[i].key in Constants.RestrictedDatabases {
          return 403;
        }
        i := i + 1;
      }
      assert forall k :: 0 <= k < |dbs| ==> !Guarded(dbs[k].key);
      i := 0;
      while i < |dbs|
        invariant 0 <= i <= |dbs|
        invariant BulkFrom(store, dbs, i) == BulkFrom(old(store), dbs, 0)
        invariant Clients() == old(Clients()) && queue == old(queue)
        decreases |dbs| - i
      {
        if !dbs[i].value.Obj? {
          return 500;
        }
        var colls := dbs[i].value.members;
        assert BulkFrom(store, dbs, i) == (var r := CollsFrom(store, dbs[i].key, colls, 0); if r.1 then BulkFrom(r.0, dbs, i + 1) else r);
        var j := 0;
        while j < |colls|
          invariant 0 <= j <= |colls|
          invariant var r := CollsFrom(store, dbs[i].key, colls, j);
            (if r.1 then BulkFrom(r.0, dbs, i + 1) else r) == BulkFrom(old(store), dbs, 0)
          invariant Clients() == old(Clients()) && queue == old(queue)
          decreases |colls| - j
        {
          if !Insertable(colls[j].value) {
            return 500;
          }
          store := store[(dbs[i].key, colls[j].key) := DocsIn(store, dbs[i].key, colls[j].key) + colls[j].value.items];
          j := j + 1;
        }
        i := i + 1;
      }
      return 200;
    }

    /** `get_mission_list`: the mission names, comma-joined, without a trailing comma. */
    method MissionList(req: Request, names: seq<string>) returns (status: int, result: string)
      ensures status == (if IsAuthorized(req, Clients(), false) then 200 else 401)
      ensures status == 200 ==> result == Text.Join(MissionNames(names), ',')
    {
      if !IsAuthorized(req, Clients(), false) {
        return 401, "";
      }
      result := "";
      var i := 0;
      while i < |names|
        invariant 0 <= i <= |names|
        invariant result == Terminated(MissionNames(names[..i]))
      {
        assert names[..i + 1][..i] == names[..i];
        if Text.Contains(names[i], Constants.MissionPrefix) {
          var parts := MissionNames(names[..i]) + [names[i][|Constants.MissionPrefix|..]];
          assert MissionNames(names[..i + 1]) == parts;
          assert parts[..|parts| - 1] == MissionNames(names[..i]);
          assert Terminated(parts) == Terminated(MissionNames(names[..i])) + names[i][|Constants.MissionPrefix|..] + [','];
          result := result + names[i][|Constants.MissionPrefix|..] + ",";
        } else {
          assert MissionNames(names[..i + 1]) == MissionNames(names[..i]) + [];
          assert MissionNames(names[..i]) + [] == MissionNames(names[..i]);
        }
        i := i + 1;
      }
      assert names[..i] == names;
      if MissionNames(names) != [] {
        TerminatedJoin(MissionNames(names));
      }
      result := if result == "" then "" else result[..|result| - 1];
      status := 200;
    }
  }

  /** The `web_server` checks: only a missing section is fatal. */
  method CheckWebServer(web: Option<Json>) returns (readable: bool, critical: bool, warnings: seq<Warning>)
    ensures readable == Readable(web)
    ensures readable ==> (critical <==> !TruthyOpt(web)) && (critical <==> !NoneCritical(warnings))
  {
    warnings := [];
    if !TruthyOpt(web) {
      return true, true, [Warning("web_server", "", true)];
    }
    if !web.value.Obj? {
      return false, false, [];
    }
    if !TruthyOpt(Lookup(web.value.members, "listen_address")) {
      warnings := warnings + [Warning("web_server", "listen_address", false)];
    }
    if !TruthyOpt(Lookup(web.value.members, "port")) {
      warnings := warnings + [Warning("web_server", "port", false)];
    }
    return true, false, warnings;
  }

  /** The `certificates` checks: the section is optional, but when given both key files are required. */
  method CheckCertificates(certs: Option<Json>) returns (readable: bool, critical: bool, warnings: seq<Warning>)
    ensures readable == Readable(certs)
    ensures readable ==> (critical <==> TruthyOpt(certs) && !(HasKey(certs, "private_key") && HasKey(certs, "public_key")))
    ensures readable ==> (critical <==> !NoneCritical(warnings))
  {
    if !TruthyOpt(certs) {
      return true, false, [Warning("certificates", "", false)];
    }
    if !certs.value.Obj? {
      return false, false, [];
    }
    critical := false;
    warnings := [];
    if !TruthyOpt(Lookup(certs.value.members, "private_key")) {
      warnings := warnings + [Warning("certificates", "private_key", true)];
      critical := true;
    }
    if !TruthyOpt(Lookup(certs.value.members, "public_key")) {
      warnings := warnings + [Warning("certificates", "public_key", true)];
      critical := true;
    }
    readable := true;
  }

  /** The `database` checks: the section and its `host` are required; the other keys only warn. */
  method CheckDatabase(db: Option<Json>) returns (readable: bool, critical: bool, warnings: seq<Warning>)
    ensures readable == Readable(db)
    ensures readable ==> (critical <==> !(TruthyOpt(db) && HasKey(db, "host"))) && (critical <==> !NoneCritical(warnings))
  {
    if !TruthyOpt(db) {
      return true, true, [Warning("database", "", true)];
    }
    if !db.value.Obj? {
      return false, false, [];
    }
    var ms := db.value.members;
    critical := false;
    warnings := [];
    if !TruthyOpt(Lookup(ms, "host")) {
      warnings := warnings + [Warning("database", "host", true)];
      critical := true;
    }
    if !TruthyOpt(Lookup(ms, "port")) {
      warnings := warnings + [Warning("database", "port", false)];
    }
    if !TruthyOpt(Lookup(ms, "username")) {
      warnings := warnings + [Warning("database", "username", false)];
    }
    if !TruthyOpt(Lookup(ms, "password")) {
      warnings := warnings + [Warning("database", "password", false)];
    }
    if !TruthyOpt(Lookup(ms, "timeout")) {
      warnings := warnings + [Warning("database", "timeout", false)];
    }
    readable := true;
  }

  /** `verify_config`: None when a truthy section is not a dict (its `.get` raises); otherwise whether the server can start. */
  method VerifyConfig(config: seq<Member>) returns (ok: Option<bool>, warnings: seq<Warning>)
    ensures ok.Some? <==> SectionsReadable(config)
    ensures ok.Some? ==> (ok.value <==> ServerConfigValid(config))
    ensures ok.Some? ==> (ok.value <==> NoneCritical(warnings))
  {
    var r1, c1, w1 := CheckWebServer(Section(config, "web_server"));
    if !r1 {
      return None, w1;
    }
    var r2, c2, w2 := CheckCertificates(Section(config, "certificates"));
    if !r2 {
      return None, w1 + w2;
    }
    var r3, c3, w3 := CheckDatabase(Section(config, "database"));
    warnings := w1 + w2 + w3;
    if !r3 {
      return None, warnings;
    }
    ok := Some(!(c1 || c2 || c3));
  }
}
