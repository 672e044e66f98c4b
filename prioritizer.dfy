/** The host prioritiser: a value ranking and a best-guess host type from a target's open services. */
module Prioritizer {
  import opened Optional
  import opened JsonModel
  import Text
  import Seqs
  import opened Exceptions

  // ---------------------------------------------------------------------------------------------
  // Tables

  /** The keys of `VALUE_STANDARD_CONVERSIONS`, in the order of the numbers they convert to. */
  const ValueNames: seq<string> := ["unknown", "low", "medium", "high", "very-high"]

  predicate IsValue(v: string)
  {
    v in ValueNames
  }

  /** `VALUE_STANDARD_CONVERSIONS[v]`. */
  function Rank(v: string): (r: nat)
    requires IsValue(v)
    ensures r < |ValueNames| && ValueNames[r] == v
  {
    if v == "unknown" then 0 else if v == "low" then 1 else if v == "medium" then 2 else if v == "high" then 3 else 4
  }

  /** One entry of `HOST_TYPE`: its name, value, service-name patterns and ports. */
  datatype HostType = HostType(name: string, value: string, serviceNames: seq<string>, ports: seq<int>)

  /** `HOST_TYPE`, in its declaration order. */
  const HostTypes: seq<HostType> := [
    HostType("webserver", "high", ["werkzeug", "httpd", "nginx", "apache"], [80, 443, 3000, 8000, 8443]),
    HostType("database", "very-high", [], [1433, 3306, 6379, 27017]),
    HostType("fileserver", "high", [], [21, 990]),
    HostType("mailserver", "medium", [], [25, 468, 587, 2525, 110, 993, 143, 995]),
    HostType("ics", "very-high", ["modbus"], [502]),
    HostType("domain_controller", "very-high", [], [88])
  ]

  predicate KnownValues(ts: seq<HostType>)
  {
    forall j :: 0 <= j < |ts| ==> IsValue(ts[j].value)
  }

  /**
   * What the scan relies on in the table: known values, and names that are non-empty, hold no `;`
   * and do not occur inside one another, so the substring test on the type string is a membership test.
   */
  predicate ValidTable(table: seq<HostType>)
  {
    KnownValues(table)
    && (forall j :: 0 <= j < |table| ==> table[j].name != [] && ';' !in table[j].name)
    && (forall j, k :: 0 <= j < |table| && 0 <= k < |table| && j != k ==> !Text.Contains(table[j].name, table[k].name))
  }

  lemma HostTypesValid()
    ensures ValidTable(HostTypes)
  {
    forall j | 0 <= j < |HostTypes|
      ensures IsValue(HostTypes[j].value) && HostTypes[j].name != [] && ';' !in HostTypes[j].name
    {
      HostTypeEntry(j);
    }
    forall j, k | 0 <= j < |HostTypes| && 0 <= k < |HostTypes| && j != k
      ensures !Text.Contains(HostTypes[j].name, HostTypes[k].name)
    {
      HostTypeNamed(j);
      HostTypeNamed(k);
      NamesApart(j, k);
    }
  }

  lemma HostTypesKnown()
    ensures KnownValues(HostTypes)
  {
    forall j | 0 <= j < |HostTypes| ensures IsValue(HostTypes[j].value) {
      HostTypeEntry(j);
    }
  }

  lemma HostTypeEntry(j: nat)
    requires j < |HostTypes|
    ensures IsValue(HostTypes[j].value) && HostTypes[j].name != [] && ';' !in HostTypes[j].name
  {
    if j == 0 {} else if j == 1 {} else if j == 2 {} else if j == 3 {} else if j == 4 {} else {}
  }

  /** The names of `HOST_TYPE`'s entries, in order. */
  const TypeNames: seq<string> := ["webserver", "database", "fileserver", "mailserver", "ics", "domain_controller"]

  lemma HostTypeNamed(j: nat)
    requires j < |HostTypes|
    ensures HostTypes[j].name == TypeNames[j]
  {
  }

  /** No host type's name occurs inside another's: for each pair, a character of the second that the first lacks. */
  lemma NamesApart(j: nat, k: nat)
    requires j < |TypeNames| && k < |TypeNames| && j != k
    ensures !Text.Contains(TypeNames[j], TypeNames[k])
  {
    if k == 0 { NotInside0(j); }
    else if k == 1 { NotInside1(j); }
    else if k == 2 { NotInside2(j); }
    else if k == 3 { NotInside3(j); }
    else if k == 4 { NotInside4(j); }
    else { NotInside5(j); }
  }

  lemma NotInside0(j: nat)
    requires j < |TypeNames| && j != 0
    ensures !Text.Contains(TypeNames[j], TypeNames[0])
  {
    if j == 1 {
      Text.MissingCharNoOccurrence("database", "webserver", 0);
    } else if j == 2 {
      Text.MissingCharNoOccurrence("fileserver", "webserver", 0);
    } else if j == 3 {
      Text.MissingCharNoOccurrence("mailserver", "webserver", 0);
    } else if j == 4 {
      Text.MissingCharNoOccurrence("ics", "webserver", 0);
    } else {
      Text.MissingCharNoOccurrence("domain_controller", "webserver", 0);
    }
  }

  lemma NotInside1(j: nat)
    requires j < |TypeNames| && j != 1
    ensures !Text.Contains(TypeNames[j], TypeNames[1])
  {
    if j == 0 {
      Text.MissingCharNoOccurrence("webserver", "database", 0);
    } else if j == 2 {
      Text.MissingCharNoOccurrence("fileserver", "database", 0);
    } else if j == 3 {
      Text.MissingCharNoOccurrence("mailserver", "database", 0);
    } else if j == 4 {
      Text.MissingCharNoOccurrence("ics", "database", 0);
    } else {
      Text.MissingCharNoOccurrence("domain_controller", "database", 4);
    }
  }

  lemma NotInside2(j: nat)
    requires j < |TypeNames| && j != 2
    ensures !Text.Contains(TypeNames[j], TypeNames[2])
  {
    if j == 0 {
      Text.MissingCharNoOccurrence("webserver", "fileserver", 0);
    } else if j == 1 {
      Text.MissingCharNoOccurrence("database", "fileserver", 0);
    } else if j == 3 {
      Text.MissingCharNoOccurrence("mailserver", "fileserver", 0);
    } else if j == 4 {
      Text.MissingCharNoOccurrence("ics", "fileserver", 0);
    } else {
      Text.MissingCharNoOccurrence("domain_controller", "fileserver", 0);
    }
  }

  lemma NotInside3(j: nat)
    requires j < |TypeNames| && j != 3
    ensures !Text.Contains(TypeNames[j], TypeNames[3])
  {
    if j == 0 {
      Text.MissingCharNoOccurrence("webserver", "mailserver", 0);
    } else if j == 1 {
      Text.MissingCharNoOccurrence("database", "mailserver", 0);
    } else if j == 2 {
      Text.MissingCharNoOccurrence("fileserver", "mailserver", 0);
    } else if j == 4 {
      Text.MissingCharNoOccurrence("ics", "mailserver", 0);
    } else {
      Text.MissingCharNoOccurrence("domain_controller", "mailserver", 4);
    }
  }

  lemma NotInside4(j: nat)
    requires j < |TypeNames| && j != 4
    ensures !Text.Contains(TypeNames[j], TypeNames[4])
  {
    if j == 0 {
      Text.MissingCharNoOccurrence("webserver", "ics", 0);
    } else if j == 1 {
      Text.MissingCharNoOccurrence("database", "ics", 0);
    } else if j == 2 {
      Text.MissingCharNoOccurrence("fileserver", "ics", 1);
    } else if j == 3 {
      Text.MissingCharNoOccurrence("mailserver", "ics", 1);
    } else {
      Text.MissingCharNoOccurrence("domain_controller", "ics", 2);
    }
  }

  lemma NotInside5(j: nat)
    requires j < |TypeNames| && j != 5
    ensures !Text.Contains(TypeNames[j], TypeNames[5])
  {
    if j == 0 {
      Text.MissingCharNoOccurrence("webserver", "domain_controller", 0);
    } else if j == 1 {
      Text.MissingCharNoOccurrence("database", "domain_controller", 1);
    } else if j == 2 {
      Text.MissingCharNoOccurrence("fileserver", "domain_controller", 0);
    } else if j == 3 {
      Text.MissingCharNoOccurrence("mailserver", "domain_controller", 0);
    } else {
      Text.MissingCharNoOccurrence("ics", "domain_controller", 0);
    }
  }

  // ---------------------------------------------------------------------------------------------
  // Reading a service

  /** A non-empty run of decimal digits. */
  predicate Digits(s: string)
  {
    s != [] && forall i :: 0 <= i < |s| ==> Text.IsDigit(s[i])
  }

  /** `int(s)` for a string: surrounding whitespace, an optional sign, then decimal digits; anything else is a ValueError. */
  function ParseInt(s: string): (r: Result<int>)
    ensures r.Raise? ==> r.error == ValueError
    ensures r.Ok? ==> var t := Text.Strip(s);
      |t| >= 1 && forall i :: 0 < i < |t| ==> Text.IsDigit(t[i])
  {
    var t := Text.Strip(s);
    if t != [] && (t[0] == '-' || t[0] == '+') then
      if Digits(t[1..]) then Ok((if t[0] == '-' then -1 else 1) * Text.DigitsValue(t[1..]))
      else Raise(ValueError)
    else if Digits(t) then Ok(Text.DigitsValue(t))
    else Raise(ValueError)
  }

  /** `int(x)` where `x` is `service.get("port")`: a missing or null port and a list or dict are TypeErrors. */
  function IntOf(x: Option<Json>): (r: Result<int>)
    ensures r.Raise? && r.error == ValueError ==> x.Some? && x.value.Str?
    ensures x.Some? && x.value.Int? ==> r == Ok(x.value.i)
    ensures x.None? || x == Some(Null) || x.value.Arr? || x.value.Obj? ==> r == Raise(TypeError)
  {
    match x
    case None => Raise(TypeError)
    case Some(Null) => Raise(TypeError)
    case Some(Bool(b)) => Ok(if b then 1 else 0)
    case Some(Int(i)) => Ok(i)
    case Some(Str(s)) => ParseInt(s)
    case Some(_) => Raise(TypeError)
  }

  /** `int(str(i))` gives `i` back. */
  lemma ParseIntRoundTrip(i: int)
    ensures ParseInt(Text.IntToString(i)) == Ok(i)
  {
    var s := Text.IntToString(i);
    var n: nat := if i < 0 then -i else i;
    var digits := Text.NatToString(n);
    Text.NatToStringValue(n);
    if i < 0 {
      assert s == "-" + digits && s[1..] == digits;
    }
    Text.StripKeeps(s);
  }

  /** Some pattern of the host type occurs in the service name (`re.search` on literal patterns). */
  predicate NameMatch(t: HostType, name: string)
  {
    exists j :: 0 <= j < |t.serviceNames| && Text.Contains(name, t.serviceNames[j])
  }

  /** The host type fits the service: its port is listed, or one of its patterns is in the service name. */
  predicate Matches(t: HostType, port: int, name: Option<Json>)
  {
    port in t.ports || (name.Some? && name.value.Str? && NameMatch(t, name.value.s))
  }

  /** A well-formed service entry that the host type fits. */
  predicate ServiceMatches(service: Json, t: HostType)
  {
    service.Obj? && IntOf(Lookup(service.members, "port")).Ok?
    && Matches(t, IntOf(Lookup(service.members, "port")).value, Lookup(service.members, "service"))
  }

  // ---------------------------------------------------------------------------------------------
  // The scan

  /**
   * The loop's state: `device_value`, `device_type`, and the host types flagged so far in the
   * order they were flagged (kept for the proofs; the source only has the string).
   */
  datatype Scan = Scan(value: string, types: string, found: seq<HostType>)

  const Start := Scan("unknown", "", [])

  /** Flagging a host type: keep the value unless the type's ranks at least as high, and append `;name`. */
  function Detect(s: Scan, t: HostType): Scan
    requires IsValue(s.value) && IsValue(t.value)
  {
    Scan(if Rank(t.value) < Rank(s.value) then s.value else t.value, s.types + ";" + t.name, s.found + [t])
  }

  /** The pattern loop: a service name that is not a string fails the first `re.search`. */
  function PatternScan(s: Scan, t: HostType, name: Option<Json>): Result<Scan>
    requires IsValue(s.value) && IsValue(t.value)
  {
    if t.serviceNames == [] then Ok(s)
    else if !(name.Some? && name.value.Str?) then Raise(TypeError)
    else if NameMatch(t, name.value.s) then Ok(Detect(s, t))
    else Ok(s)
  }

  /** One host type against one service: skipped when already in the type string, else port first, then patterns. */
  function TypeStep(s: Scan, t: HostType, port: int, name: Option<Json>): Result<Scan>
    requires IsValue(s.value) && IsValue(t.value)
  {
    if Text.Contains(s.types, t.name) then Ok(s)
    else if port in t.ports then Ok(Detect(s, t))
    else PatternScan(s, t, name)
  }

  /** The inner loop over the host-type table, stopping at the first exception. */
  function TypesFrom(s: Scan, table: seq<HostType>, port: int, name: Option<Json>): (r: Result<Scan>)
    requires IsValue(s.value) && KnownValues(table)
    ensures r.Ok? ==> IsValue(r.value.value)
  {
    if table == [] then Ok(s)
    else
      match TypesFrom(s, table[..|table| - 1], port, name)
      case Raise(e) => Raise(e)
      case Ok(s') => TypeStep(s', table[|table| - 1], port, name)
  }

  /** One service: it must be a dict with an integer port. */
  function ServiceStep(table: seq<HostType>, s: Scan, service: Json): (r: Result<Scan>)
    requires IsValue(s.value) && KnownValues(table)
    ensures r.Ok? ==> IsValue(r.value.value)
  {
    if !service.Obj? then Raise(AttributeError)
    else
      match IntOf(Lookup(service.members, "port"))
      case Raise(e) => Raise(e)
      case Ok(port) => TypesFrom(s, table, port, Lookup(service.members, "service"))
  }

  /** The outer loop over the services, in list order, stopping at the first exception. */
  function ServicesFrom(table: seq<HostType>, services: seq<Json>): (r: Result<Scan>)
    requires KnownValues(table)
    ensures r.Ok? ==> IsValue(r.value.value)
  {
    if services == [] then Ok(Start)
    else
      match ServicesFrom(table, services[..|services| - 1])
      case Raise(e) => Raise(e)
      case Ok(s) => ServiceStep(table, s, services[|services| - 1])
  }

  /** What `get_info` returns: the value and the type string. */
  datatype Info = Info(value: string, hostType: string)

  /** The returned pair: the value, and the type string without its first character, or `"unknown"` if that is empty. */
  function Report(s: Scan): Info
  {
    var tail := if s.types == "" then "" else s.types[1..];
    Info(s.value, if tail == "" then "unknown" else tail)
  }

  /** The outcome of scanning a service list. */
  function ScanInfo(table: seq<HostType>, items: seq<Json>): Result<Info>
    requires KnownValues(table)
  {
    match ServicesFrom(table, items)
    case Raise(e) => Raise(e)
    case Ok(s) => Ok(Report(s))
  }

  /** `get_info` of a target dict. */
  function InfoOf(target: seq<Member>): Result<Info>
  {
    HostTypesKnown();
    InfoWith(HostTypes, target)
  }

  /** `get_info` of a target dict, with `table` in place of `HOST_TYPE`. */
  function InfoWith(table: seq<HostType>, target: seq<Member>): Result<Info>
    requires KnownValues(table)
  {
    var services := Lookup(target, "services");
    if services.None? || !Truthy(services.value) then Ok(Info("unknown", "generic"))
    else
      match services.value
      case Arr(items) => ScanInfo(table, items)
      case Str(_) => Raise(AttributeError)   // iterating a string yields strings, which have no `.get`
      case Obj(_) => Raise(AttributeError)   // iterating a dict yields its keys
      case _ => Raise(TypeError)             // a number or boolean is not iterable
  }

  /** The pattern loop of `get_info`, with its `break` at the first hit. */
  method SearchPatterns(patterns: seq<string>, name: string) returns (hit: bool)
    ensures hit <==> exists j :: 0 <= j < |patterns| && Text.Contains(name, patterns[j])
  {
    var j := 0;
    while j < |patterns|
      invariant 0 <= j <= |patterns|
      invariant forall m :: 0 <= m < j ==> !Text.Contains(name, patterns[m])
    {
      if Text.Contains(name, patterns[j]) {
        return true;
      }
      j := j + 1;
    }
    return false;
  }

  /** `get_info`: the nested loops over services and host types, accumulating the value and the type string. */
  method GetInfo(target: seq<Member>) returns (r: Result<Info>)
    ensures r == InfoOf(target)
  {
    HostTypesKnown();
    r := GetInfoWith(HostTypes, target);
  }

  /** `get_info` with `table` in place of `HOST_TYPE`. */
  method GetInfoWith(table: seq<HostType>, target: seq<Member>) returns (r: Result<Info>)
    requires KnownValues(table)
    ensures r == InfoWith(table, target)
  {
    var services := Lookup(target, "services");
    if services.None? || !Truthy(services.value) {
      return Ok(Info("unknown", "generic"));
    }
    if !services.value.Arr? {
      return if services.value.Str? || services.value.Obj? then Raise(AttributeError) else Raise(TypeError);
    }
    var items := services.value.items;
    var value, types := "unknown", "";
    ghost var found: seq<HostType> := [];
    var i := 0;
    while i < |items|
      invariant 0 <= i <= |items|
      invariant ServicesFrom(table, items[..i]) == Ok(Scan(value, types, found)) && IsValue(value)
    {
      ghost var before := Scan(value, types, found);
      var raised;
      raised, value, types, found := ScanService(table, value, types, found, items[i]);
      assert ServicesFrom(table, items[..i + 1]) == ServiceStep(table, before, items[i]) by {
        assert items[..i + 1][..i] == items[..i];
      }
      if raised.Some? {
        ServicesRaised(table, items, i + 1);
        return Raise(raised.value);
      }
      i := i + 1;
    }
    assert items[..i] == items;
    var tail := if types == "" then "" else types[1..];
    return Ok(Info(value, if tail == "" then "unknown" else tail));
  }

  /** The host-type loop of `get_info` for one service, from the given `device_value` and `device_type`. */
  /** One turn of the service loop: the port read, then the type loop, or the exception either raises. */
  method ScanService(table: seq<HostType>, value0: string, types0: string, ghost found0: seq<HostType>, service: Json)
    returns (raised: Option<PyError>, value: string, types: string, ghost found: seq<HostType>)
    requires IsValue(value0) && KnownValues(table)
    ensures raised.None? ==> ServiceStep(table, Scan(value0, types0, found0), service) == Ok(Scan(value, types, found)) && IsValue(value)
    ensures raised.Some? ==> ServiceStep(table, Scan(value0, types0, found0), service) == Raise(raised.value)
  {
    value, types, found := value0, types0, found0;
    if !service.Obj? {
      return Some(AttributeError), value, types, found;
    }
    var port := IntOf(Lookup(service.members, "port"));
    if port.Raise? {
      return Some(port.error), value, types, found;
    }
    raised, value, types, found := ScanTypes(table, value0, types0, found0, port.value, Lookup(service.members, "service"));
  }

  method ScanTypes(table: seq<HostType>, value0: string, types0: string, ghost found0: seq<HostType>, port: int, name: Option<Json>)
    returns (raised: Option<PyError>, value: string, types: string, ghost found: seq<HostType>)
    requires IsValue(value0) && KnownValues(table)
    ensures raised.None? ==> TypesFrom(Scan(value0, types0, found0), table, port, name) == Ok(Scan(value, types, found)) && IsValue(value)
    ensures raised.Some? ==> TypesFrom(Scan(value0, types0, found0), table, port, name) == Raise(raised.value)
  {
    value, types, found := value0, types0, found0;
    ghost var before := Scan(value0, types0, found0);
    var k := 0;
    while k < |table|
      invariant 0 <= k <= |table|
      invariant TypesFrom(before, table[..k], port, name) == Ok(Scan(value, types, found)) && IsValue(value)
    {
      var t := table[k];
      ghost var cur := Scan(value, types, found);
      assert TypesFrom(before, table[..k + 1], port, name) == TypeStep(cur, t, port, name) by {
        assert table[..k + 1][..k] == table[..k];
      }
      if !Text.Contains(types, t.name) {
        var flag := false;
        if port in t.ports {
          flag := true;
        } else if t.serviceNames != [] {
          if !(name.Some? && name.value.Str?) {
            TypesRaised(before, table, port, name, k + 1);
            return Some(TypeError), value, types, found;
          }
          flag := SearchPatterns(t.serviceNames, name.value.s);
        }
        if flag {
          value := if Rank(t.value) < Rank(value) then value else t.value;
          types := types + ";" + t.name;
          found := found + [t];
        }
      }
      k := k + 1;
    }
    assert table[..k] == table;
    return None, value, types, found;
  }

  /** An exception in the host-type loop ends it. */
  lemma {:induction false} TypesRaised(s: Scan, table: seq<HostType>, port: int, name: Option<Json>, k: nat)
    requires IsValue(s.value) && KnownValues(table)
    requires k <= |table| && TypesFrom(s, table[..k], port, name).Raise?
    ensures TypesFrom(s, table, port, name) == TypesFrom(s, table[..k], port, name)
  {
    if k < |table| {
      var init := table[..|table| - 1];
      assert init[..k] == table[..k];
      TypesRaised(s, init, port, name, k);
    } else {
      assert table[..k] == table;
    }
  }

  /** An exception on a service ends the scan. */
  lemma {:induction false} ServicesRaised(table: seq<HostType>, items: seq<Json>, k: nat)
    requires KnownValues(table) && k <= |items| && ServicesFrom(table, items[..k]).Raise?
    ensures ServicesFrom(table, items) == ServicesFrom(table, items[..k])
  {
    if k < |items| {
      var init := items[..|items| - 1];
      assert init[..k] == items[..k];
      ServicesRaised(table, init, k);
    } else {
      assert items[..k] == items;
    }
  }

  // ---------------------------------------------------------------------------------------------
  // What the scan computes

  function Names(ts: seq<HostType>): (r: seq<string>)
    ensures |r| == |ts| && forall j :: 0 <= j < |ts| ==> r[j] == ts[j].name
  {
    if ts == [] then [] else Names(ts[..|ts| - 1]) + [ts[|ts| - 1].name]
  }

  /** The type string for a list of flagged host types: `;name` for each. */
  function Flags(ts: seq<HostType>): string
  {
    if ts == [] then "" else Flags(ts[..|ts| - 1]) + ";" + ts[|ts| - 1].name
  }

  /** The largest rank among the host types, or 0 (`"unknown"`) for none. */
  function MaxRank(ts: seq<HostType>): (r: nat)
    requires KnownValues(ts)
    ensures forall j :: 0 <= j < |ts| ==> Rank(ts[j].value) <= r
    ensures r == 0 || exists j :: 0 <= j < |ts| && Rank(ts[j].value) == r
  {
    if ts == [] then 0
    else
      var m := MaxRank(ts[..|ts| - 1]);
      var k := Rank(ts[|ts| - 1].value);
      if k < m then m else k
  }

  /** The loop state agrees with its flagged list: value is the maximum, the string lists them, none twice. */
  predicate Consistent(s: Scan)
  {
    KnownValues(s.found) && IsValue(s.value) && Rank(s.value) == MaxRank(s.found)
    && s.types == Flags(s.found) && Seqs.NoDup(Names(s.found))
  }

  /** Each flagged name occurs in the type string. */
  lemma {:induction false} FlagsContain(ts: seq<HostType>, j: nat)
    requires j < |ts|
    ensures Text.Contains(Flags(ts), ts[j].name)
  {
    var init, t := ts[..|ts| - 1], ts[|ts| - 1];
    assert Flags(ts) == Flags(init) + (";" + t.name);
    if j == |ts| - 1 {
      Text.ContainsAt(t.name, t.name, 0);
      Text.ContainsSuffix(Flags(init) + ";", t.name, t.name);
      assert Flags(init) + ";" + t.name == Flags(ts);
    } else {
      FlagsContain(init, j);
      Text.ContainsPrefix(Flags(init), ";" + t.name, ts[j].name);
    }
  }

  /** An occurrence that straddles the `;` between two parts contains that `;`. */
  lemma SeparatorInside(a: string, b: string, pat: string, k: nat)
    requires Text.OccursAt(a + ";" + b, pat, k) && k <= |a| < k + |pat|
    ensures ';' in pat
  {
    var s := a + ";" + b;
    assert s[k..k + |pat|][|a| - k] == s[|a|];
  }

  /** A name without `;` that occurs in the type string occurs inside one of the flagged names. */
  lemma {:induction false} FlagsOccurrence(ts: seq<HostType>, pat: string)
    requires pat != [] && ';' !in pat && Text.Contains(Flags(ts), pat)
    ensures exists j :: 0 <= j < |ts| && Text.Contains(ts[j].name, pat)
  {
    var init, t := ts[..|ts| - 1], ts[|ts| - 1];
    var a := Flags(init);
    var s := Flags(ts);
    assert s == a + ";" + t.name;
    var k := Text.IndexOf(s, pat, 0).value;
    if k + |pat| <= |a| {
      assert a[k..k + |pat|] == s[k..k + |pat|];
      Text.ContainsAt(a, pat, k);
      FlagsOccurrence(init, pat);
      var j :| 0 <= j < |init| && Text.Contains(init[j].name, pat);
      assert init[j] == ts[j];
    } else if k <= |a| {
      SeparatorInside(a, t.name, pat, k);
      assert false;
    } else {
      var m := k - |a| - 1;
      assert t.name[m..m + |pat|] == s[k..k + |pat|];
      Text.ContainsAt(t.name, pat, m);
    }
  }

  /** For flagged lists drawn from a valid table, a table name occurs in the type string exactly when that type is flagged. */
  lemma FlaggedIffFound(table: seq<HostType>, ts: seq<HostType>, k: nat)
    requires ValidTable(table) && k < |table|
    requires forall j :: 0 <= j < |ts| ==> ts[j] in table
    ensures Text.Contains(Flags(ts), table[k].name) <==> table[k].name in Names(ts)
  {
    var n := table[k].name;
    if Text.Contains(Flags(ts), n) {
      FlagsOccurrence(ts, n);
      var j :| 0 <= j < |ts| && Text.Contains(ts[j].name, n);
      var m :| 0 <= m < |table| && table[m] == ts[j];
      assert m == k;
      assert Names(ts)[j] == n;
    }
    if n in Names(ts) {
      var j :| 0 <= j < |ts| && Names(ts)[j] == n;
      FlagsContain(ts, j);
    }
  }

  /** Flagging a type that is not yet in the type string keeps the state consistent. */
  lemma DetectConsistent(s: Scan, t: HostType)
    requires Consistent(s) && IsValue(t.value) && !Text.Contains(s.types, t.name)
    ensures Consistent(Detect(s, t))
  {
    var d := Detect(s, t);
    assert d.found[..|d.found| - 1] == s.found;
    forall j | 0 <= j < |s.found| ensures Names(s.found)[j] != t.name {
      FlagsContain(s.found, j);
    }
    assert Names(d.found) == Names(s.found) + [t.name];
  }

  /** One host-type step keeps the state consistent and either leaves it alone or flags that type, which fits. */
  lemma TypeStepGrows(s: Scan, t: HostType, port: int, name: Option<Json>)
    requires Consistent(s) && IsValue(t.value) && TypeStep(s, t, port, name).Ok?
    ensures var r := TypeStep(s, t, port, name).value;
      Consistent(r) && (r == s || (r == Detect(s, t) && Matches(t, port, name)))
  {
    if TypeStep(s, t, port, name).value != s {
      DetectConsistent(s, t);
    }
  }

  /**
   * The host-type loop keeps the state consistent, only appends to the flagged list and the type
   * string, and every type it appends is a table entry that fits the service.
   */
  lemma {:induction false} TypesFromGrows(s: Scan, table: seq<HostType>, port: int, name: Option<Json>)
    requires Consistent(s) && KnownValues(table) && TypesFrom(s, table, port, name).Ok?
    ensures Grown(s, TypesFrom(s, table, port, name).value, table, port, name)
  {
    if table != [] {
      var init := table[..|table| - 1];
      TypesFromLast(s, table, port, name);
      TypesFromGrows(s, init, port, name);
      GrowsStep(s, TypesFrom(s, init, port, name).value, TypesFrom(s, table, port, name).value,
                init, table[|table| - 1], table, port, name);
    }
  }

  /**
   * From `s` to `r` over `table`: `r` is consistent, only appends to the flagged list and the
   * type string, and every type it appends is a table entry that fits the service.
   */
  predicate Grown(s: Scan, r: Scan, table: seq<HostType>, port: int, name: Option<Json>)
  {
    Consistent(r) && s.found <= r.found && s.types <= r.types
    && forall j :: |s.found| <= j < |r.found| ==> r.found[j] in table && Matches(r.found[j], port, name)
  }

  /** The loop's last step: the state before the last table entry, then that entry's step. */
  lemma TypesFromLast(s: Scan, table: seq<HostType>, port: int, name: Option<Json>)
    requires IsValue(s.value) && KnownValues(table) && table != [] && TypesFrom(s, table, port, name).Ok?
    ensures var init := table[..|table| - 1];
      KnownValues(init) && IsValue(table[|table| - 1].value) && TypesFrom(s, init, port, name).Ok?
      && TypeStep(TypesFrom(s, init, port, name).value, table[|table| - 1], port, name) == TypesFrom(s, table, port, name)
  {
    assert KnownValues(table[..|table| - 1]);
  }

  /** The loop's growth facts carry over one more table entry. */
  lemma GrowsStep(s: Scan, mid: Scan, r: Scan, init: seq<HostType>, t: HostType, table: seq<HostType>, port: int, name: Option<Json>)
    requires table == init + [t] && IsValue(t.value) && Grown(s, mid, init, port, name)
    requires TypeStep(mid, t, port, name).Ok? && r == TypeStep(mid, t, port, name).value
    ensures Grown(s, r, table, port, name)
  {
    TypeStepGrows(mid, t, port, name);
    forall j | |s.found| <= j < |r.found| ensures r.found[j] in table && Matches(r.found[j], port, name) {
      if j < |mid.found| {
        assert r.found[j] == mid.found[j] && mid.found[j] in init;
      }
    }
  }

  /** A step never drops a name from the type string, and leaves there the type when it fits. */
  lemma TypeStepKeeps(s: Scan, t: HostType, port: int, name: Option<Json>, x: string)
    requires IsValue(s.value) && IsValue(t.value) && TypeStep(s, t, port, name).Ok?
    ensures var r := TypeStep(s, t, port, name).value;
      (Text.Contains(s.types, x) ==> Text.Contains(r.types, x))
      && (Matches(t, port, name) ==> Text.Contains(r.types, t.name))
  {
    var r := TypeStep(s, t, port, name).value;
    if r != s {
      assert r.types == s.types + (";" + t.name);
      if Text.Contains(s.types, x) {
        Text.ContainsPrefix(s.types, ";" + t.name, x);
      }
      Text.ContainsAt(t.name, t.name, 0);
      Text.ContainsSuffix(s.types + ";", t.name, t.name);
      assert s.types + ";" + t.name == r.types;
    }
  }

  /** The host-type loop never drops a name from the type string. */
  lemma {:induction false} TypesFromKeeps(s: Scan, table: seq<HostType>, port: int, name: Option<Json>, x: string)
    requires IsValue(s.value) && KnownValues(table) && TypesFrom(s, table, port, name).Ok?
    requires Text.Contains(s.types, x)
    ensures Text.Contains(TypesFrom(s, table, port, name).value.types, x)
  {
    if table != [] {
      var init, t := table[..|table| - 1], table[|table| - 1];
      assert KnownValues(init);
      TypesFromKeeps(s, init, port, name, x);
      TypeStepKeeps(TypesFrom(s, init, port, name).value, t, port, name, x);
    }
  }

  /** After the host-type loop, every table type that fits the service is in the type string. */
  lemma {:induction false} TypesFromComplete(s: Scan, table: seq<HostType>, port: int, name: Option<Json>, k: nat)
    requires IsValue(s.value) && KnownValues(table) && TypesFrom(s, table, port, name).Ok?
    requires k < |table| && Matches(table[k], port, name)
    ensures Text.Contains(TypesFrom(s, table, port, name).value.types, table[k].name)
  {
    var init, t := table[..|table| - 1], table[|table| - 1];
    assert KnownValues(init);
    var mid := TypesFrom(s, init, port, name).value;
    if k == |table| - 1 {
      TypeStepKeeps(mid, t, port, name, t.name);
    } else {
      assert init[k] == table[k];
      TypesFromComplete(s, init, port, name, k);
      TypeStepKeeps(mid, t, port, name, table[k].name);
    }
  }

  /** One more service: the state before it is consistent and the types it flags are table types fitting it. */
  lemma ServiceStepGrows(table: seq<HostType>, s: Scan, service: Json)
    requires Consistent(s) && KnownValues(table) && ServiceStep(table, s, service).Ok?
    ensures var r := ServiceStep(table, s, service).value;
      Consistent(r) && s.found <= r.found && s.types <= r.types
      && forall j :: |s.found| <= j < |r.found| ==> r.found[j] in table && ServiceMatches(service, r.found[j])
  {
    var port := IntOf(Lookup(service.members, "port")).value;
    TypesFromGrows(s, table, port, Lookup(service.members, "service"));
  }

  /** The service loop keeps the state consistent and flags only table types, each fitting some service. */
  lemma {:induction false} ServicesFromGrows(table: seq<HostType>, items: seq<Json>)
    requires KnownValues(table) && ServicesFrom(table, items).Ok?
    ensures var r := ServicesFrom(table, items).value;
      Consistent(r)
      && (forall j :: 0 <= j < |r.found| ==> r.found[j] in table)
      && (forall j :: 0 <= j < |r.found| ==> exists i :: 0 <= i < |items| && ServiceMatches(items[i], r.found[j]))
  {
    if items != [] {
      var init, service := items[..|items| - 1], items[|items| - 1];
      ServicesFromGrows(table, init);
      var mid := ServicesFrom(table, init).value;
      var r := ServicesFrom(table, items).value;
      assert r == ServiceStep(table, mid, service).value;
      ServiceStepGrows(table, mid, service);
      assert init + [service] == items;
      MatchedStep(table, items, init, service, mid.found, r.found);
    }
  }

  /** The types flagged before the last service fit earlier services; those flagged after it fit the last one. */
  lemma MatchedStep(table: seq<HostType>, items: seq<Json>, init: seq<Json>, service: Json, before: seq<HostType>, after: seq<HostType>)
    requires items == init + [service] && before <= after
    requires forall j :: 0 <= j < |before| ==> before[j] in table
    requires forall j :: 0 <= j < |before| ==> exists i :: 0 <= i < |init| && ServiceMatches(init[i], before[j])
    requires forall j :: |before| <= j < |after| ==> after[j] in table && ServiceMatches(service, after[j])
    ensures forall j :: 0 <= j < |after| ==> after[j] in table
    ensures forall j :: 0 <= j < |after| ==> exists i :: 0 <= i < |items| && ServiceMatches(items[i], after[j])
  {
    forall j | 0 <= j < |after|
      ensures exists i :: 0 <= i < |items| && ServiceMatches(items[i], after[j])
    {
      if j < |before| {
        var m :| 0 <= m < |init| && ServiceMatches(init[m], before[j]);
        assert items[m] == init[m] && after[j] == before[j];
        assert ServiceMatches(items[m], after[j]);
      } else {
        assert items[|init|] == service;
        assert ServiceMatches(items[|init|], after[j]);
      }
    }
    assert forall j :: 0 <= j < |after| ==> exists i :: 0 <= i < |items| && ServiceMatches(items[i], after[j]);
    forall j | 0 <= j < |after| ensures after[j] in table {
      if j < |before| {
        assert after[j] == before[j];
      }
    }
  }

  /** The service loop never drops a name from the type string. */
  lemma {:induction false} ServicesFromKeeps(table: seq<HostType>, items: seq<Json>, n: nat, x: string)
    requires KnownValues(table) && ServicesFrom(table, items).Ok? && n <= |items|
    requires ServicesFrom(table, items[..n]).Ok? && Text.Contains(ServicesFrom(table, items[..n]).value.types, x)
    ensures Text.Contains(ServicesFrom(table, items).value.types, x)
  {
    if n < |items| {
      var init, service := items[..|items| - 1], items[|items| - 1];
      assert init[..n] == items[..n];
      ServicesFromKeeps(table, init, n, x);
      var mid := ServicesFrom(table, init).value;
      TypesFromKeeps(mid, table, IntOf(Lookup(service.members, "port")).value, Lookup(service.members, "service"), x);
    } else {
      assert items[..n] == items;
    }
  }

  /** Every table type that fits some service ends up in the type string. */
  lemma ServicesFromComplete(table: seq<HostType>, items: seq<Json>, i: nat, k: nat)
    requires KnownValues(table) && ServicesFrom(table, items).Ok? && i < |items| && k < |table|
    requires ServiceMatches(items[i], table[k])
    ensures Text.Contains(ServicesFrom(table, items).value.types, table[k].name)
  {
    var p := items[..i + 1];
    assert ServicesFrom(table, p).Ok? by { ServicesRaisedOrOk(table, items, i + 1); }
    assert ServicesFrom(table, items[..i]).Ok? by { ServicesRaisedOrOk(table, items, i); }
    var mid := ServicesFrom(table, items[..i]).value;
    var service := items[i];
    assert ServicesFrom(table, p) == ServiceStep(table, mid, service) by {
      assert p[..|p| - 1] == items[..i] && p[|p| - 1] == items[i];
    }
    var port, name := IntOf(Lookup(service.members, "port")).value, Lookup(service.members, "service");
    assert Text.Contains(ServicesFrom(table, p).value.types, table[k].name) by {
      assert ServicesFrom(table, p) == TypesFrom(mid, table, port, name);
      TypesFromComplete(mid, table, port, name, k);
    }
    ServicesFromKeeps(table, items, i + 1, table[k].name);
  }

  /** A scan that succeeds succeeded on every prefix. */
  lemma {:induction false} ServicesRaisedOrOk(table: seq<HostType>, items: seq<Json>, n: nat)
    requires KnownValues(table) && ServicesFrom(table, items).Ok? && n <= |items|
    ensures ServicesFrom(table, items[..n]).Ok?
  {
    if ServicesFrom(table, items[..n]).Raise? {
      ServicesRaised(table, items, n);
    }
  }

  /** The `;`-joined names after dropping the leading `;`. */
  lemma {:induction false} FlagsJoin(ts: seq<HostType>)
    requires ts != []
    ensures |Flags(ts)| >= 1 && Flags(ts)[1..] == Text.Join(Names(ts), ';')
  {
    var init, t := ts[..|ts| - 1], ts[|ts| - 1];
    assert Flags(ts) == Flags(init) + ";" + t.name;
    assert Names(ts) == Names(init) + [t.name];
    if init == [] {
      assert Names(ts) == [t.name];
    } else {
      var head := Flags(init);
      assert |head| >= 1 && head[1..] == Text.Join(Names(init), ';') by { FlagsJoin(init); }
      assert Flags(ts)[1..] == head[1..] + [';'] + t.name;
      assert Text.Join(Names(ts), ';') == Text.Join(Names(init), ';') + [';'] + t.name by {
        Text.JoinSnoc(Names(init), t.name, ';');
      }
    }
  }

  /** A table type is flagged exactly when it fits some service. */
  lemma FoundIffMatched(table: seq<HostType>, items: seq<Json>, k: nat)
    requires ValidTable(table) && ServicesFrom(table, items).Ok? && k < |table|
    ensures table[k].name in Names(ServicesFrom(table, items).value.found)
      <==> exists i :: 0 <= i < |items| && ServiceMatches(items[i], table[k])
  {
    var s := ServicesFrom(table, items).value;
    ServicesFromGrows(table, items);
    FlaggedIffFound(table, s.found, k);
    if exists i :: 0 <= i < |items| && ServiceMatches(items[i], table[k]) {
      var i :| 0 <= i < |items| && ServiceMatches(items[i], table[k]);
      ServicesFromComplete(table, items, i, k);
    }
    if table[k].name in Names(s.found) {
      var j :| 0 <= j < |s.found| && Names(s.found)[j] == table[k].name;
      var m :| 0 <= m < |table| && table[m] == s.found[j];
      if m != k {
        Text.ContainsAt(table[k].name, table[k].name, 0);
      }
      assert m == k;
    }
  }

  /**
   * What `get_info` reports for a non-empty service list it can read: the highest value among the
   * flagged host types (`"unknown"` if none), and their names `;`-joined, each once, in the order
   * they were first flagged (`"unknown"` if none). `ScanReports` shows the flagged types are
   * exactly those that fit some service.
   */
  lemma GetInfoReports(table: seq<HostType>, target: seq<Member>, items: seq<Json>)
    requires ValidTable(table) && Lookup(target, "services") == Some(Arr(items)) && items != []
    requires ServicesFrom(table, items).Ok?
    ensures var found := ServicesFrom(table, items).value.found;
      KnownValues(found) && Seqs.NoDup(Names(found))
      && InfoWith(table, target) == Ok(Info(ValueNames[MaxRank(found)], if found == [] then "unknown" else Text.Join(Names(found), ';')))
  {
    InfoWithScans(table, target, items);
    ScanReports(table, items);
  }

  lemma InfoWithScans(table: seq<HostType>, target: seq<Member>, items: seq<Json>)
    requires KnownValues(table) && Lookup(target, "services") == Some(Arr(items)) && items != []
    ensures InfoWith(table, target) == ScanInfo(table, items)
  {
    assert Truthy(Arr(items)) by { assert items != []; }
  }

  /** The scan over any valid table reports the top value and the names of exactly the fitting types, each once. */
  lemma ScanReports(table: seq<HostType>, items: seq<Json>)
    requires ValidTable(table) && ServicesFrom(table, items).Ok?
    ensures var found := ServicesFrom(table, items).value.found;
      KnownValues(found) && Seqs.NoDup(Names(found))
      && Report(ServicesFrom(table, items).value)
         == Info(ValueNames[MaxRank(found)], if found == [] then "unknown" else Text.Join(Names(found), ';'))
      && (forall k :: 0 <= k < |table| ==>
            (table[k].name in Names(found) <==> exists i :: 0 <= i < |items| && ServiceMatches(items[i], table[k])))
  {
    var s := ServicesFrom(table, items).value;
    ServicesFromGrows(table, items);
    ReportMeaning(table, s);
    forall k | 0 <= k < |table|
      ensures table[k].name in Names(s.found) <==> exists i :: 0 <= i < |items| && ServiceMatches(items[i], table[k])
    {
      FoundIffMatched(table, items, k);
    }
  }

  /** The reported pair is the top value among the flagged types and their `;`-joined names. */
  lemma ReportMeaning(table: seq<HostType>, s: Scan)
    requires ValidTable(table) && Consistent(s) && forall j :: 0 <= j < |s.found| ==> s.found[j] in table
    ensures Report(s) == Info(ValueNames[MaxRank(s.found)], if s.found == [] then "unknown" else Text.Join(Names(s.found), ';'))
  {
    if s.found != [] {
      FlagsJoin(s.found);
      assert s.found[0].name != [];
      assert Text.Join(Names(s.found), ';') != [] by {
        if |s.found| == 1 {
          assert Names(s.found) == [s.found[0].name];
        } else {
          assert Flags(s.found)[1..] != [];
        }
      }
    }
  }

  /** No services, or an empty list, is `("unknown", "generic")` whatever else the target holds. */
  lemma NoServicesIsGeneric(target: seq<Member>)
    requires Lookup(target, "services") in {None, Some(Null), Some(Arr([]))}
    ensures InfoOf(target) == Ok(Info("unknown", "generic"))
  {
  }

  /** A service that is not a dict, or whose port is not an integer, makes `get_info` raise. */
  lemma BadServiceRaises(table: seq<HostType>, target: seq<Member>, items: seq<Json>, i: nat)
    requires KnownValues(table) && Lookup(target, "services") == Some(Arr(items)) && i < |items|
    requires !items[i].Obj? || IntOf(Lookup(items[i].members, "port")).Raise?
    ensures InfoWith(table, target).Raise?
  {
    assert items[..i + 1][..i] == items[..i];
    ServicesRaised(table, items, i + 1);
  }
}
