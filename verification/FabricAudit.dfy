/** Cross-device audit rules: disagreeing MTUs on the links of the fabric, and router-IDs
    claimed twice. */
module FabricAudit {
  import opened Common

  datatype Adjacency = Adjacency(neighbor: string, localInterface: string, neighborInterface: string)
  datatype Port = Port(interface: string, mtu: Option<string>)

  /** One device's parsed sections; None for a section that did not parse. The BGP section
      is its router-ID, "" when it has none; `hostname` is the name the device gives itself,
      None when that is unknown or blank. */
  datatype Device = Device(name: string, hostname: Option<string>, lldp: Option<seq<Adjacency>>,
                           interfaces: Option<seq<Port>>, bgp: Option<string>)

  datatype Endpoint = Endpoint(device: string, interface: string)

  /** `resolve` maps a reported neighbor to a device of the fabric; `canon` is the spelling
      rule for interfaces within one device. */
  datatype Names = Names(resolve: string -> Option<string>, canon: string -> string)

  function PortsOf(fabric: seq<Device>, name: string): Option<seq<Port>> {
    if fabric == [] then None
    else if fabric[0].name == name && fabric[0].interfaces.Some? then fabric[0].interfaces
    else PortsOf(fabric[1..], name)
  }

  function MtuIn(canon: string -> string, ports: seq<Port>, interface: string): Option<string> {
    if ports == [] then None
    else if canon(ports[0].interface) == canon(interface) then ports[0].mtu
    else MtuIn(canon, ports[1..], interface)
  }

  function MtuOf(names: Names, fabric: seq<Device>, e: Endpoint): Option<string> {
    var ports := PortsOf(fabric, e.device);
    if ports.None? then None else MtuIn(names.canon, ports.value, e.interface)
  }

  predicate Known(mtu: Option<string>) {
    mtu.Some? && mtu.value != ""
  }

  // ------------------------------------------------------------------
  // Reports and links
  // ------------------------------------------------------------------

  /** One LLDP row, with the device that printed it. */
  datatype Report = Report(device: string, row: Adjacency)

  function RowsOf(device: string, rows: seq<Adjacency>): seq<Report> {
    if rows == [] then [] else RowsOf(device, rows[..|rows| - 1]) + [Report(device, rows[|rows| - 1])]
  }

  /** Every LLDP row in the order in which the audit visits them. */
  function Reports(fabric: seq<Device>): seq<Report> {
    if fabric == [] then []
    else
      var last := fabric[|fabric| - 1];
      Reports(fabric[..|fabric| - 1]) + (if last.lldp.Some? then RowsOf(last.name, last.lldp.value) else [])
  }

  predicate Resolvable(names: Names, fabric: seq<Device>, r: Report) {
    && names.resolve(r.row.neighbor).Some?
    && PortsOf(fabric, names.resolve(r.row.neighbor).value).Some?
    && PortsOf(fabric, r.device).Some?
  }

  function Near(r: Report): Endpoint {
    Endpoint(r.device, r.row.localInterface)
  }

  function Far(names: Names, r: Report): Endpoint
    requires names.resolve(r.row.neighbor).Some?
  {
    Endpoint(names.resolve(r.row.neighbor).value, r.row.neighborInterface)
  }

  /** The unordered link a row is about. */
  function Link(names: Names, r: Report): set<Endpoint>
    requires names.resolve(r.row.neighbor).Some?
  {
    {Near(r), Far(names, r)}
  }

  /** Two ends of the link have known MTUs that differ. */
  predicate Mismatched(names: Names, fabric: seq<Device>, link: set<Endpoint>) {
    exists a, b :: a in link && b in link && Known(MtuOf(names, fabric, a)) && Known(MtuOf(names, fabric, b))
      && MtuOf(names, fabric, a) != MtuOf(names, fabric, b)
  }

  datatype Finding = Finding(near: Endpoint, nearMtu: Option<string>, far: Endpoint, farMtu: Option<string>)

  function Ends(f: Finding): set<Endpoint> {
    {f.near, f.far}
  }

  predicate Reported(findings: seq<Finding>, link: set<Endpoint>) {
    exists f :: f in findings && Ends(f) == link
  }

  predicate EachLinkOnce(findings: seq<Finding>) {
    forall i, j :: 0 <= i < j < |findings| ==> Ends(findings[i]) != Ends(findings[j])
  }

  /** The links among these rows that the audit can judge. */
  predicate Judged(names: Names, fabric: seq<Device>, reports: seq<Report>, link: set<Endpoint>) {
    exists r :: r in reports && Resolvable(names, fabric, r) && Link(names, r) == link
  }

  // ------------------------------------------------------------------
  // The rule
  // ------------------------------------------------------------------

  /** What the rule has found and seen after these rows. */
  ghost predicate Correct(names: Names, fabric: seq<Device>, reports: seq<Report>, findings: seq<Finding>,
                          seen: set<set<Endpoint>>) {
    && (forall link :: link in seen <==> Judged(names, fabric, reports, link))
    && (forall link :: Reported(findings, link) <==> link in seen && Mismatched(names, fabric, link))
    && EachLinkOnce(findings) && ShowTheirMtus(names, fabric, findings)
  }

  /** Each finding shows the two MTUs of its own ends. */
  predicate ShowTheirMtus(names: Names, fabric: seq<Device>, findings: seq<Finding>) {
    forall f :: f in findings ==> f.nearMtu == MtuOf(names, fabric, f.near) && f.farMtu == MtuOf(names, fabric, f.far)
  }

  /** Judges one row. */
  method Judge(names: Names, fabric: seq<Device>, ghost before: seq<Report>, r: Report, findings: seq<Finding>,
               seen: set<set<Endpoint>>)
    returns (after: seq<Finding>, seenAfter: set<set<Endpoint>>)
    requires Correct(names, fabric, before, findings, seen)
    ensures Correct(names, fabric, before + [r], after, seenAfter)
  {
    after, seenAfter := findings, seen;
    JudgedSnoc(names, fabric, before, r);
    if !Resolvable(names, fabric, r) {
      return;
    }
    var link := Link(names, r);
    if link in seen {
      return;
    }
    seenAfter := seen + {link};
    var near, far := Near(r), Far(names, r);
    var nearMtu, farMtu := MtuOf(names, fabric, near), MtuOf(names, fabric, far);
    MismatchedEnds(names, fabric, near, far);
    if Known(nearMtu) && Known(farMtu) && nearMtu != farMtu {
      var f := Finding(near, nearMtu, far, farMtu);
      ReportedSnoc(findings, f);
      after := findings + [f];
    }
  }

  lemma JudgedSnoc(names: Names, fabric: seq<Device>, before: seq<Report>, r: Report)
    ensures forall link :: Judged(names, fabric, before + [r], link) <==>
      Judged(names, fabric, before, link) || (Resolvable(names, fabric, r) && Link(names, r) == link)
  {
    forall link
      ensures Judged(names, fabric, before + [r], link) <==>
        Judged(names, fabric, before, link) || (Resolvable(names, fabric, r) && Link(names, r) == link)
    {
      assert r in before + [r];
      if Judged(names, fabric, before, link) {
        var q :| q in before && Resolvable(names, fabric, q) && Link(names, q) == link;
        assert q in before + [r];
      }
    }
  }

  lemma ReportedSnoc(findings: seq<Finding>, f: Finding)
    ensures forall link :: Reported(findings + [f], link) <==> Reported(findings, link) || Ends(f) == link
    ensures EachLinkOnce(findings) && !Reported(findings, Ends(f)) ==> EachLinkOnce(findings + [f])
  {
    forall link ensures Reported(findings + [f], link) <==> Reported(findings, link) || Ends(f) == link {
      assert f in findings + [f];
      if Reported(findings, link) {
        var g :| g in findings && Ends(g) == link;
        assert g in findings + [f];
      }
    }
  }

  lemma MismatchedEnds(names: Names, fabric: seq<Device>, a: Endpoint, b: Endpoint)
    ensures Mismatched(names, fabric, {a, b}) <==>
      Known(MtuOf(names, fabric, a)) && Known(MtuOf(names, fabric, b))
        && MtuOf(names, fabric, a) != MtuOf(names, fabric, b)
  {
    assert a in {a, b} && b in {a, b};
  }

  /** In the texts themselves: both MTUs were printed, neither is blank, and they differ. */
  lemma MismatchedInWords(names: Names, fabric: seq<Device>, a: Endpoint, b: Endpoint)
    ensures Mismatched(names, fabric, {a, b}) <==>
      exists m, n :: MtuOf(names, fabric, a) == Some(m) && MtuOf(names, fabric, b) == Some(n)
        && m != "" && n != "" && m != n
  {
    MismatchedEnds(names, fabric, a, b);
  }

  /** The row at `k` is the first of the table to spell the interface. */
  ghost predicate FirstPort(canon: string -> string, ports: seq<Port>, interface: string, k: nat) {
    k < |ports| && canon(ports[k].interface) == canon(interface)
    && forall j :: 0 <= j < k ==> canon(ports[j].interface) != canon(interface)
  }

  /** The device at `i` is the first of that name with a port table. */
  ghost predicate FirstTable(fabric: seq<Device>, name: string, i: nat) {
    i < |fabric| && fabric[i].name == name && fabric[i].interfaces.Some?
    && forall j :: 0 <= j < i ==> fabric[j].name != name || fabric[j].interfaces.None?
  }

  lemma {:induction false} PortsOfTheFirst(fabric: seq<Device>, name: string, i: nat)
    requires FirstTable(fabric, name, i)
    ensures PortsOf(fabric, name) == fabric[i].interfaces
  {
    if i > 0 {
      PortsOfTheFirst(fabric[1..], name, i - 1);
    }
  }

  lemma {:induction false} MtuInTheFirst(canon: string -> string, ports: seq<Port>, interface: string, k: nat)
    requires FirstPort(canon, ports, interface, k)
    ensures MtuIn(canon, ports, interface) == ports[k].mtu
  {
    if k > 0 {
      MtuInTheFirst(canon, ports[1..], interface, k - 1);
    }
  }

  /** An endpoint's MTU is what the first row of its port says, in the first table of its
      device. */
  lemma MtuIsThePorts(names: Names, fabric: seq<Device>, e: Endpoint, i: nat, k: nat)
    requires FirstTable(fabric, e.device, i)
    requires FirstPort(names.canon, fabric[i].interfaces.value, e.interface, k)
    ensures MtuOf(names, fabric, e) == fabric[i].interfaces.value[k].mtu
  {
    PortsOfTheFirst(fabric, e.device, i);
    MtuInTheFirst(names.canon, fabric[i].interfaces.value, e.interface, k);
  }

  method MtuMismatches(names: Names, fabric: seq<Device>) returns (findings: seq<Finding>)
    ensures forall link :: Reported(findings, link) <==>
      Judged(names, fabric, Reports(fabric), link) && Mismatched(names, fabric, link)
    ensures EachLinkOnce(findings) && ShowTheirMtus(names, fabric, findings)
  {
    findings := [];
    var seen: set<set<Endpoint>> := {};
    for i := 0 to |fabric|
      invariant Correct(names, fabric, Reports(fabric[..i]), findings, seen)
    {
      assert fabric[..i + 1][..i] == fabric[..i];
      if fabric[i].lldp.Some? {
        var rows := fabric[i].lldp.value;
        ghost var before := Reports(fabric[..i]);
        assert before + RowsOf(fabric[i].name, rows[..0]) == before;
        for j := 0 to |rows|
          invariant Correct(names, fabric, before + RowsOf(fabric[i].name, rows[..j]), findings, seen)
        {
          assert rows[..j + 1][..j] == rows[..j];
          var r := Report(fabric[i].name, rows[j]);
          ghost var upTo := before + RowsOf(fabric[i].name, rows[..j]);
          findings, seen := Judge(names, fabric, upTo, r, findings, seen);
          assert before + RowsOf(fabric[i].name, rows[..j + 1]) == upTo + [r];
        }
        assert rows[..|rows|] == rows;
      } else {
        assert Reports(fabric[..i + 1]) == Reports(fabric[..i]);
      }
    }
    assert fabric[..|fabric|] == fabric;
  }

  // ------------------------------------------------------------------
  // The findings are a function of the set of links
  // ------------------------------------------------------------------

  /** A list of findings that meets the rule's contract for these rows. */
  ghost predicate Answers(names: Names, fabric: seq<Device>, reports: seq<Report>, findings: seq<Finding>) {
    && (forall link :: Reported(findings, link) <==>
          Judged(names, fabric, reports, link) && Mismatched(names, fabric, link))
    && EachLinkOnce(findings)
  }

  function LinksOf(findings: seq<Finding>): (r: set<set<Endpoint>>)
    ensures forall link :: link in r <==> Reported(findings, link)
  {
    set f | f in findings :: Ends(f)
  }

  lemma LastLinkIsNew(front: seq<Finding>, last: Finding)
    requires EachLinkOnce(front + [last])
    ensures EachLinkOnce(front) && !Reported(front, Ends(last))
  {
    var all := front + [last];
    forall i, j | 0 <= i < j < |front| ensures Ends(front[i]) != Ends(front[j]) {
      assert Ends(all[i]) != Ends(all[j]);
    }
    forall f | f in front ensures Ends(f) != Ends(last) {
      var k :| 0 <= k < |front| && front[k] == f;
      assert Ends(all[k]) != Ends(all[|front|]);
    }
  }

  lemma {:induction false} OneFindingPerLink(findings: seq<Finding>)
    requires EachLinkOnce(findings)
    ensures |LinksOf(findings)| == |findings|
  {
    if findings != [] {
      var front, last := findings[..|findings| - 1], findings[|findings| - 1];
      assert findings == front + [last];
      LastLinkIsNew(front, last);
      OneFindingPerLink(front);
      ReportedSnoc(front, last);
      assert LinksOf(findings) == LinksOf(front) + {Ends(last)};
    }
  }

  /** The other end's row about the same link. */
  predicate Mirrors(names: Names, r: Report, m: Report) {
    && names.resolve(r.row.neighbor) == Some(m.device) && names.resolve(m.row.neighbor) == Some(r.device)
    && m.row.localInterface == r.row.neighborInterface && m.row.neighborInterface == r.row.localInterface
  }

  lemma TheOtherEndReportsTheSameLink(names: Names, fabric: seq<Device>, r: Report, m: Report)
    requires Resolvable(names, fabric, r) && Mirrors(names, r, m)
    ensures Resolvable(names, fabric, m) && Link(names, m) == Link(names, r)
  {
  }

  /** Every row of `p` that can be judged is also in `q`, from one end or the other. */
  ghost predicate Told(names: Names, p: seq<Device>, q: seq<Device>) {
    forall r :: r in Reports(p) && Resolvable(names, p, r) ==>
      exists m :: m in Reports(q) && (m == r || Mirrors(names, r, m))
  }

  /** The two inputs have the same devices with a port table, and it says the same MTUs. */
  ghost predicate SamePorts(names: Names, p: seq<Device>, q: seq<Device>) {
    && (forall device :: PortsOf(p, device).Some? == PortsOf(q, device).Some?)
    && (forall e :: MtuOf(names, p, e) == MtuOf(names, q, e))
  }

  lemma JudgedCarriesOver(names: Names, p: seq<Device>, q: seq<Device>, link: set<Endpoint>)
    requires SamePorts(names, p, q) && Told(names, p, q) && Judged(names, p, Reports(p), link)
    ensures Judged(names, q, Reports(q), link)
  {
    var r :| r in Reports(p) && Resolvable(names, p, r) && Link(names, r) == link;
    var m :| m in Reports(q) && (m == r || Mirrors(names, r, m));
    assert PortsOf(p, r.device).Some? == PortsOf(q, r.device).Some?;
    assert Resolvable(names, q, r);
    if m != r {
      TheOtherEndReportsTheSameLink(names, q, r, m);
    }
  }

  lemma MismatchedCarriesOver(names: Names, p: seq<Device>, q: seq<Device>, link: set<Endpoint>)
    requires SamePorts(names, p, q) && Mismatched(names, p, link)
    ensures Mismatched(names, q, link)
  {
    var a, b :| a in link && b in link && Known(MtuOf(names, p, a)) && Known(MtuOf(names, p, b))
                && MtuOf(names, p, a) != MtuOf(names, p, b);
    assert MtuOf(names, p, a) == MtuOf(names, q, a) && MtuOf(names, p, b) == MtuOf(names, q, b);
  }

  lemma FindingsCarryOver(names: Names, p: seq<Device>, q: seq<Device>, f: seq<Finding>, g: seq<Finding>)
    requires Answers(names, p, Reports(p), f) && Answers(names, q, Reports(q), g)
    requires SamePorts(names, p, q) && Told(names, p, q)
    ensures LinksOf(f) <= LinksOf(g)
  {
    forall link | link in LinksOf(f) ensures link in LinksOf(g) {
      assert Reported(f, link);
      JudgedCarriesOver(names, p, q, link);
      MismatchedCarriesOver(names, p, q, link);
    }
  }

  /** Two runs whose inputs tell of the same links, from whichever end and in whatever order,
      find the same links and make equally many findings. */
  lemma SameLinksSameFindings(names: Names, p: seq<Device>, q: seq<Device>, f: seq<Finding>, g: seq<Finding>)
    requires Answers(names, p, Reports(p), f) && Answers(names, q, Reports(q), g)
    requires SamePorts(names, p, q) && Told(names, p, q) && Told(names, q, p)
    ensures LinksOf(f) == LinksOf(g) && |f| == |g|
  {
    FindingsCarryOver(names, p, q, f, g);
    FindingsCarryOver(names, q, p, g, f);
    OneFindingPerLink(f);
    OneFindingPerLink(g);
  }

  // ------------------------------------------------------------------
  // Other orders of the same input
  // ------------------------------------------------------------------

  predicate UniqueNames(fabric: seq<Device>) {
    forall i, j :: 0 <= i < j < |fabric| ==> fabric[i].name != fabric[j].name
  }

  /** One row per port, whatever its spelling. */
  predicate UniquePorts(canon: string -> string, ports: seq<Port>) {
    forall i, j :: 0 <= i < j < |ports| ==> canon(ports[i].interface) != canon(ports[j].interface)
  }

  predicate SameRows<T(==)>(a: seq<T>, b: seq<T>) {
    (forall x :: x in a ==> x in b) && (forall x :: x in b ==> x in a)
  }

  /** The same port table, or the same rows in another order when no port has two. */
  predicate SameTable(canon: string -> string, a: seq<Port>, b: seq<Port>) {
    a == b || (UniquePorts(canon, a) && UniquePorts(canon, b) && SameRows(a, b))
  }

  /** The same device with the rows of its sections in another order. */
  predicate SameDevice(canon: string -> string, d: Device, e: Device) {
    && d.name == e.name && d.hostname == e.hostname
    && d.interfaces.Some? == e.interfaces.Some? && d.lldp.Some? == e.lldp.Some?
    && (d.interfaces.Some? && e.interfaces.Some? ==> SameTable(canon, d.interfaces.value, e.interfaces.value))
    && (d.lldp.Some? && e.lldp.Some? ==> SameRows(d.lldp.value, e.lldp.value))
  }

  predicate Counterpart(canon: string -> string, q: seq<Device>, d: Device) {
    exists e :: e in q && SameDevice(canon, d, e)
  }

  /** Each device of `p` is in `q`, up to the order of its rows. */
  predicate Within(canon: string -> string, p: seq<Device>, q: seq<Device>) {
    forall i {:trigger Counterpart(canon, q, p[i])} :: 0 <= i < |p| ==> Counterpart(canon, q, p[i])
  }

  lemma CounterpartOf(canon: string -> string, p: seq<Device>, q: seq<Device>, d: Device) returns (e: Device)
    requires Within(canon, p, q) && d in p
    ensures e in q && SameDevice(canon, d, e)
  {
    var i :| 0 <= i < |p| && p[i] == d;
    assert Counterpart(canon, q, p[i]);
    e :| e in q && SameDevice(canon, d, e);
  }

  lemma {:induction false} MtuInUnique(canon: string -> string, ports: seq<Port>, interface: string, p: Port)
    requires UniquePorts(canon, ports) && p in ports && canon(p.interface) == canon(interface)
    ensures MtuIn(canon, ports, interface) == p.mtu
  {
    if ports[0] != p {
      var k :| 0 <= k < |ports| && ports[k] == p;
      assert canon(ports[0].interface) != canon(ports[k].interface);
      MtuInUnique(canon, ports[1..], interface, p);
    }
  }

  lemma {:induction false} MtuInNone(canon: string -> string, ports: seq<Port>, interface: string)
    requires forall p :: p in ports ==> canon(p.interface) != canon(interface)
    ensures MtuIn(canon, ports, interface) == None
  {
    if ports != [] {
      assert ports[0] in ports;
      MtuInNone(canon, ports[1..], interface);
    }
  }

  lemma SameTableSameMtu(canon: string -> string, a: seq<Port>, b: seq<Port>, interface: string)
    requires SameTable(canon, a, b)
    ensures MtuIn(canon, a, interface) == MtuIn(canon, b, interface)
  {
    if a != b {
      if p :| p in a && canon(p.interface) == canon(interface) {
        MtuInUnique(canon, a, interface, p);
        MtuInUnique(canon, b, interface, p);
      } else {
        MtuInNone(canon, a, interface);
        MtuInNone(canon, b, interface);
      }
    }
  }

  lemma {:induction false} PortsOfDevice(fabric: seq<Device>, d: Device)
    requires UniqueNames(fabric) && d in fabric
    ensures PortsOf(fabric, d.name) == d.interfaces
  {
    if fabric[0] == d {
      PortsOfNobody(fabric[1..], d.name);
    } else {
      var k :| 0 <= k < |fabric| && fabric[k] == d;
      assert fabric[0].name != fabric[k].name;
      PortsOfDevice(fabric[1..], d);
    }
  }

  lemma {:induction false} PortsOfNobody(fabric: seq<Device>, name: string)
    requires forall i :: 0 <= i < |fabric| ==> fabric[i].name != name
    ensures PortsOf(fabric, name) == None
  {
    if fabric != [] {
      PortsOfNobody(fabric[1..], name);
    }
  }

  predicate SameOrNoTable(canon: string -> string, a: Option<seq<Port>>, b: Option<seq<Port>>) {
    a.Some? == b.Some? && (a.Some? && b.Some? ==> SameTable(canon, a.value, b.value))
  }

  lemma PortsOfSameDevice(canon: string -> string, p: seq<Device>, q: seq<Device>, d: Device, e: Device)
    requires UniqueNames(p) && UniqueNames(q) && d in p && e in q && SameDevice(canon, d, e)
    ensures SameOrNoTable(canon, PortsOf(p, d.name), PortsOf(q, d.name))
  {
    PortsOfDevice(p, d);
    PortsOfDevice(q, e);
  }

  lemma AbsentCarriesOver(canon: string -> string, p: seq<Device>, q: seq<Device>, name: string)
    requires Within(canon, q, p) && forall d :: d in p ==> d.name != name
    ensures PortsOf(p, name) == None == PortsOf(q, name)
  {
    forall i | 0 <= i < |q| ensures q[i].name != name {
      var d := CounterpartOf(canon, q, p, q[i]);
    }
    PortsOfNobody(p, name);
    PortsOfNobody(q, name);
  }

  lemma PortsWithin(canon: string -> string, p: seq<Device>, q: seq<Device>, name: string)
    requires UniqueNames(p) && UniqueNames(q) && Within(canon, p, q) && Within(canon, q, p)
    ensures SameOrNoTable(canon, PortsOf(p, name), PortsOf(q, name))
  {
    if d :| d in p && d.name == name {
      var e := CounterpartOf(canon, p, q, d);
      PortsOfSameDevice(canon, p, q, d, e);
    } else {
      AbsentCarriesOver(canon, p, q, name);
    }
  }

  lemma WithinSamePorts(names: Names, p: seq<Device>, q: seq<Device>)
    requires UniqueNames(p) && UniqueNames(q) && Within(names.canon, p, q) && Within(names.canon, q, p)
    ensures SamePorts(names, p, q)
  {
    forall device ensures PortsOf(p, device).Some? == PortsOf(q, device).Some? {
      PortsWithin(names.canon, p, q, device);
    }
    forall e ensures MtuOf(names, p, e) == MtuOf(names, q, e) {
      PortsWithin(names.canon, p, q, e.device);
      if PortsOf(p, e.device).Some? {
        SameTableSameMtu(names.canon, PortsOf(p, e.device).value, PortsOf(q, e.device).value, e.interface);
      }
    }
  }

  predicate PrintedBy(fabric: seq<Device>, r: Report) {
    exists d :: d in fabric && d.lldp.Some? && d.name == r.device && r.row in d.lldp.value
  }

  lemma {:induction false} RowsAre(device: string, rows: seq<Adjacency>, r: Report)
    ensures r in RowsOf(device, rows) <==> r.device == device && r.row in rows
  {
    if rows != [] {
      var front, last := rows[..|rows| - 1], rows[|rows| - 1];
      RowsAre(device, front, r);
      assert rows == front + [last];
    }
  }

  lemma {:induction false} ReportsAre(fabric: seq<Device>, r: Report)
    ensures r in Reports(fabric) <==> PrintedBy(fabric, r)
  {
    if fabric != [] {
      var front, last := fabric[..|fabric| - 1], fabric[|fabric| - 1];
      assert fabric == front + [last];
      ReportsAre(front, r);
      if last.lldp.Some? {
        RowsAre(last.name, last.lldp.value, r);
      }
      PrintedSnoc(front, last, r);
    }
  }

  lemma PrintedSnoc(front: seq<Device>, last: Device, r: Report)
    ensures PrintedBy(front + [last], r) <==>
      PrintedBy(front, r) || (last.lldp.Some? && last.name == r.device && r.row in last.lldp.value)
  {
    var all := front + [last];
    assert last in all;
    if PrintedBy(front, r) {
      var d :| d in front && d.lldp.Some? && d.name == r.device && r.row in d.lldp.value;
      assert d in all;
    }
  }

  lemma WithinTold(names: Names, p: seq<Device>, q: seq<Device>)
    requires Within(names.canon, p, q)
    ensures Told(names, p, q)
  {
    forall r | r in Reports(p) ensures r in Reports(q) {
      ReportsAre(p, r);
      ReportsAre(q, r);
      var d :| d in p && d.lldp.Some? && d.name == r.device && r.row in d.lldp.value;
      var e := CounterpartOf(names.canon, p, q, d);
    }
  }

  lemma AnyOrderUnderOneResolver(names: Names, p: seq<Device>, q: seq<Device>, f: seq<Finding>, g: seq<Finding>)
    requires Answers(names, p, Reports(p), f) && Answers(names, q, Reports(q), g)
    requires UniqueNames(p) && UniqueNames(q) && Within(names.canon, p, q) && Within(names.canon, q, p)
    ensures LinksOf(f) == LinksOf(g) && |f| == |g|
  {
    WithinSamePorts(names, p, q);
    WithinTold(names, p, q);
    WithinTold(names, q, p);
    SameLinksSameFindings(names, p, q, f, g);
  }

  // ------------------------------------------------------------------
  // The resolver, which is built in the order of the devices
  // ------------------------------------------------------------------

  /** How names are compared: case folding, stripping, and the interface spelling rule. */
  datatype Spelling = Spelling(fold: string -> string, strip: string -> string, canon: string -> string)

  function WithDevice(fold: string -> string, mapping: map<string, string>, d: Device): map<string, string> {
    var named := mapping[fold(d.name) := d.name];
    if d.hostname.Some? && fold(d.hostname.value) !in named then named[fold(d.hostname.value) := d.name] else named
  }

  /** Every name a device goes by, with its inventory name. An inventory name replaces what
      stood there; a hostname only fills a gap. */
  function HostnameMap(fold: string -> string, fabric: seq<Device>): map<string, string> {
    if fabric == [] then map[]
    else WithDevice(fold, HostnameMap(fold, fabric[..|fabric| - 1]), fabric[|fabric| - 1])
  }

  method BuildHostnameMap(fold: string -> string, fabric: seq<Device>) returns (mapping: map<string, string>)
    ensures mapping == HostnameMap(fold, fabric)
  {
    mapping := map[];
    for i := 0 to |fabric|
      invariant mapping == HostnameMap(fold, fabric[..i])
    {
      assert fabric[..i + 1][..i] == fabric[..i];
      var d := fabric[i];
      mapping := mapping[fold(d.name) := d.name];
      if d.hostname.Some? && fold(d.hostname.value) !in mapping {
        mapping := mapping[fold(d.hostname.value) := d.name];
      }
    }
    assert fabric[..|fabric|] == fabric;
  }

  function Looked(sp: Spelling, mapping: map<string, string>): Names {
    Names(name => if sp.fold(sp.strip(name)) in mapping then Some(mapping[sp.fold(sp.strip(name))]) else None, sp.canon)
  }

  /** The resolver of one run of the audit. */
  function NamesFor(sp: Spelling, fabric: seq<Device>): Names {
    Looked(sp, HostnameMap(sp.fold, fabric))
  }

  /** The whole rule: the resolver is built from the devices it is about to judge. */
  method AuditMtus(sp: Spelling, fabric: seq<Device>) returns (findings: seq<Finding>)
    ensures Answers(NamesFor(sp, fabric), fabric, Reports(fabric), findings)
    ensures ShowTheirMtus(NamesFor(sp, fabric), fabric, findings)
  {
    var mapping := BuildHostnameMap(sp.fold, fabric);
    findings := MtuMismatches(Looked(sp, mapping), fabric);
  }

  predicate Labelled(fold: string -> string, fabric: seq<Device>, key: string) {
    exists d :: d in fabric && fold(d.name) == key
  }

  predicate CallsItself(fold: string -> string, d: Device, key: string) {
    d.hostname.Some? && fold(d.hostname.value) == key
  }

  /** No two inventory names differ only in case, and no two devices share a hostname that is
      not some device's inventory name. */
  ghost predicate Unambiguous(fold: string -> string, fabric: seq<Device>) {
    && (forall d, e :: d in fabric && e in fabric && fold(d.name) == fold(e.name) ==> d.name == e.name)
    && (forall d, e, key ::
          (d in fabric && e in fabric && CallsItself(fold, d, key) && CallsItself(fold, e, key)
           && !Labelled(fold, fabric, key)) ==> d.name == e.name)
  }

  lemma MapSnoc(fold: string -> string, fabric: seq<Device>, d: Device)
    ensures HostnameMap(fold, fabric + [d]) == WithDevice(fold, HostnameMap(fold, fabric), d)
  {
    assert (fabric + [d])[..|fabric|] == fabric;
  }

  /** The device goes by the key: as its inventory name, or as a hostname that is no one's
      inventory name. */
  predicate GoesBy(fold: string -> string, fabric: seq<Device>, d: Device, key: string) {
    d in fabric && (fold(d.name) == key || (CallsItself(fold, d, key) && !Labelled(fold, fabric, key)))
  }

  ghost predicate Owned(fold: string -> string, fabric: seq<Device>, key: string, name: string) {
    exists d :: GoesBy(fold, fabric, d, key) && d.name == name
  }

  /** The map's keys are the names the devices go by, each with the name of such a device. */
  lemma {:induction false} MapIsOfDevices(fold: string -> string, fabric: seq<Device>, key: string)
    ensures var m := HostnameMap(fold, fabric); key in m ==> Owned(fold, fabric, key, m[key])
    ensures forall d :: GoesBy(fold, fabric, d, key) ==> key in HostnameMap(fold, fabric)
  {
    if fabric != [] {
      var front, last := fabric[..|fabric| - 1], fabric[|fabric| - 1];
      assert fabric == front + [last];
      MapIsOfDevices(fold, front, key);
      OwnedSnoc(fold, front, last, key);
    }
  }

  lemma OwnedSnoc(fold: string -> string, front: seq<Device>, last: Device, key: string)
    ensures forall d :: GoesBy(fold, front + [last], d, key) <==>
      (d == last || GoesBy(fold, front, d, key))
      && (fold(d.name) == key || (CallsItself(fold, d, key) && !Labelled(fold, front + [last], key)))
    ensures Labelled(fold, front + [last], key) <==> Labelled(fold, front, key) || fold(last.name) == key
  {
    var all := front + [last];
    assert last in all;
    if Labelled(fold, front, key) {
      var d :| d in front && fold(d.name) == key;
      assert d in all;
    }
  }

  /** A reported name, stripped and folded, is resolved to a device that goes by it, and to
      none only when no device does; an inventory name always resolves to such a device. */
  lemma ResolvesToADeviceOfThatName(sp: Spelling, fabric: seq<Device>, reported: string)
    ensures var key, r := sp.fold(sp.strip(reported)), NamesFor(sp, fabric).resolve(reported);
      && (r.Some? ==> Owned(sp.fold, fabric, key, r.value))
      && (r.None? <==> forall d :: d in fabric ==> sp.fold(d.name) != key && !CallsItself(sp.fold, d, key))
  {
    var key := sp.fold(sp.strip(reported));
    MapIsOfDevices(sp.fold, fabric, key);
    forall d | d in fabric && (sp.fold(d.name) == key || CallsItself(sp.fold, d, key))
      ensures key in HostnameMap(sp.fold, fabric)
    {
      if !GoesBy(sp.fold, fabric, d, key) {
        var e :| e in fabric && sp.fold(e.name) == key;
        assert GoesBy(sp.fold, fabric, e, key);
      }
    }
  }

  predicate Named(q: seq<Device>, d: Device) {
    exists e :: e in q && e.name == d.name && e.hostname == d.hostname
  }

  /** Each device of `p` is in `q` under the same two names. */
  predicate SameNaming(p: seq<Device>, q: seq<Device>) {
    forall d :: d in p ==> Named(q, d)
  }

  lemma LabelCarriesOver(fold: string -> string, p: seq<Device>, q: seq<Device>, key: string)
    requires SameNaming(p, q) && Labelled(fold, p, key)
    ensures Labelled(fold, q, key)
  {
    var d :| d in p && fold(d.name) == key;
    assert Named(q, d);
  }

  lemma OwnerCarriesOver(fold: string -> string, p: seq<Device>, q: seq<Device>, key: string, name: string)
    requires SameNaming(p, q) && Owned(fold, p, key, name)
    requires Labelled(fold, q, key) ==> Labelled(fold, p, key)
    ensures Owned(fold, q, key, name)
  {
    var d :| GoesBy(fold, p, d, key) && d.name == name;
    assert Named(q, d);
    var e :| e in q && e.name == d.name && e.hostname == d.hostname;
    assert GoesBy(fold, q, e, key);
  }

  lemma NamingCarriesOver(fold: string -> string, p: seq<Device>, q: seq<Device>, key: string, name: string)
    requires SameNaming(p, q) && SameNaming(q, p) && Owned(fold, p, key, name)
    ensures Owned(fold, q, key, name)
  {
    if Labelled(fold, q, key) {
      LabelCarriesOver(fold, q, p, key);
    }
    OwnerCarriesOver(fold, p, q, key, name);
  }

  lemma OneOwner(fold: string -> string, fabric: seq<Device>, key: string, a: string, b: string)
    requires Unambiguous(fold, fabric) && Owned(fold, fabric, key, a) && Owned(fold, fabric, key, b)
    ensures a == b
  {
    var d :| GoesBy(fold, fabric, d, key) && d.name == a;
    var e :| GoesBy(fold, fabric, e, key) && e.name == b;
    if fold(d.name) == key || fold(e.name) == key {
      assert Labelled(fold, fabric, key);
    }
  }

  lemma EntryIsDecided(fold: string -> string, p: seq<Device>, q: seq<Device>, key: string)
    requires Unambiguous(fold, p) && SameNaming(p, q) && SameNaming(q, p)
    ensures key in HostnameMap(fold, p) <==> key in HostnameMap(fold, q)
    ensures key in HostnameMap(fold, p) && key in HostnameMap(fold, q) ==>
      HostnameMap(fold, q)[key] == HostnameMap(fold, p)[key]
  {
    MapIsOfDevices(fold, p, key);
    MapIsOfDevices(fold, q, key);
    if key in HostnameMap(fold, p) {
      NamingCarriesOver(fold, p, q, key, HostnameMap(fold, p)[key]);
    }
    if key in HostnameMap(fold, q) {
      NamingCarriesOver(fold, q, p, key, HostnameMap(fold, q)[key]);
    }
    if key in HostnameMap(fold, p) && key in HostnameMap(fold, q) {
      OneOwner(fold, p, key, HostnameMap(fold, p)[key], HostnameMap(fold, q)[key]);
    }
  }

  lemma MapInAnyOrder(fold: string -> string, p: seq<Device>, q: seq<Device>)
    requires Unambiguous(fold, p) && SameNaming(p, q) && SameNaming(q, p)
    ensures HostnameMap(fold, p) == HostnameMap(fold, q)
  {
    var a, b := HostnameMap(fold, p), HostnameMap(fold, q);
    forall key ensures key in a <==> key in b
      ensures key in a && key in b ==> b[key] == a[key]
    {
      EntryIsDecided(fold, p, q, key);
    }
  }

  /** Whatever order the devices are visited in, they give one map. */
  ghost predicate OneMap(fold: string -> string, fabric: seq<Device>) {
    forall q :: multiset(q) == multiset(fabric) ==> HostnameMap(fold, q) == HostnameMap(fold, fabric)
  }

  lemma SameMembers(p: seq<Device>, q: seq<Device>)
    requires multiset(p) == multiset(q)
    ensures SameNaming(p, q)
  {
    forall d | d in p ensures d in q {
      assert d in multiset(p);
    }
  }

  lemma Rearranged(fabric: seq<Device>, d: Device) returns (rest: seq<Device>)
    requires d in fabric
    ensures multiset(rest + [d]) == multiset(fabric) && multiset([d] + rest) == multiset(fabric)
  {
    var i :| 0 <= i < |fabric| && fabric[i] == d;
    rest := fabric[..i] + fabric[i + 1..];
    assert fabric == fabric[..i] + [d] + fabric[i + 1..];
  }

  /** An entry that no inventory name replaces stays as it is. */
  lemma {:induction false} EntryStays(fold: string -> string, first: seq<Device>, later: seq<Device>, key: string)
    requires key in HostnameMap(fold, first) && !Labelled(fold, later, key)
    ensures key in HostnameMap(fold, first + later)
    ensures HostnameMap(fold, first + later)[key] == HostnameMap(fold, first)[key]
  {
    if later == [] {
      assert first + later == first;
    } else {
      var front, last := later[..|later| - 1], later[|later| - 1];
      assert later == front + [last];
      EntryStays(fold, first, front, key);
      assert first + later == (first + front) + [last];
      MapSnoc(fold, first + front, last);
    }
  }

  lemma VisitedLast(fold: string -> string, rest: seq<Device>, d: Device)
    ensures fold(d.name) in HostnameMap(fold, rest + [d]) && HostnameMap(fold, rest + [d])[fold(d.name)] == d.name
  {
    MapSnoc(fold, rest, d);
  }

  lemma VisitedFirst(fold: string -> string, d: Device, rest: seq<Device>, key: string)
    requires CallsItself(fold, d, key) && fold(d.name) != key && !Labelled(fold, rest, key)
    ensures key in HostnameMap(fold, [d] + rest) && HostnameMap(fold, [d] + rest)[key] == d.name
  {
    assert [] + [d] == [d];
    MapSnoc(fold, [], d);
    EntryStays(fold, [d], rest, key);
  }

  /** Visited last, a device takes its inventory name; visited first, a hostname no one is
      labelled with. */
  lemma CanBeTaken(fold: string -> string, fabric: seq<Device>, d: Device, key: string)
    requires OneMap(fold, fabric) && GoesBy(fold, fabric, d, key)
    ensures key in HostnameMap(fold, fabric) && HostnameMap(fold, fabric)[key] == d.name
  {
    var rest := Rearranged(fabric, d);
    if fold(d.name) == key {
      VisitedLast(fold, rest, d);
      assert HostnameMap(fold, rest + [d]) == HostnameMap(fold, fabric);
    } else {
      SameMembersEachWay([d] + rest, fabric);
      assert forall e :: e in rest ==> e in [d] + rest;
      VisitedFirst(fold, d, rest, key);
      assert HostnameMap(fold, [d] + rest) == HostnameMap(fold, fabric);
    }
  }

  lemma SameMembersEachWay(p: seq<Device>, q: seq<Device>)
    requires multiset(p) == multiset(q)
    ensures forall d :: d in p <==> d in q
  {
    assert forall d :: d in p <==> d in multiset(p);
    assert forall d :: d in q <==> d in multiset(q);
  }

  /** The map is the same in every order exactly when the devices' names are unambiguous. */
  lemma OneMapExactly(fold: string -> string, fabric: seq<Device>)
    ensures OneMap(fold, fabric) <==> Unambiguous(fold, fabric)
  {
    if OneMap(fold, fabric) {
      forall d, e | d in fabric && e in fabric && fold(d.name) == fold(e.name) ensures d.name == e.name {
        CanBeTaken(fold, fabric, d, fold(d.name));
        CanBeTaken(fold, fabric, e, fold(d.name));
      }
      forall d, e, key | d in fabric && e in fabric && CallsItself(fold, d, key) && CallsItself(fold, e, key)
        && !Labelled(fold, fabric, key)
        ensures d.name == e.name
      {
        CanBeTaken(fold, fabric, d, key);
        CanBeTaken(fold, fabric, e, key);
      }
    }
    if Unambiguous(fold, fabric) {
      forall q | multiset(q) == multiset(fabric) ensures HostnameMap(fold, q) == HostnameMap(fold, fabric) {
        SameMembers(q, fabric);
        SameMembers(fabric, q);
        MapInAnyOrder(fold, fabric, q);
      }
    }
  }

  lemma WithinNaming(canon: string -> string, p: seq<Device>, q: seq<Device>)
    requires Within(canon, p, q)
    ensures SameNaming(p, q)
  {
    forall d | d in p ensures Named(q, d) {
      var e := CounterpartOf(canon, p, q, d);
    }
  }

  /** With unambiguous names, the findings do not depend on the order in which devices, their
      LLDP rows or their ports are visited. */
  lemma OrderDoesNotMatter(sp: Spelling, p: seq<Device>, q: seq<Device>, f: seq<Finding>, g: seq<Finding>)
    requires Answers(NamesFor(sp, p), p, Reports(p), f) && Answers(NamesFor(sp, q), q, Reports(q), g)
    requires UniqueNames(p) && UniqueNames(q) && Within(sp.canon, p, q) && Within(sp.canon, q, p)
    requires Unambiguous(sp.fold, p)
    ensures LinksOf(f) == LinksOf(g) && |f| == |g|
  {
    WithinNaming(sp.canon, p, q);
    WithinNaming(sp.canon, q, p);
    MapInAnyOrder(sp.fold, p, q);
    AnyOrderUnderOneResolver(NamesFor(sp, p), p, q, f, g);
  }

  // Two devices that both call themselves "ios", and one that reports an "ios" neighbor.
  const X := Device("x", Some("ios"), Some([]), Some([Port("Gi0", Some("1500"))]), None)
  const Y := Device("y", Some("ios"), Some([]), Some([Port("Gi0", Some("9000"))]), None)
  const Z := Device("z", None, Some([Adjacency("ios", "Gi0", "Gi0")]), Some([Port("Gi0", Some("1500"))]), None)

  /** The spelling rules tell the four names apart. */
  predicate TellsApart(sp: Spelling) {
    sp.fold(sp.strip("ios")) == sp.fold("ios") && sp.fold("ios") !in {sp.fold("x"), sp.fold("y"), sp.fold("z")}
  }

  lemma IosIsTheFirst(sp: Spelling, first: Device, second: Device)
    requires TellsApart(sp) && first in {X, Y} && second in {X, Y}
    ensures NamesFor(sp, [first, second, Z]).resolve("ios") == Some(first.name)
  {
    var key := sp.fold("ios");
    assert [] + [first] == [first] && [first] + [second, Z] == [first, second, Z];
    MapSnoc(sp.fold, [], first);
    EntryStays(sp.fold, [first], [second, Z], key);
  }

  lemma ThreeReports(first: Device, second: Device)
    requires first in {X, Y} && second in {X, Y}
    ensures Reports([first, second, Z]) == [Report("z", Adjacency("ios", "Gi0", "Gi0"))]
  {
    var all, row := [first, second, Z], Adjacency("ios", "Gi0", "Gi0");
    assert all[..2] == [first, second] && all[..2][..1] == [first] && [first][..0] == [];
    assert Reports([first]) == [] && Reports([first, second]) == [];
    assert [row][..0] == [] && RowsOf("z", [row]) == [Report("z", row)];
  }

  lemma ThreePorts(names: Names, first: Device, second: Device)
    requires first in {X, Y} && second in {X, Y} && first != second
    ensures MtuOf(names, [first, second, Z], Endpoint("z", "Gi0")) == Some("1500")
    ensures MtuOf(names, [first, second, Z], Endpoint(first.name, "Gi0")) == first.interfaces.value[0].mtu
    ensures PortsOf([first, second, Z], "z").Some? && PortsOf([first, second, Z], first.name).Some?
  {
    var all := [first, second, Z];
    assert all[1..] == [second, Z] && all[1..][1..] == [Z];
    assert PortsOf(all, first.name) == first.interfaces;
    assert PortsOf([Z], "z") == Z.interfaces && PortsOf([second, Z], "z") == Z.interfaces;
  }

  /** The one row is judged between z and whichever of the two came first. */
  lemma FirstIosIsJudged(sp: Spelling, first: Device, second: Device, link: set<Endpoint>)
    requires TellsApart(sp) && first in {X, Y} && second in {X, Y} && first != second
    ensures var fabric := [first, second, Z];
      Judged(NamesFor(sp, fabric), fabric, Reports(fabric), link) <==>
        link == {Endpoint("z", "Gi0"), Endpoint(first.name, "Gi0")}
  {
    var fabric := [first, second, Z];
    var names, r := NamesFor(sp, fabric), Report("z", Adjacency("ios", "Gi0", "Gi0"));
    IosIsTheFirst(sp, first, second);
    ThreeReports(first, second);
    ThreePorts(names, first, second);
    assert r in Reports(fabric) && Resolvable(names, fabric, r);
    assert Link(names, r) == {Endpoint("z", "Gi0"), Endpoint(first.name, "Gi0")};
  }

  lemma FirstIosIsCompared(sp: Spelling, first: Device, second: Device)
    requires first in {X, Y} && second in {X, Y} && first != second
    ensures var fabric := [first, second, Z];
      Mismatched(NamesFor(sp, fabric), fabric, {Endpoint("z", "Gi0"), Endpoint(first.name, "Gi0")}) <==> first == Y
  {
    var fabric := [first, second, Z];
    ThreePorts(NamesFor(sp, fabric), first, second);
    MismatchedEnds(NamesFor(sp, fabric), fabric, Endpoint("z", "Gi0"), Endpoint(first.name, "Gi0"));
  }

  lemma FirstIosDecides(sp: Spelling, first: Device, second: Device, findings: seq<Finding>)
    requires TellsApart(sp) && first in {X, Y} && second in {X, Y} && first != second
    requires var fabric := [first, second, Z]; Answers(NamesFor(sp, fabric), fabric, Reports(fabric), findings)
    ensures findings == [] <==> first == X
  {
    var link := {Endpoint("z", "Gi0"), Endpoint(first.name, "Gi0")};
    FirstIosIsCompared(sp, first, second);
    FirstIosIsJudged(sp, first, second, link);
    assert Reported(findings, link) <==> first == Y;
    if findings != [] {
      assert Reported(findings, Ends(findings[0]));
      FirstIosIsJudged(sp, first, second, Ends(findings[0]));
    }
  }

  /** Without that, order matters: visited as x, y, z nothing is found, visited as y, x, z the
      same evidence shows a mismatch. */
  lemma SharedHostnameMatters(sp: Spelling, f: seq<Finding>, g: seq<Finding>)
    requires TellsApart(sp)
    requires Answers(NamesFor(sp, [X, Y, Z]), [X, Y, Z], Reports([X, Y, Z]), f)
    requires Answers(NamesFor(sp, [Y, X, Z]), [Y, X, Z], Reports([Y, X, Z]), g)
    ensures f == [] && g != []
  {
    FirstIosDecides(sp, X, Y, f);
    FirstIosDecides(sp, Y, X, g);
  }

  // ------------------------------------------------------------------
  // Physical links
  // ------------------------------------------------------------------

  function Physical(canon: string -> string, e: Endpoint): Endpoint {
    Endpoint(e.device, canon(e.interface))
  }

  function PhysicalLink(canon: string -> string, link: set<Endpoint>): set<Endpoint> {
    set e | e in link :: Physical(canon, e)
  }

  /** Two mismatched links, spelled differently, are one cable. */
  ghost predicate SpelledTwice(names: Names, fabric: seq<Device>, reports: seq<Report>) {
    exists a, b :: OneCable(names, fabric, reports, a, b)
  }

  predicate OneCable(names: Names, fabric: seq<Device>, reports: seq<Report>, a: set<Endpoint>, b: set<Endpoint>) {
    && Judged(names, fabric, reports, a) && Mismatched(names, fabric, a)
    && Judged(names, fabric, reports, b) && Mismatched(names, fabric, b)
    && a != b && PhysicalLink(names.canon, a) == PhysicalLink(names.canon, b)
  }

  predicate EachCableOnce(canon: string -> string, findings: seq<Finding>) {
    forall i, j :: 0 <= i < j < |findings| ==>
      PhysicalLink(canon, Ends(findings[i])) != PhysicalLink(canon, Ends(findings[j]))
  }

  lemma OneCableIsReportedTwice(names: Names, fabric: seq<Device>, reports: seq<Report>, findings: seq<Finding>,
                                a: set<Endpoint>, b: set<Endpoint>)
    requires Answers(names, fabric, reports, findings) && OneCable(names, fabric, reports, a, b)
    ensures !EachCableOnce(names.canon, findings)
  {
    assert Reported(findings, a) && Reported(findings, b);
    var f :| f in findings && Ends(f) == a;
    var g :| g in findings && Ends(g) == b;
    var i :| 0 <= i < |findings| && findings[i] == f;
    var j :| 0 <= j < |findings| && findings[j] == g;
    assert i < j || j < i;
  }

  /** The rule compares spellings when it asks whether a link was seen, so a cable is
      reported once exactly when no mismatched cable is spelled in two ways. */
  lemma EachCableOnceExactly(names: Names, fabric: seq<Device>, reports: seq<Report>, findings: seq<Finding>)
    requires Answers(names, fabric, reports, findings)
    ensures EachCableOnce(names.canon, findings) <==> !SpelledTwice(names, fabric, reports)
  {
    if !EachCableOnce(names.canon, findings) {
      var i, j :| 0 <= i < j < |findings|
        && PhysicalLink(names.canon, Ends(findings[i])) == PhysicalLink(names.canon, Ends(findings[j]));
      assert findings[i] in findings && findings[j] in findings;
      assert Reported(findings, Ends(findings[i])) && Reported(findings, Ends(findings[j]));
      assert OneCable(names, fabric, reports, Ends(findings[i]), Ends(findings[j]));
    }
    if a, b :| OneCable(names, fabric, reports, a, b) {
      OneCableIsReportedTwice(names, fabric, reports, findings, a, b);
    }
  }

  lemma {:induction false} LinkOfCanonicalEnds(canon: string -> string, a: set<Endpoint>, b: set<Endpoint>)
    requires PhysicalLink(canon, a) == PhysicalLink(canon, b)
    requires forall e, f :: e in a && f in b && Physical(canon, e) == Physical(canon, f) ==> e == f
    ensures a == b
  {
    forall e | e in a ensures e in b {
      assert Physical(canon, e) in PhysicalLink(canon, b);
      var f :| f in b && Physical(canon, f) == Physical(canon, e);
    }
    forall f | f in b ensures f in a {
      assert Physical(canon, f) in PhysicalLink(canon, a);
      var e :| e in a && Physical(canon, e) == Physical(canon, f);
    }
  }

  /** No port is spelled in two ways by the rows that can be judged. */
  ghost predicate OneSpelling(names: Names, fabric: seq<Device>, reports: seq<Report>) {
    forall r, q, e, f ::
      r in reports && q in reports && Resolvable(names, fabric, r) && Resolvable(names, fabric, q)
      && e in Link(names, r) && f in Link(names, q) && Physical(names.canon, e) == Physical(names.canon, f) ==>
      e == f
  }

  /** A check on the rows alone that rules out a cable reported twice. */
  lemma OneSpellingReportsOnce(names: Names, fabric: seq<Device>, reports: seq<Report>, findings: seq<Finding>)
    requires Answers(names, fabric, reports, findings) && OneSpelling(names, fabric, reports)
    ensures EachCableOnce(names.canon, findings)
  {
    if a, b :| OneCable(names, fabric, reports, a, b) {
      var r :| r in reports && Resolvable(names, fabric, r) && Link(names, r) == a;
      var q :| q in reports && Resolvable(names, fabric, q) && Link(names, q) == b;
      LinkOfCanonicalEnds(names.canon, a, b);
    }
    EachCableOnceExactly(names, fabric, reports, findings);
  }

  const SHORT := "Gi0/0/0/0"
  const LONG := "GigabitEthernet0/0/0/0"

  /** One cable between two devices, each printing both ends in its own spelling. */
  function TwoSpellings(): seq<Device> {
    [Device("PE1", None, Some([Adjacency("P1", SHORT, SHORT)]), Some([Port(SHORT, Some("1500"))]), None),
     Device("P1", None, Some([Adjacency("PE1", LONG, LONG)]), Some([Port(SHORT, Some("9000"))]), None)]
  }

  lemma TwoSpellingsReports()
    ensures Reports(TwoSpellings()) ==
      [Report("PE1", Adjacency("P1", SHORT, SHORT)), Report("P1", Adjacency("PE1", LONG, LONG))]
  {
    var all := TwoSpellings();
    assert all[..1] == [all[0]] && all[..1][..0] == [];
    var x, y := Adjacency("P1", SHORT, SHORT), Adjacency("PE1", LONG, LONG);
    assert [x][..0] == [] && [y][..0] == [];
    assert RowsOf("PE1", [x]) == [Report("PE1", x)] && RowsOf("P1", [y]) == [Report("P1", y)];
    assert Reports(all[..1]) == [Report("PE1", x)];
  }

  lemma TwoSpellingsPorts(names: Names, interface: string)
    requires names.canon(interface) == names.canon(SHORT)
    ensures MtuOf(names, TwoSpellings(), Endpoint("PE1", interface)) == Some("1500")
    ensures MtuOf(names, TwoSpellings(), Endpoint("P1", interface)) == Some("9000")
  {
    var all := TwoSpellings();
    assert all[1..] == [all[1]];
    assert PortsOf(all, "PE1") == Some([Port(SHORT, Some("1500"))]);
    assert PortsOf(all[1..], "P1") == Some([Port(SHORT, Some("9000"))]);
  }

  lemma SpelledLinkIsFound(names: Names, interface: string, r: Report)
    requires names.resolve("P1") == Some("P1") && names.resolve("PE1") == Some("PE1")
    requires names.canon(interface) == names.canon(SHORT) && r in Reports(TwoSpellings())
    requires r == Report("PE1", Adjacency("P1", interface, interface))
      || r == Report("P1", Adjacency("PE1", interface, interface))
    ensures var link := {Endpoint("PE1", interface), Endpoint("P1", interface)};
      Judged(names, TwoSpellings(), Reports(TwoSpellings()), link) && Mismatched(names, TwoSpellings(), link)
  {
    TwoSpellingsPorts(names, interface);
    MismatchedEnds(names, TwoSpellings(), Endpoint("PE1", interface), Endpoint("P1", interface));
    assert Resolvable(names, TwoSpellings(), r);
    assert Link(names, r) == {Endpoint("PE1", interface), Endpoint("P1", interface)};
  }

  /** An input on which one cable is reported twice. */
  lemma OneCableTwice(names: Names, findings: seq<Finding>)
    requires names.resolve("P1") == Some("P1") && names.resolve("PE1") == Some("PE1")
    requires names.canon(SHORT) == names.canon(LONG)
    requires Answers(names, TwoSpellings(), Reports(TwoSpellings()), findings)
    ensures |findings| >= 2 && !EachCableOnce(names.canon, findings)
  {
    var a, b := {Endpoint("PE1", SHORT), Endpoint("P1", SHORT)}, {Endpoint("PE1", LONG), Endpoint("P1", LONG)};
    TwoSpellingsReports();
    SpelledLinkIsFound(names, SHORT, Report("PE1", Adjacency("P1", SHORT, SHORT)));
    SpelledLinkIsFound(names, LONG, Report("P1", Adjacency("PE1", LONG, LONG)));
    PhysicalPair(names.canon, SHORT);
    PhysicalPair(names.canon, LONG);
    assert |SHORT| != |LONG| && Endpoint("PE1", SHORT) !in b;
    OneCableIsReportedTwice(names, TwoSpellings(), Reports(TwoSpellings()), findings, a, b);
  }

  lemma PhysicalPair(canon: string -> string, interface: string)
    ensures PhysicalLink(canon, {Endpoint("PE1", interface), Endpoint("P1", interface)}) ==
      {Endpoint("PE1", canon(interface)), Endpoint("P1", canon(interface))}
  {
    var pair := {Endpoint("PE1", interface), Endpoint("P1", interface)};
    assert Physical(canon, Endpoint("PE1", interface)) in PhysicalLink(canon, pair);
    assert Physical(canon, Endpoint("P1", interface)) in PhysicalLink(canon, pair);
  }

  // ------------------------------------------------------------------
  // Router-IDs claimed twice
  // ------------------------------------------------------------------

  /** The devices announcing a router-ID, in fabric order. */
  function Owners(fabric: seq<Device>, rid: string): (r: seq<string>)
    ensures forall n :: n in r <==> exists d :: d in fabric && d.bgp == Some(rid) && d.name == n
  {
    if fabric == [] then []
    else
      var last := fabric[|fabric| - 1];
      Owners(fabric[..|fabric| - 1], rid) + (if last.bgp == Some(rid) then [last.name] else [])
  }

  datatype Clash = Clash(routerId: string, devices: seq<string>)

  ghost predicate Grouped(fabric: seq<Device>, rids: seq<string>, owners: map<string, seq<string>>) {
    && (forall i, j :: 0 <= i < j < |rids| ==> rids[i] != rids[j])
    && (forall rid :: rid in rids <==> rid in owners)
    && (forall rid :: rid in owners <==> rid != "" && Owners(fabric, rid) != [])
    && (forall rid :: rid in owners ==> owners[rid] == Owners(fabric, rid))
  }

  lemma OwnersSnoc(fabric: seq<Device>, d: Device, rid: string)
    ensures Owners(fabric + [d], rid) == Owners(fabric, rid) + (if d.bgp == Some(rid) then [d.name] else [])
  {
    assert (fabric + [d])[..|fabric|] == fabric;
  }

  method GroupByRouterId(fabric: seq<Device>) returns (rids: seq<string>, owners: map<string, seq<string>>)
    ensures Grouped(fabric, rids, owners)
  {
    rids, owners := [], map[];
    for i := 0 to |fabric|
      invariant Grouped(fabric[..i], rids, owners)
    {
      var d := fabric[i];
      assert fabric[..i + 1] == fabric[..i] + [d];
      forall rid
        ensures Owners(fabric[..i + 1], rid) == Owners(fabric[..i], rid) + (if d.bgp == Some(rid) then [d.name] else [])
      {
        OwnersSnoc(fabric[..i], d, rid);
      }
      if d.bgp.Some? && d.bgp.value != "" {
        var rid := d.bgp.value;
        if rid in owners {
          owners := owners[rid := owners[rid] + [d.name]];
        } else {
          rids, owners := rids + [rid], owners[rid := [d.name]];
        }
      }
    }
    assert fabric[..|fabric|] == fabric;
  }

  method DuplicateRouterIds(fabric: seq<Device>) returns (findings: seq<Clash>)
    ensures forall c :: c in findings <==>
      c.routerId != "" && |Owners(fabric, c.routerId)| > 1 && c.devices == Owners(fabric, c.routerId)
    ensures forall i, j :: 0 <= i < j < |findings| ==> findings[i].routerId != findings[j].routerId
  {
    var rids, owners := GroupByRouterId(fabric);
    findings := [];
    for i := 0 to |rids|
      invariant forall c :: c in findings <==>
        c.routerId in rids[..i] && |owners[c.routerId]| > 1 && c.devices == owners[c.routerId]
      invariant forall j, k :: 0 <= j < k < |findings| ==> findings[j].routerId != findings[k].routerId
    {
      assert rids[..i + 1] == rids[..i] + [rids[i]];
      if |owners[rids[i]]| > 1 {
        findings := findings + [Clash(rids[i], owners[rids[i]])];
      }
    }
    assert rids[..|rids|] == rids;
  }

  lemma TwoOwners(fabric: seq<Device>, rid: string, a: string, b: string)
    requires a in Owners(fabric, rid) && b in Owners(fabric, rid) && a != b
    ensures |Owners(fabric, rid)| > 1
  {
    var owners := Owners(fabric, rid);
    var i :| 0 <= i < |owners| && owners[i] == a;
    var j :| 0 <= j < |owners| && owners[j] == b;
  }

  /** Two devices are reported together exactly when both announce the same router-ID. */
  lemma ClashExactly(fabric: seq<Device>, a: Device, b: Device, findings: seq<Clash>)
    requires a in fabric && b in fabric && a.name != b.name
    requires forall d, e :: d in fabric && e in fabric && d.name == e.name ==> d == e
    requires forall c :: c in findings <==>
      c.routerId != "" && |Owners(fabric, c.routerId)| > 1 && c.devices == Owners(fabric, c.routerId)
    ensures (exists c :: c in findings && a.name in c.devices && b.name in c.devices) <==>
      a.bgp.Some? && a.bgp.value != "" && a.bgp == b.bgp
  {
    if a.bgp.Some? && a.bgp.value != "" && a.bgp == b.bgp {
      var rid := a.bgp.value;
      TwoOwners(fabric, rid, a.name, b.name);
      assert Clash(rid, Owners(fabric, rid)) in findings;
    }
  }
}
