/** One device's collected evidence: a section per intent, each with its own collection
    status and parse status, holding the records its parser produced. */
module Evidence {
  import opened Common

  datatype Value = Null | Str(text: string) | Num(number: int) | Flag(on: bool) | Names(names: seq<string>)

  type Record = map<string, Value>

  datatype Status = Collected | Errored | Unsupported
  datatype Parse = ParseOk | ParseUnavailable | ParseFailed | NoParseStatus
  datatype Section = Section(status: Status, parse: Parse, meta: Record, records: seq<Record>)

  type Evidence = map<string, Section>

  function Get(r: Record, field: string): Value {
    if field in r then r[field] else Null
  }

  function GetOr(r: Record, field: string, default: Value): Value {
    if field in r then r[field] else default
  }

  /** The text of a field, with "" for one that is absent. */
  function Text(r: Record, field: string): string {
    if Get(r, field).Str? then Get(r, field).text else ""
  }

  /** The gate every check puts before its evidence. */
  function RequireParsed(e: Evidence, key: string): (r: Option<Section>) {
    if key in e && e[key].parse.ParseOk? then Some(e[key]) else None
  }

  /** `e` is what is left of `full` once some sections went missing or stopped parsing. */
  ghost predicate Degraded(e: Evidence, full: Evidence) {
    forall key: string :: RequireParsed(e, key).Some? ==> RequireParsed(e, key) == RequireParsed(full, key)
  }

  /** Two names of one device denote one interface; `canon` is its spelling rule. */
  predicate SameInterface(canon: string -> string, left: string, right: string) {
    left != "" && canon(left) == canon(right)
  }

  predicate On(canon: string -> string, r: Record, field: string, interface: string) {
    SameInterface(canon, Text(r, field), interface)
  }

  /** The record the checks' scans stop at. */
  function FirstOn(canon: string -> string, records: seq<Record>, field: string, interface: string): (r: Option<Record>)
    ensures r.None? <==> forall x :: x in records ==> !On(canon, x, field, interface)
    ensures r.Some? ==> r.value in records && On(canon, r.value, field, interface)
  {
    if records == [] then None
    else if On(canon, records[0], field, interface) then Some(records[0])
    else FirstOn(canon, records[1..], field, interface)
  }

  /** The same scan for a field compared as it stands. */
  function FirstWith(records: seq<Record>, field: string, v: Value): (r: Option<Record>)
    ensures r.None? <==> forall x :: x in records ==> Get(x, field) != v
    ensures r.Some? ==> r.value in records && Get(r.value, field) == v
  {
    if records == [] then None
    else if Get(records[0], field) == v then Some(records[0])
    else FirstWith(records[1..], field, v)
  }

  lemma {:induction false} FirstOnAnySpelling(canon: string -> string, records: seq<Record>, field: string,
                                              i: string, j: string)
    requires canon(i) == canon(j)
    ensures FirstOn(canon, records, field, i) == FirstOn(canon, records, field, j)
  {
    if records != [] {
      FirstOnAnySpelling(canon, records[1..], field, i, j);
    }
  }

  // ------------------------------------------------------------------
  // The same, in the fields themselves
  // ------------------------------------------------------------------

  /** The section is there and was parsed. */
  ghost predicate Read(e: Evidence, key: string) {
    key in e && e[key].parse == ParseOk
  }

  ghost predicate Says(r: Record, field: string, text: string) {
    field in r && r[field] == Str(text)
  }

  /** The field spells the interface, in whatever way. */
  ghost predicate Spells(canon: string -> string, r: Record, field: string, interface: string) {
    field in r && r[field].Str? && r[field].text != "" && canon(r[field].text) == canon(interface)
  }

  ghost predicate SpelledIn(canon: string -> string, records: seq<Record>, field: string, interface: string) {
    exists r :: r in records && Spells(canon, r, field, interface)
  }

  /** The record at `k` is the first to spell the interface. */
  ghost predicate FirstAt(canon: string -> string, records: seq<Record>, field: string, interface: string, k: nat) {
    k < |records| && Spells(canon, records[k], field, interface)
    && forall j :: 0 <= j < k ==> !Spells(canon, records[j], field, interface)
  }

  /** The record at `k` is the first whose field is this text. */
  ghost predicate FirstSaying(records: seq<Record>, field: string, text: string, k: nat) {
    k < |records| && Says(records[k], field, text) && forall j :: 0 <= j < k ==> !Says(records[j], field, text)
  }

  /** The scan stops at the first record of the interface, however it is spelled. */
  lemma {:induction false} FirstOnIsFirst(canon: string -> string, records: seq<Record>, field: string,
                                          interface: string)
      returns (k: nat)
    ensures match FirstOn(canon, records, field, interface)
            case None => !SpelledIn(canon, records, field, interface)
            case Some(r) => FirstAt(canon, records, field, interface, k) && records[k] == r
  {
    k := 0;
    if records != [] && !Spells(canon, records[0], field, interface) {
      var later := FirstOnIsFirst(canon, records[1..], field, interface);
      k := later + 1;
      assert forall j :: 0 < j < |records| ==> records[j] == records[1..][j - 1];
    }
  }

  lemma {:induction false} FirstWithIsFirst(records: seq<Record>, field: string, text: string) returns (k: nat)
    ensures match FirstWith(records, field, Str(text))
            case None => forall r :: r in records ==> !Says(r, field, text)
            case Some(r) => FirstSaying(records, field, text, k) && records[k] == r
  {
    k := 0;
    if records != [] && !Says(records[0], field, text) {
      var later := FirstWithIsFirst(records[1..], field, text);
      k := later + 1;
      assert forall j :: 0 < j < |records| ==> records[j] == records[1..][j - 1];
    }
  }

  /** The first record to spell the interface says this, or something else. */
  ghost predicate FirstSays(canon: string -> string, records: seq<Record>, interface: string, field: string,
                            text: string) {
    exists k: nat :: FirstAt(canon, records, "interface", interface, k) && Says(records[k], field, text)
  }

  ghost predicate FirstDenies(canon: string -> string, records: seq<Record>, interface: string, field: string,
                              text: string) {
    exists k: nat :: FirstAt(canon, records, "interface", interface, k) && !Says(records[k], field, text)
  }

  lemma WhatTheFirstSays(canon: string -> string, records: seq<Record>, interface: string, field: string, text: string)
    ensures var r := FirstOn(canon, records, "interface", interface);
      && (r.Some? <==> SpelledIn(canon, records, "interface", interface))
      && (FirstSays(canon, records, interface, field, text) <==> r.Some? && Get(r.value, field) == Str(text))
      && (FirstDenies(canon, records, interface, field, text) <==> r.Some? && Get(r.value, field) != Str(text))
  {
    var k := FirstOnIsFirst(canon, records, "interface", interface);
    if FirstOn(canon, records, "interface", interface).Some? {
      assert forall i: nat :: FirstAt(canon, records, "interface", interface, i) ==> i == k;
    }
  }

  /** The first row about this key says this, or something else. */
  ghost predicate RowSays(records: seq<Record>, column: string, key: string, field: string, text: string) {
    exists k: nat :: FirstSaying(records, column, key, k) && Says(records[k], field, text)
  }

  ghost predicate RowDenies(records: seq<Record>, column: string, key: string, field: string, text: string) {
    exists k: nat :: FirstSaying(records, column, key, k) && !Says(records[k], field, text)
  }

  lemma WhatTheRowSays(records: seq<Record>, column: string, key: string, field: string, text: string)
    ensures var r := FirstWith(records, column, Str(key));
      && (RowSays(records, column, key, field, text) <==> r.Some? && Get(r.value, field) == Str(text))
      && (RowDenies(records, column, key, field, text) <==> r.Some? && Get(r.value, field) != Str(text))
  {
    var k := FirstWithIsFirst(records, column, key);
    if FirstWith(records, column, Str(key)).Some? {
      assert forall i: nat :: FirstSaying(records, column, key, i) ==> i == k;
    }
  }
}
