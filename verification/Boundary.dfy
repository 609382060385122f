/** The result sanitiser of the MCP boundary: what it replaces, what it keeps, and that
    nothing else about the input shows in its output. */
module Boundary {
  import opened Common

  datatype Json =
    | Null | Bool(on: bool) | Num(number: int) | Str(text: string)
    | Arr(items: seq<Json>) | Obj(fields: seq<Field>)
  datatype Field = Field(key: string, value: Json)

  datatype Kind = Kind(token: string, phrase: string)

  /** The declared tables, and the string operations of the host language. */
  datatype Policy = Policy(
    kinds: seq<Kind>, lower: string -> string, lines: string -> nat, show: Json -> string,
    quote: string -> string, freeText: set<string>)

  const RAW_TEXT_KEYS := {"commands", "unaccounted_lines"}
  const SUFFIX := "_withheld"
  const WITHHELD := "raw device text is not sent to a model (invariant 4)"
  const UNCLASSIFIED := "an unclassified error; its detail is withheld because a transport "
    + "exception can embed device output"

  // ------------------------------------------------------------------
  // Error texts
  // ------------------------------------------------------------------

  predicate ColonAt(text: string, i: nat) {
    i + 2 <= |text| && text[i..i + 2] == ": "
  }

  /** Where the text first has ": ", or its length. */
  function FirstColon(text: string, i: nat): (r: nat)
    requires i <= |text|
    ensures i <= r <= |text|
    ensures r < |text| ==> ColonAt(text, r)
    ensures forall k :: i <= k < r ==> !ColonAt(text, k)
    decreases |text| - i
  {
    if i == |text| || ColonAt(text, i) then i else FirstColon(text, i + 1)
  }

  /** The command in front of a detail; "" when there is no detail. */
  function CommandOf(text: string): string {
    var at := FirstColon(text, 0);
    if at < |text| && at + 2 < |text| then text[..at] else ""
  }

  predicate Contains(text: string, token: string) {
    exists i :: 0 <= i <= |text| && token <= text[i..]
  }

  lemma ContainsIsInside(text: string, token: string)
    ensures Contains(text, token) <==> exists a, b :: text == a + token + b
  {
    if i :| 0 <= i <= |text| && token <= text[i..] {
      assert text == text[..i] + token + text[i + |token|..];
    }
    if a, b :| text == a + token + b {
      assert text[|a|..] == token + b;
    }
  }

  /** The phrase of the first declared kind whose token occurs anywhere in the text. */
  function KindOf(kinds: seq<Kind>, lowered: string): string {
    if kinds == [] then UNCLASSIFIED
    else if Contains(lowered, kinds[0].token) then kinds[0].phrase
    else KindOf(kinds[1..], lowered)
  }

  function Rebuilt(policy: Policy, error: Json): string {
    var text := policy.show(error);
    var command, kind := CommandOf(text), KindOf(policy.kinds, policy.lower(text));
    if command != "" then command + ": " + kind else kind
  }

  function RebuiltAll(policy: Policy, errors: seq<Json>): (r: seq<Json>)
    ensures |r| == |errors|
    ensures forall i :: 0 <= i < |r| ==> r[i] == Str(Rebuilt(policy, errors[i]))
  {
    if errors == [] then []
    else RebuiltAll(policy, errors[..|errors| - 1]) + [Str(Rebuilt(policy, errors[|errors| - 1]))]
  }

  method ClassifyErrors(policy: Policy, errors: seq<Json>) returns (out: seq<Json>)
    ensures out == RebuiltAll(policy, errors)
  {
    out := [];
    for i := 0 to |errors|
      invariant out == RebuiltAll(policy, errors[..i])
    {
      assert errors[..i + 1][..i] == errors[..i];
      out := out + [Str(Rebuilt(policy, errors[i]))];
    }
    assert errors[..|errors|] == errors;
  }

  /** What the command of a rebuilt error is: all of the text before its first ": ". */
  lemma CommandIsWhatPrecedesTheFirstColon(command: string, detail: string)
    requires detail != "" && forall i :: 0 <= i < |command| ==> !ColonAt(command + ": " + detail, i)
    ensures CommandOf(command + ": " + detail) == command
  {
    var text := command + ": " + detail;
    assert ColonAt(text, |command|) by {
      assert text[|command|..|command| + 2] == ": ";
    }
    var at := FirstColon(text, 0);
    assert at == |command|;
  }

  lemma {:induction false} FirstKindWins(kinds: seq<Kind>, lowered: string, k: nat)
    requires k <= |kinds| && forall j :: 0 <= j < k ==> !Contains(lowered, kinds[j].token)
    ensures k == |kinds| ==> KindOf(kinds, lowered) == UNCLASSIFIED
    ensures k < |kinds| && Contains(lowered, kinds[k].token) ==> KindOf(kinds, lowered) == kinds[k].phrase
  {
    if k > 0 {
      FirstKindWins(kinds[1..], lowered, k - 1);
    }
  }

  lemma NoKindSaysNothing(kinds: seq<Kind>, lowered: string)
    requires forall j :: 0 <= j < |kinds| ==> !Contains(lowered, kinds[j].token)
    ensures KindOf(kinds, lowered) == "an unclassified error; its detail is withheld because a transport "
      + "exception can embed device output"
  {
    FirstKindWins(kinds, lowered, |kinds|);
  }

  /** An error "command: detail" comes out as its command and the phrase of the first kind
      found anywhere in it; nothing of the detail is left. */
  lemma DetailIsReplaced(policy: Policy, error: Json, command: string, detail: string, k: nat)
    requires policy.show(error) == command + ": " + detail && command != "" && detail != ""
    requires forall i :: 0 <= i < |command| ==> !ColonAt(command + ": " + detail, i)
    requires k < |policy.kinds| && Contains(policy.lower(policy.show(error)), policy.kinds[k].token)
    requires forall j :: 0 <= j < k ==> !Contains(policy.lower(policy.show(error)), policy.kinds[j].token)
    ensures Rebuilt(policy, error) == command + ": " + policy.kinds[k].phrase
  {
    CommandIsWhatPrecedesTheFirstColon(command, detail);
    FirstKindWins(policy.kinds, policy.lower(policy.show(error)), k);
  }

  /** An error without a ": ", or with nothing before or after the first one, comes out as the
      phrase alone. */
  lemma WithoutDetailOnlyThePhrase(policy: Policy, error: Json)
    requires var text := policy.show(error);
      || (forall i :: 0 <= i < |text| ==> !ColonAt(text, i))
      || (ColonAt(text, 0))
      || (|text| >= 2 && ColonAt(text, |text| - 2) && forall i :: 0 <= i < |text| - 2 ==> !ColonAt(text, i))
    ensures Rebuilt(policy, error) == KindOf(policy.kinds, policy.lower(policy.show(error)))
  {
  }

  // ------------------------------------------------------------------
  // The sanitiser
  // ------------------------------------------------------------------

  /** Dictionary store: a key keeps the place where it was first stored. */
  function Put(fields: seq<Field>, key: string, value: Json): (r: seq<Field>)
    ensures forall f :: f in r ==> f in fields || f == Field(key, value)
    ensures Lookup(r, key) == Some(value)
    ensures forall k :: k != key ==> Lookup(r, k) == Lookup(fields, k)
    ensures |fields| <= |r| && forall i :: 0 <= i < |fields| ==> r[i].key == fields[i].key
  {
    if fields == [] then [Field(key, value)]
    else if fields[0].key == key then [Field(key, value)] + fields[1..]
    else [fields[0]] + Put(fields[1..], key, value)
  }

  function Lookup(fields: seq<Field>, key: string): Option<Json> {
    if fields == [] then None
    else if fields[0].key == key then Some(fields[0].value)
    else Lookup(fields[1..], key)
  }

  /** The dictionary that these stores, in order, leave behind. */
  function Dictionary(stores: seq<Field>): (r: seq<Field>)
    ensures forall f :: f in r ==> f in stores
  {
    if stores == [] then []
    else
      var last := stores[|stores| - 1];
      Put(Dictionary(stores[..|stores| - 1]), last.key, last.value)
  }

  function Size(policy: Policy, output: Json): (nat, nat) {
    if output.Str? then (|output.text|, policy.lines(output.text)) else (0, 0)
  }

  function Record(policy: Policy, output: Json): Json {
    var (chars, lines) := Size(policy, output);
    Obj([Field("withheld", Str(WITHHELD)), Field("chars", Num(chars)), Field("lines", Num(lines))])
  }

  function WithheldCommands(policy: Policy, commands: seq<Field>): seq<Field> {
    if commands == [] then []
    else [Field(commands[0].key, Record(policy, commands[0].value))] + WithheldCommands(policy, commands[1..])
  }

  function Tally(value: Json): nat {
    if value.Arr? then |value.items| else 1
  }

  /** The fields that are not simply walked into. */
  predicate Handled(policy: Policy, f: Field) {
    || f.key in RAW_TEXT_KEYS
    || (f.key == "errors" && f.value.Arr?)
    || (f.key in policy.freeText && f.value.Str?)
  }

  function CleanKey(f: Field): string {
    if f.key in RAW_TEXT_KEYS then f.key + SUFFIX else f.key
  }

  function HandledValue(policy: Policy, f: Field): Json
    requires Handled(policy, f)
  {
    if f.key == "commands" && f.value.Obj? then Obj(WithheldCommands(policy, f.value.fields))
    else if f.key in RAW_TEXT_KEYS then Num(Tally(f.value))
    else if f.key == "errors" && f.value.Arr? then Arr(RebuiltAll(policy, f.value.items))
    else Str(policy.quote(f.value.text))
  }

  function CleanValue(policy: Policy, f: Field): Json
    decreases f, 1
  {
    if Handled(policy, f) then HandledValue(policy, f) else Sanitized(policy, f.value)
  }

  function Sanitized(policy: Policy, p: Json): Json
    decreases p
  {
    match p
    case Obj(fields) => Obj(Dictionary(CleanFields(policy, p, |fields|)))
    case Arr(items) => Arr(CleanItems(policy, p, |items|))
    case _ => p
  }

  /** The stores made for the first `n` fields. */
  function CleanFields(policy: Policy, p: Json, n: nat): (r: seq<Field>)
    requires p.Obj? && n <= |p.fields|
    ensures |r| == n
    decreases p, n
  {
    if n == 0 then []
    else CleanFields(policy, p, n - 1) + [Field(CleanKey(p.fields[n - 1]), CleanValue(policy, p.fields[n - 1]))]
  }

  function CleanItems(policy: Policy, p: Json, n: nat): (r: seq<Json>)
    requires p.Arr? && n <= |p.items|
    ensures |r| == n
    decreases p, n
  {
    if n == 0 then [] else CleanItems(policy, p, n - 1) + [Sanitized(policy, p.items[n - 1])]
  }

  method Sanitize(policy: Policy, payload: Json) returns (clean: Json)
    ensures clean == Sanitized(policy, payload)
    decreases payload
  {
    match payload
    case Obj(fields) =>
      var out: seq<Field> := [];
      for i := 0 to |fields|
        invariant out == Dictionary(CleanFields(policy, payload, i))
      {
        var key, value := fields[i].key, fields[i].value;
        ghost var stores := CleanFields(policy, payload, i + 1);
        assert stores[..i] == CleanFields(policy, payload, i);
        if key == "commands" && value.Obj? {
          out := Put(out, "commands" + SUFFIX, Obj(WithheldCommands(policy, value.fields)));
        } else if key in RAW_TEXT_KEYS {
          out := Put(out, key + SUFFIX, Num(Tally(value)));
        } else if key == "errors" && value.Arr? {
          var rebuilt := ClassifyErrors(policy, value.items);
          out := Put(out, key, Arr(rebuilt));
        } else if key in policy.freeText && value.Str? {
          out := Put(out, key, Str(policy.quote(value.text)));
        } else {
          var inner := Sanitize(policy, value);
          out := Put(out, key, inner);
        }
      }
      clean := Obj(out);
    case Arr(items) =>
      var out: seq<Json> := [];
      for i := 0 to |items|
        invariant out == CleanItems(policy, payload, i)
      {
        var inner := Sanitize(policy, items[i]);
        out := out + [inner];
      }
      clean := Arr(out);
    case _ =>
      clean := payload;
  }

  // ------------------------------------------------------------------
  // What the output can depend on
  // ------------------------------------------------------------------

  /** Errors a reader of the output cannot tell apart: same command, same kind. */
  predicate SameError(policy: Policy, a: Json, b: Json) {
    && CommandOf(policy.show(a)) == CommandOf(policy.show(b))
    && KindOf(policy.kinds, policy.lower(policy.show(a))) == KindOf(policy.kinds, policy.lower(policy.show(b)))
  }

  predicate SameErrors(policy: Policy, a: seq<Json>, b: seq<Json>) {
    |a| == |b| && forall i :: 0 <= i < |a| ==> SameError(policy, a[i], b[i])
  }

  /** The same commands with outputs of the same length and line count. */
  predicate SameSizes(policy: Policy, a: seq<Field>, b: seq<Field>) {
    |a| == |b| && forall i :: 0 <= i < |a| ==>
      a[i].key == b[i].key && Size(policy, a[i].value) == Size(policy, b[i].value)
  }

  predicate AlikeFields(policy: Policy, a: Field, b: Field)
    decreases a, 1
  {
    && a.key == b.key
    && if a.key == "commands" && (a.value.Obj? || b.value.Obj?) then
         a.value.Obj? && b.value.Obj? && SameSizes(policy, a.value.fields, b.value.fields)
       else if a.key in RAW_TEXT_KEYS then Tally(a.value) == Tally(b.value)
       else if a.key == "errors" && (a.value.Arr? || b.value.Arr?) then
         a.value.Arr? && b.value.Arr? && SameErrors(policy, a.value.items, b.value.items)
       else Alike(policy, a.value, b.value)
  }

  /** Trees that differ only in what the boundary withholds. */
  predicate Alike(policy: Policy, a: Json, b: Json)
    decreases a
  {
    match a
    case Obj(fields) =>
      && b.Obj? && |fields| == |b.fields|
      && forall i :: 0 <= i < |fields| ==> AlikeFields(policy, fields[i], b.fields[i])
    case Arr(items) =>
      && b.Arr? && |items| == |b.items|
      && forall i :: 0 <= i < |items| ==> Alike(policy, items[i], b.items[i])
    case _ => a == b
  }

  lemma {:induction false} SameSizesSameRecords(policy: Policy, a: seq<Field>, b: seq<Field>)
    requires SameSizes(policy, a, b)
    ensures WithheldCommands(policy, a) == WithheldCommands(policy, b)
  {
    if a != [] {
      SameSizesSameRecords(policy, a[1..], b[1..]);
    }
  }

  lemma SameErrorsSameTexts(policy: Policy, a: seq<Json>, b: seq<Json>)
    requires SameErrors(policy, a, b)
    ensures RebuiltAll(policy, a) == RebuiltAll(policy, b)
  {
    forall i | 0 <= i < |a| ensures RebuiltAll(policy, a)[i] == RebuiltAll(policy, b)[i] {
      assert SameError(policy, a[i], b[i]);
    }
  }

  lemma {:induction false} CleanFieldAt(policy: Policy, p: Json, n: nat, i: nat)
    requires p.Obj? && i < n <= |p.fields|
    ensures CleanFields(policy, p, n)[i] == Field(CleanKey(p.fields[i]), CleanValue(policy, p.fields[i]))
  {
    if i < n - 1 {
      CleanFieldAt(policy, p, n - 1, i);
    }
  }

  lemma {:induction false} ItemIsKept(policy: Policy, p: Json, n: nat, i: nat)
    requires p.Arr? && i < n <= |p.items|
    ensures CleanItems(policy, p, n)[i] == Sanitized(policy, p.items[i])
  {
    if i < n - 1 {
      ItemIsKept(policy, p, n - 1, i);
    }
  }

  lemma {:induction false} AlikeFieldsCleanAlike(policy: Policy, a: Field, b: Field)
    requires AlikeFields(policy, a, b)
    ensures CleanKey(a) == CleanKey(b) && CleanValue(policy, a) == CleanValue(policy, b)
    decreases a, 1
  {
    if a.key == "commands" && a.value.Obj? {
      SameSizesSameRecords(policy, a.value.fields, b.value.fields);
    } else if a.key in RAW_TEXT_KEYS {
    } else if a.key == "errors" && a.value.Arr? {
      SameErrorsSameTexts(policy, a.value.items, b.value.items);
    } else {
      OnlyDeclaredTextMatters(policy, a.value, b.value);
    }
  }

  /** Trees of any depth that differ only in command outputs of equal size, in numbers of
      unread lines, or in error details of one kind, leave the boundary identical. */
  lemma {:induction false} OnlyDeclaredTextMatters(policy: Policy, a: Json, b: Json)
    requires Alike(policy, a, b)
    ensures Sanitized(policy, a) == Sanitized(policy, b)
    decreases a
  {
    match a
    case Obj(fields) =>
      var n := |fields|;
      forall i | 0 <= i < n ensures CleanFields(policy, a, n)[i] == CleanFields(policy, b, n)[i] {
        AlikeFieldsCleanAlike(policy, fields[i], b.fields[i]);
        CleanFieldAt(policy, a, n, i);
        CleanFieldAt(policy, b, n, i);
      }
      assert CleanFields(policy, a, n) == CleanFields(policy, b, n);
    case Arr(items) =>
      var n := |items|;
      forall i | 0 <= i < n ensures CleanItems(policy, a, n)[i] == CleanItems(policy, b, n)[i] {
        OnlyDeclaredTextMatters(policy, items[i], b.items[i]);
        ItemIsKept(policy, a, n, i);
        ItemIsKept(policy, b, n, i);
      }
      assert CleanItems(policy, a, n) == CleanItems(policy, b, n);
    case _ =>
  }

  // ------------------------------------------------------------------
  // What is kept
  // ------------------------------------------------------------------

  datatype Step = Key(name: string) | Index(i: nat)

  function Child(p: Json, s: Step): Option<Json> {
    match s
    case Key(name) => if p.Obj? then Lookup(p.fields, name) else None
    case Index(i) => if p.Arr? && i < |p.items| then Some(p.items[i]) else None
  }

  function At(p: Json, path: seq<Step>): Option<Json>
    decreases |path|
  {
    if path == [] then Some(p)
    else
      var child := Child(p, path[0]);
      if child.None? then None else At(child.value, path[1..])
  }

  /** A Python dictionary: one entry per key. */
  predicate Distinct(fields: seq<Field>) {
    forall i, j :: 0 <= i < j < |fields| ==> fields[i].key != fields[j].key
  }

  predicate Keys(p: Json)
    decreases p
  {
    match p
    case Obj(fields) => Distinct(fields) && forall i :: 0 <= i < |fields| ==> Keys(fields[i].value)
    case Arr(items) => forall i :: 0 <= i < |items| ==> Keys(items[i])
    case _ => true
  }

  lemma {:induction false} LookupFinds(fields: seq<Field>, k: nat)
    requires Distinct(fields) && k < |fields|
    ensures Lookup(fields, fields[k].key) == Some(fields[k].value)
  {
    if k > 0 {
      LookupFinds(fields[1..], k - 1);
    }
  }

  lemma {:induction false} FoundIsAField(fields: seq<Field>, key: string) returns (k: nat)
    requires Lookup(fields, key).Some?
    ensures k < |fields| && fields[k] == Field(key, Lookup(fields, key).value)
  {
    if fields[0].key == key {
      k := 0;
    } else {
      k := FoundIsAField(fields[1..], key);
      k := k + 1;
    }
  }

  /** The last store under a key decides what the dictionary has there. */
  lemma {:induction false} LastStoreWins(stores: seq<Field>, k: nat)
    requires k < |stores| && forall j :: k < j < |stores| ==> stores[j].key != stores[k].key
    ensures Lookup(Dictionary(stores), stores[k].key) == Some(stores[k].value)
  {
    if k < |stores| - 1 {
      LastStoreWins(stores[..|stores| - 1], k);
    }
  }

  lemma {:induction false} KeysAreTheStored(stores: seq<Field>, key: string)
    ensures Lookup(Dictionary(stores), key).Some? <==> exists k :: 0 <= k < |stores| && stores[k].key == key
  {
    if stores != [] {
      var front, last := stores[..|stores| - 1], stores[|stores| - 1];
      KeysAreTheStored(front, key);
      if k :| 0 <= k < |stores| && stores[k].key == key {
        assert k < |front| ==> front[k].key == key;
      }
      if k :| 0 <= k < |front| && front[k].key == key {
        assert stores[k].key == key;
      }
    }
  }

  /** Nothing is dropped and nothing invented: the output's keys are the input's, with the
      raw-text ones renamed. */
  lemma KeysAreKeptOrRenamed(policy: Policy, p: Json, key: string)
    requires p.Obj?
    ensures Child(Sanitized(policy, p), Key(key)).Some? <==>
      exists k :: 0 <= k < |p.fields| && CleanKey(p.fields[k]) == key
  {
    var n := |p.fields|;
    var stores := CleanFields(policy, p, n);
    forall k | 0 <= k < n ensures stores[k].key == CleanKey(p.fields[k]) {
      CleanFieldAt(policy, p, n, k);
    }
    KeysAreTheStored(stores, key);
  }

  /** The cleaned field that nothing later overwrites is what the output has. */
  lemma LastFieldWins(policy: Policy, p: Json, k: nat)
    requires p.Obj? && k < |p.fields|
    requires forall j :: k < j < |p.fields| ==> CleanKey(p.fields[j]) != CleanKey(p.fields[k])
    ensures Child(Sanitized(policy, p), Key(CleanKey(p.fields[k]))) == Some(CleanValue(policy, p.fields[k]))
  {
    var n := |p.fields|;
    var stores := CleanFields(policy, p, n);
    forall j | 0 <= j < n ensures stores[j] == Field(CleanKey(p.fields[j]), CleanValue(policy, p.fields[j])) {
      CleanFieldAt(policy, p, n, j);
    }
    LastStoreWins(stores, k);
  }

  /** No later field of the object comes out under the key of this one. */
  predicate Last(p: Json, k: nat)
    requires p.Obj? && k < |p.fields|
  {
    forall j :: k < j < |p.fields| ==> CleanKey(p.fields[j]) != CleanKey(p.fields[k])
  }

  /** What replaces a command's output: that it is withheld, how many characters it had, and
      how many lines. */
  predicate Stands(policy: Policy, output: Json, record: Json) {
    record == Obj([Field("withheld", Str("raw device text is not sent to a model (invariant 4)")),
                   Field("chars", Num(if output.Str? then |output.text| else 0)),
                   Field("lines", Num(if output.Str? then policy.lines(output.text) else 0))])
  }

  lemma {:induction false} EveryCommandIsWithheld(policy: Policy, commands: seq<Field>)
    ensures var table := WithheldCommands(policy, commands);
      |table| == |commands| && forall i :: 0 <= i < |table| ==>
        table[i].key == commands[i].key && Stands(policy, commands[i].value, table[i].value)
  {
    if commands != [] {
      EveryCommandIsWithheld(policy, commands[1..]);
    }
  }

  /** A table of commands comes out as the table of their sizes, command by command. */
  lemma CommandsComeOutAsSizes(policy: Policy, p: Json, k: nat, commands: seq<Field>) returns (table: seq<Field>)
    requires p.Obj? && k < |p.fields| && Last(p, k) && p.fields[k] == Field("commands", Obj(commands))
    ensures Child(Sanitized(policy, p), Key("commands_withheld")) == Some(Obj(table))
    ensures |table| == |commands|
    ensures forall i :: 0 <= i < |table| ==>
      table[i].key == commands[i].key && Stands(policy, commands[i].value, table[i].value)
  {
    table := WithheldCommands(policy, commands);
    EveryCommandIsWithheld(policy, commands);
    LastFieldWins(policy, p, k);
    assert "commands" + SUFFIX == "commands_withheld";
  }

  /** Other raw text comes out as a number: how many lines were listed, or one. */
  lemma RawTextComesOutAsACount(policy: Policy, p: Json, k: nat)
    requires p.Obj? && k < |p.fields| && Last(p, k)
    requires p.fields[k].key == "unaccounted_lines" || (p.fields[k].key == "commands" && !p.fields[k].value.Obj?)
    ensures var value := p.fields[k].value;
      Child(Sanitized(policy, p), Key(p.fields[k].key + "_withheld"))
        == Some(Num(if value.Arr? then |value.items| else 1))
  {
    LastFieldWins(policy, p, k);
  }

  /** A list of errors is rebuilt error by error, and free text written by a device is quoted. */
  lemma ErrorsAreRebuiltAndTextIsQuoted(policy: Policy, p: Json, k: nat)
    requires p.Obj? && k < |p.fields| && Last(p, k)
    ensures p.fields[k].key == "errors" && p.fields[k].value.Arr? ==>
      var out := Child(Sanitized(policy, p), Key("errors"));
      && out.Some? && out.value.Arr? && |out.value.items| == |p.fields[k].value.items|
      && forall i :: 0 <= i < |out.value.items| ==>
           out.value.items[i] == Str(Rebuilt(policy, p.fields[k].value.items[i]))
    ensures p.fields[k].key in policy.freeText - {"commands", "unaccounted_lines"} && p.fields[k].value.Str? ==>
      Child(Sanitized(policy, p), Key(p.fields[k].key)) == Some(Str(policy.quote(p.fields[k].value.text)))
  {
    LastFieldWins(policy, p, k);
  }

  const WITHHELD_KEYS := {"commands_withheld", "unaccounted_lines_withheld"}

  lemma RenamedKeys(f: Field)
    requires f.key in RAW_TEXT_KEYS
    ensures CleanKey(f) in WITHHELD_KEYS
  {
    assert "commands" + SUFFIX == "commands_withheld";
    assert "unaccounted_lines" + SUFFIX == "unaccounted_lines_withheld";
  }

  lemma WithheldIsNotRaw(key: string)
    requires key in WITHHELD_KEYS
    ensures key !in RAW_TEXT_KEYS
  {
    assert |"commands_withheld"| == 17 && |"unaccounted_lines_withheld"| == 26;
  }

  lemma SuffixKeepsApart(a: string, b: string)
    requires a != b
    ensures a + SUFFIX != b + SUFFIX
  {
    assert a == (a + SUFFIX)[..|a + SUFFIX| - |SUFFIX|];
    assert b == (b + SUFFIX)[..|b + SUFFIX| - |SUFFIX|];
  }

  /** A walked field is found under its own key, unless a raw-text field renamed to that
      key comes later in the same object. */
  lemma WalkedFieldIsKept(policy: Policy, p: Json, k: nat)
    requires p.Obj? && Distinct(p.fields) && k < |p.fields| && !Handled(policy, p.fields[k])
    requires forall j :: k < j < |p.fields| ==> CleanKey(p.fields[j]) != p.fields[k].key
    ensures Child(Sanitized(policy, p), Key(p.fields[k].key)) == Some(Sanitized(policy, p.fields[k].value))
  {
    LastFieldWins(policy, p, k);
  }

  /** The step walks: it goes to a list item, or to a field that is neither handled nor
      named like a withheld record. */
  predicate Walks(policy: Policy, p: Json, s: Step) {
    match s
    case Key(name) => name !in WITHHELD_KEYS && Child(p, s).Some? && !Handled(policy, Field(name, Child(p, s).value))
    case Index(_) => Child(p, s).Some?
  }

  predicate WalksAll(policy: Policy, p: Json, path: seq<Step>)
    decreases |path|
  {
    path != [] ==> Walks(policy, p, path[0]) && WalksAll(policy, Child(p, path[0]).value, path[1..])
  }

  lemma StepIsKept(policy: Policy, p: Json, s: Step)
    requires Keys(p) && Walks(policy, p, s)
    ensures Child(Sanitized(policy, p), s) == Some(Sanitized(policy, Child(p, s).value))
    ensures Keys(Child(p, s).value)
  {
    match s
    case Key(name) =>
      var k := FoundIsAField(p.fields, name);
      forall j | k < j < |p.fields| ensures CleanKey(p.fields[j]) != name {
        if p.fields[j].key in RAW_TEXT_KEYS {
          RenamedKeys(p.fields[j]);
        }
      }
      WalkedFieldIsKept(policy, p, k);
    case Index(i) =>
      ItemIsKept(policy, p, |p.items|, i);
  }

  /** Everything the path reaches without a handled field on it is still there, and every
      leaf there is unchanged. */
  lemma {:induction false} WalkedPathsAreKept(policy: Policy, p: Json, path: seq<Step>)
    requires Keys(p) && WalksAll(policy, p, path)
    ensures At(p, path).Some? && At(Sanitized(policy, p), path) == Some(Sanitized(policy, At(p, path).value))
    ensures !At(p, path).value.Obj? && !At(p, path).value.Arr? ==> At(Sanitized(policy, p), path) == At(p, path)
    decreases |path|
  {
    if path != [] {
      StepIsKept(policy, p, path[0]);
      WalkedPathsAreKept(policy, Child(p, path[0]).value, path[1..]);
    }
  }

  /** When an object already has a field named like the withheld record of another, the
      later of the two is what the output keeps. */
  lemma CollisionExactly(policy: Policy, p: Json, k: nat, j: nat)
    requires p.Obj? && Distinct(p.fields) && k < |p.fields| && j < |p.fields|
    requires p.fields[j].key in RAW_TEXT_KEYS && p.fields[k].key == p.fields[j].key + SUFFIX
    ensures var later := if j > k then j else k;
      Child(Sanitized(policy, p), Key(p.fields[k].key)) == Some(CleanValue(policy, p.fields[later]))
  {
    var later := if j > k then j else k;
    RenamedKeys(p.fields[j]);
    assert p.fields[k].key in WITHHELD_KEYS;
    WithheldIsNotRaw(p.fields[k].key);
    forall i | later < i < |p.fields| ensures CleanKey(p.fields[i]) != p.fields[k].key {
      if p.fields[i].key in RAW_TEXT_KEYS {
        assert p.fields[i].key != p.fields[j].key;
        SuffixKeepsApart(p.fields[i].key, p.fields[j].key);
      }
    }
    LastFieldWins(policy, p, later);
  }

  // ------------------------------------------------------------------
  // What cannot come out
  // ------------------------------------------------------------------

  /** The record that stands for one command's output. */
  predicate SizeRecord(value: Json) {
    value.Obj? && |value.fields| == 3 && value.fields[0] == Field("withheld", Str(WITHHELD))
    && value.fields[1].key == "chars" && value.fields[1].value.Num?
    && value.fields[2].key == "lines" && value.fields[2].value.Num?
  }

  /** A table of such records, keyed by command. */
  predicate SizeTable(value: Json) {
    value.Obj? && forall i :: 0 <= i < |value.fields| ==> SizeRecord(value.fields[i].value)
  }

  /** No field at any depth has a raw-text key, except that a table of sizes is keyed by the
      commands themselves. */
  predicate NoRawKeys(p: Json)
    decreases p
  {
    match p
    case Obj(fields) => forall i :: 0 <= i < |fields| ==> NoRawField(fields[i])
    case Arr(items) => forall i :: 0 <= i < |items| ==> NoRawKeys(items[i])
    case _ => true
  }

  predicate NoRawField(f: Field)
    decreases f, 1
  {
    f.key !in RAW_TEXT_KEYS && (NoRawKeys(f.value) || (f.key == "commands" + SUFFIX && SizeTable(f.value)))
  }

  lemma {:induction false} WithheldIsASizeTable(policy: Policy, commands: seq<Field>)
    ensures SizeTable(Obj(WithheldCommands(policy, commands)))
  {
    if commands != [] {
      WithheldIsASizeTable(policy, commands[1..]);
    }
  }

  lemma {:induction false} CleanFieldHasNoRawKeys(policy: Policy, f: Field)
    ensures NoRawField(Field(CleanKey(f), CleanValue(policy, f)))
    decreases f, 1
  {
    if f.key in RAW_TEXT_KEYS {
      RenamedKeys(f);
      WithheldIsNotRaw(CleanKey(f));
      if f.key == "commands" && f.value.Obj? {
        WithheldIsASizeTable(policy, f.value.fields);
      }
    } else if !Handled(policy, f) {
      RawKeysNeverCross(policy, f.value);
    }
  }

  lemma NoRawSubset(fields: seq<Field>, stores: seq<Field>)
    requires forall i :: 0 <= i < |stores| ==> NoRawField(stores[i])
    requires forall f :: f in fields ==> f in stores
    ensures NoRawKeys(Obj(fields))
  {
    forall i | 0 <= i < |fields| ensures NoRawField(fields[i]) {
      assert fields[i] in fields;
      var j :| 0 <= j < |stores| && stores[j] == fields[i];
    }
  }

  lemma {:induction false} RawKeysNeverCross(policy: Policy, p: Json)
    ensures NoRawKeys(Sanitized(policy, p))
    decreases p
  {
    match p
    case Obj(fields) =>
      var stores := CleanFields(policy, p, |fields|);
      forall i | 0 <= i < |fields| ensures NoRawField(stores[i]) {
        CleanFieldAt(policy, p, |fields|, i);
        CleanFieldHasNoRawKeys(policy, fields[i]);
      }
      NoRawSubset(Dictionary(stores), stores);
    case Arr(items) =>
      forall i | 0 <= i < |items| ensures NoRawKeys(CleanItems(policy, p, |items|)[i]) {
        ItemIsKept(policy, p, |items|, i);
        RawKeysNeverCross(policy, items[i]);
      }
    case _ =>
  }
}
