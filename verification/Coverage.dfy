/** The parser-coverage accountant: every byte and every non-blank line of a raw text goes
    into exactly one bucket. */
module Coverage {
  import opened Common

  datatype Tally = Tally(
    files: int, cases: int, rawBytes: int, meaningfulLines: int,
    structuredBytes: int, structuredLines: int, deferredBytes: int, deferredLines: int,
    presentationBytes: int, presentationLines: int, unaccountedBytes: int, unaccountedLines: int, unparsedRows: int)

  const NOTHING := Tally(0, 0, 0, 0, 0, 0, 0, 0, 0, 0, 0, 0, 0)

  function Plus(a: Tally, b: Tally): Tally {
    Tally(a.files + b.files, a.cases + b.cases, a.rawBytes + b.rawBytes, a.meaningfulLines + b.meaningfulLines,
          a.structuredBytes + b.structuredBytes, a.structuredLines + b.structuredLines,
          a.deferredBytes + b.deferredBytes, a.deferredLines + b.deferredLines,
          a.presentationBytes + b.presentationBytes, a.presentationLines + b.presentationLines,
          a.unaccountedBytes + b.unaccountedBytes, a.unaccountedLines + b.unaccountedLines,
          a.unparsedRows + b.unparsedRows)
  }

  function AllocatedBytes(t: Tally): int {
    t.structuredBytes + t.deferredBytes + t.presentationBytes + t.unaccountedBytes
  }

  /** Lines in the four buckets; blank lines are in none of them. */
  function AllocatedLines(t: Tally): int {
    t.structuredLines + t.deferredLines + t.presentationLines + t.unaccountedLines
  }

  predicate Balanced(t: Tally) {
    AllocatedBytes(t) == t.rawBytes && AllocatedLines(t) == t.meaningfulLines
  }

  // ------------------------------------------------------------------
  // Text
  // ------------------------------------------------------------------

  /** The length of a character in UTF-8. */
  function Width(c: char): nat {
    if c < '\U{80}' then 1 else if c < '\U{800}' then 2 else if c < '\U{10000}' then 3 else 4
  }

  function Bytes(text: string): nat {
    if text == "" then 0 else Width(text[0]) + Bytes(text[1..])
  }

  /** The characters at which the host language ends a line. */
  predicate Breaks(c: char) {
    c in {'\n', '\r', '\U{0B}', '\U{0C}', '\U{1C}', '\U{1D}', '\U{1E}', '\U{85}', '\U{2028}', '\U{2029}'}
  }

  predicate Space(c: char) {
    || Breaks(c) || c in {'\t', ' ', '\U{1F}', '\U{A0}', '\U{1680}', '\U{202F}', '\U{205F}', '\U{3000}'}
    || '\U{2000}' <= c <= '\U{200A}'
  }

  /** The characters by their codes: the line breaks, the other spaces, and the lengths. */
  lemma CharactersByCode(c: char)
    ensures var n := c as int;
      && (Breaks(c) <==> 10 <= n <= 13 || 28 <= n <= 30 || n == 133 || n == 8232 || n == 8233)
      && (Space(c) <==> 9 <= n <= 13 || 28 <= n <= 32 || n == 133 || n == 160 || n == 5760 || 8192 <= n <= 8202
                        || n == 8232 || n == 8233 || n == 8239 || n == 8287 || n == 12288)
      && (n < 128 ==> Width(c) == 1) && (128 <= n < 2048 ==> Width(c) == 2)
      && (2048 <= n < 65536 ==> Width(c) == 3) && (65536 <= n ==> Width(c) == 4)
  {
  }

  /** Where the line that `text[i]` is on ends, its line break included. */
  function LineEnd(text: string, i: nat): (r: nat)
    requires i < |text|
    ensures i < r <= |text|
    decreases |text| - i
  {
    if text[i] == '\r' && i + 1 < |text| && text[i + 1] == '\n' then i + 2
    else if Breaks(text[i]) || i + 1 == |text| then i + 1
    else LineEnd(text, i + 1)
  }

  /** The lines of a text, each with its line break. */
  function Segments(text: string): seq<string>
    decreases |text|
  {
    if text == "" then []
    else
      var n := LineEnd(text, 0);
      [text[..n]] + Segments(text[n..])
  }

  function WithoutBreak(segment: string): string {
    if segment != "" && segment[|segment| - 1] in {'\r', '\n'} then WithoutBreak(segment[..|segment| - 1]) else segment
  }

  function StripLeft(s: string): string {
    if s != "" && Space(s[0]) then StripLeft(s[1..]) else s
  }

  function StripRight(s: string): string {
    if s != "" && Space(s[|s| - 1]) then StripRight(s[..|s| - 1]) else s
  }

  function Strip(s: string): string {
    StripRight(StripLeft(s))
  }

  function Key(segment: string): string {
    Strip(WithoutBreak(segment))
  }

  // ------------------------------------------------------------------
  // One segment
  // ------------------------------------------------------------------

  datatype Rule = Rule(matches: string -> bool, notNeededYet: bool, reason: string)

  predicate Hits(rule: Rule, segment: string) {
    rule.matches(WithoutBreak(segment)) || rule.matches(Key(segment))
  }

  function FirstHit(rules: seq<Rule>, segment: string): Option<Rule> {
    if rules == [] then None
    else if Hits(rules[0], segment) then Some(rules[0])
    else FirstHit(rules[1..], segment)
  }

  /** The running totals, the lines still to be claimed, the lines claimed so far, and the
      two side counters. */
  datatype Walk = Walk(t: Tally, left: multiset<string>, claimed: multiset<string>, reasons: multiset<string>,
                       samples: multiset<string>)

  function Structured(t: Tally, bytes: int): Tally {
    t.(structuredLines := t.structuredLines + 1, structuredBytes := t.structuredBytes + bytes)
  }

  function Presented(t: Tally, bytes: int): Tally {
    t.(presentationLines := t.presentationLines + 1, presentationBytes := t.presentationBytes + bytes)
  }

  function Deferred(t: Tally, bytes: int): Tally {
    t.(deferredLines := t.deferredLines + 1, deferredBytes := t.deferredBytes + bytes)
  }

  function Unaccounted(t: Tally, bytes: int): Tally {
    t.(unaccountedLines := t.unaccountedLines + 1, unaccountedBytes := t.unaccountedBytes + bytes)
  }

  function Seen(w: Walk, segment: string, common: seq<Rule>, custom: seq<Rule>): Walk {
    var bytes, key := Bytes(segment), Key(segment);
    if key == "" then w.(t := w.t.(presentationBytes := w.t.presentationBytes + bytes))
    else
      var t := w.t.(meaningfulLines := w.t.meaningfulLines + 1);
      if key in w.left then
        w.(t := Structured(t, bytes), left := w.left - multiset{key}, claimed := w.claimed + multiset{key})
      else if FirstHit(common, segment).Some? then w.(t := Presented(t, bytes))
      else
        match FirstHit(custom, segment)
        case None => w.(t := Unaccounted(t, bytes), samples := w.samples + multiset{key})
        case Some(rule) =>
          if rule.notNeededYet then w.(t := Deferred(t, bytes), reasons := w.reasons + multiset{rule.reason})
          else w.(t := Presented(t, bytes))
  }

  function Walked(w: Walk, segments: seq<string>, common: seq<Rule>, custom: seq<Rule>): Walk
    decreases |segments|
  {
    if segments == [] then w else Walked(Seen(w, segments[0], common, custom), segments[1..], common, custom)
  }

  // ------------------------------------------------------------------
  // Conservation within one text
  // ------------------------------------------------------------------

  function BytesOf(segments: seq<string>): nat {
    if segments == [] then 0 else Bytes(segments[0]) + BytesOf(segments[1..])
  }

  lemma {:induction false} BytesSplit(a: string, b: string)
    ensures Bytes(a + b) == Bytes(a) + Bytes(b)
  {
    if a == "" {
      assert a + b == b;
    } else {
      assert (a + b)[1..] == a[1..] + b;
      BytesSplit(a[1..], b);
    }
  }

  /** Splitting into lines loses no byte. */
  lemma {:induction false} SegmentsKeepBytes(text: string)
    ensures BytesOf(Segments(text)) == Bytes(text)
    decreases |text|
  {
    if text != "" {
      var n := LineEnd(text, 0);
      SegmentsKeepBytes(text[n..]);
      BytesSplit(text[..n], text[n..]);
      assert text == text[..n] + text[n..];
    }
  }

  /** Nothing but its end breaks this line. */
  predicate OneLine(s: string) {
    s != "" && forall k :: 0 <= k < |s| - 1 && Breaks(s[k]) ==> k == |s| - 2 && s[k] == '\r' && s[k + 1] == '\n'
  }

  /** The line ends here: in a break, and not between the two characters of one. */
  predicate Ends(s: string, next: string) {
    s != "" && next != "" && Breaks(s[|s| - 1]) && !(s[|s| - 1] == '\r' && next[0] == '\n')
  }

  function Join(segments: seq<string>): string {
    if segments == [] then "" else segments[0] + Join(segments[1..])
  }

  lemma {:induction false} LineEndIsTheFirst(text: string, i: nat)
    requires i < |text|
    requires forall k :: 0 <= k < i ==> !Breaks(text[k])
    ensures OneLine(text[..LineEnd(text, i)])
    ensures LineEnd(text, i) < |text| ==> Ends(text[..LineEnd(text, i)], text[LineEnd(text, i)..])
    decreases |text| - i
  {
    if !Breaks(text[i]) && i + 1 < |text| {
      LineEndIsTheFirst(text, i + 1);
    }
  }

  /** The lines of a text: no line has a break inside, and all but the last end in one. */
  predicate AreLines(segments: seq<string>) {
    && (forall i :: 0 <= i < |segments| ==> OneLine(segments[i]))
    && (forall i :: 0 <= i < |segments| - 1 ==> Ends(segments[i], segments[i + 1]))
  }

  lemma LinesCons(first: string, rest: seq<string>)
    requires OneLine(first) && AreLines(rest) && (rest != [] ==> Ends(first, rest[0]))
    ensures AreLines([first] + rest)
  {
    var all := [first] + rest;
    forall i | 0 <= i < |all| - 1 ensures Ends(all[i], all[i + 1]) {
      assert i > 0 ==> all[i] == rest[i - 1];
      assert all[i + 1] == rest[i];
    }
  }

  lemma FirstSegment(text: string)
    requires text != ""
    ensures Segments(text) != [] && Segments(text)[0] != "" && Segments(text)[0][0] == text[0]
  {
  }

  /** The segments are the text's lines, and joined they are the text. */
  lemma {:induction false} SegmentsAreLines(text: string)
    ensures Join(Segments(text)) == text && AreLines(Segments(text))
    decreases |text|
  {
    if text != "" {
      var n := LineEnd(text, 0);
      var first, rest := text[..n], text[n..];
      LineEndIsTheFirst(text, 0);
      SegmentsAreLines(rest);
      assert Segments(text) == [first] + Segments(rest);
      assert first + rest == text;
      if rest != "" {
        FirstSegment(rest);
      }
      LinesCons(first, Segments(rest));
    }
  }

  lemma {:induction false} StripLeftLeaves(s: string)
    ensures |StripLeft(s)| <= |s| && StripLeft(s) == s[|s| - |StripLeft(s)|..]
    ensures forall k :: 0 <= k < |s| - |StripLeft(s)| ==> Space(s[k])
    ensures StripLeft(s) != "" ==> !Space(StripLeft(s)[0])
  {
    if s != "" && Space(s[0]) {
      StripLeftLeaves(s[1..]);
      assert forall k :: 0 < k < |s| ==> s[k] == s[1..][k - 1];
    }
  }

  lemma {:induction false} StripRightLeaves(s: string)
    ensures |StripRight(s)| <= |s| && StripRight(s) == s[..|StripRight(s)|]
    ensures forall k :: |StripRight(s)| <= k < |s| ==> Space(s[k])
    ensures StripRight(s) != "" ==> !Space(StripRight(s)[|StripRight(s)| - 1])
  {
    if s != "" && Space(s[|s| - 1]) {
      StripRightLeaves(s[..|s| - 1]);
    }
  }

  /** What is stripped is the space at both ends, and all of it. */
  lemma StripLeaves(s: string) returns (i: nat, j: nat)
    ensures i <= j <= |s| && Strip(s) == s[i..j]
    ensures forall k :: 0 <= k < |s| && (k < i || j <= k) ==> Space(s[k])
    ensures i < j ==> !Space(s[i]) && !Space(s[j - 1])
  {
    StripLeftLeaves(s);
    StripRightLeaves(StripLeft(s));
    i := |s| - |StripLeft(s)|;
    j := i + |Strip(s)|;
    assert forall k :: i <= k < |s| ==> s[k] == StripLeft(s)[k - i];
  }

  /** The non-blank lines of a text, stripped, with repetitions. */
  function Lines(segments: seq<string>): multiset<string> {
    if segments == [] then multiset{}
    else (if Key(segments[0]) == "" then multiset{} else multiset{Key(segments[0])}) + Lines(segments[1..])
  }

  lemma ClaimOne(left: multiset<string>, x: string, rest: multiset<string>)
    ensures x in left ==>
      && (left - multiset{x}) - rest == left - (multiset{x} + rest)
      && multiset{x} + ((left - multiset{x}) * rest) == left * (multiset{x} + rest)
    ensures x !in left ==> left - rest == left - (multiset{x} + rest) && left * rest == left * (multiset{x} + rest)
  {
  }

  lemma SeenAllocatesBytes(w: Walk, segment: string, common: seq<Rule>, custom: seq<Rule>)
    ensures AllocatedBytes(Seen(w, segment, common, custom).t) == AllocatedBytes(w.t) + Bytes(segment)
  {
  }

  lemma SeenAllocatesLines(w: Walk, segment: string, common: seq<Rule>, custom: seq<Rule>)
    ensures var s := Seen(w, segment, common, custom);
      && AllocatedLines(s.t) - s.t.meaningfulLines == AllocatedLines(w.t) - w.t.meaningfulLines
      && s.t.meaningfulLines == w.t.meaningfulLines + (if Key(segment) == "" then 0 else 1)
      && s.t.structuredLines - |s.claimed| == w.t.structuredLines - |w.claimed|
  {
  }

  /** Each segment's bytes go to one bucket, and each non-blank line to one line bucket. */
  lemma {:induction false} WalkAllocates(w: Walk, segments: seq<string>, common: seq<Rule>, custom: seq<Rule>)
    ensures var s := Walked(w, segments, common, custom);
      && AllocatedBytes(s.t) == AllocatedBytes(w.t) + BytesOf(segments)
      && AllocatedLines(s.t) - s.t.meaningfulLines == AllocatedLines(w.t) - w.t.meaningfulLines
      && s.t.meaningfulLines == w.t.meaningfulLines + |Lines(segments)|
      && s.t.structuredLines - |s.claimed| == w.t.structuredLines - |w.claimed|
    decreases |segments|
  {
    if segments != [] {
      SeenAllocatesBytes(w, segments[0], common, custom);
      SeenAllocatesLines(w, segments[0], common, custom);
      WalkAllocates(Seen(w, segments[0], common, custom), segments[1..], common, custom);
    }
  }

  lemma SeenClaims(w: Walk, segment: string, common: seq<Rule>, custom: seq<Rule>)
    ensures var s, key := Seen(w, segment, common, custom), Key(segment);
      if key != "" && key in w.left then s.left == w.left - multiset{key} && s.claimed == w.claimed + multiset{key}
      else s.left == w.left && s.claimed == w.claimed
  {
  }

  /** What is claimed is what the parser consumed and the text has: of each stripped line,
      the smaller of the two numbers. */
  lemma {:induction false} WalkClaims(w: Walk, segments: seq<string>, common: seq<Rule>, custom: seq<Rule>)
    ensures Walked(w, segments, common, custom).left == w.left - Lines(segments)
    ensures Walked(w, segments, common, custom).claimed == w.claimed + (w.left * Lines(segments))
    decreases |segments|
  {
    if segments != [] {
      var key, rest := Key(segments[0]), Lines(segments[1..]);
      var next := Seen(w, segments[0], common, custom);
      SeenClaims(w, segments[0], common, custom);
      WalkClaims(next, segments[1..], common, custom);
      ClaimOne(w.left, key, rest);
      JoinClaims(w.claimed, next.claimed, key, next.left * rest, w.left * Lines(segments));
    }
  }

  lemma JoinClaims(before: multiset<string>, after: multiset<string>, key: string, later: multiset<string>,
                   all: multiset<string>)
    requires (after == before && later == all) || (after == before + multiset{key} && multiset{key} + later == all)
    ensures after + later == before + all
  {
  }

  function Consumed(lines: seq<string>): multiset<string> {
    if lines == [] then multiset{} else Consumed(lines[..|lines| - 1]) + multiset{Strip(lines[|lines| - 1])}
  }

  /** The walk over one text, before the final correction. */
  function CaseWalk(files: int, raw: string, consumed: seq<string>, common: seq<Rule>, custom: seq<Rule>): Walk {
    var start := NOTHING.(files := files, cases := 1, rawBytes := Bytes(raw));
    Walked(Walk(start, Consumed(consumed), multiset{}, multiset{}, multiset{}), Segments(raw), common, custom)
  }

  function CaseTally(w: Walk, unparsedRows: int): Tally {
    w.t.(presentationBytes := w.t.presentationBytes + (w.t.rawBytes - AllocatedBytes(w.t)),
         unparsedRows := unparsedRows)
  }

  lemma {:induction false} WalkKeepsRawBytes(w: Walk, segments: seq<string>, common: seq<Rule>, custom: seq<Rule>)
    ensures Walked(w, segments, common, custom).t.rawBytes == w.t.rawBytes
    decreases |segments|
  {
    if segments != [] {
      WalkKeepsRawBytes(Seen(w, segments[0], common, custom), segments[1..], common, custom);
    }
  }

  /** For every text: the buckets add up with nothing left to correct, and the structured
      lines are exactly those both consumed and present. */
  lemma EveryCaseBalances(files: int, raw: string, consumed: seq<string>, common: seq<Rule>, custom: seq<Rule>,
                          unparsedRows: int)
    ensures var w := CaseWalk(files, raw, consumed, common, custom);
      && w.t.rawBytes - AllocatedBytes(w.t) == 0
      && Balanced(CaseTally(w, unparsedRows))
      && CaseTally(w, unparsedRows).meaningfulLines == |Lines(Segments(raw))|
      && w.claimed == Consumed(consumed) * Lines(Segments(raw))
      && CaseTally(w, unparsedRows).structuredLines == |Consumed(consumed) * Lines(Segments(raw))|
  {
    var start := Walk(NOTHING.(files := files, cases := 1, rawBytes := Bytes(raw)), Consumed(consumed), multiset{},
                      multiset{}, multiset{});
    SegmentsKeepBytes(raw);
    WalkAllocates(start, Segments(raw), common, custom);
    WalkClaims(start, Segments(raw), common, custom);
    WalkKeepsRawBytes(start, Segments(raw), common, custom);
  }

  /** Of each distinct line, the smaller of its two numbers. */
  lemma ClaimedIsTheMinimum(files: int, raw: string, consumed: seq<string>, common: seq<Rule>, custom: seq<Rule>,
                            line: string)
    ensures var c, n := Consumed(consumed)[line], Lines(Segments(raw))[line];
      CaseWalk(files, raw, consumed, common, custom).claimed[line] == if c < n then c else n
  {
    EveryCaseBalances(files, raw, consumed, common, custom, 0);
  }

  // ------------------------------------------------------------------
  // Where each line of a text goes
  // ------------------------------------------------------------------

  datatype Bucket = ToBlank | ToStructured | ToDeferred | ToPresentation | ToUnaccounted

  /** The rule at `k` is the first to match the line, with or without the space around it. */
  ghost predicate FirstMatch(rules: seq<Rule>, segment: string, k: nat) {
    k < |rules| && Matches(rules[k], segment) && forall j :: 0 <= j < k ==> !Matches(rules[j], segment)
  }

  ghost predicate Matches(rule: Rule, segment: string) {
    rule.matches(WithoutBreak(segment)) || rule.matches(Strip(WithoutBreak(segment)))
  }

  /** Earlier occurrences of a line claim what was consumed of it before later ones do; for
      the others the common rules come first, and then the first custom rule decides. */
  ghost function BucketOf(consumed: multiset<string>, segments: seq<string>, i: nat, common: seq<Rule>,
                          custom: seq<Rule>): Bucket
    requires i < |segments|
  {
    if Key(segments[i]) == "" then ToBlank
    else if Lines(segments[..i])[Key(segments[i])] < consumed[Key(segments[i])] then ToStructured
    else if exists k: nat :: FirstMatch(common, segments[i], k) then ToPresentation
    else if exists k: nat :: FirstMatch(custom, segments[i], k) && custom[k].notNeededYet then ToDeferred
    else if exists k: nat :: FirstMatch(custom, segments[i], k) && !custom[k].notNeededYet then ToPresentation
    else ToUnaccounted
  }

  lemma {:induction false} FirstHitIsFirst(rules: seq<Rule>, segment: string) returns (k: nat)
    ensures match FirstHit(rules, segment)
            case None => forall j: nat :: !FirstMatch(rules, segment, j)
            case Some(rule) => FirstMatch(rules, segment, k) && rules[k] == rule
                               && forall j: nat :: FirstMatch(rules, segment, j) ==> j == k
  {
    k := 0;
    if rules != [] && !Hits(rules[0], segment) {
      var later := FirstHitIsFirst(rules[1..], segment);
      k := later + 1;
      assert forall j: nat :: FirstMatch(rules, segment, j) ==> j > 0 && FirstMatch(rules[1..], segment, j - 1);
      assert forall j :: 0 < j < |rules| ==> rules[j] == rules[1..][j - 1];
    }
  }

  /** The lines before `n` that go to a bucket. */
  ghost function Filed(consumed: multiset<string>, segments: seq<string>, n: nat, common: seq<Rule>,
                       custom: seq<Rule>, b: Bucket): set<nat>
    requires n <= |segments|
  {
    set i: nat | i < n && BucketOf(consumed, segments, i, common, custom) == b
  }

  ghost function BytesFiled(consumed: multiset<string>, segments: seq<string>, n: nat, common: seq<Rule>,
                            custom: seq<Rule>, b: Bucket): nat
    requires n <= |segments|
  {
    if n == 0 then 0
    else
      BytesFiled(consumed, segments, n - 1, common, custom, b)
      + if BucketOf(consumed, segments, n - 1, common, custom) == b then Bytes(segments[n - 1]) else 0
  }

  /** Each bucket's lines and bytes are those of the lines that go to it. */
  ghost predicate FiledAs(t: Tally, consumed: multiset<string>, segments: seq<string>, n: nat, common: seq<Rule>,
                          custom: seq<Rule>)
    requires n <= |segments|
  {
    && t.structuredLines == |Filed(consumed, segments, n, common, custom, ToStructured)|
    && t.deferredLines == |Filed(consumed, segments, n, common, custom, ToDeferred)|
    && t.presentationLines == |Filed(consumed, segments, n, common, custom, ToPresentation)|
    && t.unaccountedLines == |Filed(consumed, segments, n, common, custom, ToUnaccounted)|
    && t.structuredBytes == BytesFiled(consumed, segments, n, common, custom, ToStructured)
    && t.deferredBytes == BytesFiled(consumed, segments, n, common, custom, ToDeferred)
    && t.presentationBytes == BytesFiled(consumed, segments, n, common, custom, ToPresentation)
                              + BytesFiled(consumed, segments, n, common, custom, ToBlank)
    && t.unaccountedBytes == BytesFiled(consumed, segments, n, common, custom, ToUnaccounted)
  }

  /** The lines left unread, with repetitions. */
  ghost function Unread(consumed: multiset<string>, segments: seq<string>, n: nat, common: seq<Rule>,
                        custom: seq<Rule>): multiset<string>
    requires n <= |segments|
  {
    if n == 0 then multiset{}
    else
      Unread(consumed, segments, n - 1, common, custom)
      + if BucketOf(consumed, segments, n - 1, common, custom) == ToUnaccounted then multiset{Key(segments[n - 1])}
        else multiset{}
  }

  /** The reason that the first matching rule gives for putting the line off. */
  ghost function ReasonFor(custom: seq<Rule>, segment: string): string {
    if exists k: nat :: FirstMatch(custom, segment, k) then
      var k: nat :| FirstMatch(custom, segment, k);
      custom[k].reason
    else ""
  }

  ghost function Reasons(consumed: multiset<string>, segments: seq<string>, n: nat, common: seq<Rule>,
                         custom: seq<Rule>): multiset<string>
    requires n <= |segments|
  {
    if n == 0 then multiset{}
    else
      Reasons(consumed, segments, n - 1, common, custom)
      + if BucketOf(consumed, segments, n - 1, common, custom) == ToDeferred then
          multiset{ReasonFor(custom, segments[n - 1])}
        else multiset{}
  }

  lemma FiledSnoc(consumed: multiset<string>, segments: seq<string>, n: nat, common: seq<Rule>, custom: seq<Rule>,
                  b: Bucket)
    requires n < |segments|
    ensures |Filed(consumed, segments, n + 1, common, custom, b)| ==
      |Filed(consumed, segments, n, common, custom, b)|
      + if BucketOf(consumed, segments, n, common, custom) == b then 1 else 0
  {
    OneMore(Filed(consumed, segments, n, common, custom, b), Filed(consumed, segments, n + 1, common, custom, b), n,
            BucketOf(consumed, segments, n, common, custom) == b);
  }

  lemma {:induction false} WalkedSnoc(w: Walk, segments: seq<string>, last: string, common: seq<Rule>,
                                      custom: seq<Rule>)
    ensures Walked(w, segments + [last], common, custom) ==
      Seen(Walked(w, segments, common, custom), last, common, custom)
    decreases |segments|
  {
    if segments == [] {
      assert [last][1..] == [];
    } else {
      assert (segments + [last])[1..] == segments[1..] + [last];
      WalkedSnoc(Seen(w, segments[0], common, custom), segments[1..], last, common, custom);
    }
  }

  function Part(b: Bucket, bucket: Bucket, n: nat): nat {
    if b == bucket then n else 0
  }

  /** What one line adds to the count, by the bucket it goes to. */
  ghost predicate Adds(t: Tally, u: Tally, b: Bucket, bytes: nat) {
    && u.structuredLines == t.structuredLines + Part(b, ToStructured, 1)
    && u.deferredLines == t.deferredLines + Part(b, ToDeferred, 1)
    && u.presentationLines == t.presentationLines + Part(b, ToPresentation, 1)
    && u.unaccountedLines == t.unaccountedLines + Part(b, ToUnaccounted, 1)
    && u.structuredBytes == t.structuredBytes + Part(b, ToStructured, bytes)
    && u.deferredBytes == t.deferredBytes + Part(b, ToDeferred, bytes)
    && u.presentationBytes == t.presentationBytes + Part(b, ToPresentation, bytes) + Part(b, ToBlank, bytes)
    && u.unaccountedBytes == t.unaccountedBytes + Part(b, ToUnaccounted, bytes)
  }

  function HitBucket(common: Option<Rule>, custom: Option<Rule>): Bucket {
    if common.Some? then ToPresentation
    else
      match custom
      case None => ToUnaccounted
      case Some(rule) => if rule.notNeededYet then ToDeferred else ToPresentation
  }

  lemma BucketByHits(consumed: multiset<string>, segments: seq<string>, i: nat, common: seq<Rule>, custom: seq<Rule>)
    requires i < |segments|
    ensures BucketOf(consumed, segments, i, common, custom) ==
      if Key(segments[i]) == "" then ToBlank
      else if Key(segments[i]) in consumed - Lines(segments[..i]) then ToStructured
      else HitBucket(FirstHit(common, segments[i]), FirstHit(custom, segments[i]))
  {
    var _ := FirstHitIsFirst(common, segments[i]);
    var _ := FirstHitIsFirst(custom, segments[i]);
  }

  lemma SeenAdds(w: Walk, segment: string, common: seq<Rule>, custom: seq<Rule>, b: Bucket)
    requires b == if Key(segment) == "" then ToBlank else if Key(segment) in w.left then ToStructured
                  else HitBucket(FirstHit(common, segment), FirstHit(custom, segment))
    ensures Adds(w.t, Seen(w, segment, common, custom).t, b, Bytes(segment))
  {
  }

  lemma SeenNotes(w: Walk, segment: string, common: seq<Rule>, custom: seq<Rule>, b: Bucket)
    requires b == if Key(segment) == "" then ToBlank else if Key(segment) in w.left then ToStructured
                  else HitBucket(FirstHit(common, segment), FirstHit(custom, segment))
    ensures Seen(w, segment, common, custom).samples ==
      w.samples + if b == ToUnaccounted then multiset{Key(segment)} else multiset{}
    ensures Seen(w, segment, common, custom).reasons ==
      w.reasons + if b == ToDeferred then multiset{ReasonFor(custom, segment)} else multiset{}
  {
    if b == ToDeferred {
      ReasonOfTheFirst(custom, segment);
    }
  }

  lemma ReasonOfTheFirst(custom: seq<Rule>, segment: string)
    requires FirstHit(custom, segment).Some?
    ensures ReasonFor(custom, segment) == FirstHit(custom, segment).value.reason
  {
    var k := FirstHitIsFirst(custom, segment);
    assert FirstMatch(custom, segment, k);
  }

  lemma AddsKeepsFiled(t: Tally, u: Tally, consumed: multiset<string>, segments: seq<string>, n: nat,
                       common: seq<Rule>, custom: seq<Rule>)
    requires n < |segments| && FiledAs(t, consumed, segments, n, common, custom)
    requires Adds(t, u, BucketOf(consumed, segments, n, common, custom), Bytes(segments[n]))
    ensures FiledAs(u, consumed, segments, n + 1, common, custom)
  {
    FiledSnoc(consumed, segments, n, common, custom, ToStructured);
    FiledSnoc(consumed, segments, n, common, custom, ToDeferred);
    FiledSnoc(consumed, segments, n, common, custom, ToPresentation);
    FiledSnoc(consumed, segments, n, common, custom, ToUnaccounted);
  }

  /** The last of the first `n` lines is seen with what the ones before it left. */
  lemma LastSeen(w: Walk, segments: seq<string>, n: nat, common: seq<Rule>, custom: seq<Rule>)
    requires 0 < n <= |segments|
    ensures var before, last := Walked(w, segments[..n - 1], common, custom), segments[n - 1];
      && Walked(w, segments[..n], common, custom) == Seen(before, last, common, custom)
      && BucketOf(w.left, segments, n - 1, common, custom) ==
           if Key(last) == "" then ToBlank else if Key(last) in before.left then ToStructured
           else HitBucket(FirstHit(common, last), FirstHit(custom, last))
  {
    assert segments[..n - 1] + [segments[n - 1]] == segments[..n];
    WalkedSnoc(w, segments[..n - 1], segments[n - 1], common, custom);
    WalkClaims(w, segments[..n - 1], common, custom);
    BucketByHits(w.left, segments, n - 1, common, custom);
  }

  lemma StepFiles(w: Walk, segments: seq<string>, n: nat, common: seq<Rule>, custom: seq<Rule>)
    requires 0 < n <= |segments|
    requires FiledAs(Walked(w, segments[..n - 1], common, custom).t, w.left, segments, n - 1, common, custom)
    ensures FiledAs(Walked(w, segments[..n], common, custom).t, w.left, segments, n, common, custom)
  {
    var before, last := Walked(w, segments[..n - 1], common, custom), segments[n - 1];
    var b := BucketOf(w.left, segments, n - 1, common, custom);
    LastSeen(w, segments, n, common, custom);
    SeenAdds(before, last, common, custom, b);
    AddsKeepsFiled(before.t, Seen(before, last, common, custom).t, w.left, segments, n - 1, common, custom);
  }

  lemma {:induction false} WalkFiles(w: Walk, segments: seq<string>, n: nat, common: seq<Rule>, custom: seq<Rule>)
    requires n <= |segments| && w.t == NOTHING.(files := w.t.files, cases := w.t.cases, rawBytes := w.t.rawBytes)
    ensures FiledAs(Walked(w, segments[..n], common, custom).t, w.left, segments, n, common, custom)
  {
    if n == 0 {
      assert segments[..0] == [];
    } else {
      WalkFiles(w, segments, n - 1, common, custom);
      StepFiles(w, segments, n, common, custom);
    }
  }

  lemma {:induction false} WalkNotes(w: Walk, segments: seq<string>, n: nat, common: seq<Rule>, custom: seq<Rule>)
    requires n <= |segments| && w.samples == w.reasons == multiset{}
    ensures Walked(w, segments[..n], common, custom).samples == Unread(w.left, segments, n, common, custom)
    ensures Walked(w, segments[..n], common, custom).reasons == Reasons(w.left, segments, n, common, custom)
  {
    if n > 0 {
      var before := Walked(w, segments[..n - 1], common, custom);
      WalkNotes(w, segments, n - 1, common, custom);
      LastSeen(w, segments, n, common, custom);
      SeenNotes(before, segments[n - 1], common, custom, BucketOf(w.left, segments, n - 1, common, custom));
    }
  }

  lemma {:induction false} WalkKeepsCase(w: Walk, segments: seq<string>, common: seq<Rule>, custom: seq<Rule>)
    ensures var t := Walked(w, segments, common, custom).t;
      t.files == w.t.files && t.cases == w.t.cases && t.rawBytes == w.t.rawBytes
    decreases |segments|
  {
    if segments != [] {
      WalkKeepsCase(Seen(w, segments[0], common, custom), segments[1..], common, custom);
    }
  }

  /** For every text, each bucket of the final count holds exactly the lines that belong there,
      and their bytes; the presentation bytes are also those of the blank lines. The samples are
      the unread lines, and every line put off has its reason counted. */
  lemma EveryLineIsFiled(files: int, raw: string, consumed: seq<string>, common: seq<Rule>, custom: seq<Rule>,
                         unparsedRows: int)
    ensures var w, lines := CaseWalk(files, raw, consumed, common, custom), Segments(raw);
      && FiledAs(CaseTally(w, unparsedRows), Consumed(consumed), lines, |lines|, common, custom)
      && CaseTally(w, unparsedRows).unparsedRows == unparsedRows && CaseTally(w, unparsedRows).rawBytes == Bytes(raw)
      && CaseTally(w, unparsedRows).files == files && CaseTally(w, unparsedRows).cases == 1
      && w.samples == Unread(Consumed(consumed), lines, |lines|, common, custom)
      && w.reasons == Reasons(Consumed(consumed), lines, |lines|, common, custom)
  {
    var start := Walk(NOTHING.(files := files, cases := 1, rawBytes := Bytes(raw)), Consumed(consumed), multiset{},
                      multiset{}, multiset{});
    var lines := Segments(raw);
    WalkFiles(start, lines, |lines|, common, custom);
    WalkNotes(start, lines, |lines|, common, custom);
    WalkKeepsCase(start, lines, common, custom);
    assert lines[..|lines|] == lines;
    EveryCaseBalances(files, raw, consumed, common, custom, unparsedRows);
  }

  // ------------------------------------------------------------------
  // Accumulation
  // ------------------------------------------------------------------

  datatype Case = Case(parser: string, tally: Tally)

  function SumOf(cases: seq<Case>): Tally {
    if cases == [] then NOTHING else Plus(SumOf(cases[..|cases| - 1]), cases[|cases| - 1].tally)
  }

  function SumFor(cases: seq<Case>, parser: string): Tally {
    if cases == [] then NOTHING
    else
      var last, before := cases[|cases| - 1], SumFor(cases[..|cases| - 1], parser);
      if last.parser == parser then Plus(before, last.tally) else before
  }

  /** The totals of the first `n` of these parsers, added up. */
  function SumOver(names: seq<string>, n: nat, cases: seq<Case>): Tally
    requires n <= |names|
  {
    if n == 0 then NOTHING else Plus(SumOver(names, n - 1, cases), SumFor(cases, names[n - 1]))
  }

  /** The columns of a report. */
  datatype Column = Files | Cases | RawBytes | MeaningfulLines | StructuredBytes | StructuredLines | DeferredBytes
    | DeferredLines | PresentationBytes | PresentationLines | UnaccountedBytes | UnaccountedLines | UnparsedRows

  ghost function Cell(t: Tally, c: Column): int {
    match c
    case Files => t.files
    case Cases => t.cases
    case RawBytes => t.rawBytes
    case MeaningfulLines => t.meaningfulLines
    case StructuredBytes => t.structuredBytes
    case StructuredLines => t.structuredLines
    case DeferredBytes => t.deferredBytes
    case DeferredLines => t.deferredLines
    case PresentationBytes => t.presentationBytes
    case PresentationLines => t.presentationLines
    case UnaccountedBytes => t.unaccountedBytes
    case UnaccountedLines => t.unaccountedLines
    case UnparsedRows => t.unparsedRows
  }

  ghost function ColumnSum(cases: seq<Case>, c: Column): int {
    if cases == [] then 0 else ColumnSum(cases[..|cases| - 1], c) + Cell(cases[|cases| - 1].tally, c)
  }

  /** Each column of the total is the sum of that column. */
  lemma {:induction false} EveryColumnIsSummed(cases: seq<Case>, c: Column)
    ensures Cell(SumOf(cases), c) == ColumnSum(cases, c)
  {
    if cases != [] {
      EveryColumnIsSummed(cases[..|cases| - 1], c);
    }
  }

  lemma PlusShuffles(a: Tally, b: Tally, c: Tally)
    ensures Plus(Plus(a, b), c) == Plus(Plus(a, c), b)
    ensures Plus(Plus(a, b), c) == Plus(a, Plus(b, c))
  {
  }

  lemma SumForSnoc(cases: seq<Case>, one: Case, parser: string)
    ensures SumFor(cases + [one], parser) ==
      if one.parser == parser then Plus(SumFor(cases, parser), one.tally) else SumFor(cases, parser)
  {
    assert (cases + [one])[..|cases|] == cases;
  }

  lemma {:induction false} SumForAbsent(cases: seq<Case>, parser: string)
    requires forall c :: c in cases ==> c.parser != parser
    ensures SumFor(cases, parser) == NOTHING
  {
    if cases != [] {
      assert cases[|cases| - 1] in cases;
      SumForAbsent(cases[..|cases| - 1], parser);
    }
  }

  predicate DistinctNames(names: seq<string>) {
    forall i, j :: 0 <= i < j < |names| ==> names[i] != names[j]
  }

  lemma NameInPrefix(names: seq<string>, n: nat, name: string)
    requires DistinctNames(names) && 0 < n <= |names|
    ensures name in names[..n] <==> name in names[..n - 1] || name == names[n - 1]
    ensures name == names[n - 1] ==> name !in names[..n - 1]
  {
    assert names[..n] == names[..n - 1] + [names[n - 1]];
  }

  /** One more case adds its tally to exactly one parser's total. */
  lemma {:induction false} SumOverSnoc(names: seq<string>, n: nat, cases: seq<Case>, one: Case)
    requires DistinctNames(names) && n <= |names|
    ensures SumOver(names, n, cases + [one]) ==
      if one.parser in names[..n] then Plus(SumOver(names, n, cases), one.tally) else SumOver(names, n, cases)
  {
    if n > 0 {
      var last := names[n - 1];
      SumOverSnoc(names, n - 1, cases, one);
      SumForSnoc(cases, one, last);
      NameInPrefix(names, n, one.parser);
      PlusShuffles(SumOver(names, n - 1, cases), one.tally, SumFor(cases, last));
    }
  }

  lemma {:induction false} SumOverNothing(names: seq<string>, n: nat)
    requires n <= |names|
    ensures SumOver(names, n, []) == NOTHING
  {
    if n > 0 {
      SumOverNothing(names, n - 1);
    }
  }

  /** Adding up the parsers' totals gives the sum over all cases. */
  lemma {:induction false} ParsersAddUp(names: seq<string>, cases: seq<Case>)
    requires DistinctNames(names) && forall c :: c in cases ==> c.parser in names
    ensures SumOver(names, |names|, cases) == SumOf(cases)
  {
    if cases == [] {
      SumOverNothing(names, |names|);
    } else {
      var front, last := cases[..|cases| - 1], cases[|cases| - 1];
      assert cases == front + [last] && last in cases;
      assert names[..|names|] == names;
      ParsersAddUp(names, front);
      SumOverSnoc(names, |names|, front, last);
    }
  }

  lemma {:induction false} SumsBalance(cases: seq<Case>)
    requires forall c :: c in cases ==> Balanced(c.tally)
    ensures Balanced(SumOf(cases))
  {
    if cases != [] {
      assert cases[|cases| - 1] in cases;
      SumsBalance(cases[..|cases| - 1]);
    }
  }

  lemma TotalsBalance(names: seq<string>, cases: seq<Case>)
    requires DistinctNames(names) && CasesOf(names, cases)
    ensures SumOver(names, |names|, cases) == SumOf(cases) && Balanced(SumOf(cases))
  {
    ParsersAddUp(names, cases);
    SumsBalance(cases);
  }

  method CountConsumed(lines: seq<string>) returns (counter: multiset<string>)
    ensures counter == Consumed(lines)
  {
    counter := multiset{};
    for i := 0 to |lines|
      invariant counter == Consumed(lines[..i])
    {
      assert lines[..i + 1][..i] == lines[..i];
      counter := counter + multiset{Strip(lines[i])};
    }
    assert lines[..|lines|] == lines;
  }

  lemma ClaimedIsAside(w: Walk, segment: string, common: seq<Rule>, custom: seq<Rule>)
    ensures Seen(w, segment, common, custom) ==
      Seen(w.(claimed := multiset{}), segment, common, custom).(claimed := Seen(w, segment, common, custom).claimed)
  {
  }

  lemma WalkOn(w: Walk, segments: seq<string>, i: nat, common: seq<Rule>, custom: seq<Rule>)
    requires i < |segments|
    ensures Walked(w, segments[i..], common, custom) ==
      Walked(Seen(w, segments[i], common, custom), segments[i + 1..], common, custom)
  {
    assert segments[i..][1..] == segments[i + 1..];
  }

  /** Walks the lines of one text and puts each in its bucket. */
  method Allocate(files: int, raw: string, consumedLines: seq<string>, common: seq<Rule>, custom: seq<Rule>)
    returns (t: Tally, left: multiset<string>, reasons: multiset<string>, samples: multiset<string>)
    ensures var w := CaseWalk(files, raw, consumedLines, common, custom);
      t == w.t && left == w.left && reasons == w.reasons && samples == w.samples
  {
    left := CountConsumed(consumedLines);
    t := NOTHING.(files := files, cases := 1, rawBytes := Bytes(raw));
    reasons, samples := multiset{}, multiset{};
    var segments := Segments(raw);
    ghost var w := Walk(t, left, multiset{}, reasons, samples);
    for i := 0 to |segments|
      invariant Walked(w, segments[i..], common, custom) == CaseWalk(files, raw, consumedLines, common, custom)
      invariant t == w.t && left == w.left && reasons == w.reasons && samples == w.samples
    {
      WalkOn(w, segments, i, common, custom);
      ClaimedIsAside(w, segments[i], common, custom);
      t, left, reasons, samples := Place(t, left, reasons, samples, segments[i], common, custom);
      w := Seen(w, segments[i], common, custom);
    }
  }

  /** The body of that loop. */
  method Place(t: Tally, left: multiset<string>, reasons: multiset<string>, samples: multiset<string>,
               segment: string, common: seq<Rule>, custom: seq<Rule>)
    returns (t': Tally, left': multiset<string>, reasons': multiset<string>, samples': multiset<string>)
    ensures var s := Seen(Walk(t, left, multiset{}, reasons, samples), segment, common, custom);
      t' == s.t && left' == s.left && reasons' == s.reasons && samples' == s.samples
  {
    t', left', reasons', samples' := t, left, reasons, samples;
    var bytes, key := Bytes(segment), Key(segment);
    if key == "" {
      t' := t'.(presentationBytes := t'.presentationBytes + bytes);
      return;
    }
    t' := t'.(meaningfulLines := t'.meaningfulLines + 1);
    if left[key] > 0 {
      left' := left[key := left[key] - 1];
      t' := Structured(t', bytes);
      return;
    }
    if FirstHit(common, segment).Some? {
      t' := Presented(t', bytes);
      return;
    }
    var matched := FirstHit(custom, segment);
    if matched.None? {
      t' := Unaccounted(t', bytes);
      samples' := samples + multiset{key};
    } else if matched.value.notNeededYet {
      t' := Deferred(t', bytes);
      reasons' := reasons + multiset{matched.value.reason};
    } else {
      t' := Presented(t', bytes);
    }
  }

  /** The finalized cases belong to these parsers and each is balanced. */
  predicate CasesOf(names: seq<string>, cases: seq<Case>) {
    forall c :: c in cases ==> c.parser in names && Balanced(c.tally)
  }

  lemma CasesSnoc(names: seq<string>, cases: seq<Case>, one: Case)
    requires CasesOf(names, cases) && one.parser in names && Balanced(one.tally)
    ensures CasesOf(names, cases + [one])
  {
  }

  lemma AbsentParser(names: seq<string>, cases: seq<Case>, name: string)
    requires CasesOf(names, cases) && name !in names
    ensures SumFor(cases, name) == NOTHING && CasesOf(names + [name], cases)
  {
    SumForAbsent(cases, name);
  }

  function SlotOf(names: seq<string>, name: string): (r: nat)
    ensures r <= |names| && (r < |names| ==> names[r] == name)
    ensures r == |names| ==> name !in names
  {
    if names == [] || names[0] == name then 0 else 1 + SlotOf(names[1..], name)
  }

  class Counts {
    var tally: Tally

    constructor ()
      ensures tally == NOTHING
    {
      tally := NOTHING;
    }

    /** Adds another counter in place; a counter added to itself doubles. */
    method Add(other: Counts)
      modifies this`tally
      ensures tally == Plus(old(tally), old(other.tally))
    {
      tally := Plus(tally, other.tally);
    }
  }

  /** The counter of one case, corrected at the end by nothing. */
  method CountCase(files: int, raw: string, consumed: seq<string>, common: seq<Rule>, custom: seq<Rule>,
                   unparsedRows: int)
    returns (counts: Counts, reasons: multiset<string>, samples: multiset<string>)
    ensures fresh(counts) && Balanced(counts.tally)
    ensures counts.tally == CaseTally(CaseWalk(files, raw, consumed, common, custom), unparsedRows)
    ensures reasons == CaseWalk(files, raw, consumed, common, custom).reasons
    ensures samples == CaseWalk(files, raw, consumed, common, custom).samples
  {
    var t, left;
    t, left, reasons, samples := Allocate(files, raw, consumed, common, custom);
    EveryCaseBalances(files, raw, consumed, common, custom, unparsedRows);
    counts := new Counts();
    counts.tally := t.(presentationBytes := t.presentationBytes + (t.rawBytes - AllocatedBytes(t)),
                       unparsedRows := unparsedRows);
  }

  function SumTallies(tallies: seq<Tally>, n: nat): Tally
    requires n <= |tallies|
  {
    if n == 0 then NOTHING else Plus(SumTallies(tallies, n - 1), tallies[n - 1])
  }

  lemma {:induction false} SumOverIsSumTallies(names: seq<string>, n: nat, cases: seq<Case>, tallies: seq<Tally>)
    requires n <= |names| == |tallies| && forall i :: 0 <= i < |tallies| ==> tallies[i] == SumFor(cases, names[i])
    ensures SumTallies(tallies, n) == SumOver(names, n, cases)
  {
    if n > 0 {
      SumOverIsSumTallies(names, n - 1, cases, tallies);
    }
  }

  method AddUp(counters: seq<Counts>, ghost tallies: seq<Tally>) returns (total: Counts)
    requires |counters| == |tallies| && forall i :: 0 <= i < |counters| ==> counters[i].tally == tallies[i]
    ensures fresh(total) && total.tally == SumTallies(tallies, |tallies|)
  {
    total := new Counts();
    for i := 0 to |counters|
      invariant fresh(total)
      invariant total.tally == SumTallies(tallies, i)
    {
      ghost var before := total.tally;
      total.Add(counters[i]);
      assert total.tally == Plus(before, tallies[i]);
    }
  }

  class Auditor {
    var currentName: string
    var currentFiles: int
    /** A dictionary: its keys in insertion order, and the counter of each. */
    var names: seq<string>
    var counters: seq<Counts>
    var deferredReasons: multiset<string>
    var unaccountedSamples: multiset<string>
    var finalizeCalls: int
    /** Every case finalized so far. */
    ghost var cases: seq<Case>

    ghost predicate Valid()
      reads this, counters
    {
      && DistinctNames(names) && |counters| == |names|
      && (forall i, j :: 0 <= i < j < |counters| ==> counters[i] != counters[j])
      && (forall i :: 0 <= i < |counters| ==> counters[i].tally == SumFor(cases, names[i]))
      && CasesOf(names, cases)
    }

    constructor ()
      ensures Valid() && cases == [] && names == []
    {
      currentName, currentFiles := "", 0;
      names, counters := [], [];
      deferredReasons, unaccountedSamples, finalizeCalls := multiset{}, multiset{}, 0;
      cases := [];
    }

    /** The current parser's counter, created on first use. */
    method Counter() returns (k: nat)
      requires Valid()
      modifies this`names, this`counters
      ensures Valid() && k < |names| && names[k] == currentName
      ensures fresh(set c | c in counters && c !in old(counters))
    {
      k := SlotOf(names, currentName);
      if k == |names| {
        var zero := new Counts();
        AbsentParser(names, cases, currentName);
        names, counters := names + [currentName], counters + [zero];
      }
    }

    /** Adds one case to the current parser's counter. */
    method Charge(counts: Counts)
      requires Valid() && counts !in counters && Balanced(counts.tally)
      modifies this`names, this`counters, this`cases, counters
      ensures Valid() && cases == old(cases) + [Case(currentName, old(counts.tally))]
    {
      var k := Counter();
      ghost var one := Case(currentName, counts.tally);
      assert forall i :: 0 <= i < |counters| && i != k ==> counters[i] != counters[k];
      counters[k].Add(counts);
      cases := cases + [one];
      CasesSnoc(names, old(cases), one);
      forall i | 0 <= i < |counters| ensures counters[i].tally == SumFor(cases, names[i]) {
        SumForSnoc(old(cases), one, names[i]);
      }
    }

    method Finalize(raw: string, consumed: seq<string>, common: seq<Rule>, custom: seq<Rule>, unparsedRows: int)
      requires Valid()
      modifies this, counters
      ensures Valid()
      ensures currentName == old(currentName) && currentFiles == old(currentFiles)
      ensures finalizeCalls == old(finalizeCalls) + 1
      ensures var w := CaseWalk(currentFiles, raw, consumed, common, custom);
        && cases == old(cases) + [Case(currentName, CaseTally(w, unparsedRows))]
        && deferredReasons == old(deferredReasons) + w.reasons
        && unaccountedSamples == old(unaccountedSamples) + w.samples
    {
      var counts, reasons, samples := CountCase(currentFiles, raw, consumed, common, custom, unparsedRows);
      Charge(counts);
      deferredReasons := deferredReasons + reasons;
      unaccountedSamples := unaccountedSamples + samples;
      finalizeCalls := finalizeCalls + 1;
    }

    /** The report's total: the sum over every case ever finalized, and balanced. */
    method Total() returns (total: Counts)
      requires Valid()
      ensures fresh(total) && total.tally == SumOf(cases) && Balanced(total.tally)
    {
      ghost var tallies := seq(|names|, i requires 0 <= i < |names| reads this => SumFor(cases, names[i]));
      total := AddUp(counters, tallies);
      SumOverIsSumTallies(names, |names|, cases, tallies);
      TotalsBalance(names, cases);
    }
  }
}
