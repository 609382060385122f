/** The bounded tool-calling loop. The model's replies, the tools' executions and the
    clock's readings are arbitrary inputs, numbered in the order in which the loop asks
    for them. */
module AgentLoop {
  import opened Common

  datatype Request = Request(id: string, name: string, input: string)

  datatype Block = Text(text: string) | ToolUse(request: Request)

  datatype Usage = Usage(input: Option<int>, output: Option<int>, cacheRead: Option<int>, cacheCreation: Option<int>)

  datatype StopReason = EndTurn | MaxTokens | PauseTurn | ToolUseStop | Refusal | OtherStop(name: string)

  datatype Message = Message(stop: StopReason, content: seq<Block>, usage: Usage)

  datatype Reply = Reply(message: Message) | CallFailed

  /** What executing a tool came to: an envelope, or an exception. */
  datatype Execution = Returned(content: string, isError: bool) | Raised(content: string)

  datatype Env = Env(reply: nat -> Reply, tool: (nat, nat) -> Execution, clock: nat -> real)

  datatype ResultBlock = ResultBlock(toolUseId: string, content: string, isError: bool)
  datatype CallEntry = CallEntry(tool: string, input: string, isError: bool, skipped: bool)

  datatype Chat = Question(text: string) | Assistant(content: seq<Block>) | Results(blocks: seq<ResultBlock>)

  datatype Totals = Totals(input: int, output: int, cacheRead: int, cacheCreation: int)

  datatype Exchange = Exchange(iteration: nat, text: string, stop: StopReason, usage: Totals, requested: seq<Request>)

  datatype Stopped = Ended | HitMaxIterations | HitTimeBudget | Truncated | UnknownStop(name: string)

  /** What the loop accumulates as it goes. */
  datatype Log = Log(messages: seq<Chat>, toolCalls: seq<CallEntry>, exchanges: seq<Exchange>, usage: Totals,
                     final: Option<Message>)

  datatype Result = Result(
    answer: string, iterations: nat, stopped: Stopped, complete: bool, elapsed: real, overranBudget: bool, log: Log)

  /** `calls` is how many turns came before the failing one. */
  datatype Outcome = Failed(calls: nat) | Done(result: Result)

  const NOTICE := "\n\n[Analysis truncated: the model hit the output token limit. "
    + "Treat the sections above as incomplete.]"
  const NOT_STARTED := "not started: time budget exhausted"
  const ZERO := Totals(0, 0, 0, 0)

  function ExtractText(content: seq<Block>): string {
    if content == [] then ""
    else
      var last, before := content[|content| - 1], ExtractText(content[..|content| - 1]);
      if last.Text? && last.text != "" then (if before == "" then last.text else before + "\n" + last.text)
      else before
  }

  function ToolUses(content: seq<Block>): seq<Request> {
    if content == [] then []
    else
      var last := content[|content| - 1];
      ToolUses(content[..|content| - 1]) + (if last.ToolUse? then [last.request] else [])
  }

  function OrZero(n: Option<int>): int {
    if n.Some? then n.value else 0
  }

  /** Totals after one more message. */
  function Accumulate(t: Totals, u: Usage): Totals {
    Totals(t.input + OrZero(u.input), t.output + OrZero(u.output),
           t.cacheRead + OrZero(u.cacheRead), t.cacheCreation + OrZero(u.cacheCreation))
  }

  function Delta(before: Totals, after: Totals): Totals {
    Totals(after.input - before.input, after.output - before.output,
           after.cacheRead - before.cacheRead, after.cacheCreation - before.cacheCreation)
  }

  function Add(a: Totals, b: Totals): Totals {
    Totals(a.input + b.input, a.output + b.output, a.cacheRead + b.cacheRead, a.cacheCreation + b.cacheCreation)
  }

  function RanResult(block: Request, e: Execution): (CallEntry, ResultBlock) {
    var isError := e.Raised? || e.isError;
    (CallEntry(block.name, block.input, isError, false), ResultBlock(block.id, e.content, isError))
  }

  function SkippedResult(block: Request): (CallEntry, ResultBlock) {
    (CallEntry(block.name, block.input, true, true), ResultBlock(block.id, NOT_STARTED, true))
  }

  // ------------------------------------------------------------------
  // What the inputs determine
  // ------------------------------------------------------------------

  function Stop(env: Env, turn: nat): StopReason {
    if env.reply(turn).Reply? then env.reply(turn).message.stop else Refusal
  }

  function Content(env: Env, turn: nat): seq<Block> {
    if env.reply(turn).Reply? then env.reply(turn).message.content else []
  }

  function Batch(env: Env, turn: nat): seq<Request> {
    if Stop(env, turn).ToolUseStop? then ToolUses(Content(env, turn)) else []
  }

  /** How many clock readings precede the check at the start of a turn. */
  function Reads(env: Env, turn: nat): nat {
    if turn == 0 then 1 else Reads(env, turn - 1) + 1 + |Batch(env, turn - 1)|
  }

  function Deadline(env: Env, budget: real): real {
    env.clock(0) + budget
  }

  /** The block was turned away: the deadline had passed when its turn to start came. */
  predicate Skips(env: Env, budget: real, turn: nat, block: nat) {
    env.clock(Reads(env, turn) + 1 + block) >= Deadline(env, budget)
  }

  function Ran(env: Env, budget: real, turn: nat, block: nat): (CallEntry, ResultBlock)
    requires block < |Batch(env, turn)|
  {
    var b := Batch(env, turn)[block];
    if Skips(env, budget, turn, block) then SkippedResult(b) else RanResult(b, env.tool(turn, block))
  }

  /** The results of the first `count` blocks of a turn, in block order. */
  function ResultsOf(env: Env, budget: real, turn: nat, count: nat): (r: seq<ResultBlock>)
    requires count <= |Batch(env, turn)|
    ensures |r| == count
  {
    if count == 0 then [] else ResultsOf(env, budget, turn, count - 1) + [Ran(env, budget, turn, count - 1).1]
  }

  function CallsOf(env: Env, budget: real, turn: nat, count: nat): (r: seq<CallEntry>)
    requires count <= |Batch(env, turn)|
    ensures |r| == count
  {
    if count == 0 then [] else CallsOf(env, budget, turn, count - 1) + [Ran(env, budget, turn, count - 1).0]
  }

  function BatchResults(env: Env, budget: real, turn: nat): seq<ResultBlock> {
    ResultsOf(env, budget, turn, |Batch(env, turn)|)
  }

  function BatchCalls(env: Env, budget: real, turn: nat): seq<CallEntry> {
    CallsOf(env, budget, turn, |Batch(env, turn)|)
  }

  /** What a turn adds to the conversation. */
  function TurnMessages(env: Env, budget: real, turn: nat): seq<Chat> {
    match Stop(env, turn)
    case PauseTurn => [Assistant(Content(env, turn))]
    case ToolUseStop => [Assistant(Content(env, turn)), Results(BatchResults(env, budget, turn))]
    case _ => []
  }

  function Transcript(env: Env, budget: real, question: string, turns: nat): seq<Chat> {
    if turns == 0 then [Question(question)]
    else Transcript(env, budget, question, turns - 1) + TurnMessages(env, budget, turns - 1)
  }

  function Calls(env: Env, budget: real, turns: nat): seq<CallEntry> {
    if turns == 0 then [] else Calls(env, budget, turns - 1) + BatchCalls(env, budget, turns - 1)
  }

  function UsageAfter(env: Env, turns: nat): Totals {
    if turns == 0 then ZERO
    else
      var before := UsageAfter(env, turns - 1);
      if env.reply(turns - 1).Reply? then Accumulate(before, env.reply(turns - 1).message.usage) else before
  }

  function ExchangeOf(env: Env, turn: nat): Exchange {
    Exchange(turn + 1, ExtractText(Content(env, turn)), Stop(env, turn),
             Delta(UsageAfter(env, turn), UsageAfter(env, turn + 1)), Batch(env, turn))
  }

  function Exchanges(env: Env, turns: nat): (r: seq<Exchange>)
    ensures |r| == turns
  {
    if turns == 0 then [] else Exchanges(env, turns - 1) + [ExchangeOf(env, turns - 1)]
  }

  /** The turn is taken: there is an iteration left and the deadline has not passed. */
  predicate Admitted(env: Env, maxIterations: int, budget: real, turn: nat) {
    turn < maxIterations && env.clock(Reads(env, turn)) < Deadline(env, budget)
  }

  predicate Proceeds(env: Env, maxIterations: int, budget: real, turn: nat) {
    Admitted(env, maxIterations, budget, turn) && (Stop(env, turn).PauseTurn? || Stop(env, turn).ToolUseStop?)
  }

  /** The first `turns` turns were all admitted and all asked for another one. */
  predicate KeepsGoing(env: Env, maxIterations: int, budget: real, turns: nat) {
    forall i: nat :: i < turns ==> Proceeds(env, maxIterations, budget, i)
  }

  /** The run makes exactly `turns` model calls and stops for this reason. */
  predicate StopsAfter(env: Env, maxIterations: int, budget: real, turns: nat, stopped: Stopped) {
    match stopped
    case HitMaxIterations => KeepsGoing(env, maxIterations, budget, turns) && turns >= maxIterations
    case HitTimeBudget =>
      && KeepsGoing(env, maxIterations, budget, turns)
      && turns < maxIterations && env.clock(Reads(env, turns)) >= Deadline(env, budget)
    case _ =>
      && turns > 0 && KeepsGoing(env, maxIterations, budget, turns - 1)
      && Admitted(env, maxIterations, budget, turns - 1) && env.reply(turns - 1).Reply?
      && match Stop(env, turns - 1)
         case EndTurn => stopped == Ended
         case MaxTokens => stopped == Truncated
         case OtherStop(name) => stopped == UnknownStop(name)
         case _ => false
  }

  /** The call after `turns` continuing turns failed, or the model refused. */
  predicate FailsAfter(env: Env, maxIterations: int, budget: real, turns: nat) {
    && KeepsGoing(env, maxIterations, budget, turns)
    && Admitted(env, maxIterations, budget, turns)
    && Stop(env, turns).Refusal?
  }

  /** The last message received; the source's `final_message`. */
  function FinalMessage(env: Env, turns: nat): Option<Message> {
    if turns > 0 && env.reply(turns - 1).Reply? then Some(env.reply(turns - 1).message) else None
  }

  function AnswerOf(final: Option<Message>, stopped: Stopped): string {
    if final.None? then "" else ExtractText(final.value.content) + (if stopped.Truncated? then NOTICE else "")
  }

  /** The number of clock readings before the last one, which only measures the run. */
  function LastTick(env: Env, turns: nat, stopped: Stopped): nat {
    Reads(env, turns) + (if stopped.HitTimeBudget? then 1 else 0)
  }

  // ------------------------------------------------------------------
  // The loop
  // ------------------------------------------------------------------

  method SelectToolUses(content: seq<Block>) returns (blocks: seq<Request>)
    ensures blocks == ToolUses(content)
  {
    blocks := [];
    for i := 0 to |content|
      invariant blocks == ToolUses(content[..i])
    {
      assert content[..i + 1][..i] == content[..i];
      if content[i].ToolUse? {
        blocks := blocks + [content[i].request];
      }
    }
    assert content[..|content|] == content;
  }

  /** Decides per block, in block order, whether it still starts. */
  method SubmitBatch(env: Env, budget: real, turn: nat, count: nat, tick: nat) returns (started: seq<bool>)
    requires tick == Reads(env, turn) + 1
    ensures |started| == count
    ensures forall k :: 0 <= k < count ==> (started[k] <==> !Skips(env, budget, turn, k))
  {
    var deadline := Deadline(env, budget);
    started := [];
    for j := 0 to count
      invariant |started| == j
      invariant forall k :: 0 <= k < j ==> (started[k] <==> !Skips(env, budget, turn, k))
    {
      started := started + [env.clock(tick + j) < deadline];
    }
  }

  /** Collects the results in the order in which the blocks were submitted. */
  method CollectBatch(env: Env, budget: real, turn: nat, blocks: seq<Request>, started: seq<bool>)
    returns (calls: seq<CallEntry>, results: seq<ResultBlock>)
    requires blocks == Batch(env, turn) && |started| == |blocks|
    requires forall k :: 0 <= k < |blocks| ==> (started[k] <==> !Skips(env, budget, turn, k))
    ensures calls == BatchCalls(env, budget, turn)
    ensures results == BatchResults(env, budget, turn)
  {
    calls, results := [], [];
    for j := 0 to |blocks|
      invariant calls == CallsOf(env, budget, turn, j)
      invariant results == ResultsOf(env, budget, turn, j)
    {
      var pair := if started[j] then RanResult(blocks[j], env.tool(turn, j)) else SkippedResult(blocks[j]);
      calls := calls + [pair.0];
      results := results + [pair.1];
    }
  }

  /** What the loop does after a reply with this stop reason. */
  datatype Next = GoOn | Refuse | StopWith(stopped: Stopped)

  function NextAfter(stop: StopReason): Next {
    match stop
    case PauseTurn => GoOn
    case ToolUseStop => GoOn
    case Refusal => Refuse
    case MaxTokens => StopWith(Truncated)
    case EndTurn => StopWith(Ended)
    case OtherStop(name) => StopWith(UnknownStop(name))
  }

  /** Acts on one reply: what it requested, what it adds to the conversation and to the
      audit list, and whether the loop goes on. */
  method HandleReply(env: Env, budget: real, turn: nat, message: Message, tick: nat)
    returns (next: Next, blocks: seq<Request>, added: seq<Chat>, calls: seq<CallEntry>)
    requires env.reply(turn) == Reply(message) && tick == Reads(env, turn) + 1
    ensures next == NextAfter(Stop(env, turn))
    ensures blocks == Batch(env, turn)
    ensures added == TurnMessages(env, budget, turn)
    ensures calls == BatchCalls(env, budget, turn)
  {
    blocks, added, calls := [], [], [];
    match message.stop
    case Refusal =>
      next := Refuse;
    case MaxTokens =>
      next := StopWith(Truncated);
    case PauseTurn =>
      added := [Assistant(message.content)];
      next := GoOn;
    case ToolUseStop =>
      blocks := SelectToolUses(message.content);
      var started := SubmitBatch(env, budget, turn, |blocks|, tick);
      var results;
      calls, results := CollectBatch(env, budget, turn, blocks, started);
      added := [Assistant(message.content), Results(results)];
      next := GoOn;
    case EndTurn =>
      next := StopWith(Ended);
    case OtherStop(name) =>
      next := StopWith(UnknownStop(name));
  }

  /** How far the run has come when `next` is what the loop does after `turns` calls. */
  predicate Reached(env: Env, maxIterations: int, budget: real, turns: nat, next: Next) {
    match next
    case GoOn => KeepsGoing(env, maxIterations, budget, turns)
    case Refuse => turns > 0 && FailsAfter(env, maxIterations, budget, turns - 1)
    case StopWith(stopped) => StopsAfter(env, maxIterations, budget, turns, stopped)
  }

  lemma TurnDecides(env: Env, maxIterations: int, budget: real, turn: nat)
    requires KeepsGoing(env, maxIterations, budget, turn) && Admitted(env, maxIterations, budget, turn)
    requires env.reply(turn).Reply?
    ensures Reached(env, maxIterations, budget, turn + 1, NextAfter(Stop(env, turn)))
    ensures NextAfter(Stop(env, turn)) != StopWith(HitTimeBudget)
  {
  }

  /** Everything the loop accumulates, after this many turns. */
  function Recorded(env: Env, budget: real, question: string, turns: nat): Log {
    Log(Transcript(env, budget, question, turns), Calls(env, budget, turns), Exchanges(env, turns),
        UsageAfter(env, turns), FinalMessage(env, turns))
  }

  /** Records one reply and acts on it. */
  method TakeTurn(env: Env, budget: real, ghost question: string, turn: nat, message: Message, log: Log, tick: nat)
    returns (next: Next, after: Log, tickAfter: nat)
    requires env.reply(turn) == Reply(message) && tick == Reads(env, turn) + 1
    requires log == Recorded(env, budget, question, turn)
    ensures next == NextAfter(Stop(env, turn))
    ensures after == Recorded(env, budget, question, turn + 1)
    ensures tickAfter == Reads(env, turn + 1)
  {
    var usage := Accumulate(log.usage, message.usage);
    var blocks, added, calls;
    next, blocks, added, calls := HandleReply(env, budget, turn, message, tick);
    var exchange := Exchange(turn + 1, ExtractText(message.content), message.stop, Delta(log.usage, usage), blocks);
    assert exchange == ExchangeOf(env, turn);
    after := Log(log.messages + added, log.toolCalls + calls, log.exchanges + [exchange], usage, Some(message));
    tickAfter := tick + |blocks|;
  }

  method RunTurns(env: Env, question: string, maxIterations: int, budget: real)
    returns (next: Next, iteration: nat, log: Log, tick: nat)
    ensures !next.GoOn? && Reached(env, maxIterations, budget, iteration, next)
    ensures next.StopWith? ==>
      && log == Recorded(env, budget, question, iteration)
      && tick == LastTick(env, iteration, next.stopped)
  {
    var deadline := Deadline(env, budget);
    next, iteration, tick := GoOn, 0, 1;
    log := Log([Question(question)], [], [], ZERO, None);
    while next.GoOn?
      invariant Reached(env, maxIterations, budget, iteration, next)
      invariant !next.Refuse? ==> log == Recorded(env, budget, question, iteration)
      invariant !next.Refuse? ==> tick == Reads(env, iteration) + (if next == StopWith(HitTimeBudget) then 1 else 0)
      decreases next.GoOn?, maxIterations - iteration
    {
      if iteration >= maxIterations {
        next := StopWith(HitMaxIterations);
      } else {
        var now := env.clock(tick);
        tick := tick + 1;
        if now >= deadline {
          next := StopWith(HitTimeBudget);
        } else {
          var turn := iteration;
          iteration := iteration + 1;
          var reply := env.reply(turn);
          if reply.CallFailed? {
            next := Refuse;
          } else {
            next, log, tick := TakeTurn(env, budget, question, turn, reply.message, log, tick);
            TurnDecides(env, maxIterations, budget, turn);
          }
        }
      }
    }
  }

  method RunAgentLoop(env: Env, question: string, maxIterations: int, budget: real) returns (outcome: Outcome)
    ensures outcome.Failed? ==> FailsAfter(env, maxIterations, budget, outcome.calls)
    ensures outcome.Done? ==> var r := outcome.result;
      && StopsAfter(env, maxIterations, budget, r.iterations, r.stopped)
      && r.complete == r.stopped.Ended?
      && r.log == Recorded(env, budget, question, r.iterations)
      && (r.iterations == 0 ==> r.answer == "")
      && (r.iterations > 0 ==>
            r.answer == ExtractText(Content(env, r.iterations - 1)) + (if r.stopped.Truncated? then NOTICE else ""))
      && r.elapsed == env.clock(LastTick(env, r.iterations, r.stopped)) - env.clock(0)
      && r.overranBudget == (r.elapsed > budget)
  {
    var start := env.clock(0);
    var next, iteration, log, tick := RunTurns(env, question, maxIterations, budget);
    if next.Refuse? {
      return Failed(iteration - 1);
    }
    var stopped := next.stopped;
    if iteration > 0 {
      TurnsBeforeTheEnd(env, maxIterations, budget, iteration, stopped);
    }
    var answer := AnswerOf(log.final, stopped);
    var elapsed := env.clock(tick) - start;
    outcome := Done(Result(answer, iteration, stopped, stopped == Ended, elapsed, elapsed > budget, log));
  }

  // ------------------------------------------------------------------
  // What follows for every run
  // ------------------------------------------------------------------

  /** The run's last model call, if it made one, was admitted, and the ones before it
      all asked for another. */
  lemma TurnsBeforeTheEnd(env: Env, maxIterations: int, budget: real, turns: nat, stopped: Stopped)
    requires StopsAfter(env, maxIterations, budget, turns, stopped) && turns > 0
    ensures KeepsGoing(env, maxIterations, budget, turns - 1) && Admitted(env, maxIterations, budget, turns - 1)
    ensures stopped.HitMaxIterations? || stopped.HitTimeBudget? <==> Proceeds(env, maxIterations, budget, turns - 1)
  {
    if stopped.HitMaxIterations? || stopped.HitTimeBudget? {
      assert Proceeds(env, maxIterations, budget, turns - 1);
    }
  }

  lemma NoEarlierEnd(env: Env, maxIterations: int, budget: real, turns: nat, stopped: Stopped, n: nat)
    requires StopsAfter(env, maxIterations, budget, turns, stopped) && n < turns
    ensures Admitted(env, maxIterations, budget, n)
    ensures n > 0 ==> Proceeds(env, maxIterations, budget, n - 1)
    ensures n < turns - 1 ==> Proceeds(env, maxIterations, budget, n)
  {
    TurnsBeforeTheEnd(env, maxIterations, budget, turns, stopped);
    assert n < turns - 1 ==> Proceeds(env, maxIterations, budget, n);
  }

  /** The inputs settle how the run ends: the number of model calls and the reason are
      unique. */
  lemma EndIsUnique(env: Env, maxIterations: int, budget: real, m: nat, stopped: Stopped, n: nat, other: Stopped)
    requires StopsAfter(env, maxIterations, budget, m, stopped)
    requires StopsAfter(env, maxIterations, budget, n, other)
    ensures m == n && stopped == other
  {
    if n < m {
      NoEarlierEnd(env, maxIterations, budget, m, stopped, n);
    } else if m < n {
      NoEarlierEnd(env, maxIterations, budget, n, other, m);
    } else if m > 0 {
      TurnsBeforeTheEnd(env, maxIterations, budget, m, stopped);
      TurnsBeforeTheEnd(env, maxIterations, budget, n, other);
    }
  }

  /** No inputs let the run both stop and fail. */
  lemma StoppingRunsDoNotFail(env: Env, maxIterations: int, budget: real, m: nat, stopped: Stopped, n: nat)
    requires StopsAfter(env, maxIterations, budget, m, stopped)
    ensures !FailsAfter(env, maxIterations, budget, n)
  {
    if n < m {
      NoEarlierEnd(env, maxIterations, budget, m, stopped, n);
      TurnsBeforeTheEnd(env, maxIterations, budget, m, stopped);
    } else if KeepsGoing(env, maxIterations, budget, n) {
      assert m < n ==> Proceeds(env, maxIterations, budget, m);
      assert m > 0 ==> Proceeds(env, maxIterations, budget, m - 1);
    }
  }

  /** Never more model calls than allowed, and none once the time is up; and the reason
      for stopping says what the last reply, or the bound, was. A run is complete exactly
      when the last reply ended its turn. */
  lemma BoundedAndCompleteOnlyAtEnd(env: Env, maxIterations: int, budget: real, turns: nat, stopped: Stopped)
    requires StopsAfter(env, maxIterations, budget, turns, stopped)
    ensures turns <= (if maxIterations > 0 then maxIterations else 0)
    ensures forall i: nat :: i < turns ==> env.clock(Reads(env, i)) - env.clock(0) < budget
    ensures stopped.Ended? <==> turns > 0 && env.reply(turns - 1).Reply? && Stop(env, turns - 1).EndTurn?
    ensures stopped.Truncated? <==> turns > 0 && env.reply(turns - 1).Reply? && Stop(env, turns - 1).MaxTokens?
    ensures stopped.UnknownStop? <==> turns > 0 && env.reply(turns - 1).Reply? && Stop(env, turns - 1).OtherStop?
    ensures stopped.UnknownStop? ==> Stop(env, turns - 1).name == stopped.name
    ensures stopped.HitMaxIterations? <==> turns >= maxIterations && (turns > 0 ==> AsksForMore(env, turns - 1))
    ensures stopped.HitTimeBudget? <==> turns < maxIterations && (turns > 0 ==> AsksForMore(env, turns - 1))
    ensures stopped.HitTimeBudget? ==> env.clock(Reads(env, turns)) - env.clock(0) >= budget
  {
    if turns > 0 {
      TurnsBeforeTheEnd(env, maxIterations, budget, turns, stopped);
    }
    forall i: nat | i < turns ensures env.clock(Reads(env, i)) - env.clock(0) < budget {
      NoEarlierEnd(env, maxIterations, budget, turns, stopped, i);
    }
  }

  /** The reply pauses its turn or uses tools. */
  predicate AsksForMore(env: Env, turn: nat) {
    env.reply(turn).Reply? && (env.reply(turn).message.stop.PauseTurn? || env.reply(turn).message.stop.ToolUseStop?)
  }

  lemma {:induction false} ExtractTextJoins(a: seq<Block>, b: seq<Block>)
    ensures ExtractText(a + b) ==
      if ExtractText(a) == "" then ExtractText(b)
      else if ExtractText(b) == "" then ExtractText(a)
      else ExtractText(a) + "\n" + ExtractText(b)
  {
    if b == [] {
      assert a + b == a;
    } else {
      var n := |b| - 1;
      assert (a + b)[..|a + b| - 1] == a + b[..n];
      ExtractTextJoins(a, b[..n]);
    }
  }

  /** The text of a reply is its non-empty texts with line breaks between: it is the block's
      own for one block, and joined for more. */
  lemma TextOfAReply(block: Block, rest: seq<Block>)
    ensures ExtractText([]) == ""
    ensures block.Text? ==> ExtractText([block]) == block.text
    ensures block.ToolUse? ==> ExtractText([block]) == ""
    ensures ExtractText([block] + rest) ==
      if ExtractText([block]) == "" then ExtractText(rest)
      else if ExtractText(rest) == "" then ExtractText([block])
      else ExtractText([block]) + "\n" + ExtractText(rest)
  {
    assert [block][..0] == [];
    ExtractTextJoins([block], rest);
  }

  /** Where the tool-use blocks of a reply stand, in block order. */
  ghost predicate AreToolUses(content: seq<Block>, at: seq<nat>) {
    && Increasing(at)
    && (forall j :: 0 <= j < |at| ==> at[j] < |content| && content[at[j]].ToolUse?)
    && (forall k: nat :: k < |content| && content[k].ToolUse? ==> k in at)
  }

  function BlockMarks(content: seq<Block>): seq<Option<Request>> {
    seq(|content|, k requires 0 <= k < |content| => if content[k].ToolUse? then Some(content[k].request) else None)
  }

  lemma {:induction false} ToolUsesInOrder(content: seq<Block>) returns (at: seq<nat>)
    ensures Picks(BlockMarks(content), ToolUses(content), at)
  {
    at := [];
    if content != [] {
      var n := |content| - 1;
      var before := ToolUsesInOrder(content[..n]);
      var mark := if content[n].ToolUse? then Some(content[n].request) else None;
      PicksSnoc(BlockMarks(content[..n]), ToolUses(content[..n]), before, mark);
      assert BlockMarks(content[..n]) + [mark] == BlockMarks(content);
      at := if mark.Some? then before + [n] else before;
      assert ToolUses(content[..n]) + [] == ToolUses(content[..n]);
    }
  }

  /** These are the requests of the reply's tool-use blocks, in block order. */
  ghost predicate Requested(content: seq<Block>, requests: seq<Request>) {
    exists at :: AreToolUses(content, at) && |requests| == |at|
      && forall j :: 0 <= j < |at| ==> content[at[j]] == ToolUse(requests[j])
  }

  /** One result per tool-use block of the reply, in block order. */
  ghost predicate Answered(content: seq<Block>, results: seq<ResultBlock>) {
    exists at :: AreToolUses(content, at) && |results| == |at|
      && forall j :: 0 <= j < |at| ==> results[j].toolUseId == content[at[j]].request.id
  }

  ghost predicate AnswersAt(messages: seq<Chat>, k: nat)
    requires k < |messages|
  {
    messages[k].Results? ==>
      k > 0 && messages[k - 1].Assistant? && Answered(messages[k - 1].content, messages[k].blocks)
  }

  /** Every message of results answers the assistant message right before it: one result
      per tool-use block, in block order. */
  ghost predicate Paired(messages: seq<Chat>) {
    forall k {:trigger AnswersAt(messages, k)} :: 0 <= k < |messages| ==> AnswersAt(messages, k)
  }

  lemma {:induction false} OutcomeAt(env: Env, budget: real, turn: nat, count: nat, j: nat)
    requires j < count <= |Batch(env, turn)|
    ensures ResultsOf(env, budget, turn, count)[j] == Ran(env, budget, turn, j).1
    ensures CallsOf(env, budget, turn, count)[j] == Ran(env, budget, turn, j).0
  {
    if j < count - 1 {
      OutcomeAt(env, budget, turn, count - 1, j);
    }
  }

  /** What became of a request: when its time to start came before the budget was spent, the
      tool ran, and the result is what it returned or raised; otherwise it is marked skipped. */
  predicate Settled(env: Env, budget: real, turn: nat, j: nat, q: Request, call: CallEntry, result: ResultBlock) {
    && result.toolUseId == q.id && call.tool == q.name && call.input == q.input && call.isError == result.isError
    && if env.clock(Reads(env, turn) + 1 + j) - env.clock(0) < budget then
         && !call.skipped
         && match env.tool(turn, j)
            case Returned(content, isError) => result.content == content && result.isError == isError
            case Raised(content) => result.content == content && result.isError
       else
         call.skipped && result.isError && result.content == "not started: time budget exhausted"
  }

  /** Every tool-use block of a turn is settled, in block order, in the audit list and in the
      results alike. */
  lemma EveryBlockIsSettled(env: Env, budget: real, turn: nat) returns (at: seq<nat>)
    requires env.reply(turn).Reply? && env.reply(turn).message.stop.ToolUseStop?
    ensures var content := env.reply(turn).message.content;
      var calls, results := BatchCalls(env, budget, turn), BatchResults(env, budget, turn);
      && AreToolUses(content, at) && |results| == |calls| == |at| == |Batch(env, turn)|
      && (forall j :: 0 <= j < |at| ==> content[at[j]] == ToolUse(Batch(env, turn)[j]))
      && (forall j :: 0 <= j < |at| ==>
            Settled(env, budget, turn, j, content[at[j]].request, calls[j], results[j]))
  {
    at := ToolUsesInOrder(Content(env, turn));
    assert |at| == |Batch(env, turn)|;
    forall j | 0 <= j < |at|
      ensures Settled(env, budget, turn, j, Batch(env, turn)[j], BatchCalls(env, budget, turn)[j],
                      BatchResults(env, budget, turn)[j])
    {
      OutcomeAt(env, budget, turn, |at|, j);
    }
  }

  lemma BatchAnswers(env: Env, budget: real, turn: nat)
    requires Stop(env, turn).ToolUseStop?
    ensures Answered(Content(env, turn), BatchResults(env, budget, turn))
    ensures Requested(Content(env, turn), Batch(env, turn))
  {
    var at := EveryBlockIsSettled(env, budget, turn);
  }

  lemma PairedReply(messages: seq<Chat>, content: seq<Block>)
    requires Paired(messages)
    ensures Paired(messages + [Assistant(content)])
  {
    var all := messages + [Assistant(content)];
    forall k | 0 <= k < |all| ensures AnswersAt(all, k) {
      assert k < |messages| ==> AnswersAt(messages, k) && all[k] == messages[k];
      assert 0 < k < |messages| ==> all[k - 1] == messages[k - 1];
    }
  }

  lemma PairedResults(messages: seq<Chat>, content: seq<Block>, results: seq<ResultBlock>)
    requires Paired(messages) && Answered(content, results)
    ensures Paired(messages + [Assistant(content), Results(results)])
  {
    var all := messages + [Assistant(content), Results(results)];
    PairedReply(messages, content);
    forall k | 0 <= k < |all| ensures AnswersAt(all, k) {
      var most := messages + [Assistant(content)];
      assert k < |most| ==> AnswersAt(most, k) && all[k] == most[k];
      assert 0 < k < |most| ==> all[k - 1] == most[k - 1];
    }
  }

  lemma PairedTurn(env: Env, budget: real, turn: nat, messages: seq<Chat>)
    requires Paired(messages)
    ensures Paired(messages + TurnMessages(env, budget, turn))
  {
    var content, results := Content(env, turn), BatchResults(env, budget, turn);
    match Stop(env, turn)
    case PauseTurn =>
      PairedReply(messages, content);
    case ToolUseStop =>
      BatchAnswers(env, budget, turn);
      PairedResults(messages, content, results);
    case _ =>
      assert messages + [] == messages;
  }

  lemma TurnMessagesAreAdded(env: Env, budget: real, question: string, turn: nat)
    ensures Transcript(env, budget, question, turn + 1) ==
      Transcript(env, budget, question, turn) + TurnMessages(env, budget, turn)
  {
  }

  lemma {:induction false} PairedThroughout(chain: nat -> seq<Chat>, turns: nat)
    requires Paired(chain(0)) && forall n: nat :: Paired(chain(n)) ==> Paired(chain(n + 1))
    ensures Paired(chain(turns))
  {
    if turns > 0 {
      PairedThroughout(chain, turns - 1);
      var n := turns - 1;
      assert Paired(chain(n)) ==> Paired(chain(n + 1));
    }
  }

  lemma ResultsAnswerTheirRequests(env: Env, budget: real, question: string, turns: nat)
    ensures Paired(Transcript(env, budget, question, turns))
  {
    var chain := (n: nat) => Transcript(env, budget, question, n);
    forall n: nat | Paired(chain(n)) ensures Paired(chain(n + 1)) {
      PairedTurn(env, budget, n, chain(n));
      TurnMessagesAreAdded(env, budget, question, n);
    }
    assert Paired(chain(0));
    PairedThroughout(chain, turns);
  }

  /** What only ever grows at its end keeps what it had. */
  lemma {:induction false} ChainGrows<T>(chain: nat -> seq<T>, early: nat, late: nat)
    requires early <= late && forall n: nat :: chain(n) <= chain(n + 1)
    ensures chain(early) <= chain(late)
  {
    if early < late {
      ChainGrows(chain, early, late - 1);
      var n := late - 1;
      assert chain(n) <= chain(n + 1);
    }
  }

  lemma TranscriptGrows(env: Env, budget: real, question: string, early: nat, late: nat)
    requires early <= late
    ensures Transcript(env, budget, question, early) <= Transcript(env, budget, question, late)
  {
    var chain := (n: nat) => Transcript(env, budget, question, n);
    forall n: nat ensures chain(n) <= chain(n + 1) {
      TurnMessagesAreAdded(env, budget, question, n);
    }
    ChainGrows(chain, early, late);
  }

  lemma PrefixKeeps(before: seq<Chat>, x: Chat, y: Chat, all: seq<Chat>)
    requires before + [x, y] <= all
    ensures |before| + 1 < |all| && all[|before|] == x && all[|before| + 1] == y
  {
    assert all[|before|] == (before + [x, y])[|before|] && all[|before| + 1] == (before + [x, y])[|before| + 1];
  }

  lemma TurnIsAppended(env: Env, budget: real, question: string, turn: nat)
    requires Stop(env, turn).ToolUseStop?
    ensures Transcript(env, budget, question, turn + 1) ==
      Transcript(env, budget, question, turn)
      + [Assistant(Content(env, turn)), Results(BatchResults(env, budget, turn))]
  {
  }

  /** Conversely, every turn that asked for tools is answered in the very next message. */
  lemma RequestsAreAnswered(env: Env, budget: real, question: string, turn: nat, turns: nat)
    requires turn < turns && Stop(env, turn).ToolUseStop?
    ensures var messages, at := Transcript(env, budget, question, turns), |Transcript(env, budget, question, turn)|;
      && at + 1 < |messages|
      && messages[at] == Assistant(Content(env, turn))
      && messages[at + 1] == Results(BatchResults(env, budget, turn))
      && Answered(Content(env, turn), BatchResults(env, budget, turn))
  {
    BatchAnswers(env, budget, turn);
    TurnIsAppended(env, budget, question, turn);
    TranscriptGrows(env, budget, question, turn + 1, turns);
    PrefixKeeps(Transcript(env, budget, question, turn), Assistant(Content(env, turn)),
                Results(BatchResults(env, budget, turn)), Transcript(env, budget, question, turns));
  }

  lemma ReplyIsAppended(env: Env, budget: real, question: string, turn: nat)
    requires AsksForMore(env, turn)
    ensures Transcript(env, budget, question, turn) + [Assistant(Content(env, turn))]
      <= Transcript(env, budget, question, turn + 1)
  {
  }

  /** The conversation starts with the question, and every reply that asks for more is in it,
      in the order of the turns. */
  lemma RepliesAreKept(env: Env, budget: real, question: string, turn: nat, turns: nat)
    requires turn < turns && AsksForMore(env, turn)
    ensures var messages, at := Transcript(env, budget, question, turns), |Transcript(env, budget, question, turn)|;
      0 < at < |messages| && messages[0] == Question(question) && messages[at] == Assistant(Content(env, turn))
  {
    var before, messages := Transcript(env, budget, question, turn), Transcript(env, budget, question, turns);
    TranscriptGrows(env, budget, question, 0, turn);
    TranscriptGrows(env, budget, question, 0, turns);
    ReplyIsAppended(env, budget, question, turn);
    TranscriptGrows(env, budget, question, turn + 1, turns);
    assert (before + [Assistant(Content(env, turn))])[|before|] == Assistant(Content(env, turn));
  }

  lemma BatchIsAppended(env: Env, budget: real, turn: nat)
    ensures Calls(env, budget, turn + 1) == Calls(env, budget, turn) + BatchCalls(env, budget, turn)
  {
  }

  /** The audit list holds the entries of every turn's blocks, turn after turn and nothing
      else. */
  lemma EveryCallIsRecorded(env: Env, budget: real, turn: nat, turns: nat)
    requires turn < turns
    ensures Calls(env, budget, turn) + BatchCalls(env, budget, turn) <= Calls(env, budget, turns)
    ensures Calls(env, budget, 0) == []
    ensures Calls(env, budget, turn + 1) == Calls(env, budget, turn) + BatchCalls(env, budget, turn)
  {
    var chain := (n: nat) => Calls(env, budget, n);
    forall n: nat ensures chain(n) <= chain(n + 1) {
      BatchIsAppended(env, budget, n);
    }
    ChainGrows(chain, turn + 1, turns);
    BatchIsAppended(env, budget, turn);
  }

  ghost predicate NeverBackwards(clock: nat -> real) {
    forall i: nat, j: nat :: i <= j ==> clock(i) <= clock(j)
  }

  /** With a clock that never runs backwards, the blocks that start form a prefix of
      their batch. */
  lemma StartedBlocksFormAPrefix(env: Env, budget: real, turn: nat, i: nat, j: nat)
    requires NeverBackwards(env.clock) && i <= j < |Batch(env, turn)|
    requires Ran(env, budget, turn, i).0.skipped
    ensures Ran(env, budget, turn, j).0.skipped
  {
    assert env.clock(Reads(env, turn) + 1 + i) <= env.clock(Reads(env, turn) + 1 + j);
  }

  lemma DeadlineStaysPassed(env: Env, budget: real, turn: nat, block: nat)
    requires NeverBackwards(env.clock)
    requires block < |Batch(env, turn)| && Skips(env, budget, turn, block)
    ensures env.clock(Reads(env, turn + 1)) >= Deadline(env, budget)
  {
    assert env.clock(Reads(env, turn) + 1 + block) <= env.clock(Reads(env, turn + 1));
  }

  /** Once a block has been turned away, the model is not called again. */
  lemma NoCallAfterASkippedBlock(env: Env, maxIterations: int, budget: real, turns: nat, stopped: Stopped, turn: nat,
                                 block: nat)
    requires NeverBackwards(env.clock)
    requires StopsAfter(env, maxIterations, budget, turns, stopped)
    requires turn < turns && block < |Batch(env, turn)| && Ran(env, budget, turn, block).0.skipped
    ensures turn == turns - 1 && (stopped.HitMaxIterations? || stopped.HitTimeBudget?)
  {
    DeadlineStaysPassed(env, budget, turn, block);
    TurnsBeforeTheEnd(env, maxIterations, budget, turns, stopped);
    assert turn + 1 < turns - 1 ==> Proceeds(env, maxIterations, budget, turn + 1);
  }

  function SumUsage(exchanges: seq<Exchange>): Totals {
    if exchanges == [] then ZERO
    else Add(SumUsage(exchanges[..|exchanges| - 1]), exchanges[|exchanges| - 1].usage)
  }

  lemma SumUsageSnoc(exchanges: seq<Exchange>, one: Exchange)
    ensures SumUsage(exchanges + [one]) == Add(SumUsage(exchanges), one.usage)
  {
    assert (exchanges + [one])[..|exchanges|] == exchanges;
  }

  lemma {:induction false} ExchangeAt(env: Env, turns: nat, i: nat)
    requires i < turns
    ensures Exchanges(env, turns)[i] == ExchangeOf(env, i)
  {
    if i < turns - 1 {
      ExchangeAt(env, turns - 1, i);
      assert Exchanges(env, turns)[i] == Exchanges(env, turns - 1)[i];
    }
  }

  /** One exchange per model call: with its reply's text and stop reason, charged exactly its
      own reply's usage, and naming the requests of its tool-use blocks in block order. */
  lemma ExchangeIsItsReply(env: Env, turns: nat, i: nat)
    requires i < turns && env.reply(i).Reply?
    ensures var x, message := Exchanges(env, turns)[i], env.reply(i).message;
      && x.iteration == i + 1 && x.stop == message.stop && x.text == ExtractText(message.content)
      && Charged(x.usage.input, message.usage.input) && Charged(x.usage.output, message.usage.output)
      && Charged(x.usage.cacheRead, message.usage.cacheRead)
      && Charged(x.usage.cacheCreation, message.usage.cacheCreation)
      && (if message.stop.ToolUseStop? then Requested(message.content, x.requested) else x.requested == [])
  {
    ExchangeAt(env, turns, i);
    if Stop(env, i).ToolUseStop? {
      BatchAnswers(env, 0.0, i);
    }
  }

  /** A count that the provider left out costs nothing. */
  predicate Charged(cost: int, reported: Option<int>) {
    match reported
    case Some(n) => cost == n
    case None => cost == 0
  }

  lemma AddDelta(before: Totals, after: Totals)
    ensures Add(before, Delta(before, after)) == after
  {
  }

  /** The exchanges' charges sum to the reported totals in every field. */
  lemma {:induction false} ExchangesAccountForUsage(env: Env, turns: nat)
    ensures SumUsage(Exchanges(env, turns)) == UsageAfter(env, turns)
  {
    if turns > 0 {
      var before := Exchanges(env, turns - 1);
      ExchangesAccountForUsage(env, turns - 1);
      SumUsageSnoc(before, ExchangeOf(env, turns - 1));
      AddDelta(UsageAfter(env, turns - 1), UsageAfter(env, turns));
    }
  }
}
