/** The governed ReAct loop (react_executor.py, run and _process_tool_batch).

    The model, the bridge, the tool handlers, the token counter and the clock are oracles: a
    World fixes what each answers in each turn.  A run logs its LLM calls, probes and handler
    runs in order.  The loops are proved equal to the functions Batch, TakeTurn and Loop; the
    theorems hold for every world. */
module React {
  import opened Common

  // ---------- What the loop exchanges ----------

  datatype Block = Text(text: string) | ToolUse(id: string, name: string, input: Json) | OtherBlock

  datatype Response = Response(content: seq<Block>, stopReason: string, inputTokens: nat, outputTokens: nat)

  datatype ToolResult = ToolResult(id: string, isError: bool, content: string)

  datatype Message = Task(text: string) | Assistant(content: seq<Block>) | Results(results: seq<ToolResult>)

  /** What probing the bridge for one tool call gives; a raised exception has no checkpoint. */
  datatype Verdict =
    | Kill(checkpoint: string, reason: string)
    | Rollback(checkpoint: string, reason: string)
    | Approve(checkpoint: string)
    | Unexpected(checkpoint: string, reason: string)
    | Raised(reason: string)

  datatype Decision = Decision(allowed: bool, killed: bool, rollback: bool, checkpoint: string, reason: string)

  datatype World = World(
    tools: set<string>,
    maxIterations: int,
    budget: int,
    llm: nat -> Option<Response>,
    bridge: (nat, nat) -> Verdict,
    handler: (nat, nat) -> (bool, string),
    timedOutBefore: nat -> bool,
    timedOutAfter: nat -> bool,
    countTokens: string -> int,
    finalCheckpoint: nat -> Option<string>)

  datatype Event = LlmCall(turn: nat, total: nat) | Probe(turn: nat, index: nat) | Handler(turn: nat, index: nat, total: nat)

  /** How one tool call of a batch that was not killed was dealt with. */
  datatype Ruling = Rejected(name: string) | Executed(name: string) | Refused(name: string)

  const MAX_CONSECUTIVE_REJECTIONS := 3

  // ---------- Governance of one batch ----------

  /** _check_tool_governance for the call at an index of a turn's batch. */
  function Decide(w: World, turn: nat, index: nat, name: string): Decision {
    if name !in w.tools then Decision(false, false, false, "", "Unknown tool")
    else match w.bridge(turn, index)
      case Kill(c, r) => Decision(false, true, false, c, r)
      case Rollback(c, r) => Decision(false, false, true, c, r)
      case Approve(c) => Decision(true, false, false, c, "")
      case Unexpected(c, r) => Decision(false, false, false, c, r)
      case Raised(r) => Decision(false, false, true, "", r)
  }

  function ToolUses(content: seq<Block>): (r: seq<Block>)
    ensures forall i :: 0 <= i < |r| ==> r[i].ToolUse?
  {
    if content == [] then []
    else ToolUses(content[..|content| - 1]) + if content[|content| - 1].ToolUse? then [content[|content| - 1]] else []
  }

  predicate Calls(blocks: seq<Block>) {
    forall i :: 0 <= i < |blocks| ==> blocks[i].ToolUse?
  }

  function Decisions(w: World, turn: nat, blocks: seq<Block>): (r: seq<Decision>)
    requires Calls(blocks)
    ensures |r| == |blocks|
  {
    seq(|blocks|, i requires 0 <= i < |blocks| => Decide(w, turn, i, blocks[i].name))
  }

  predicate AnyKill(ds: seq<Decision>) {
    exists i :: 0 <= i < |ds| && ds[i].killed
  }

  function Checkpoints(ds: seq<Decision>): seq<string> {
    if ds == [] then []
    else Checkpoints(ds[..|ds| - 1]) + if ds[|ds| - 1].checkpoint != "" then [ds[|ds| - 1].checkpoint] else []
  }

  /** One segment is opened for each call of a registered tool, in order. */
  function Probes(w: World, turn: nat, blocks: seq<Block>): seq<Event>
    requires Calls(blocks)
  {
    if blocks == [] then []
    else
      var n := |blocks| - 1;
      Probes(w, turn, blocks[..n]) + if blocks[n].name in w.tools then [Probe(turn, n)] else []
  }

  datatype Outcome = Outcome(results: seq<ToolResult>, events: seq<Event>, rejections: map<string, nat>, rulings: seq<Ruling>)

  /** Phase 3: run what was approved, answer the rest with errors, keep the rejection counters. */
  function Execute(w: World, turn: nat, total: nat, blocks: seq<Block>, ds: seq<Decision>,
                   rejections: map<string, nat>): (o: Outcome)
    requires Calls(blocks) && |ds| == |blocks|
    ensures |o.results| == |blocks|
  {
    if blocks == [] then Outcome([], [], rejections, [])
    else
      var n := |blocks| - 1;
      var o := Execute(w, turn, total, blocks[..n], ds[..n], rejections);
      var b, d := blocks[n], ds[n];
      if d.rollback then
        Outcome(o.results + [ToolResult(b.id, true, d.reason)], o.events,
          o.rejections[b.name := Count(o.rejections, b.name) + 1], o.rulings + [Rejected(b.name)])
      else if d.allowed then
        var (failed, content) := w.handler(turn, n);
        Outcome(o.results + [ToolResult(b.id, failed, content)], o.events + [Handler(turn, n, total)],
          o.rejections - {b.name}, o.rulings + [Executed(b.name)])
      else
        Outcome(o.results + [ToolResult(b.id, true, d.reason)], o.events, o.rejections, o.rulings + [Refused(b.name)])
  }

  function Count(rejections: map<string, nat>, name: string): nat {
    if name in rejections then rejections[name] else 0
  }

  function Aborted(blocks: seq<Block>, reason: string): seq<ToolResult>
    requires Calls(blocks)
  {
    seq(|blocks|, i requires 0 <= i < |blocks| => ToolResult(blocks[i].id, true, reason))
  }

  function FirstKill(ds: seq<Decision>): string
    requires AnyKill(ds)
  {
    if ds[0].killed then ds[0].reason else
      assert exists i :: 1 <= i < |ds| && ds[i].killed;
      assert AnyKill(ds[1..]) by { var i :| 1 <= i < |ds| && ds[i].killed; assert ds[1..][i - 1].killed; }
      FirstKill(ds[1..])
  }

  /** The whole batch: probe everything, then abort everything on a kill or execute. */
  function Batch(w: World, turn: nat, total: nat, blocks: seq<Block>, rejections: map<string, nat>): (o: Outcome)
    requires Calls(blocks)
    ensures |o.results| == |blocks|
  {
    var ds := Decisions(w, turn, blocks);
    if AnyKill(ds) then Outcome(Aborted(blocks, FirstKill(ds)), Probes(w, turn, blocks), rejections, [])
    else
      var o := Execute(w, turn, total, blocks, ds, rejections);
      o.(events := Probes(w, turn, blocks) + o.events)
  }

  // ---------- One turn and the loop ----------

  /** The loop's variables, with the log of events and rulings. */
  datatype Progress = Progress(
    messages: seq<Message>, segments: seq<string>, inputTokens: nat, outputTokens: nat,
    rejections: map<string, nat>, trace: seq<Event>, rulings: seq<Ruling>)
  {
    function Total(): nat { inputTokens + outputTokens }
  }

  datatype Turn =
    | Next(p: Progress)
    | Stop(p: Progress, answer: string, iterations: int, reason: string)
    | Crash(p: Progress)

  function ExtractText(content: seq<Block>): string {
    if content == [] then ""
    else ExtractText(content[..|content| - 1]) + if content[|content| - 1].Text? then content[|content| - 1].text else ""
  }

  function Kept(content: seq<Block>): seq<Block> {
    if content == [] then []
    else Kept(content[..|content| - 1]) + if content[|content| - 1].OtherBlock? then [] else [content[|content| - 1]]
  }

  function ResultText(rs: seq<ToolResult>): string {
    if rs == [] then "" else ResultText(rs[..|rs| - 1]) + rs[|rs| - 1].content
  }

  predicate AtRejectionLimit(rejections: map<string, nat>) {
    exists name :: name in rejections && rejections[name] >= MAX_CONSECUTIVE_REJECTIONS
  }

  function Finish(w: World, p: Progress, turn: nat, r: Response): Turn {
    var c := w.finalCheckpoint(turn);
    Stop(if c.Some? then p.(segments := p.segments + [c.value]) else p, ExtractText(r.content), turn + 1, "end_turn")
  }

  function Charged(p: Progress, turn: nat, r: Response): Progress {
    p.(inputTokens := p.inputTokens + r.inputTokens, outputTokens := p.outputTokens + r.outputTokens,
       trace := p.trace + [LlmCall(turn, p.Total())])
  }

  function Answered(w: World, p: Progress, turn: nat, r: Response): Progress {
    var blocks := ToolUses(r.content);
    var o := Batch(w, turn, p.Total(), blocks, p.rejections);
    p.(messages := p.messages + [Assistant(Kept(r.content)), Results(o.results)],
       segments := p.segments + Checkpoints(Decisions(w, turn, blocks)),
       rejections := o.rejections, trace := p.trace + o.events, rulings := p.rulings + o.rulings)
  }

  function TakeTurn(w: World, p: Progress, turn: nat): Turn {
    if p.Total() >= w.budget then Stop(p, "", turn, "budget_exceeded")
    else if w.timedOutBefore(turn) then Stop(p, "", turn, "wall_clock_timeout")
    else if w.llm(turn).None? then Crash(p.(trace := p.trace + [LlmCall(turn, p.Total())]))
    else
      var r := w.llm(turn).value;
      var q := Charged(p, turn, r);
      if q.Total() >= w.budget then
        if r.stopReason == "end_turn" then Finish(w, q, turn, r) else Stop(q, "", turn + 1, "budget_exceeded")
      else if ToolUses(r.content) == [] && r.stopReason == "end_turn" then Finish(w, q, turn, r)
      else
        var s := Answered(w, q, turn, r);
        if AnyKill(Decisions(w, turn, ToolUses(r.content))) then Stop(s, "", turn + 1, "sigkill")
        else if w.timedOutAfter(turn) then Stop(s, "", turn + 1, "wall_clock_timeout")
        else if q.Total() + w.countTokens(ResultText(s.messages[|s.messages| - 1].results)) >= w.budget then
          Stop(s, "", turn + 1, "budget_exceeded")
        else if AtRejectionLimit(s.rejections) then Stop(s, "", turn + 1, "max_rejections")
        else Next(s)
  }

  function Loop(w: World, p: Progress, turn: nat): Turn
    decreases w.maxIterations - turn
  {
    if turn >= w.maxIterations then Stop(p, "", w.maxIterations, "max_iterations")
    else match TakeTurn(w, p, turn)
      case Next(q) => Loop(w, q, turn + 1)
      case t => t
  }

  function Begin(task: string): Progress {
    Progress([Task(task)], [], 0, 0, map[], [], [])
  }

  function Run(w: World, task: string): Turn {
    Loop(w, Begin(task), 0)
  }

  // ---------- The transcript ----------

  function CallIds(blocks: seq<Block>): seq<string>
    requires Calls(blocks)
  {
    seq(|blocks|, i requires 0 <= i < |blocks| => blocks[i].id)
  }

  function ResultIds(rs: seq<ToolResult>): seq<string> {
    seq(|rs|, i requires 0 <= i < |rs| => rs[i].id)
  }

  /** The user turn answers exactly the tool calls of the assistant turn, in order. */
  predicate Answers(a: Message, r: Message) {
    a.Assistant? && r.Results? && ResultIds(r.results) == CallIds(ToolUses(a.content))
  }

  /** The opening request, then assistant turns each followed by the results of its calls. */
  predicate Transcript(ms: seq<Message>) {
    if |ms| <= 1 then |ms| == 1 && ms[0].Task?
    else Transcript(ms[..|ms| - 2]) && Answers(ms[|ms| - 2], ms[|ms| - 1])
  }

  lemma {:induction false} KeptKeepsCalls(content: seq<Block>)
    ensures ToolUses(Kept(content)) == ToolUses(content)
  {
    if content == [] {
    } else {
      var init, last := content[..|content| - 1], content[|content| - 1];
      KeptKeepsCalls(init);
      if !last.OtherBlock? {
        assert (Kept(init) + [last])[..|Kept(init)|] == Kept(init);
      } else {
        assert Kept(content) == Kept(init);
      }
    }
  }

  lemma {:induction false} ExecuteAnswers(w: World, turn: nat, total: nat, blocks: seq<Block>, ds: seq<Decision>,
                                          rejections: map<string, nat>)
    requires Calls(blocks) && |ds| == |blocks|
    ensures ResultIds(Execute(w, turn, total, blocks, ds, rejections).results) == CallIds(blocks)
  {
    if blocks == [] {
    } else {
      hide Count;
      var n := |blocks| - 1;
      ExecuteAnswers(w, turn, total, blocks[..n], ds[..n], rejections);
      var rs, o := Execute(w, turn, total, blocks[..n], ds[..n], rejections).results,
                   Execute(w, turn, total, blocks, ds, rejections).results;
      assert forall i :: 0 <= i < n ==> o[i] == rs[i] && ResultIds(rs)[i] == CallIds(blocks[..n])[i];
    }
  }

  lemma BatchAnswers(w: World, turn: nat, total: nat, blocks: seq<Block>, rejections: map<string, nat>)
    requires Calls(blocks)
    ensures ResultIds(Batch(w, turn, total, blocks, rejections).results) == CallIds(blocks)
  {
    ExecuteAnswers(w, turn, total, blocks, Decisions(w, turn, blocks), rejections);
  }

  // ---------- Probes and handlers ----------

  lemma {:induction false} ProbesExact(w: World, turn: nat, blocks: seq<Block>)
    requires Calls(blocks)
    ensures forall e :: e in Probes(w, turn, blocks) <==>
      e.Probe? && e.turn == turn && e.index < |blocks| && blocks[e.index].name in w.tools
  {
    if blocks == [] {
    } else {
      ProbesExact(w, turn, blocks[..|blocks| - 1]);
    }
  }

  /** Exactly the approved calls are executed, each once, in the order of the batch. */
  lemma {:induction false} HandlersExact(w: World, turn: nat, total: nat, blocks: seq<Block>, ds: seq<Decision>,
                                         rejections: map<string, nat>)
    requires Calls(blocks) && |ds| == |blocks|
    ensures var es := Execute(w, turn, total, blocks, ds, rejections).events;
      && (forall e :: e in es <==>
            e.Handler? && e.turn == turn && e.total == total && e.index < |blocks|
            && ds[e.index].allowed && !ds[e.index].rollback)
      && (forall i :: 0 <= i < |es| ==> es[i].Handler? && es[i].index < |blocks|)
      && (forall i, j :: 0 <= i < j < |es| ==> es[i].index < es[j].index)
  {
    if blocks == [] {
    } else {
      var n := |blocks| - 1;
      HandlersExact(w, turn, total, blocks[..n], ds[..n], rejections);
    }
  }

  function BlocksOf(w: World, turn: nat): (r: seq<Block>)
    ensures Calls(r)
  {
    if w.llm(turn).Some? then ToolUses(w.llm(turn).value.content) else []
  }

  // ---------- The bridge's verdicts ----------

  /** The call at an index of a turn's batch is of a registered tool. */
  predicate Known(w: World, turn: nat, i: nat) {
    i < |BlocksOf(w, turn)| && BlocksOf(w, turn)[i].name in w.tools
  }

  predicate KilledAt(w: World, turn: nat, i: nat) {
    Known(w, turn, i) && w.bridge(turn, i).Kill?
  }

  predicate RejectedAt(w: World, turn: nat, i: nat) {
    Known(w, turn, i) && (w.bridge(turn, i).Rollback? || w.bridge(turn, i).Raised?)
  }

  predicate ApprovedAt(w: World, turn: nat, i: nat) {
    Known(w, turn, i) && w.bridge(turn, i).Approve?
  }

  ghost predicate BatchKilled(w: World, turn: nat) {
    exists i: nat :: KilledAt(w, turn, i)
  }

  /** Checkpoint of a probe; a raised exception and an unknown tool have none. */
  function CheckpointAt(w: World, turn: nat, i: nat): string {
    if !Known(w, turn, i) then ""
    else match w.bridge(turn, i)
      case Kill(c, _) => c
      case Rollback(c, _) => c
      case Approve(c) => c
      case Unexpected(c, _) => c
      case Raised(_) => ""
  }

  function ReasonAt(w: World, turn: nat, i: nat): string {
    if !Known(w, turn, i) then "Unknown tool"
    else match w.bridge(turn, i)
      case Kill(_, r) => r
      case Rollback(_, r) => r
      case Approve(_) => ""
      case Unexpected(_, r) => r
      case Raised(r) => r
  }

  /** Each decision is what the bridge answered for its call. */
  lemma DecisionsAreVerdicts(w: World, turn: nat, i: nat)
    requires i < |BlocksOf(w, turn)|
    ensures var d := Decisions(w, turn, BlocksOf(w, turn))[i];
      && (d.killed <==> KilledAt(w, turn, i)) && (d.rollback <==> RejectedAt(w, turn, i))
      && (d.allowed <==> ApprovedAt(w, turn, i))
      && d.checkpoint == CheckpointAt(w, turn, i) && d.reason == ReasonAt(w, turn, i)
  {
  }

  lemma AnyKillIsBatchKilled(w: World, turn: nat)
    ensures AnyKill(Decisions(w, turn, BlocksOf(w, turn))) <==> BatchKilled(w, turn)
  {
    var ds := Decisions(w, turn, BlocksOf(w, turn));
    forall i | 0 <= i < |ds| ensures ds[i].killed <==> KilledAt(w, turn, i) { DecisionsAreVerdicts(w, turn, i); }
    if i: nat :| KilledAt(w, turn, i) { assert ds[i].killed; }
  }

  /** The bridge approved the handler run logged at position p, and killed no call of its batch; it
      comes after every probe of its batch. */
  ghost predicate HandlerIsGoverned(w: World, trace: seq<Event>, p: nat)
    requires p < |trace| && trace[p].Handler?
  {
    var t, blocks := trace[p].turn, BlocksOf(w, trace[p].turn);
    && ApprovedAt(w, t, trace[p].index) && !BatchKilled(w, t)
    && (forall k :: 0 <= k < |blocks| && blocks[k].name in w.tools ==> Probe(t, k) in trace[..p])
    && (forall q :: p < q < |trace| && trace[q].Probe? ==> trace[q].turn != t)
  }

  ghost predicate Governed(w: World, trace: seq<Event>, turns: nat) {
    && (forall p :: 0 <= p < |trace| ==> trace[p].turn < turns)
    && (forall p :: 0 <= p < |trace| && trace[p].Handler? ==> HandlerIsGoverned(w, trace, p))
  }

  /** Later events of other turns do not disturb a governed handler, nor do earlier ones. */
  lemma GovernedLeft(w: World, xs: seq<Event>, ys: seq<Event>, p: nat)
    requires p < |xs| && xs[p].Handler? && HandlerIsGoverned(w, xs, p)
    requires forall e :: e in ys ==> e.turn != xs[p].turn
    ensures HandlerIsGoverned(w, xs + ys, p)
  {
    hide BatchKilled, ApprovedAt, BlocksOf;
    assert (xs + ys)[..p] == xs[..p];
    assert forall q :: |xs| <= q < |xs + ys| ==> (xs + ys)[q] in ys;
  }

  lemma GovernedRight(w: World, xs: seq<Event>, ys: seq<Event>, p: nat)
    requires p < |ys| && ys[p].Handler? && HandlerIsGoverned(w, ys, p)
    ensures HandlerIsGoverned(w, xs + ys, |xs| + p)
  {
    hide BatchKilled, ApprovedAt, BlocksOf;
    assert (xs + ys)[..|xs| + p] == xs + ys[..p];
    assert forall q :: |xs| + p < q < |xs + ys| ==> (xs + ys)[q] == ys[q - |xs|];
  }

  /** The probes of a batch come before its handlers. */
  lemma ProbesComeFirst(w: World, turn: nat, total: nat, blocks: seq<Block>, rejections: map<string, nat>, p: nat)
    requires Calls(blocks)
    requires var es := Batch(w, turn, total, blocks, rejections).events; p < |es| && es[p].Handler?
    ensures var es := Batch(w, turn, total, blocks, rejections).events;
      && (forall k :: 0 <= k < |blocks| && blocks[k].name in w.tools ==> Probe(turn, k) in es[..p])
      && (forall q :: p < q < |es| ==> !es[q].Probe?)
  {
    var ds, es, probes := Decisions(w, turn, blocks), Batch(w, turn, total, blocks, rejections).events, Probes(w, turn, blocks);
    ProbesExact(w, turn, blocks);
    HandlersExact(w, turn, total, blocks, ds, rejections);
    hide Decisions, Probes, Execute, AnyKill;
    assert p >= |probes|;
    assert es[..p] == probes + es[|probes|..p];
  }

  lemma BatchIsGoverned(w: World, turn: nat, total: nat, rejections: map<string, nat>)
    ensures var es := Batch(w, turn, total, BlocksOf(w, turn), rejections).events;
      && (forall e :: e in es ==> e.turn == turn)
      && (forall p :: 0 <= p < |es| && es[p].Handler? ==> HandlerIsGoverned(w, es, p))
  {
    var blocks := BlocksOf(w, turn);
    var es := Batch(w, turn, total, blocks, rejections).events;
    ProbesExact(w, turn, blocks);
    HandlersExact(w, turn, total, blocks, Decisions(w, turn, blocks), rejections);
    assert forall e :: e in es ==> e.turn == turn;
    hide Batch, BlocksOf, BatchKilled, ApprovedAt;
    forall p | 0 <= p < |es| && es[p].Handler? ensures HandlerIsGoverned(w, es, p) {
      assert es[p] in es;
      HandlersByVerdict(w, turn, total, rejections, es[p]);
      ProbesComeFirst(w, turn, total, blocks, rejections, p);
    }
  }

  lemma GovernedGrows(w: World, trace: seq<Event>, turn: nat, callTotal: nat, es: seq<Event>)
    requires Governed(w, trace, turn)
    requires forall e :: e in es ==> e.turn == turn
    requires forall p :: 0 <= p < |es| && es[p].Handler? ==> HandlerIsGoverned(w, es, p)
    ensures Governed(w, trace + [LlmCall(turn, callTotal)] + es, turn + 1)
  {
    hide HandlerIsGoverned;
    var call := LlmCall(turn, callTotal);
    var all := trace + [call] + es;
    assert all == trace + ([call] + es) == (trace + [call]) + es;
    forall p | 0 <= p < |all| && all[p].Handler? ensures HandlerIsGoverned(w, all, p) {
      if p < |trace| {
        GovernedLeft(w, trace, [call] + es, p);
      } else {
        GovernedRight(w, trace + [call], es, p - |trace| - 1);
      }
    }
    forall p | 0 <= p < |all| ensures all[p].turn < turn + 1 {
      if p > |trace| { assert all[p] in es; }
    }
  }

  // ---------- Rejection counters ----------

  /** The tool's rejections after its last execution. */
  function RejectionsSince(rulings: seq<Ruling>, name: string): nat {
    if rulings == [] then 0
    else
      var before, r := RejectionsSince(rulings[..|rulings| - 1], name), rulings[|rulings| - 1];
      if r.name != name || r.Refused? then before else if r.Rejected? then before + 1 else 0
  }

  ghost predicate Counted(rejections: map<string, nat>, rulings: seq<Ruling>) {
    forall name :: Count(rejections, name) == RejectionsSince(rulings, name)
  }

  /** One more ruling moves the counters as it moves the history. */
  lemma RulingCounts(c: map<string, nat>, c': map<string, nat>, rulings: seq<Ruling>, r: Ruling)
    requires Counted(c, rulings)
    requires forall name ::
      Count(c', name) == if r.name != name || r.Refused? then Count(c, name) else if r.Rejected? then Count(c, name) + 1 else 0
    ensures Counted(c', rulings + [r])
  {
    assert (rulings + [r])[..|rulings|] == rulings;
    hide Count;
  }

  lemma {:induction false} ExecuteCounts(w: World, turn: nat, total: nat, blocks: seq<Block>, ds: seq<Decision>,
                                         rejections: map<string, nat>, before: seq<Ruling>)
    requires Calls(blocks) && |ds| == |blocks| && Counted(rejections, before)
    ensures var o := Execute(w, turn, total, blocks, ds, rejections); Counted(o.rejections, before + o.rulings)
  {
    if blocks == [] {
      assert before + [] == before;
    } else {
      var n := |blocks| - 1;
      var o, o' := Execute(w, turn, total, blocks[..n], ds[..n], rejections), Execute(w, turn, total, blocks, ds, rejections);
      ExecuteCounts(w, turn, total, blocks[..n], ds[..n], rejections, before);
      hide RejectionsSince, Counted;
      var r := o'.rulings[|o'.rulings| - 1];
      assert before + o'.rulings == before + o.rulings + [r];
      RulingCounts(o.rejections, o'.rejections, before + o.rulings, r);
    }
  }

  // ---------- Tokens ----------

  function LlmCalls(trace: seq<Event>): nat {
    if trace == [] then 0 else LlmCalls(trace[..|trace| - 1]) + if trace[|trace| - 1].LlmCall? then 1 else 0
  }

  lemma {:induction false} LlmCallsAppend(xs: seq<Event>, ys: seq<Event>)
    ensures LlmCalls(xs + ys) == LlmCalls(xs) + LlmCalls(ys)
  {
    if ys == [] {
      assert xs + ys == xs;
    } else {
      assert (xs + ys)[..|xs + ys| - 1] == xs + ys[..|ys| - 1];
      LlmCallsAppend(xs, ys[..|ys| - 1]);
    }
  }

  lemma {:induction false} NoLlmCalls(es: seq<Event>)
    requires forall e :: e in es ==> !e.LlmCall?
    ensures LlmCalls(es) == 0
  {
    if es == [] {
    } else {
      NoLlmCalls(es[..|es| - 1]);
    }
  }

  /** Every LLM call and every handler run starts with the total under the budget. */
  ghost predicate UnderBudget(w: World, trace: seq<Event>) {
    forall e :: e in trace && !e.Probe? ==> e.total < w.budget
  }

  lemma BatchTokens(w: World, turn: nat, total: nat, blocks: seq<Block>, rejections: map<string, nat>)
    requires Calls(blocks) && total < w.budget
    ensures LlmCalls(Batch(w, turn, total, blocks, rejections).events) == 0
    ensures UnderBudget(w, Batch(w, turn, total, blocks, rejections).events)
  {
    ProbesExact(w, turn, blocks);
    HandlersExact(w, turn, total, blocks, Decisions(w, turn, blocks), rejections);
    NoLlmCalls(Batch(w, turn, total, blocks, rejections).events);
  }

  // ---------- Every run ----------

  /** What holds before each turn. */
  ghost predicate Sound(w: World, p: Progress, turn: nat) {
    && Transcript(p.messages) && |p.messages| == 2 * turn + 1
    && LlmCalls(p.trace) == turn && UnderBudget(w, p.trace) && Governed(w, p.trace, turn)
    && Counted(p.rejections, p.rulings)
    && (turn > 0 ==> p.Total() < w.budget)
  }

  function Usage(w: World, turn: int): nat {
    if turn >= 0 && w.llm(turn).Some? then w.llm(turn).value.inputTokens + w.llm(turn).value.outputTokens else 0
  }

  /** What holds when the run stops, n being the iterations it reports. */
  ghost predicate SoundEnd(w: World, p: Progress, n: int) {
    && Transcript(p.messages)
    && n == LlmCalls(p.trace) && UnderBudget(w, p.trace) && Governed(w, p.trace, LlmCalls(p.trace))
    && Counted(p.rejections, p.rulings)
    && (n > 0 ==> p.Total() < w.budget + Usage(w, n - 1))
  }

  /** What holds when an LLM call raises: the call is logged, nothing else has happened. */
  ghost predicate SoundCrash(w: World, p: Progress) {
    && Transcript(p.messages)
    && UnderBudget(w, p.trace) && Governed(w, p.trace, LlmCalls(p.trace))
    && Counted(p.rejections, p.rulings)
    && p.Total() < w.budget
  }

  lemma AnsweredKeepsTranscript(w: World, p: Progress, turn: nat, r: Response)
    requires Transcript(p.messages) && w.llm(turn) == Some(r)
    ensures var q := Answered(w, p, turn, r);
      && Transcript(q.messages) && |q.messages| == |p.messages| + 2
      && q.messages[|q.messages| - 1].Results?
  {
    var o := Batch(w, turn, p.Total(), ToolUses(r.content), p.rejections);
    BatchAnswers(w, turn, p.Total(), ToolUses(r.content), p.rejections);
    KeptKeepsCalls(r.content);
    var ms := Answered(w, p, turn, r).messages;
    assert ms == p.messages + [Assistant(Kept(r.content)), Results(o.results)];
    assert ms[..|ms| - 2] == p.messages;
    assert Answers(ms[|ms| - 2], ms[|ms| - 1]);
  }

  lemma CallIsLogged(w: World, trace: seq<Event>, turn: nat, total: nat)
    requires Governed(w, trace, turn) && UnderBudget(w, trace) && total < w.budget
    ensures var after := trace + [LlmCall(turn, total)];
      Governed(w, after, turn + 1) && UnderBudget(w, after) && LlmCalls(after) == LlmCalls(trace) + 1
  {
    hide HandlerIsGoverned;
    var after := trace + [LlmCall(turn, total)];
    GovernedGrows(w, trace, turn, total, []);
    assert after + [] == after && after[..|trace|] == trace;
  }

  lemma ChargedIsSound(w: World, p: Progress, turn: nat, r: Response)
    requires Sound(w, p, turn) && p.Total() < w.budget && w.llm(turn) == Some(r)
    ensures SoundEnd(w, Charged(p, turn, r), turn + 1)
  {
    hide Transcript, Governed, UnderBudget, Counted, LlmCalls;
    CallIsLogged(w, p.trace, turn, p.Total());
  }

  lemma FinishIsSound(w: World, p: Progress, turn: nat, r: Response)
    requires SoundEnd(w, p, turn + 1)
    ensures var t := Finish(w, p, turn, r); t.Stop? && t.iterations == turn + 1 && SoundEnd(w, t.p, turn + 1)
  {
  }

  lemma AnsweredIsSound(w: World, p: Progress, turn: nat, r: Response)
    requires Sound(w, p, turn) && p.Total() < w.budget && w.llm(turn) == Some(r)
    requires Charged(p, turn, r).Total() < w.budget
    ensures Sound(w, Answered(w, Charged(p, turn, r), turn, r), turn + 1)
  {
    var q := Charged(p, turn, r);
    var blocks, call := ToolUses(r.content), LlmCall(turn, p.Total());
    assert blocks == BlocksOf(w, turn);
    var o := Batch(w, turn, q.Total(), blocks, p.rejections);
    AnsweredKeepsTranscript(w, q, turn, r);
    BatchIsGoverned(w, turn, q.Total(), p.rejections);
    GovernedGrows(w, p.trace, turn, p.Total(), o.events);
    BatchTokens(w, turn, q.Total(), blocks, p.rejections);
    assert (p.trace + [call])[..|p.trace|] == p.trace;
    LlmCallsAppend(p.trace + [call], o.events);
    if AnyKill(Decisions(w, turn, blocks)) {
      assert p.rulings + [] == p.rulings;
    } else {
      ExecuteCounts(w, turn, q.Total(), blocks, Decisions(w, turn, blocks), p.rejections, p.rulings);
    }
    assert q.trace == p.trace + [call];
    var s := Answered(w, q, turn, r);
    assert s.trace == q.trace + o.events && s.rejections == o.rejections && s.rulings == p.rulings + o.rulings;
    hide Transcript, Governed, Counted, Batch, LlmCalls;
    assert UnderBudget(w, s.trace);
  }

  lemma SoundIsSoundEnd(w: World, p: Progress, turn: nat)
    requires Sound(w, p, turn)
    ensures SoundEnd(w, p, turn)
  {
  }

  /** The progress a turn leaves: what it found, what the response was charged, or the batch answered. */
  lemma TurnShape(w: World, p: Progress, turn: nat)
    ensures match TakeTurn(w, p, turn)
      case Next(q) => ProceedsTo(w, p, turn, q)
      case Stop(q, _, n, _) =>
        || (q == p && n == turn)
        || (n == turn + 1 && Charges(w, p, turn) &&
              var c := Charged(p, turn, w.llm(turn).value);
              q == c || q == Finish(w, c, turn, w.llm(turn).value).p)
        || (n == turn + 1 && ProceedsTo(w, p, turn, q))
      case Crash(q) => q == p.(trace := p.trace + [LlmCall(turn, p.Total())]) && p.Total() < w.budget
  {
    hide Charged, Answered, ToolUses, Decisions, AnyKill, ResultText, AtRejectionLimit;
  }

  ghost predicate Charges(w: World, p: Progress, turn: nat) {
    p.Total() < w.budget && w.llm(turn).Some?
  }

  ghost predicate ProceedsTo(w: World, p: Progress, turn: nat, q: Progress) {
    && Charges(w, p, turn)
    && var c := Charged(p, turn, w.llm(turn).value);
       c.Total() < w.budget && q == Answered(w, c, turn, w.llm(turn).value)
  }

  lemma TurnKeepsSound(w: World, p: Progress, turn: nat)
    requires Sound(w, p, turn)
    ensures match TakeTurn(w, p, turn)
      case Next(q) => Sound(w, q, turn + 1)
      case Stop(q, _, n, _) => SoundEnd(w, q, n)
      case Crash(q) => SoundCrash(w, q)
  {
    TurnShape(w, p, turn);
    SoundIsSoundEnd(w, p, turn);
    if p.Total() < w.budget { CallIsLogged(w, p.trace, turn, p.Total()); }
    if Charges(w, p, turn) {
      var r := w.llm(turn).value;
      var c := Charged(p, turn, r);
      ChargedIsSound(w, p, turn, r);
      FinishIsSound(w, c, turn, r);
      if c.Total() < w.budget {
        AnsweredIsSound(w, p, turn, r);
        SoundIsSoundEnd(w, Answered(w, c, turn, r), turn + 1);
      }
    }
    hide TakeTurn, Transcript, Governed, Charged, Answered, SoundEnd, Finish, Counted, LlmCalls;
  }

  lemma {:induction false} LoopIsSound(w: World, p: Progress, turn: nat)
    requires Sound(w, p, turn) && turn <= w.maxIterations
    ensures match Loop(w, p, turn)
      case Next(_) => false
      case Stop(q, _, n, _) => SoundEnd(w, q, n) && turn <= n <= w.maxIterations
      case Crash(q) => SoundCrash(w, q)
    decreases w.maxIterations - turn
  {
    hide Sound, Transcript, Governed, UnderBudget, SoundEnd, SoundCrash, TakeTurn;
    if turn >= w.maxIterations {
      SoundIsSoundEnd(w, p, turn);
    } else {
      TurnKeepsSound(w, p, turn);
      TurnReports(w, p, turn);
      match TakeTurn(w, p, turn)
      case Next(q) => LoopIsSound(w, q, turn + 1);
      case Stop(_, _, _, _) =>
      case Crash(_) =>
    }
  }

  /** What each way of stopping says about the turn it happens in. */
  lemma TurnReports(w: World, p: Progress, turn: nat)
    ensures var t := TakeTurn(w, p, turn);
      t.Stop? ==>
        && turn <= t.iterations <= turn + 1
        && (t.reason == "budget_exceeded" && t.iterations == turn ==> p.Total() >= w.budget)
        && (t.answer != "" ==> t.reason == "end_turn")
    ensures var t := TakeTurn(w, p, turn);
      t.Next? ==> !AnyKill(Decisions(w, turn, BlocksOf(w, turn))) && !AtRejectionLimit(t.p.rejections)
  {
    hide Charged, Answered, AnyKill, Decisions, AtRejectionLimit, ExtractText, ResultText, ToolUses;
  }

  /** In every run that ends: the transcript is well formed and odd in length, every handler run
      is governed, LLM calls and handler runs start under the budget and the total exceeds it
      by less than the last response's usage, the counters are the rejections since the last
      execution, and the iterations reported are the LLM calls made.  A run that ends with an
      exception of the LLM call keeps all of this up to that call. */
  lemma RunIsSound(w: World, task: string)
    requires w.maxIterations >= 0
    ensures match Run(w, task)
      case Next(_) => false
      case Stop(q, _, n, _) => SoundEnd(w, q, n) && n <= w.maxIterations
      case Crash(q) => SoundCrash(w, q)
  {
    LoopIsSound(w, Begin(task), 0);
  }

  ghost predicate RoleAt(ms: seq<Message>, i: nat)
    requires i < |ms|
  {
    if i == 0 then ms[i].Task? else if i % 2 == 1 then ms[i].Assistant? else Answers(ms[i - 1], ms[i])
  }

  /** Read by position: an odd number of messages, users at even positions answering the
      assistant before them. */
  lemma {:induction false} TranscriptByPosition(ms: seq<Message>)
    requires Transcript(ms)
    ensures |ms| % 2 == 1 && forall i :: 0 <= i < |ms| ==> RoleAt(ms, i)
  {
    if |ms| <= 1 {
    } else {
      var init := ms[..|ms| - 2];
      TranscriptByPosition(init);
      forall i | 0 <= i < |ms| ensures RoleAt(ms, i) {
        if i < |init| {
          assert RoleAt(init, i);
        } else {
          assert Answers(ms[|init|], ms[|init| + 1]);
        }
      }
    }
  }

  /** What the loop's variables hold when a turn begins; None if the run ends before. */
  function AtTurn(w: World, task: string, turn: nat): Option<Progress> {
    if turn == 0 then Some(Begin(task))
    else
      var before := AtTurn(w, task, turn - 1);
      if before.None? then None
      else match TakeTurn(w, before.value, turn - 1)
        case Next(p) => Some(p)
        case _ => None
  }

  lemma {:induction false} TurnsBeginSound(w: World, task: string, turn: nat)
    ensures AtTurn(w, task, turn).Some? ==> Sound(w, AtTurn(w, task, turn).value, turn)
  {
    if turn == 0 {
    } else {
      hide Sound, TakeTurn;
      TurnsBeginSound(w, task, turn - 1);
      if AtTurn(w, task, turn - 1).Some? {
        TurnKeepsSound(w, AtTurn(w, task, turn - 1).value, turn - 1);
      }
    }
  }

  /** The gate before the loop body fires exactly in the first turn of a run whose budget is not
      positive. */
  lemma PreLoopGateFiresIff(w: World, task: string, turn: nat)
    ensures AtTurn(w, task, turn).Some? ==>
      (AtTurn(w, task, turn).value.Total() >= w.budget <==> turn == 0 && w.budget <= 0)
  {
    TurnsBeginSound(w, task, turn);
  }

  /** The iterations reported are the LLM calls made exactly when max_iterations is not negative. */
  lemma IterationsAreCallsIff(w: World, task: string)
    requires Run(w, task).Stop?
    ensures Run(w, task).iterations == LlmCalls(Run(w, task).p.trace) <==> w.maxIterations >= 0
  {
    if w.maxIterations >= 0 { RunIsSound(w, task); }
  }

  // ---------- What a batch does, by the bridge's verdicts ----------

  const IS_CALL: Block -> bool := (b: Block) => b.ToolUse?
  const IS_KEPT: Block -> bool := (b: Block) => !b.OtherBlock?
  const SAME: Block -> Block := (b: Block) => b

  /** The tool calls of a response, and the blocks kept in the history, each once and in order. */
  lemma {:induction false} BlocksPicked(content: seq<Block>)
    ensures Picks(content, IS_CALL, SAME, ToolUses(content)) && Picks(content, IS_KEPT, SAME, Kept(content))
  {
    hide Picks, PicksAt;
    if content == [] {
      PicksNothing(IS_CALL, SAME);
      PicksNothing(IS_KEPT, SAME);
    } else {
      var init, last := content[..|content| - 1], content[|content| - 1];
      BlocksPicked(init);
      PicksAppend(init, IS_CALL, SAME, ToolUses(init), last);
      PicksAppend(init, IS_KEPT, SAME, Kept(init), last);
      assert init + [last] == content;
      assert ToolUses(init) + [] == ToolUses(init) && Kept(init) + [] == Kept(init);
    }
  }

  const HAS_CHECKPOINT: Decision -> bool := (d: Decision) => d.checkpoint != ""
  const CHECKPOINT: Decision -> string := (d: Decision) => d.checkpoint

  /** The segments of a batch are the checkpoints of its decisions, in order. */
  lemma {:induction false} CheckpointsPicked(ds: seq<Decision>)
    ensures Picks(ds, HAS_CHECKPOINT, CHECKPOINT, Checkpoints(ds))
  {
    hide Picks, PicksAt;
    if ds == [] {
      PicksNothing(HAS_CHECKPOINT, CHECKPOINT);
    } else {
      var init, last := ds[..|ds| - 1], ds[|ds| - 1];
      CheckpointsPicked(init);
      PicksAppend(init, HAS_CHECKPOINT, CHECKPOINT, Checkpoints(init), last);
      assert init + [last] == ds;
      assert Checkpoints(init) + [] == Checkpoints(init);
    }
  }

  function TextOf(b: Block): string {
    if b.Text? then b.text else ""
  }

  /** Texts of a response are joined in order, other blocks skipped; results likewise. */
  lemma {:induction false} TextJoins(xs: seq<Block>, ys: seq<Block>)
    ensures ExtractText(xs + ys) == ExtractText(xs) + ExtractText(ys)
    decreases |ys|
  {
    if ys == [] {
      assert xs + ys == xs;
    } else {
      var init, last := ys[..|ys| - 1], ys[|ys| - 1];
      TextJoins(xs, init);
      assert ExtractText(ys) == ExtractText(init) + TextOf(last);
      assert (xs + ys)[..|xs + ys| - 1] == xs + init && (xs + ys)[|xs + ys| - 1] == last;
      assert ExtractText(xs + ys) == ExtractText(xs + init) + TextOf(last);
      hide ExtractText;
    }
  }

  lemma {:induction false} ResultTextJoins(xs: seq<ToolResult>, ys: seq<ToolResult>)
    ensures ResultText(xs + ys) == ResultText(xs) + ResultText(ys)
    decreases |ys|
  {
    if ys == [] {
      assert xs + ys == xs;
    } else {
      var init, last := ys[..|ys| - 1], ys[|ys| - 1];
      ResultTextJoins(xs, init);
      assert ResultText(ys) == ResultText(init) + last.content;
      assert (xs + ys)[..|xs + ys| - 1] == xs + init && (xs + ys)[|xs + ys| - 1] == last;
      assert ResultText(xs + ys) == ResultText(xs + init) + last.content;
      hide ResultText;
    }
  }

  lemma OneText(b: Block, r: ToolResult)
    ensures ExtractText([]) == "" && ExtractText([b]) == TextOf(b)
    ensures ResultText([]) == "" && ResultText([r]) == r.content
  {
    assert [b][..0] == [] && [r][..0] == [];
  }

  ghost predicate ProbesOf(es: seq<Event>, n: nat) {
    && (forall i :: 0 <= i < |es| ==> es[i].Probe? && es[i].index < n)
    && (forall i, j :: 0 <= i < j < |es| ==> es[i].index < es[j].index)
  }

  lemma {:induction false} ProbesInOrder(w: World, turn: nat, blocks: seq<Block>)
    requires Calls(blocks)
    ensures ProbesOf(Probes(w, turn, blocks), |blocks|)
  {
    if blocks == [] {
    } else {
      var n := |blocks| - 1;
      ProbesInOrder(w, turn, blocks[..n]);
      var before := Probes(w, turn, blocks[..n]);
      assert ProbesOf(before, |blocks|) && ProbesOf(before + [Probe(turn, n)], |blocks|);
      assert Probes(w, turn, blocks) == if blocks[n].name in w.tools then before + [Probe(turn, n)] else before;
    }
  }

  /** How a call of a batch that was not killed is answered, and what it counts as. */
  ghost predicate AnsweredBy(w: World, turn: nat, i: nat, r: ToolResult, ruling: Ruling)
    requires i < |BlocksOf(w, turn)|
  {
    var b := BlocksOf(w, turn)[i];
    && r.id == b.id
    && if ApprovedAt(w, turn, i) then
         (r.isError, r.content) == w.handler(turn, i) && ruling == Executed(b.name)
       else
         && r.isError && r.content == ReasonAt(w, turn, i)
         && ruling == if RejectedAt(w, turn, i) then Rejected(b.name) else Refused(b.name)
  }

  lemma {:induction false} ExecuteByDecision(w: World, turn: nat, total: nat, blocks: seq<Block>, ds: seq<Decision>,
                                             rejections: map<string, nat>, i: nat)
    requires Calls(blocks) && |ds| == |blocks| && i < |blocks|
    ensures var o := Execute(w, turn, total, blocks, ds, rejections);
      && |o.rulings| == |blocks|
      && var (r, ruling) := (o.results[i], o.rulings[i]);
         && r.id == blocks[i].id
         && if ds[i].rollback then r.isError && r.content == ds[i].reason && ruling == Rejected(blocks[i].name)
            else if ds[i].allowed then
              (r.isError, r.content) == w.handler(turn, i) && ruling == Executed(blocks[i].name)
            else r.isError && r.content == ds[i].reason && ruling == Refused(blocks[i].name)
    decreases |blocks|
  {
    var n := |blocks| - 1;
    RulingsLength(w, turn, total, blocks[..n], ds[..n], rejections);
    if i == n {
    } else {
      ExecuteByDecision(w, turn, total, blocks[..n], ds[..n], rejections, i);
    }
  }

  lemma {:induction false} RulingsLength(w: World, turn: nat, total: nat, blocks: seq<Block>, ds: seq<Decision>,
                                         rejections: map<string, nat>)
    requires Calls(blocks) && |ds| == |blocks|
    ensures |Execute(w, turn, total, blocks, ds, rejections).rulings| == |blocks|
  {
    if blocks == [] {
    } else {
      var n := |blocks| - 1;
      RulingsLength(w, turn, total, blocks[..n], ds[..n], rejections);
    }
  }

  /** A batch without a kill: each call is answered by the handler it was approved for, or with the
      reason it was not, and ruled accordingly. */
  lemma BatchByVerdict(w: World, turn: nat, total: nat, rejections: map<string, nat>, i: nat)
    requires !BatchKilled(w, turn) && i < |BlocksOf(w, turn)|
    ensures var o := Batch(w, turn, total, BlocksOf(w, turn), rejections);
      |o.rulings| == |BlocksOf(w, turn)| && AnsweredBy(w, turn, i, o.results[i], o.rulings[i])
  {
    var blocks := BlocksOf(w, turn);
    AnyKillIsBatchKilled(w, turn);
    DecisionsAreVerdicts(w, turn, i);
    hide BlocksOf, Decisions, Execute, BatchKilled, AnyKill;
    ExecuteByDecision(w, turn, total, blocks, Decisions(w, turn, blocks), rejections, i);
  }

  /** Exactly the approved calls of a batch without a kill run, and none of a killed one. */
  lemma HandlersByVerdict(w: World, turn: nat, total: nat, rejections: map<string, nat>, e: Event)
    requires !e.Probe?
    ensures e in Batch(w, turn, total, BlocksOf(w, turn), rejections).events <==>
      e.Handler? && e.turn == turn && e.total == total && ApprovedAt(w, turn, e.index) && !BatchKilled(w, turn)
  {
    var blocks := BlocksOf(w, turn);
    var ds := Decisions(w, turn, blocks);
    AnyKillIsBatchKilled(w, turn);
    HandlersExact(w, turn, total, blocks, ds, rejections);
    ProbesExact(w, turn, blocks);
    if e.Handler? && e.index < |blocks| { DecisionsAreVerdicts(w, turn, e.index); }
    hide Decisions, Execute, Probes, BlocksOf, BatchKilled, AnyKill;
  }

  ghost predicate FirstKilledAt(w: World, turn: nat, i: nat) {
    KilledAt(w, turn, i) && forall j: nat :: j < i ==> !KilledAt(w, turn, j)
  }

  lemma {:induction false} FirstKillReason(ds: seq<Decision>) returns (i: nat)
    requires AnyKill(ds)
    ensures i < |ds| && ds[i].killed && (forall j :: 0 <= j < i ==> !ds[j].killed) && FirstKill(ds) == ds[i].reason
    decreases |ds|
  {
    if ds[0].killed {
      i := 0;
    } else {
      var k :| 0 <= k < |ds| && ds[k].killed;
      assert ds[1..][k - 1].killed;
      var j := FirstKillReason(ds[1..]);
      i := j + 1;
      assert ds == [ds[0]] + ds[1..];
    }
  }

  /** A killed batch: every call is answered with the reason of the first kill, no handler runs and
      nothing is counted. */
  lemma KilledBatch(w: World, turn: nat, total: nat, rejections: map<string, nat>) returns (i: nat)
    requires BatchKilled(w, turn)
    ensures FirstKilledAt(w, turn, i)
    ensures var blocks, o := BlocksOf(w, turn), Batch(w, turn, total, BlocksOf(w, turn), rejections);
      && o.rejections == rejections && o.rulings == []
      && (forall e :: e in o.events ==> e.Probe?)
      && (forall k :: 0 <= k < |blocks| ==> o.results[k] == ToolResult(blocks[k].id, true, ReasonAt(w, turn, i)))
  {
    var blocks := BlocksOf(w, turn);
    var ds := Decisions(w, turn, blocks);
    AnyKillIsBatchKilled(w, turn);
    i := FirstKillReason(ds);
    ProbesExact(w, turn, blocks);
    forall j: nat | j <= i ensures ds[j].killed <==> KilledAt(w, turn, j) { DecisionsAreVerdicts(w, turn, j); }
    DecisionsAreVerdicts(w, turn, i);
  }

  /** The bridge kills a call of a batch, and the gates before the batch are passed: the run stops,
      every call of the batch is answered with an error, no handler of it runs, the counters stay. */
  lemma KillAbortsBatch(w: World, p: Progress, turn: nat, r: Response, i: nat)
    requires w.llm(turn) == Some(r) && p.Total() < w.budget && !w.timedOutBefore(turn)
    requires Charged(p, turn, r).Total() < w.budget && KilledAt(w, turn, i)
    ensures var t := TakeTurn(w, p, turn);
      && t.Stop? && t.reason == "sigkill" && t.answer == "" && t.iterations == turn + 1
      && t.p.rejections == p.rejections
      && (forall e :: e in t.p.trace && e.Handler? ==> e in p.trace)
      && var results := t.p.messages[|t.p.messages| - 1];
         results.Results? && |results.results| == |ToolUses(r.content)|
         && forall k :: 0 <= k < |results.results| ==>
              results.results[k].isError && results.results[k].id == ToolUses(r.content)[k].id
  {
    var q := Charged(p, turn, r);
    assert BlocksOf(w, turn) == ToolUses(r.content) && ToolUses(r.content) != [];
    assert BatchKilled(w, turn);
    AnyKillIsBatchKilled(w, turn);
    var first := KilledBatch(w, turn, q.Total(), p.rejections);
    var s := Answered(w, q, turn, r);
    var o := Batch(w, turn, q.Total(), ToolUses(r.content), p.rejections);
    assert s.trace == p.trace + [LlmCall(turn, p.Total())] + o.events;
    hide Batch, Decisions, ToolUses, Kept, AnyKill, BatchKilled, BlocksOf;
  }

  // ---------- A run as a function of the oracles ----------

  function InputUpTo(w: World, turns: nat): nat {
    if turns == 0 then 0
    else InputUpTo(w, turns - 1) + if w.llm(turns - 1).Some? then w.llm(turns - 1).value.inputTokens else 0
  }

  function OutputUpTo(w: World, turns: nat): nat {
    if turns == 0 then 0
    else OutputUpTo(w, turns - 1) + if w.llm(turns - 1).Some? then w.llm(turns - 1).value.outputTokens else 0
  }

  function SpentUpTo(w: World, turns: nat): nat { InputUpTo(w, turns) + OutputUpTo(w, turns) }

  /** The messages of a turn: what was kept of the response, and one answer for each call. */
  ghost predicate TurnMessages(w: World, turn: nat, a: Message, u: Message) {
    && w.llm(turn).Some? && a.Assistant? && u.Results?
    && Picks(w.llm(turn).value.content, IS_KEPT, SAME, a.content)
    && |u.results| == |BlocksOf(w, turn)|
    && forall i :: 0 <= i < |u.results| ==> IsAnswer(w, turn, i, u.results[i])
  }

  ghost predicate IsAnswer(w: World, turn: nat, i: nat, r: ToolResult)
    requires i < |BlocksOf(w, turn)|
  {
    exists ruling :: AnsweredBy(w, turn, i, r, ruling)
  }

  /** The rulings of the batches of the turns before, none of which was killed. */
  ghost predicate RulingsAre(w: World, turns: nat, rulings: seq<Ruling>)
    decreases turns
  {
    if turns == 0 then rulings == []
    else
      var n := |BlocksOf(w, turns - 1)|;
      && |rulings| >= n && RulingsAre(w, turns - 1, rulings[..|rulings| - n])
      && TurnRulings(w, turns - 1, rulings[|rulings| - n..])
  }

  ghost predicate TurnRulings(w: World, turn: nat, rs: seq<Ruling>) {
    |rs| == |BlocksOf(w, turn)| && forall i :: 0 <= i < |rs| ==> RulingIs(w, turn, i, rs[i])
  }

  ghost predicate RulingIs(w: World, turn: nat, i: nat, ruling: Ruling)
    requires i < |BlocksOf(w, turn)|
  {
    var name := BlocksOf(w, turn)[i].name;
    ruling == if ApprovedAt(w, turn, i) then Executed(name) else if RejectedAt(w, turn, i) then Rejected(name) else Refused(name)
  }

  /** LLM calls are logged with the tokens spent before them, handler runs with those after. */
  ghost predicate TotalsLogged(w: World, trace: seq<Event>) {
    forall e :: e in trace ==>
      && (e.LlmCall? ==> e.total == SpentUpTo(w, e.turn))
      && (e.Handler? ==> e.total == SpentUpTo(w, e.turn + 1))
  }

  ghost predicate MessagesAre(w: World, task: string, turns: nat, ms: seq<Message>) {
    && |ms| == 2 * turns + 1 && ms[0] == Task(task)
    && forall t :: 0 <= t < turns ==> TurnMessages(w, t, ms[2 * t + 1], ms[2 * t + 2])
  }

  /** What the loop's variables hold after some turns, from the oracles alone. */
  ghost predicate Replayed(w: World, task: string, p: Progress, turns: nat) {
    && p.inputTokens == InputUpTo(w, turns) && p.outputTokens == OutputUpTo(w, turns)
    && MessagesAre(w, task, turns, p.messages)
    && RulingsAre(w, turns, p.rulings)
    && TotalsLogged(w, p.trace)
    && (forall t: nat :: t < turns ==> !BatchKilled(w, t))
  }

  lemma NextIsAnswered(w: World, p: Progress, turn: nat)
    requires TakeTurn(w, p, turn).Next?
    ensures w.llm(turn).Some? && !BatchKilled(w, turn)
    ensures var r := w.llm(turn).value; TakeTurn(w, p, turn).p == Answered(w, Charged(p, turn, r), turn, r)
  {
    AnyKillIsBatchKilled(w, turn);
    assert BlocksOf(w, turn) == ToolUses(w.llm(turn).value.content);
    hide Charged, Answered, AnyKill, Decisions, AtRejectionLimit, ExtractText, ResultText, ToolUses, BatchKilled;
  }

  lemma AnsweredMessages(w: World, p: Progress, turn: nat, r: Response)
    requires w.llm(turn) == Some(r) && !BatchKilled(w, turn)
    ensures var q := Answered(w, Charged(p, turn, r), turn, r);
      && |q.messages| == |p.messages| + 2 && q.messages[..|p.messages|] == p.messages
      && TurnMessages(w, turn, q.messages[|p.messages|], q.messages[|p.messages| + 1])
      && |q.rulings| >= |p.rulings| && q.rulings[..|p.rulings|] == p.rulings && TurnRulings(w, turn, q.rulings[|p.rulings|..])
  {
    var total, blocks := Charged(p, turn, r).Total(), BlocksOf(w, turn);
    var o, q := Batch(w, turn, total, blocks, p.rejections), Answered(w, Charged(p, turn, r), turn, r);
    assert blocks == ToolUses(r.content);
    BlocksPicked(r.content);
    BatchRulings(w, turn, total, p.rejections);
    assert q.messages == p.messages + [Assistant(Kept(r.content)), Results(o.results)] && q.rulings == p.rulings + o.rulings;
    assert q.rulings[|p.rulings|..] == o.rulings;
    hide Batch, BlocksOf, Kept, Picks, Answered, Charged;
    forall i | 0 <= i < |blocks|
      ensures IsAnswer(w, turn, i, o.results[i]) && RulingIs(w, turn, i, o.rulings[i])
    {
      BatchByVerdict(w, turn, total, p.rejections, i);
    }
  }

  lemma BatchRulings(w: World, turn: nat, total: nat, rejections: map<string, nat>)
    requires !BatchKilled(w, turn)
    ensures |Batch(w, turn, total, BlocksOf(w, turn), rejections).rulings| == |BlocksOf(w, turn)|
  {
    AnyKillIsBatchKilled(w, turn);
    RulingsLength(w, turn, total, BlocksOf(w, turn), Decisions(w, turn, BlocksOf(w, turn)), rejections);
  }

  lemma AnsweredTotals(w: World, p: Progress, turn: nat, r: Response)
    requires w.llm(turn) == Some(r) && TotalsLogged(w, p.trace)
    requires p.inputTokens == InputUpTo(w, turn) && p.outputTokens == OutputUpTo(w, turn)
    ensures var q := Answered(w, Charged(p, turn, r), turn, r);
      && q.inputTokens == InputUpTo(w, turn + 1) && q.outputTokens == OutputUpTo(w, turn + 1)
      && TotalsLogged(w, q.trace)
  {
    var total := Charged(p, turn, r).Total();
    var o := Batch(w, turn, total, BlocksOf(w, turn), p.rejections);
    assert BlocksOf(w, turn) == ToolUses(r.content);
    assert Answered(w, Charged(p, turn, r), turn, r).trace == p.trace + [LlmCall(turn, p.Total())] + o.events;
    assert total == SpentUpTo(w, turn + 1) && p.Total() == SpentUpTo(w, turn);
    hide Batch, BlocksOf, SpentUpTo, ToolUses, BatchKilled, ApprovedAt;
    forall e | e in o.events ensures !e.LlmCall? && (e.Handler? ==> e.turn == turn && e.total == total) {
      if !e.Probe? { HandlersByVerdict(w, turn, total, p.rejections, e); }
    }
  }

  lemma MessagesGrow(w: World, task: string, turns: nat, ms: seq<Message>, a: Message, u: Message)
    requires MessagesAre(w, task, turns, ms) && TurnMessages(w, turns, a, u)
    ensures MessagesAre(w, task, turns + 1, ms + [a, u])
  {
    hide TurnMessages;
    var more := ms + [a, u];
    forall t | 0 <= t < turns + 1 ensures TurnMessages(w, t, more[2 * t + 1], more[2 * t + 2]) {
      if t < turns { assert more[2 * t + 1] == ms[2 * t + 1] && more[2 * t + 2] == ms[2 * t + 2]; }
    }
  }

  lemma RulingsGrow(w: World, turns: nat, rulings: seq<Ruling>, more: seq<Ruling>)
    requires RulingsAre(w, turns, rulings) && TurnRulings(w, turns, more)
    ensures RulingsAre(w, turns + 1, rulings + more)
  {
    var all := rulings + more;
    assert all[..|all| - |more|] == rulings && all[|all| - |more|..] == more;
  }

  lemma ReplayedStep(w: World, task: string, p: Progress, turn: nat, r: Response)
    requires Replayed(w, task, p, turn) && w.llm(turn) == Some(r) && !BatchKilled(w, turn)
    ensures Replayed(w, task, Answered(w, Charged(p, turn, r), turn, r), turn + 1)
  {
    var q := Answered(w, Charged(p, turn, r), turn, r);
    AnsweredMessages(w, p, turn, r);
    AnsweredTotals(w, p, turn, r);
    hide Answered, Charged, TurnMessages, TurnRulings, BatchKilled, TotalsLogged, BlocksOf, InputUpTo, OutputUpTo, MessagesAre, RulingsAre;
    var n := |p.messages|;
    MessagesGrow(w, task, turn, p.messages, q.messages[n], q.messages[n + 1]);
    assert q.messages == p.messages + [q.messages[n], q.messages[n + 1]];
    RulingsGrow(w, turn, p.rulings, q.rulings[|p.rulings|..]);
    assert q.rulings == p.rulings + q.rulings[|p.rulings|..];
  }

  lemma BeginIsReplayed(w: World, task: string)
    ensures Replayed(w, task, Begin(task), 0)
  {
  }

  /** In every run, whenever a turn begins: the token totals are the sums of the usage so far, the
      messages are the request and the turns' messages, the rulings are the bridge's verdicts of the
      turns before, none of which was killed, and the log holds the right totals. */
  lemma {:induction false} RunIsReplayed(w: World, task: string, turn: nat)
    ensures AtTurn(w, task, turn).Some? ==> Replayed(w, task, AtTurn(w, task, turn).value, turn)
  {
    hide Replayed, TakeTurn, Answered, Charged, Begin;
    if turn == 0 {
      BeginIsReplayed(w, task);
    } else {
      RunIsReplayed(w, task, turn - 1);
      if AtTurn(w, task, turn).Some? {
        var p := AtTurn(w, task, turn - 1).value;
        NextIsAnswered(w, p, turn - 1);
        ReplayedStep(w, task, p, turn - 1, w.llm(turn - 1).value);
      }
    }
  }

  /** So the counters of a run are those of the bridge: each tool's count is the number of its
      rejections since its last execution, by the verdicts of all turns before. */
  lemma CountersAreVerdicts(w: World, task: string, turn: nat, name: string)
    ensures AtTurn(w, task, turn).Some? ==>
      var p := AtTurn(w, task, turn).value;
      RulingsAre(w, turn, p.rulings) && Count(p.rejections, name) == RejectionsSince(p.rulings, name)
  {
    RunIsReplayed(w, task, turn);
    TurnsBeginSound(w, task, turn);
  }

  /** Which gate a turn ends at, one after the other, and what it leaves. */
  lemma TurnByGates(w: World, p: Progress, turn: nat)
    ensures p.Total() >= w.budget ==> TakeTurn(w, p, turn) == Stop(p, "", turn, "budget_exceeded")
    ensures p.Total() < w.budget && w.timedOutBefore(turn) ==> TakeTurn(w, p, turn) == Stop(p, "", turn, "wall_clock_timeout")
    ensures p.Total() < w.budget && !w.timedOutBefore(turn) ==>
      match w.llm(turn)
      case None => TakeTurn(w, p, turn) == Crash(p.(trace := p.trace + [LlmCall(turn, p.Total())]))
      case Some(r) =>
        var t, used, ended := TakeTurn(w, p, turn), p.Total() + r.inputTokens + r.outputTokens, r.stopReason == "end_turn";
        && !t.Crash? && t.p.inputTokens == p.inputTokens + r.inputTokens && t.p.outputTokens == p.outputTokens + r.outputTokens
        && (ended && (used >= w.budget || BlocksOf(w, turn) == []) ==>
              t.Stop? && t.reason == "end_turn" && t.iterations == turn + 1 && t.answer == ExtractText(r.content)
              && t.p.messages == p.messages && t.p.rejections == p.rejections
              && t.p.segments == if w.finalCheckpoint(turn).Some? then p.segments + [w.finalCheckpoint(turn).value] else p.segments)
        && (!ended && used >= w.budget ==>
              t.Stop? && t.reason == "budget_exceeded" && t.iterations == turn + 1 && t.answer == ""
              && t.p.messages == p.messages && t.p.rejections == p.rejections && t.p.segments == p.segments)
  {
    if w.llm(turn).Some? { AnsweredKeepsTokens(w, Charged(p, turn, w.llm(turn).value), turn, w.llm(turn).value); }
    hide Answered, AnyKill, Decisions, AtRejectionLimit, ResultText;
  }

  lemma AnsweredKeepsTokens(w: World, p: Progress, turn: nat, r: Response)
    ensures var q := Answered(w, p, turn, r); q.inputTokens == p.inputTokens && q.outputTokens == p.outputTokens
  {
    hide Batch, Kept, Checkpoints, Decisions;
  }

  ghost predicate ThreeInARow(rejections: map<string, nat>) {
    exists name :: Count(rejections, name) >= 3
  }

  /** The gates after the batch: a kill, the clock, the projected tokens, three rejections in a row. */
  lemma TurnAfterBatch(w: World, p: Progress, turn: nat)
    requires p.Total() < w.budget && !w.timedOutBefore(turn) && w.llm(turn).Some?
    requires var r := w.llm(turn).value;
      p.Total() + r.inputTokens + r.outputTokens < w.budget && (r.stopReason == "end_turn" ==> BlocksOf(w, turn) != [])
    ensures var r := w.llm(turn).value; var q := Charged(p, turn, r); var s, t := Answered(w, q, turn, r), TakeTurn(w, p, turn);
      && !t.Crash? && t.p == s && s.messages != []
      && s.segments == p.segments + Checkpoints(Decisions(w, turn, BlocksOf(w, turn)))
      && var u := s.messages[|s.messages| - 1];
         && u.Results?
         && t == if BatchKilled(w, turn) then Stop(s, "", turn + 1, "sigkill")
                 else if w.timedOutAfter(turn) then Stop(s, "", turn + 1, "wall_clock_timeout")
                 else if q.Total() + w.countTokens(ResultText(u.results)) >= w.budget then Stop(s, "", turn + 1, "budget_exceeded")
                 else if ThreeInARow(s.rejections) then Stop(s, "", turn + 1, "max_rejections")
                 else Next(s)
  {
    var r := w.llm(turn).value;
    var s := Answered(w, Charged(p, turn, r), turn, r);
    assert BlocksOf(w, turn) == ToolUses(r.content);
    AnyKillIsBatchKilled(w, turn);
    assert AtRejectionLimit(s.rejections) <==> ThreeInARow(s.rejections) by {
      hide Answered, Charged;
      if name :| name in s.rejections && s.rejections[name] >= 3 { assert Count(s.rejections, name) >= 3; }
    }
    hide AnyKill, BatchKilled, Decisions, AtRejectionLimit, ResultText, ToolUses, Batch, Kept, ThreeInARow, Checkpoints;
  }

  // ---------- The code ----------

  class ReactExecutor {
    const w: World

    constructor (w: World)
      ensures this.w == w
    {
      this.w := w;
    }

    /** Phase 1: probe every call before any handler. */
    method ProbeAll(blocks: seq<Block>, turn: nat)
      returns (decisions: seq<Decision>, segments: seq<string>, probes: seq<Event>)
      requires Calls(blocks)
      ensures decisions == Decisions(w, turn, blocks) && segments == Checkpoints(decisions)
      ensures probes == Probes(w, turn, blocks)
    {
      decisions, segments, probes := [], [], [];
      for i := 0 to |blocks|
        invariant decisions == Decisions(w, turn, blocks)[..i] && segments == Checkpoints(decisions)
        invariant probes == Probes(w, turn, blocks[..i])
      {
        assert blocks[..i + 1][..i] == blocks[..i];
        if blocks[i].name in w.tools {
          probes := probes + [Probe(turn, i)];
        }
        var d := Decide(w, turn, i, blocks[i].name);
        assert (decisions + [d])[..i] == decisions;
        decisions := decisions + [d];
        if d.checkpoint != "" {
          segments := segments + [d.checkpoint];
        }
      }
      assert blocks[..|blocks|] == blocks && Decisions(w, turn, blocks)[..|blocks|] == Decisions(w, turn, blocks);
    }

    /** Phase 3. */
    method ExecuteApproved(blocks: seq<Block>, decisions: seq<Decision>, turn: nat, total: nat,
                           rejections: map<string, nat>)
      returns (o: Outcome)
      requires Calls(blocks) && |decisions| == |blocks|
      ensures o == Execute(w, turn, total, blocks, decisions, rejections)
    {
      var results: seq<ToolResult>, events: seq<Event>, rulings: seq<Ruling> := [], [], [];
      var counters: map<string, nat> := rejections;
      for i := 0 to |blocks|
        invariant Outcome(results, events, counters, rulings)
          == Execute(w, turn, total, blocks[..i], decisions[..i], rejections)
      {
        var b, d := blocks[i], decisions[i];
        assert blocks[..i + 1][..i] == blocks[..i] && decisions[..i + 1][..i] == decisions[..i];
        if d.rollback {
          counters := counters[b.name := Count(counters, b.name) + 1];
          results, rulings := results + [ToolResult(b.id, true, d.reason)], rulings + [Rejected(b.name)];
        } else if d.allowed {
          counters := counters - {b.name};
          var (failed, content) := w.handler(turn, i);
          results, rulings := results + [ToolResult(b.id, failed, content)], rulings + [Executed(b.name)];
          events := events + [Handler(turn, i, total)];
        } else {
          results, rulings := results + [ToolResult(b.id, true, d.reason)], rulings + [Refused(b.name)];
        }
      }
      assert blocks[..|blocks|] == blocks && decisions[..|blocks|] == decisions;
      o := Outcome(results, events, counters, rulings);
    }

    /** Probe every call, then abort all of them or execute the approved ones. */
    method ProcessToolBatch(blocks: seq<Block>, turn: nat, total: nat, rejections: map<string, nat>)
      returns (o: Outcome, segments: seq<string>, killed: bool)
      requires Calls(blocks)
      ensures o == Batch(w, turn, total, blocks, rejections)
      ensures segments == Checkpoints(Decisions(w, turn, blocks)) && killed == AnyKill(Decisions(w, turn, blocks))
    {
      var decisions, checkpoints, probes := ProbeAll(blocks, turn);
      hide Decisions, Probes, Execute;
      for i := 0 to |decisions|
        invariant forall j :: 0 <= j < i ==> !decisions[j].killed
      {
        if decisions[i].killed {
          FirstKillAt(decisions, i);
          return Outcome(Aborted(blocks, decisions[i].reason), probes, rejections, []), checkpoints, true;
        }
      }
      var executed := ExecuteApproved(blocks, decisions, turn, total, rejections);
      return executed.(events := probes + executed.events), checkpoints, false;
    }

    /** The body of the loop in run, with its gates. */
    method Iterate(before: Progress, turn: nat) returns (t: Turn)
      ensures t == TakeTurn(w, before, turn)
    {
      hide Batch, Decisions, ToolUses, Kept, AnyKill, AtRejectionLimit, ResultText, Checkpoints, ExtractText;
      var p := before;
      if p.inputTokens + p.outputTokens >= w.budget {
        return Stop(p, "", turn, "budget_exceeded");
      }
      if w.timedOutBefore(turn) {
        return Stop(p, "", turn, "wall_clock_timeout");
      }
      var response := w.llm(turn);
      var trace := p.trace + [LlmCall(turn, p.inputTokens + p.outputTokens)];
      if response.None? {
        return Crash(p.(trace := trace));
      }
      var r := response.value;
      p := p.(inputTokens := p.inputTokens + r.inputTokens, outputTokens := p.outputTokens + r.outputTokens, trace := trace);
      assert p == Charged(before, turn, r);
      var used := p.inputTokens + p.outputTokens;
      if used >= w.budget {
        if r.stopReason == "end_turn" {
          return Finish(w, p, turn, r);
        }
        return Stop(p, "", turn + 1, "budget_exceeded");
      }
      var calls := ToolUses(r.content);
      if calls == [] && r.stopReason == "end_turn" {
        return Finish(w, p, turn, r);
      }
      var messages := p.messages + [Assistant(Kept(r.content))];
      var o, checkpoints, killed := ProcessToolBatch(calls, turn, used, p.rejections);
      messages := messages + [Results(o.results)];
      ghost var s := Answered(w, p, turn, r);
      assert messages == s.messages;
      p := Progress(messages, p.segments + checkpoints, p.inputTokens, p.outputTokens,
                    o.rejections, p.trace + o.events, p.rulings + o.rulings);
      assert p == s;
      assert s.messages[|s.messages| - 1].results == o.results;
      hide Answered, Charged;
      if killed {
        return Stop(p, "", turn + 1, "sigkill");
      }
      if w.timedOutAfter(turn) {
        return Stop(p, "", turn + 1, "wall_clock_timeout");
      }
      if used + w.countTokens(ResultText(o.results)) >= w.budget {
        return Stop(p, "", turn + 1, "budget_exceeded");
      }
      if AtRejectionLimit(p.rejections) {
        return Stop(p, "", turn + 1, "max_rejections");
      }
      return Next(p);
    }

    /** run: at most max_iterations turns.  An exception of the LLM call escapes as Crash. */
    method RunTask(task: string) returns (t: Turn)
      ensures t == Run(w, task)
    {
      var p := Begin(task);
      var turn := 0;
      while turn < w.maxIterations
        invariant 0 <= turn && Loop(w, p, turn) == Run(w, task)
      {
        var step := Iterate(p, turn);
        if !step.Next? {
          return step;
        }
        p, turn := step.p, turn + 1;
      }
      return Stop(p, "", w.maxIterations, "max_iterations");
    }
  }

  lemma {:induction false} FirstKillAt(ds: seq<Decision>, i: nat)
    requires i < |ds| && ds[i].killed && forall j :: 0 <= j < i ==> !ds[j].killed
    ensures AnyKill(ds) && FirstKill(ds) == ds[i].reason
    decreases i
  {
    if i == 0 {
    } else {
      FirstKillAt(ds[1..], i - 1);
    }
  }
}
