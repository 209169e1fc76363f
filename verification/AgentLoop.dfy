/** The agent loop of crates/ff-agent/src/agent_loop.rs: think, run tools on one of two paths, observe,
    and recover from loops and errors. The LLM, the tools, the compaction and the build check answer as
    they please; the contracts hold for every answer. */
module AgentLoop {
  import opened Options
  import opened Text

  datatype ToolCall = ToolCall(id: string, name: string, args: string)

  // ----- The gates

  const PLAN_MODE_READ_ONLY_TOOLS := {
    "Read", "Glob", "Grep", "WebFetch", "WebSearch", "ToolSearch", "TaskList", "TaskGet", "list_work_items",
    "fleet_status", "fleet_nodes_db", "fleet_models_db", "fleet_models_catalog", "fleet_models_search",
    "fleet_models_library", "fleet_models_deployments", "fleet_models_disk_usage"
  }

  /** `plan_mode_block`. */
  predicate PlanModeBlocks(mode: string, name: string) {
    mode == "plan" && name !in PLAN_MODE_READ_ONLY_TOOLS
  }

  /** `check_tool_allowed`. */
  predicate ToolAllowed(name: string, allowed: Option<set<string>>) {
    allowed.None? || name in allowed.value
  }

  datatype Config = Config(maxTurns: nat, permissionMode: string, allowed: Option<set<string>>, tools: seq<string>)

  predicate Passes(cfg: Config, name: string) {
    !PlanModeBlocks(cfg.permissionMode, name) && ToolAllowed(name, cfg.allowed)
  }

  /** `find_tool_arc`: the first registered tool with that name, whatever the case. */
  function FindTool(name: string, tools: seq<string>): (i: nat)
    ensures i <= |tools|
    ensures i < |tools| ==> SameIgnoringCase(tools[i], name)
  {
    if tools == [] then 0 else if SameIgnoringCase(tools[0], name) then 0 else 1 + FindTool(name, tools[1..])
  }

  /** The tools a session registers: all core tools, or those on its allow-list. */
  function Registered(core: seq<string>, allowed: Option<set<string>>): (tools: seq<string>)
    ensures forall t :: t in tools <==> t in core && (allowed.Some? ==> t in allowed.value)
  {
    if core == [] then []
    else
      var rest := Registered(core[1..], allowed);
      if allowed.None? || core[0] in allowed.value then [core[0]] + rest else rest
  }

  // ----- What becomes of a call

  datatype Verdict =
    | Blocked
    | Denied
    | BadArguments
    | UnknownTool
    | Ran(tool: nat, isError: bool, endTurn: bool)
    | Panicked
  {
    predicate Gated() { Blocked? || Denied? }
    predicate MayHaveRun() { Ran? || Panicked? }
  }

  /** What the environment does with a call that reaches a tool. */
  datatype ToolRun = ToolPanics | ToolReturns(isError: bool, endTurn: bool)

  datatype Answer = Answer(call: ToolCall, verdict: Verdict)
  {
    /** The id the result is filed under: the id of a task that panicked is lost. */
    function Id(): string { if verdict.Panicked? then "error" else call.id }
  }

  /** `execute_single_tool`, the spawned task of the parallel path. */
  function TaskVerdict(cfg: Config, call: ToolCall, parses: bool, run: ToolRun): Verdict {
    if run.ToolPanics? then Panicked
    else if !parses then BadArguments
    else if FindTool(call.name, cfg.tools) == |cfg.tools| then UnknownTool
    else Ran(FindTool(call.name, cfg.tools), run.isError, run.endTurn)
  }

  /** The parallel path: gates first, then the task. */
  function ParallelVerdict(cfg: Config, call: ToolCall, parses: bool, run: ToolRun): Verdict {
    if PlanModeBlocks(cfg.permissionMode, call.name) then Blocked
    else if !ToolAllowed(call.name, cfg.allowed) then Denied
    else TaskVerdict(cfg, call, parses, run)
  }

  /** The single path: arguments first, then the gates; a panic is not caught here. */
  function SingleVerdict(cfg: Config, call: ToolCall, parses: bool, run: ToolRun): Verdict {
    if !parses then BadArguments
    else if PlanModeBlocks(cfg.permissionMode, call.name) then Blocked
    else if !ToolAllowed(call.name, cfg.allowed) then Denied
    else if FindTool(call.name, cfg.tools) == |cfg.tools| then UnknownTool
    else if run.ToolPanics? then Panicked
    else Ran(FindTool(call.name, cfg.tools), run.isError, run.endTurn)
  }

  datatype CargoVerdict = CheckOk | CheckSkipped | CheckFailed

  datatype Reply =
    | CancelledWhileSending
    | Overflow
    | SendFailed(failover: bool)
    | BadChoice
    | Said(calls: seq<ToolCall>, text: Option<string>)

  /** Everything the loop does not control. The first argument is the turn. */
  datatype Env = Env(
    cancelled: nat -> bool,
    reply: nat -> Reply,
    compactFirst: nat -> bool,
    compact: seq<Message> -> seq<Message>,
    compactHard: seq<Message> -> seq<Message>,
    budget: seq<Message> -> seq<Message>,
    parses: ToolCall -> bool,
    run: (nat, nat) -> ToolRun,
    editsRust: ToolCall -> bool,
    autoVerify: bool,
    cargo: nat -> CargoVerdict)

  datatype Note = Prompt | BuildBroken | LoopDetected | TooManyErrors

  datatype Message = System | User(note: Note) | Assistant(calls: seq<ToolCall>) | ToolResult(id: string, answer: Answer)

  datatype Failure = ContextOverflow | CompactionRetries | LlmFailed | NoMessage | EmptyAnswer | BuildStuck

  /** `Aborted`: a tool on the single path panicked, and the loop with it. */
  datatype Outcome = EndTurn(waiting: bool) | MaxTurns | Cancelled | Failed(error: Failure) | Aborted

  // ----- The two paths as functions

  function Answers(cfg: Config, env: Env, turn: nat, calls: seq<ToolCall>): (r: seq<Answer>)
    ensures |r| == |calls|
  {
    seq(|calls|, i requires 0 <= i < |calls| => AnswerTo(cfg, env, turn, calls, i))
  }

  function AnswerTo(cfg: Config, env: Env, turn: nat, calls: seq<ToolCall>, i: nat): Answer
    requires i < |calls|
  {
    var run := env.run(turn, i);
    Answer(calls[i],
      if |calls| > 1 then ParallelVerdict(cfg, calls[i], env.parses(calls[i]), run)
      else SingleVerdict(cfg, calls[i], env.parses(calls[i]), run))
  }

  function Pick(answers: seq<Answer>, gated: bool): seq<Answer> {
    if answers == [] then []
    else
      var last := answers[|answers| - 1];
      Pick(answers[..|answers| - 1], gated) + if last.verdict.Gated() == gated then [last] else []
  }

  /** A panic on the single path ends the loop. */
  predicate Aborts(answers: seq<Answer>) {
    |answers| == 1 && answers[0].verdict.Panicked?
  }

  /** The order of the results: on the parallel path those the gates stopped come first. Nothing is filed of a single
      call that panicked. */
  function Filed(answers: seq<Answer>): seq<Answer> {
    if |answers| > 1 then Pick(answers, true) + Pick(answers, false) else if Aborts(answers) then [] else answers
  }

  function Results(answers: seq<Answer>): (r: seq<Message>)
    ensures |r| == |answers|
  {
    seq(|answers|, i requires 0 <= i < |answers| => ToolResult(answers[i].Id(), answers[i]))
  }

  /** Consecutive errors after a result of the parallel path. */
  function CountTask(errors: nat, v: Verdict): nat {
    if v.Ran? && !v.isError then 0 else errors + 1
  }

  function CountTasks(errors: nat, answers: seq<Answer>): nat {
    if answers == [] then errors
    else
      var before, last := CountTasks(errors, answers[..|answers| - 1]), answers[|answers| - 1].verdict;
      if last.Gated() then before + 1 else CountTask(before, last)
  }

  /** Consecutive errors after the tools of a turn. On the single path only a tool that ran counts. */
  function ErrorsAfter(errors: nat, answers: seq<Answer>): nat {
    if |answers| > 1 then CountTasks(errors, Filed(answers))
    else if |answers| == 1 && answers[0].verdict.Ran? then CountTask(errors, answers[0].verdict)
    else errors
  }

  predicate EndsTurn(answers: seq<Answer>) {
    exists i :: 0 <= i < |answers| && answers[i].verdict.Ran? && answers[i].verdict.endTurn
  }

  // ----- What a turn promises

  /** Each tool that ran, or may have run, passed both gates on the name it was called by, and the tool that
      ran is the registered one of that name. */
  ghost predicate GatesPassed(cfg: Config, answers: seq<Answer>) {
    forall i :: 0 <= i < |answers| ==>
      && (answers[i].verdict.MayHaveRun() ==> Passes(cfg, answers[i].call.name))
      && (answers[i].verdict.Ran? ==> answers[i].verdict.tool < |cfg.tools| && SameIgnoringCase(cfg.tools[answers[i].verdict.tool], answers[i].call.name))
  }

  function Ids(answers: seq<Answer>): seq<string> {
    seq(|answers|, i requires 0 <= i < |answers| => answers[i].Id())
  }

  function CallIds(calls: seq<ToolCall>): seq<string> {
    seq(|calls|, i requires 0 <= i < |calls| => calls[i].id)
  }

  lemma AnswersPassGates(cfg: Config, env: Env, turn: nat, calls: seq<ToolCall>)
    ensures GatesPassed(cfg, Answers(cfg, env, turn, calls))
  {}

  /** In plan mode a tool ran only under a name of the read-only list, and with an allow-list only under a name on it. */
  lemma PlanModeIsReadOnly(cfg: Config, env: Env, turn: nat, calls: seq<ToolCall>, i: nat)
    requires i < |calls| && Answers(cfg, env, turn, calls)[i].verdict.MayHaveRun()
    ensures cfg.permissionMode == "plan" ==> calls[i].name in {
      "Read", "Glob", "Grep", "WebFetch", "WebSearch", "ToolSearch", "TaskList", "TaskGet", "list_work_items",
      "fleet_status", "fleet_nodes_db", "fleet_models_db", "fleet_models_catalog", "fleet_models_search",
      "fleet_models_library", "fleet_models_deployments", "fleet_models_disk_usage" }
    ensures cfg.allowed.Some? ==> calls[i].name in cfg.allowed.value
  {}

  /** A call runs its tool to the end exactly if its arguments parse, no gate stops it, a tool of that name is
      registered, whatever the case, and the tool does not panic; on both paths alike. */
  lemma RunsExactly(cfg: Config, env: Env, turn: nat, calls: seq<ToolCall>, i: nat)
    requires i < |calls|
    ensures Answers(cfg, env, turn, calls)[i].verdict.Ran?
       <==> && env.parses(calls[i]) && env.run(turn, i).ToolReturns?
            && (cfg.permissionMode == "plan" ==> calls[i].name in PLAN_MODE_READ_ONLY_TOOLS)
            && (cfg.allowed.Some? ==> calls[i].name in cfg.allowed.value)
            && exists t :: t in cfg.tools && Lower(t) == Lower(calls[i].name)
    ensures Answers(cfg, env, turn, calls)[i].verdict.Ran? ==>
      var v := Answers(cfg, env, turn, calls)[i].verdict;
      v.isError == env.run(turn, i).isError && v.endTurn == env.run(turn, i).endTurn
  {
    FindsTool(calls[i].name, cfg.tools);
  }

  lemma {:induction false} FindsTool(name: string, tools: seq<string>)
    ensures FindTool(name, tools) < |tools| <==> exists t :: t in tools && Lower(t) == Lower(name)
  {
    if tools != [] { FindsTool(name, tools[1..]); }
  }

  lemma {:induction false} PickSplits(answers: seq<Answer>)
    ensures multiset(Pick(answers, true)) + multiset(Pick(answers, false)) == multiset(answers)
  {
    if answers != [] {
      var init, last := answers[..|answers| - 1], answers[|answers| - 1];
      PickSplits(init);
      assert answers == init + [last];
      MultisetSnoc(init, last);
      PickSnoc(init, last, true);
      PickSnoc(init, last, false);
    }
  }

  lemma PickSnoc(init: seq<Answer>, last: Answer, gated: bool)
    ensures multiset(Pick(init + [last], gated)) == multiset(Pick(init, gated)) + if last.verdict.Gated() == gated then multiset{last} else multiset{}
  {
    assert (init + [last])[..|init|] == init;
    MultisetSnoc(Pick(init, gated), last);
  }

  lemma MultisetSnoc(init: seq<Answer>, last: Answer)
    ensures multiset(init + [last]) == multiset(init) + multiset{last}
  {}

  lemma FiledIsPermutation(answers: seq<Answer>)
    requires !Aborts(answers)
    ensures multiset(Filed(answers)) == multiset(answers)
  {
    PickSplits(answers);
  }

  function Without(s: seq<Answer>, k: nat): seq<Answer>
    requires k < |s|
  {
    s[..k] + s[k + 1..]
  }

  lemma IdsWithout(s: seq<Answer>, k: nat)
    requires k < |s|
    ensures multiset(s) == multiset(Without(s, k)) + multiset{s[k]}
    ensures multiset(Ids(s)) == multiset(Ids(Without(s, k))) + multiset{s[k].Id()}
  {
    assert s == s[..k] + [s[k]] + s[k + 1..];
    assert Ids(s) == Ids(s[..k]) + [s[k].Id()] + Ids(s[k + 1..]);
    assert Ids(Without(s, k)) == Ids(s[..k]) + Ids(s[k + 1..]);
  }

  lemma {:induction false} IdsPermute(a: seq<Answer>, b: seq<Answer>)
    requires multiset(a) == multiset(b)
    ensures multiset(Ids(a)) == multiset(Ids(b))
    decreases |a|
  {
    if a == [] {
      assert |b| == |multiset(b)| == 0;
    } else {
      assert a[0] in multiset(b);
      var k :| 0 <= k < |b| && b[k] == a[0];
      IdsWithout(a, 0);
      IdsWithout(b, k);
      assert multiset(Without(a, 0)) == multiset(a) - multiset{a[0]};
      assert multiset(Without(b, k)) == multiset(b) - multiset{a[0]};
      IdsPermute(Without(a, 0), Without(b, k));
    }
  }

  /** Main result for a turn's tools: exactly one result per call is filed, unless a panic on the single path ends the
      loop; without a panic the ids are exactly those of the calls, and each panic turns one id into "error". */
  lemma OneResultPerCall(cfg: Config, env: Env, turn: nat, calls: seq<ToolCall>)
    ensures var answers := Answers(cfg, env, turn, calls);
            && (Aborts(answers) ==> Filed(answers) == [])
            && (!Aborts(answers) ==> multiset(Filed(answers)) == multiset(answers) && multiset(Ids(Filed(answers))) == multiset(Ids(answers)))
            && ((forall i :: 0 <= i < |answers| ==> !answers[i].verdict.Panicked?) ==> Ids(answers) == CallIds(calls))
            && (forall i :: 0 <= i < |answers| ==> answers[i].call == calls[i])
  {
    var answers := Answers(cfg, env, turn, calls);
    if !Aborts(answers) {
      FiledIsPermutation(answers);
      IdsPermute(Filed(answers), answers);
    }
  }

  /** With an allow-list, the tool that ran is itself on the list, not only the name it was called by. */
  lemma RanIsRegistered(cfg: Config, core: seq<string>, env: Env, turn: nat, calls: seq<ToolCall>, i: nat)
    requires cfg.tools == Registered(core, cfg.allowed) && cfg.allowed.Some?
    requires i < |calls| && Answers(cfg, env, turn, calls)[i].verdict.Ran?
    ensures cfg.tools[Answers(cfg, env, turn, calls)[i].verdict.tool] in cfg.allowed.value
    ensures calls[i].name in cfg.allowed.value
  {
    AnswersPassGates(cfg, env, turn, calls);
    assert cfg.tools[Answers(cfg, env, turn, calls)[i].verdict.tool] in cfg.tools;
  }

  /** On the parallel path the results of the calls the gates stopped come first. */
  lemma GatedFirst(answers: seq<Answer>, i: nat, j: nat)
    requires |answers| > 1 && i < j < |Filed(answers)| && Filed(answers)[j].verdict.Gated()
    ensures Filed(answers)[i].verdict.Gated()
  {
    PickOnly(answers, true);
    PickOnly(answers, false);
  }

  lemma {:induction false} PickOnly(answers: seq<Answer>, gated: bool)
    ensures forall i :: 0 <= i < |Pick(answers, gated)| ==> Pick(answers, gated)[i].verdict.Gated() == gated
  {
    if answers != [] { PickOnly(answers[..|answers| - 1], gated); }
  }

  /** Why a call did not run: on the single path bad arguments are found before the gates are asked, on the parallel
      path behind them. */
  lemma WhyNotRun(cfg: Config, env: Env, turn: nat, calls: seq<ToolCall>, i: nat)
    requires i < |calls| && env.run(turn, i).ToolReturns?
    ensures var v, name := Answers(cfg, env, turn, calls)[i].verdict, calls[i].name;
            var planned, listed := cfg.permissionMode == "plan" && name !in PLAN_MODE_READ_ONLY_TOOLS, cfg.allowed.None? || name in cfg.allowed.value;
            && (v == Blocked <==> planned && (|calls| > 1 || env.parses(calls[i])))
            && (v == Denied <==> !planned && !listed && (|calls| > 1 || env.parses(calls[i])))
            && (v == BadArguments <==> !env.parses(calls[i]) && (|calls| == 1 || (!planned && listed)))
  {}

  lemma {:induction false} PickGated(answers: seq<Answer>)
    requires forall i :: 0 <= i < |answers| ==> answers[i].verdict.Gated()
    ensures Pick(answers, true) == answers && Pick(answers, false) == []
  {
    if answers != [] {
      PickGated(answers[..|answers| - 1]);
      assert answers == answers[..|answers| - 1] + [answers[|answers| - 1]];
    }
  }

  lemma {:induction false} GatedTasks(errors: nat, answers: seq<Answer>)
    requires forall i :: 0 <= i < |answers| ==> answers[i].verdict.Gated()
    ensures CountTasks(errors, answers) == errors + |answers|
  {
    if answers != [] { GatedTasks(errors, answers[..|answers| - 1]); }
  }

  /** The two paths count differently: calls that the gates stop each count as an error when there are several
      of them, and do not count when there is only one. */
  lemma GatedErrors(errors: nat, answers: seq<Answer>)
    requires forall i :: 0 <= i < |answers| ==> answers[i].verdict.Gated()
    ensures ErrorsAfter(errors, answers) == if |answers| > 1 then errors + |answers| else errors
  {
    PickGated(answers);
    GatedTasks(errors, answers);
    if |answers| > 1 { assert Filed(answers) == answers; }
  }

  predicate Succeeded(v: Verdict) {
    v.Ran? && !v.isError
  }

  ghost predicate NoneSucceeded(filed: seq<Answer>, from: nat) {
    forall j :: from <= j < |filed| ==> !Succeeded(filed[j].verdict)
  }

  /** On the parallel path the consecutive errors are the results filed after the last success, `from` being the one
      behind it; without a success they are added to those before. */
  lemma {:induction false} ErrorsExact(errors: nat, filed: seq<Answer>, from: nat)
    requires from <= |filed| && NoneSucceeded(filed, from) && (from > 0 ==> Succeeded(filed[from - 1].verdict))
    ensures CountTasks(errors, filed) == (if from == 0 then errors else 0) + (|filed| - from)
  {
    if from < |filed| {
      var init := filed[..|filed| - 1];
      assert NoneSucceeded(init, from) && !Succeeded(filed[|filed| - 1].verdict);
      ErrorsExact(errors, init, from);
    }
  }

  // ----- Recovery

  function CountOf(sigs: seq<string>, sig: string): nat {
    if sigs == [] then 0 else CountOf(sigs[..|sigs| - 1], sig) + if sigs[|sigs| - 1] == sig then 1 else 0
  }

  function SigOf(call: ToolCall): string {
    call.name + ":" + if |call.args| > 80 then call.args[..80] else call.args
  }

  const WINDOW := 20
  const MAX_AGENT_ITERATIONS := 100
  const MAX_COMPACTION_RETRIES := 5
  const MAX_BUILD_VERIFY_RETRIES := 5

  function LastOf(sigs: seq<string>, n: nat): (r: seq<string>)
    ensures |r| <= n
  {
    if |sigs| > n then sigs[|sigs| - n..] else sigs
  }

  /** The window after the calls of a turn, before the check for a loop. */
  function Window(sigs: seq<string>, calls: seq<ToolCall>): (r: seq<string>)
    ensures |r| <= WINDOW
  {
    LastOf(sigs + seq(|calls|, i requires 0 <= i < |calls| => SigOf(calls[i])), WINDOW)
  }

  predicate Repeats(sigs: seq<string>) {
    sigs != [] && CountOf(sigs, sigs[|sigs| - 1]) >= 3
  }

  /** Three calls alike at the end of a turn are always taken for a loop. */
  lemma ThreeAlike(sigs: seq<string>, calls: seq<ToolCall>)
    requires |calls| >= 3 && calls[|calls| - 1] == calls[|calls| - 2] == calls[|calls| - 3]
    ensures Repeats(Window(sigs, calls))
  {
    var all, w, s := sigs + seq(|calls|, i requires 0 <= i < |calls| => SigOf(calls[i])), Window(sigs, calls), SigOf(calls[|calls| - 1]);
    var n := |w|;
    assert w[n - 1] == w[n - 2] == w[n - 3] == s;
    assert w[..n - 1][..n - 2] == w[..n - 2] && w[..n - 2][..n - 3] == w[..n - 3];
    assert CountOf(w, s) == CountOf(w[..n - 1], s) + 1;
    assert CountOf(w[..n - 1], s) == CountOf(w[..n - 2], s) + 1;
    assert CountOf(w[..n - 2], s) == CountOf(w[..n - 3], s) + 1;
  }

  lemma {:induction false} CountsOne(sigs: seq<string>, sig: string, p: nat)
    requires forall i :: 0 <= i < |sigs| && i != p ==> sigs[i] != sig
    ensures CountOf(sigs, sig) <= 1 && (p >= |sigs| ==> CountOf(sigs, sig) == 0)
  {
    if sigs != [] { CountsOne(sigs[..|sigs| - 1], sig, p); }
  }

  /** A signature seen twice is not taken for a loop. */
  lemma TwoAlike(sigs: seq<string>, p: nat)
    requires sigs != [] && forall i :: 0 <= i < |sigs| - 1 && i != p ==> sigs[i] != sigs[|sigs| - 1]
    ensures !Repeats(sigs)
  {
    CountsOne(sigs[..|sigs| - 1], sigs[|sigs| - 1], p);
  }

  /** The window is the last 20 signatures of the past and the turn. */
  lemma WindowExact(sigs: seq<string>, calls: seq<ToolCall>, k: nat)
    requires k < |calls| && k < 20
    ensures var w := Window(sigs, calls);
            && |w| == (if |sigs| + |calls| < 20 then |sigs| + |calls| else 20)
            && w[|w| - 1 - k] == SigOf(calls[|calls| - 1 - k])
  {}

  /** Calls of one name whose arguments agree in the first 80 characters are alike, and no others of that name. */
  lemma SigExact(a: ToolCall, b: ToolCall)
    requires a.name == b.name
    ensures SigOf(a) == SigOf(b) <==>
      a.args == b.args || (|a.args| >= 80 && |b.args| >= 80 && a.args[..80] == b.args[..80])
  {
    var x, y := if |a.args| > 80 then a.args[..80] else a.args, if |b.args| > 80 then b.args[..80] else b.args;
    var p := a.name + ":";
    assert SigOf(a) == p + x && SigOf(b) == p + y;
    assert (p + x)[|p|..] == x && (p + y)[|p|..] == y;
  }

  // ----- The session

  /** The window of signatures and the consecutive errors a completed turn leaves. */
  datatype TurnState = TurnState(sigs: seq<string>, errors: nat)

  /** What happened in a turn that ran tools; `left` if it was completed. */
  datatype TurnRecord = TurnRecord(calls: seq<ToolCall>, answers: seq<Answer>, filed: seq<Answer>, left: Option<TurnState>)

  datatype TurnEnd = Completed | Retried | Stopped(outcome: Outcome)

  /** At the end of a completed turn: a window of at most 20 signatures whose last one has not been seen three
      times, and fewer than 5 consecutive errors. */
  predicate Settled(state: TurnState) {
    |state.sigs| <= 20 && !Repeats(state.sigs) && state.errors < 5
  }

  /** One answer per call, each filed once unless the loop was aborted; without a panic under the ids of the calls;
      every tool that ran passed the gates; and a completed turn left its state settled. */
  ghost predicate RecordOk(cfg: Config, r: TurnRecord) {
    && GatesPassed(cfg, r.answers) && |r.answers| == |r.calls|
    && (if Aborts(r.answers) then r.filed == [] && r.left.None? else multiset(r.filed) == multiset(r.answers))
    && (r.left.Some? ==> Settled(r.left.value))
    && (forall i :: 0 <= i < |r.answers| ==> r.answers[i].call == r.calls[i])
    && ((forall i :: 0 <= i < |r.answers| ==> !r.answers[i].verdict.Panicked?) ==> multiset(Ids(r.filed)) == multiset(CallIds(r.calls)))
  }

  class AgentSession {
    const cfg: Config
    var messages: seq<Message>
    var recentSigs: seq<string>
    var consecutiveErrors: nat
    var buildVerifyRetries: nat
    var requests: nat
    var records: seq<TurnRecord>

    /** The session registers the core tools that its allow-list admits. */
    constructor (cfg: Config, core: seq<string>)
      ensures this.cfg == cfg.(tools := Registered(core, cfg.allowed))
      ensures messages == [System] && recentSigs == [] && consecutiveErrors == 0
      ensures buildVerifyRetries == 0 && requests == 0 && records == []
    {
      this.cfg := cfg.(tools := Registered(core, cfg.allowed));
      messages, recentSigs, consecutiveErrors := [System], [], 0;
      buildVerifyRetries, requests, records := 0, 0, [];
    }

    function State(): TurnState
      reads this
    {
      TurnState(recentSigs, consecutiveErrors)
    }

    /** The parallel path: the gates sort the calls, the tasks run, the results are filed. */
    method RunParallel(env: Env, turn: nat, calls: seq<ToolCall>) returns (endTurn: bool)
      requires |calls| > 1
      modifies this`messages, this`consecutiveErrors
      ensures var answers := Answers(cfg, env, turn, calls);
              && messages == old(messages) + Results(Filed(answers))
              && consecutiveErrors == ErrorsAfter(old(consecutiveErrors), answers)
              && endTurn == EndsTurn(answers)
    {
      var preBlocked, tasks: seq<Answer> := [], [];
      ghost var answers := Answers(cfg, env, turn, calls);
      endTurn := false;
      assert answers[..0] == [];
      for i := 0 to |calls|
        invariant preBlocked == Pick(answers[..i], true) && tasks == Pick(answers[..i], false)
        invariant endTurn == EndsTurn(answers[..i])
        invariant messages == old(messages) && consecutiveErrors == old(consecutiveErrors)
      {
        var call := calls[i];
        assert answers[..i + 1] == answers[..i] + [answers[i]];
        PickStep(answers[..i], answers[i]);
        EndsTurnStep(answers[..i], answers[i]);
        if PlanModeBlocks(cfg.permissionMode, call.name) {
          preBlocked := preBlocked + [Answer(call, Blocked)];
        } else if !ToolAllowed(call.name, cfg.allowed) {
          preBlocked := preBlocked + [Answer(call, Denied)];
        } else {
          var v := TaskVerdict(cfg, call, env.parses(call), env.run(turn, i));
          tasks := tasks + [Answer(call, v)];
          if v.Ran? && v.endTurn { endTurn := true; }
        }
      }
      assert answers[..|calls|] == answers;
      var filed := preBlocked + tasks;
      assert filed == Filed(answers);
      FileResults(filed);
    }

    /** Count the errors of the results, in order, and append the messages. */
    method FileResults(filed: seq<Answer>)
      modifies this`messages, this`consecutiveErrors
      ensures messages == old(messages) + Results(filed)
      ensures consecutiveErrors == CountTasks(old(consecutiveErrors), filed)
    {
      assert filed[..0] == [];
      for i := 0 to |filed|
        invariant messages == old(messages) + Results(filed[..i])
        invariant consecutiveErrors == CountTasks(old(consecutiveErrors), filed[..i])
      {
        var v := filed[i].verdict;
        assert filed[..i + 1] == filed[..i] + [filed[i]];
        assert Results(filed[..i + 1]) == Results(filed[..i]) + [ToolResult(filed[i].Id(), filed[i])];
        assert filed[..i + 1][..i] == filed[..i];
        consecutiveErrors := if v.Ran? && !v.isError then 0 else consecutiveErrors + 1;
        messages := messages + [ToolResult(filed[i].Id(), filed[i])];
      }
      assert filed[..|filed|] == filed;
    }

    /** The single path. */
    method RunSingle(env: Env, turn: nat, calls: seq<ToolCall>) returns (endTurn: bool, aborted: bool)
      requires |calls| == 1
      modifies this`messages, this`consecutiveErrors
      ensures var answers := Answers(cfg, env, turn, calls);
              && messages == old(messages) + Results(Filed(answers))
              && consecutiveErrors == ErrorsAfter(old(consecutiveErrors), answers)
              && endTurn == EndsTurn(answers) && aborted == Aborts(answers)
    {
      var call, run := calls[0], env.run(turn, 0);
      ghost var answers := Answers(cfg, env, turn, calls);
      var v: Verdict;
      endTurn, aborted := false, false;
      if !env.parses(call) {
        v := BadArguments;
      } else if PlanModeBlocks(cfg.permissionMode, call.name) {
        v := Blocked;
      } else if !ToolAllowed(call.name, cfg.allowed) {
        v := Denied;
      } else {
        var idx := FindTool(call.name, cfg.tools);
        if idx == |cfg.tools| {
          v := UnknownTool;
        } else if run.ToolPanics? {
          assert answers == [Answer(call, Panicked)];
          return false, true;
        } else {
          endTurn := run.endTurn;
          v := Ran(idx, run.isError, run.endTurn);
          consecutiveErrors := if run.isError then consecutiveErrors + 1 else 0;
        }
      }
      assert answers == [Answer(call, v)];
      assert Results(answers) == [ToolResult(call.id, Answer(call, v))];
      messages := messages + [ToolResult(call.id, Answer(call, v))];
    }

    /** `cargo check` after a turn that asked for an edit of a Rust file, whether or not the edit ran. */
    method VerifyBuild(env: Env, turn: nat, calls: seq<ToolCall>) returns (stuck: bool)
      modifies this`messages, this`buildVerifyRetries
      ensures buildVerifyRetries == RetriesAfter(env, turn, calls, old(buildVerifyRetries))
      ensures stuck <==> BuildFails(env, turn, calls) && buildVerifyRetries > MAX_BUILD_VERIFY_RETRIES
      ensures messages == old(messages) + if BuildFails(env, turn, calls) && !stuck then [User(BuildBroken)] else []
    {
      stuck := false;
      if BuildChecked(env, calls) {
        match env.cargo(turn)
        case CheckOk => buildVerifyRetries := 0;
        case CheckSkipped =>
        case CheckFailed =>
          buildVerifyRetries := buildVerifyRetries + 1;
          if buildVerifyRetries > MAX_BUILD_VERIFY_RETRIES { return true; }
          messages := messages + [User(BuildBroken)];
      }
    }

    /** The signatures of the calls join the window, which keeps the last 20. */
    method Remember(calls: seq<ToolCall>)
      modifies this`recentSigs
      ensures recentSigs == Window(old(recentSigs), calls)
    {
      var sigs := recentSigs;
      for i := 0 to |calls|
        invariant |sigs| == |recentSigs| + i && recentSigs == old(recentSigs)
        invariant forall j :: 0 <= j < |recentSigs| ==> sigs[j] == recentSigs[j]
        invariant forall j :: 0 <= j < i ==> sigs[|recentSigs| + j] == SigOf(calls[j])
      {
        sigs := sigs + [SigOf(calls[i])];
      }
      assert sigs == recentSigs + seq(|calls|, i requires 0 <= i < |calls| => SigOf(calls[i]));
      recentSigs := if |sigs| > WINDOW then sigs[|sigs| - WINDOW..] else sigs;
    }

    /** Loop detection and the error ceiling at the end of a turn. */
    method Recover(calls: seq<ToolCall>)
      modifies this`messages, this`recentSigs, this`consecutiveErrors
      ensures recentSigs == if Repeats(Window(old(recentSigs), calls)) then [] else Window(old(recentSigs), calls)
      ensures consecutiveErrors == if old(consecutiveErrors) >= 5 then 0 else old(consecutiveErrors)
      ensures messages == old(messages)
                + (if Repeats(Window(old(recentSigs), calls)) then [User(LoopDetected)] else [])
                + (if old(consecutiveErrors) >= 5 then [User(TooManyErrors)] else [])
    {
      Remember(calls);
      if recentSigs != [] && CountOf(recentSigs, recentSigs[|recentSigs| - 1]) >= 3 {
        messages := messages + [User(LoopDetected)];
        recentSigs := [];
      }
      if consecutiveErrors >= 5 {
        messages := messages + [User(TooManyErrors)];
        consecutiveErrors := 0;
      }
    }

    /** The tools of a turn, and what follows them. */
    method Act(env: Env, turn: nat, calls: seq<ToolCall>) returns (end: TurnEnd)
      requires calls != []
      modifies this`messages, this`recentSigs, this`consecutiveErrors, this`buildVerifyRetries, this`records
      ensures records == old(records) + [RecordOf(cfg, env, turn, calls, if end.Completed? then Some(State()) else None)]
      ensures end.Completed? ==> Settled(State())
      ensures var answers := Answers(cfg, env, turn, calls);
              var retries, errors := RetriesAfter(env, turn, calls, old(buildVerifyRetries)), ErrorsAfter(old(consecutiveErrors), answers);
              var filed := old(messages) + Results(Filed(answers));
              if Aborts(answers) || EndsTurn(answers) then
                && end == Stopped(if Aborts(answers) then Aborted else EndTurn(true))
                && messages == filed && buildVerifyRetries == old(buildVerifyRetries)
              else if BuildFails(env, turn, calls) && retries > MAX_BUILD_VERIFY_RETRIES then
                end == Stopped(Failed(BuildStuck)) && messages == filed && buildVerifyRetries == retries
              else
                && end == Completed && buildVerifyRetries == retries
                && messages == filed + (if BuildFails(env, turn, calls) then [User(BuildBroken)] else [])
                                     + (if Repeats(Window(old(recentSigs), calls)) then [User(LoopDetected)] else [])
                                     + (if errors >= 5 then [User(TooManyErrors)] else [])
    {
      var endTurn, aborted := false, false;
      if |calls| > 1 {
        endTurn := RunParallel(env, turn, calls);
      } else {
        endTurn, aborted := RunSingle(env, turn, calls);
      }
      end := Stopped(if aborted then Aborted else EndTurn(true));
      if !aborted && !endTurn {
        var stuck := VerifyBuild(env, turn, calls);
        end := Stopped(Failed(BuildStuck));
        if !stuck {
          Recover(calls);
          end := Completed;
        }
      }
      records := records + [RecordOf(cfg, env, turn, calls, if end.Completed? then Some(State()) else None)];
    }

    /** Compaction and budgeting before the request. */
    method Prepare(env: Env, turn: nat)
      modifies this`messages
      ensures messages == Sent(env, turn, old(messages))
    {
      if env.compactFirst(turn) {
        var compacted := env.compact(messages);
        if |compacted| < |messages| { messages := compacted; }
      }
      messages := env.budget(messages);
    }

    /** The request did not fit: compact hard, and try again a bounded number of times. */
    method Overflowed(env: Env, retries: nat) returns (end: TurnEnd, retries': nat)
      modifies this`messages
      ensures messages == env.compactHard(old(messages))
      ensures end == if |messages| >= |old(messages)| then Stopped(Failed(ContextOverflow))
                     else if retries + 1 > MAX_COMPACTION_RETRIES then Stopped(Failed(CompactionRetries)) else Retried
      ensures retries' == if end == Stopped(Failed(ContextOverflow)) then retries else retries + 1
    {
      retries' := retries;
      var before := |messages|;
      messages := env.compactHard(messages);
      if |messages| >= before { return Stopped(Failed(ContextOverflow)), retries'; }
      retries' := retries' + 1;
      if retries' > MAX_COMPACTION_RETRIES { return Stopped(Failed(CompactionRetries)), retries'; }
      end := Retried;
    }

    /** The LLM answered: finish, or run the tools it asked for. */
    method Respond(env: Env, turn: nat, calls: seq<ToolCall>, text: Option<string>) returns (end: TurnEnd)
      modifies this`messages, this`recentSigs, this`consecutiveErrors, this`buildVerifyRetries, this`records
      ensures calls == [] ==>
        && messages == old(messages) + [Assistant(calls)] && records == old(records) && buildVerifyRetries == old(buildVerifyRetries)
        && end == Stopped(if text.Some? then EndTurn(false) else Failed(EmptyAnswer))
      ensures calls != [] ==>
        && old(messages) + [Assistant(calls)] + Results(Filed(Answers(cfg, env, turn, calls))) <= messages
        && Recorded(cfg, env, turn, calls, old(records), records, end, State())
        && end == EndAfterTools(cfg, env, turn, calls, old(buildVerifyRetries))
      ensures BuildBounded(old(buildVerifyRetries), buildVerifyRetries, end)
      ensures !end.Retried? && end != Stopped(Failed(LlmFailed)) && end != Stopped(Failed(ContextOverflow))
    {
      messages := messages + [Assistant(calls)];
      if calls == [] {
        return Stopped(if text.Some? then EndTurn(false) else Failed(EmptyAnswer));
      }
      end := Act(env, turn, calls);
      FiledRecordOk(cfg, env, turn, calls, if end.Completed? then Some(State()) else None);
    }

    /** One turn after the cancellation check. */
    method Turn(env: Env, turn: nat, retries: nat) returns (end: TurnEnd, retries': nat)
      requires retries <= MAX_COMPACTION_RETRIES
      modifies this
      ensures requests == old(requests) + 1
      ensures NewRecordOk(cfg, old(records), records, end, State()) && (end.Retried? ==> records == old(records))
      ensures BuildBounded(old(buildVerifyRetries), buildVerifyRetries, end)
      ensures retries' == (if env.reply(turn).Overflow? && end != Stopped(Failed(ContextOverflow)) then retries + 1 else retries)
      ensures !end.Stopped? ==> retries' <= MAX_COMPACTION_RETRIES
      ensures end != Stopped(Failed(LlmFailed))
      ensures var sent := Sent(env, turn, old(messages));
              match env.reply(turn)
              case CancelledWhileSending => end == Stopped(Cancelled) && messages == sent
              case Overflow =>
                && messages == env.compactHard(sent)
                && end == if |messages| >= |sent| then Stopped(Failed(ContextOverflow))
                          else if retries + 1 > MAX_COMPACTION_RETRIES then Stopped(Failed(CompactionRetries)) else Retried
              case SendFailed(_) => end == Retried && messages == sent
              case BadChoice => end == Stopped(Failed(NoMessage)) && messages == sent
              case Said(calls, text) =>
                if calls == [] then
                  messages == sent + [Assistant(calls)] && end == Stopped(if text.Some? then EndTurn(false) else Failed(EmptyAnswer))
                else
                  && sent + [Assistant(calls)] + Results(Filed(Answers(cfg, env, turn, calls))) <= messages
                  && Recorded(cfg, env, turn, calls, old(records), records, end, State())
                  && end == EndAfterTools(cfg, env, turn, calls, old(buildVerifyRetries))
    {
      retries' := retries;
      Prepare(env, turn);
      requests := requests + 1;
      match env.reply(turn)
      case CancelledWhileSending =>
        end := Stopped(Cancelled);
      case Overflow =>
        end, retries' := Overflowed(env, retries);
      case SendFailed(failover) =>
        // The counter starts at 0 in every turn, so the limit of 3 is never reached.
        var llmRetryCount := 0;
        if failover { return Retried, retries'; }
        llmRetryCount := llmRetryCount + 1;
        end := if llmRetryCount <= 3 then Retried else Stopped(Failed(LlmFailed));
      case BadChoice =>
        end := Stopped(Failed(NoMessage));
      case Said(calls, text) =>
        end := Respond(env, turn, calls, text);
    }

    /** `run_agent_loop`: the whole run, and the turn at which it stopped. Every turn that ran tools and was not the last
        has a record of the state it left. The outcome is the one the last turn calls for, and no turn before it calls
        for an end; a run ends by its turn limit only after all its requests. */
    method RunAgentLoop(env: Env) returns (outcome: Outcome, last: nat, ghost sent: seq<Message>)
      modifies this
      ensures requests - old(requests) <= MaxRequests(cfg)
      ensures old(records) <= records && forall i :: |old(records)| <= i < |records| ==> RecordOk(cfg, records[i])
      ensures forall i :: |old(records)| <= i < |records| - 1 ==> records[i].left.Some?
      ensures |records| - |old(records)| <= requests - old(requests)
      ensures old(buildVerifyRetries) <= 5 ==> buildVerifyRetries <= 6 && (outcome == Failed(BuildStuck) <==> buildVerifyRetries == 6)
      ensures last >= 1 && forall t :: 1 <= t < last ==> GoesOn(cfg, env, t)
      ensures outcome == MaxTurns ==> last == MaxRequests(cfg) + 1 && requests - old(requests) == MaxRequests(cfg)
      ensures outcome != MaxTurns ==>
        && last <= MaxRequests(cfg) && requests - old(requests) == (if env.cancelled(last) then last - 1 else last)
        && EndsAs(cfg, env, last, sent, messages, outcome)
      ensures outcome != Failed(LlmFailed)
      ensures (forall t :: !env.cancelled(t) && env.reply(t).SendFailed?) ==>
        outcome == MaxTurns && records == old(records) && requests - old(requests) == MaxRequests(cfg)
    {
      var retries, iterations := 0, 0;
      sent := messages;
      for turn := 1 to cfg.maxTurns + 1
        invariant iterations == turn - 1 <= MAX_AGENT_ITERATIONS && retries == Overflows(env, turn - 1) <= MAX_COMPACTION_RETRIES
        invariant requests == old(requests) + iterations
        invariant forall t :: 1 <= t < turn ==> GoesOn(cfg, env, t)
        invariant (forall t :: !env.cancelled(t) && env.reply(t).SendFailed?) ==> records == old(records)
        invariant old(records) <= records && forall i :: |old(records)| <= i < |records| ==> RecordOk(cfg, records[i]) && records[i].left.Some?
        invariant |records| - |old(records)| <= requests - old(requests)
        invariant old(buildVerifyRetries) <= MAX_BUILD_VERIFY_RETRIES ==> buildVerifyRetries <= MAX_BUILD_VERIFY_RETRIES
      {
        if iterations >= MAX_AGENT_ITERATIONS { return MaxTurns, turn, sent; }
        iterations := iterations + 1;
        if env.cancelled(turn) { return Cancelled, turn, sent; }
        sent := Sent(env, turn, messages);
        ghost var build := buildVerifyRetries;
        var end;
        end, retries := Turn(env, turn, retries);
        TurnEnds(cfg, env, turn, build, sent, messages, end);
        if end.Stopped? { return end.outcome, turn, sent; }
      }
      return MaxTurns, cfg.maxTurns + 1, sent;
    }
  }

  /** Requests up to turn `t` that did not fit. */
  function Overflows(env: Env, t: nat): nat {
    if t == 0 then 0 else Overflows(env, t - 1) + if env.reply(t).Overflow? then 1 else 0
  }

  /** How a turn that ran tools ends. */
  function EndAfterTools(cfg: Config, env: Env, turn: nat, calls: seq<ToolCall>, build: nat): TurnEnd {
    var answers := Answers(cfg, env, turn, calls);
    if Aborts(answers) then Stopped(Aborted)
    else if EndsTurn(answers) then Stopped(EndTurn(true))
    else if BuildFails(env, turn, calls) && RetriesAfter(env, turn, calls, build) > MAX_BUILD_VERIFY_RETRIES then Stopped(Failed(BuildStuck))
    else Completed
  }

  /** Some tool asked to end the turn. */
  ghost predicate AsksToEnd(cfg: Config, env: Env, t: nat, calls: seq<ToolCall>) {
    exists i :: 0 <= i < |calls| && var v := Answers(cfg, env, t, calls)[i].verdict; v.Ran? && v.endTurn
  }

  /** The only call of the turn panicked. */
  ghost predicate PanicsAlone(cfg: Config, env: Env, t: nat, calls: seq<ToolCall>) {
    |calls| == 1 && Answers(cfg, env, t, calls)[0].verdict == Panicked
  }

  ghost predicate AsksToEdit(env: Env, calls: seq<ToolCall>) {
    exists i :: 0 <= i < |calls| && env.editsRust(calls[i])
  }

  /** The turn calls for no end: the request failed, did not fit for at most the fifth time, or its tools went well. */
  ghost predicate GoesOn(cfg: Config, env: Env, t: nat) {
    && !env.cancelled(t)
    && match env.reply(t)
       case SendFailed(_) => true
       case Overflow => Overflows(env, t) <= 5
       case Said(calls, _) => calls != [] && !PanicsAlone(cfg, env, t, calls) && !AsksToEnd(cfg, env, t, calls)
       case _ => false
  }

  /** The outcome that turn `t` calls for, which was sent `sent` and left `messages`. */
  ghost predicate EndsAs(cfg: Config, env: Env, t: nat, sent: seq<Message>, messages: seq<Message>, outcome: Outcome) {
    if env.cancelled(t) then outcome == Cancelled
    else
      match env.reply(t)
      case CancelledWhileSending => outcome == Cancelled
      case BadChoice => outcome == Failed(NoMessage)
      case SendFailed(_) => false
      case Overflow =>
        && messages == env.compactHard(sent)
        && if |messages| >= |sent| then outcome == Failed(ContextOverflow)
           else outcome == Failed(CompactionRetries) && Overflows(env, t) == 6
      case Said(calls, text) =>
        if calls == [] then outcome == if text.Some? then EndTurn(false) else Failed(EmptyAnswer)
        else if PanicsAlone(cfg, env, t, calls) then outcome == Aborted
        else if AsksToEnd(cfg, env, t, calls) then outcome == EndTurn(true)
        else
          outcome == Failed(BuildStuck) && env.autoVerify && env.cargo(t) == CheckFailed && AsksToEdit(env, calls)
  }

  /** How one turn ends, as `Turn` says. */
  ghost predicate EndOfTurn(cfg: Config, env: Env, t: nat, build: nat, sent: seq<Message>, messages: seq<Message>, end: TurnEnd)
    requires t > 0
  {
    var reply := env.reply(t);
    && (reply.CancelledWhileSending? ==> end == Stopped(Cancelled))
    && (reply.Overflow? ==>
          && messages == env.compactHard(sent)
          && end == if |messages| >= |sent| then Stopped(Failed(ContextOverflow))
                    else if Overflows(env, t - 1) + 1 > MAX_COMPACTION_RETRIES then Stopped(Failed(CompactionRetries)) else Retried)
    && (reply.SendFailed? ==> end == Retried)
    && (reply.BadChoice? ==> end == Stopped(Failed(NoMessage)))
    && (reply.Said? && reply.calls == [] ==> end == Stopped(if reply.text.Some? then EndTurn(false) else Failed(EmptyAnswer)))
    && (reply.Said? && reply.calls != [] ==> end == EndAfterTools(cfg, env, t, reply.calls, build))
  }

  /** A turn either goes on or ends as it has to. */
  lemma TurnEnds(cfg: Config, env: Env, t: nat, build: nat, sent: seq<Message>, messages: seq<Message>, end: TurnEnd)
    requires t > 0 && !env.cancelled(t) && Overflows(env, t - 1) <= MAX_COMPACTION_RETRIES
    requires EndOfTurn(cfg, env, t, build, sent, messages, end)
    ensures if end.Stopped? then EndsAs(cfg, env, t, sent, messages, end.outcome) else GoesOn(cfg, env, t)
  {
    if env.reply(t).Said? {
      var calls := env.reply(t).calls;
      assert Aborts(Answers(cfg, env, t, calls)) <==> PanicsAlone(cfg, env, t, calls);
      assert EndsTurn(Answers(cfg, env, t, calls)) <==> AsksToEnd(cfg, env, t, calls);
    }
  }

  function MaxRequests(cfg: Config): nat {
    if cfg.maxTurns < 100 then cfg.maxTurns else 100
  }

  function RecordOf(cfg: Config, env: Env, turn: nat, calls: seq<ToolCall>, left: Option<TurnState>): TurnRecord {
    TurnRecord(calls, Answers(cfg, env, turn, calls), Filed(Answers(cfg, env, turn, calls)), left)
  }

  /** The count of failed builds: a build is checked only after a call that edits a Rust file; a failure counts, a good
      build starts again, and a check that was skipped counts as nothing. */
  lemma BuildCountExact(env: Env, turn: nat, calls: seq<ToolCall>, retries: nat)
    ensures var checked := env.autoVerify && exists i :: 0 <= i < |calls| && env.editsRust(calls[i]);
            RetriesAfter(env, turn, calls, retries)
            == if checked && env.cargo(turn) == CheckFailed then retries + 1
               else if checked && env.cargo(turn) == CheckOk then 0 else retries
  {}

  /** What is sent is the history, or a compaction of it that is shorter, cut to the budget. */
  lemma SentExact(env: Env, turn: nat, messages: seq<Message>)
    ensures env.compactFirst(turn) && |env.compact(messages)| < |messages| ==> Sent(env, turn, messages) == env.budget(env.compact(messages))
    ensures !env.compactFirst(turn) || |env.compact(messages)| >= |messages| ==> Sent(env, turn, messages) == env.budget(messages)
  {}

  /** The turn appended its record, with the state it left if it was completed. */
  ghost predicate Recorded(cfg: Config, env: Env, turn: nat, calls: seq<ToolCall>, before: seq<TurnRecord>, after: seq<TurnRecord>,
                           end: TurnEnd, state: TurnState) {
    var r := RecordOf(cfg, env, turn, calls, if end.Completed? then Some(state) else None);
    after == before + [r] && RecordOk(cfg, r)
  }

  /** The sixth failed build in a row stops the run, and nothing else lets the counter pass 5. */
  predicate BuildBounded(before: nat, after: nat, end: TurnEnd) {
    before <= MAX_BUILD_VERIFY_RETRIES ==>
      after <= MAX_BUILD_VERIFY_RETRIES + 1 && (end == Stopped(Failed(BuildStuck)) <==> after == MAX_BUILD_VERIFY_RETRIES + 1)
  }

  /** The history that is sent: compacted if that makes it shorter, then cut to the tool-result budget. */
  function Sent(env: Env, turn: nat, messages: seq<Message>): seq<Message> {
    env.budget(if env.compactFirst(turn) && |env.compact(messages)| < |messages| then env.compact(messages) else messages)
  }

  predicate BuildChecked(env: Env, calls: seq<ToolCall>) {
    env.autoVerify && exists i :: 0 <= i < |calls| && env.editsRust(calls[i])
  }

  predicate BuildFails(env: Env, turn: nat, calls: seq<ToolCall>) {
    BuildChecked(env, calls) && env.cargo(turn).CheckFailed?
  }

  function RetriesAfter(env: Env, turn: nat, calls: seq<ToolCall>, retries: nat): nat {
    if !BuildChecked(env, calls) then retries
    else match env.cargo(turn) case CheckOk => 0 case CheckSkipped => retries case CheckFailed => retries + 1
  }

  /** A turn adds one record that is in order, or none; a completed turn adds one with the state it left. */
  ghost predicate NewRecordOk(cfg: Config, before: seq<TurnRecord>, after: seq<TurnRecord>, end: TurnEnd, state: TurnState) {
    || (after == before && !end.Completed?)
    || (|after| == |before| + 1 && before <= after && RecordOk(cfg, after[|before|])
        && after[|before|].left == if end.Completed? then Some(state) else None)
  }

  lemma FiledRecordOk(cfg: Config, env: Env, turn: nat, calls: seq<ToolCall>, left: Option<TurnState>)
    requires left.Some? ==> Settled(left.value) && !Aborts(Answers(cfg, env, turn, calls))
    ensures RecordOk(cfg, RecordOf(cfg, env, turn, calls, left))
  {
    OneResultPerCall(cfg, env, turn, calls);
    AnswersPassGates(cfg, env, turn, calls);
  }

  lemma PickStep(answers: seq<Answer>, a: Answer)
    ensures forall gated :: Pick(answers + [a], gated) == Pick(answers, gated) + if a.verdict.Gated() == gated then [a] else []
  {
    assert (answers + [a])[..|answers|] == answers;
  }

  lemma EndsTurnStep(answers: seq<Answer>, a: Answer)
    ensures EndsTurn(answers + [a]) <==> EndsTurn(answers) || (a.verdict.Ran? && a.verdict.endTurn)
  {
    var more := answers + [a];
    assert more[|answers|] == a;
    if EndsTurn(answers) {
      var i :| 0 <= i < |answers| && answers[i].verdict.Ran? && answers[i].verdict.endTurn;
      assert more[i] == answers[i];
    }
  }
}
