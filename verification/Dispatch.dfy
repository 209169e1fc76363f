/** `pick_worker` and `dispatch_task` of crates/ff-agent/src/agent_coordinator.rs.

    The database and the LLM answer as they please: every pick reads an arbitrary snapshot of
    the tables, every claim and every release may fail, every run succeeds, fails or panics. `DispatchTask`
    writes a log of what it did, and its contract is about that log, for every environment. */
module Dispatch {
  import opened Options
  import opened SlotTables
  import Text

  datatype CoordError =
    | Db
    | Pulse
    | NoSlot(context: Option<string>)
    | UnknownComputer(name: string)
    | NoLlmServer
    | Http
    | EmptyResponse
    | Internal
  {
    /** Worth another try on another computer. */
    predicate IsTransient() { Http? || NoLlmServer? || EmptyResponse? }
  }

  datatype Computer = Computer(name: string, online: bool, llm: bool)

  datatype Snapshot = Unavailable | Rows(agents: map<Key, SubAgent>, computers: map<nat, Computer>)

  datatype PickReply = PickFailed(error: CoordError) | NoneIdle | Found(slot: Key, computer: string)

  // ----- pick_worker

  predicate Excluded(name: string, exclude: seq<string>) {
    exists i :: 0 <= i < |exclude| && Text.SameIgnoringCase(exclude[i], name)
  }

  predicate IdleOn(snap: Snapshot, computer: nat, k: Key) {
    snap.Rows? && k in snap.agents && snap.agents[k].status.Idle? && k.computer == computer
  }

  /** Idle, on a known computer that is not excluded. */
  predicate Eligible(snap: Snapshot, exclude: seq<string>, k: Key) {
    && snap.Rows? && k in snap.agents && snap.agents[k].status.Idle?
    && k.computer in snap.computers && snap.computers[k.computer].name !in exclude
  }

  /** A healthy tool-capable LLM first, then being online. */
  function Preference(snap: Snapshot, k: Key): int {
    if snap.Rows? && k.computer in snap.computers then
      (if snap.computers[k.computer].llm then 2 else 0) + (if snap.computers[k.computer].online then 1 else 0)
    else -1
  }

  /** The lowest idle slot of computer `c`. */
  ghost predicate PickOn(snap: Snapshot, c: nat, name: string, r: PickReply)
    requires snap.Rows?
  {
    && c in snap.computers && snap.computers[c].name == name && !r.PickFailed?
    && (r.NoneIdle? ==> forall j :: j in snap.agents && j.computer == c ==> snap.agents[j].status != Idle)
    && (r.Found? ==>
          && r.computer == name && r.slot in snap.agents && r.slot.computer == c && snap.agents[r.slot].status == Idle
          && forall j :: j in snap.agents && j.computer == c && snap.agents[j].status == Idle ==> r.slot.slot <= j.slot)
  }

  /** The slot is idle on a known computer that has not been tried. */
  ghost predicate Open(snap: Snapshot, exclude: seq<string>, j: Key)
    requires snap.Rows?
  {
    j in snap.agents && snap.agents[j].status == Idle && j.computer in snap.computers && snap.computers[j.computer].name !in exclude
  }

  /** An open slot of the fleet: one with a healthy tool-capable LLM if there is one, and among those one that is online
      if there is one. */
  ghost predicate PickAnywhere(snap: Snapshot, exclude: seq<string>, r: PickReply)
    requires snap.Rows?
  {
    && !r.PickFailed?
    && (r.NoneIdle? ==> forall j :: !Open(snap, exclude, j))
    && (r.Found? ==>
          && Open(snap, exclude, r.slot) && snap.computers[r.slot.computer].name == r.computer
          && forall j :: Open(snap, exclude, j) ==>
               var best, other := snap.computers[r.slot.computer], snap.computers[j.computer];
               (other.llm ==> best.llm) && (other.llm == best.llm && other.online ==> best.online))
  }

  predicate Known(snap: Snapshot, name: string)
    requires snap.Rows?
  {
    exists c :: c in snap.computers && snap.computers[c].name == name
  }

  ghost predicate PickOf(snap: Snapshot, target: Option<string>, exclude: seq<string>, r: PickReply) {
    if target.Some? && Excluded(target.value, exclude) then r == NoneIdle
    else if snap.Unavailable? then r == PickFailed(Db)
    else if target.None? then PickAnywhere(snap, exclude, r)
    else if !Known(snap, target.value) then r == PickFailed(UnknownComputer(target.value))
    else exists c :: PickOn(snap, c, target.value, r)
  }

  method BestOf(keys: set<Key>, score: Key -> int) returns (best: Key)
    requires keys != {}
    ensures best in keys && forall k :: k in keys ==> score(k) <= score(best)
  {
    best :| best in keys;
    var left := keys - {best};
    while left != {}
      invariant left <= keys && best in keys
      invariant forall k :: k in keys && k !in left ==> score(k) <= score(best)
      decreases |left|
    {
      var k :| k in left;
      if score(k) > score(best) { best := k; }
      left := left - {k};
    }
  }

  /** `pick_worker`. */
  method PickWorker(snap: Snapshot, target: Option<string>, exclude: seq<string>) returns (r: PickReply)
    ensures PickOf(snap, target, exclude, r)
  {
    match target
    case Some(name) =>
      if Excluded(name, exclude) { return NoneIdle; }
      if snap.Unavailable? { return PickFailed(Db); }
      if !Known(snap, name) { return PickFailed(UnknownComputer(name)); }
      var c :| c in snap.computers && snap.computers[c].name == name;
      var idle := set k | k in snap.agents && IdleOn(snap, c, k);
      assert forall j :: j in snap.agents && j.computer == c && snap.agents[j].status == Idle ==> j in idle;
      if idle == {} {
        assert PickOn(snap, c, name, NoneIdle);
        return NoneIdle;
      }
      var k := BestOf(idle, (key: Key) => -key.slot);
      assert PickOn(snap, c, name, Found(k, name));
      return Found(k, name);
    case None =>
      if snap.Unavailable? { return PickFailed(Db); }
      var idle := set k | k in snap.agents && Eligible(snap, exclude, k);
      assert forall j :: Open(snap, exclude, j) ==> j in idle;
      if idle == {} { return NoneIdle; }
      var k := BestOf(idle, (key: Key) => Preference(snap, key));
      return Found(k, snap.computers[k.computer].name);
  }

  lemma NotExcluded(name: string, exclude: seq<string>)
    requires !Excluded(name, exclude)
    ensures name !in exclude
  {
    forall i | 0 <= i < |exclude| ensures exclude[i] != name {
      assert Text.SameIgnoringCase(name, name);
    }
  }

  /** A pick never names a computer that was excluded. */
  lemma PickSkipsExcluded(snap: Snapshot, target: Option<string>, exclude: seq<string>, r: PickReply)
    requires PickOf(snap, target, exclude, r) && r.Found?
    ensures r.computer !in exclude
  {
    if target.Some? { NotExcluded(target.value, exclude); }
  }

  // ----- dispatch_task

  /** A claim that fails may still have been applied: the reply was lost. */
  datatype ClaimReply = Won | Lost | ClaimFailed(applied: bool)

  /** `InsertLost`: the output row was inserted, but the reply was lost. `RunPanicked`: the call ended in a panic,
      which unwinds the whole dispatch. */
  datatype RunReply = Persisted | InsertLost | RunFailed(error: CoordError) | RunPanicked

  datatype LlmReply = LlmFailed(error: CoordError) | Answered(text: string)

  datatype InsertReply = InsertOk | InsertApplied | InsertRefused

  datatype Event =
    | PickedNone
    | PickError(error: CoordError)
    | Claimed(slot: Key, reply: ClaimReply)
    | Ran(slot: Key, computer: string, result: RunReply)
    | Released(slot: Key, ok: bool, applied: bool)

  /** `Aborted`: the dispatch did not return but panicked. */
  datatype Outcome = Receipt(slot: Key, computer: string) | Failed(error: CoordError) | Aborted

  /** `release`: whether the release of an attempt is applied; its failure is only logged. */
  datatype Env = Env(snapshot: (nat, nat) -> Snapshot, claim: (nat, nat) -> ClaimReply, llm: nat -> LlmReply,
                     insert: nat -> InsertReply, release: nat -> bool)

  const MAX_LLM_ATTEMPTS := 3
  const MAX_CLAIM_ATTEMPTS := 8

  // ----- run_and_persist

  /** Length of a character in UTF-8. */
  function Width(c: char): (n: nat)
    ensures 1 <= n <= 4
  {
    var u := c as int;
    if u < 0x80 then 1 else if u < 0x800 then 2 else if u < 0x1_0000 then 3 else 4
  }

  function Bytes(s: string): nat {
    if s == [] then 0 else Width(s[0]) + Bytes(s[1..])
  }

  /** The characters in the first `n` bytes; none if byte `n` is not the start of a character. */
  function FirstBytes(s: string, n: nat): Option<string> {
    if n == 0 then Some([])
    else if s == [] || Width(s[0]) > n then None
    else
      var rest := FirstBytes(s[1..], n - Width(s[0]));
      if rest.Some? then Some([s[0]] + rest.value) else None
  }

  /** `truncate`; none if it panics. */
  function Truncate(s: string, max: nat): Option<string> {
    if Bytes(s) <= max then Some(s)
    else
      var cut := FirstBytes(s, max);
      if cut.Some? then Some(cut.value + [0x2026 as char]) else None
  }

  /** `run_and_persist`. Both texts are cut after the LLM has answered and before the row is inserted. */
  function RunAndPersist(prompt: string, llm: LlmReply, insert: InsertReply): RunReply {
    match llm
    case LlmFailed(e) => RunFailed(e)
    case Answered(text) =>
      if text == [] then RunFailed(EmptyResponse)
      else if Truncate(prompt, 80).None? || Truncate(text, 400).None? then RunPanicked
      else match insert case InsertOk => Persisted case InsertApplied => InsertLost case InsertRefused => RunFailed(Db)
  }

  /** Some prefix of the text has exactly `n` bytes. */
  ghost predicate Boundary(s: string, n: nat) {
    exists k :: 0 <= k <= |s| && Bytes(s[..k]) == n
  }

  /** The text fits, or byte `max` is the start of a character. */
  ghost predicate CutsCleanly(s: string, max: nat) {
    Bytes(s) <= max || Boundary(s, max)
  }

  lemma BytesHead(s: string, k: nat)
    requires 0 < k <= |s|
    ensures Bytes(s[..k]) == Width(s[0]) + Bytes(s[1..][..k - 1])
  {
    assert s[..k][0] == s[0] && s[..k][1..] == s[1..][..k - 1];
  }

  /** Every outcome of a run that does not panic. */
  lemma RunOutcomes(prompt: string, llm: LlmReply, insert: InsertReply)
    ensures var r := RunAndPersist(prompt, llm, insert);
            && (llm.LlmFailed? ==> r == RunFailed(llm.error)) && (llm.Answered? && llm.text == [] ==> r == RunFailed(EmptyResponse))
            && (llm.Answered? && llm.text != [] && CutsCleanly(prompt, 80) && CutsCleanly(llm.text, 400) ==>
                  && (r == Persisted <==> insert == InsertOk) && (r == InsertLost <==> insert == InsertApplied)
                  && (r == RunFailed(Db) <==> insert == InsertRefused))
  {
    PanicsExactly(prompt, llm, insert);
  }

  lemma {:induction false} FirstBytesExact(s: string, n: nat)
    ensures FirstBytes(s, n).Some? <==> Boundary(s, n)
    ensures FirstBytes(s, n).Some? ==> FirstBytes(s, n).value <= s && Bytes(FirstBytes(s, n).value) == n
  {
    if n == 0 {
      assert Bytes(s[..0]) == 0;
    } else if s != [] {
      if Width(s[0]) <= n { FirstBytesExact(s[1..], n - Width(s[0])); }
      forall k | 0 <= k <= |s| && Bytes(s[..k]) == n ensures FirstBytes(s, n).Some? {
        BytesHead(s, k);
        assert Bytes(s[1..][..k - 1]) == n - Width(s[0]);
      }
      if FirstBytes(s, n).Some? { CutHead(s, n); }
    }
  }

  lemma CutHead(s: string, n: nat)
    requires s != [] && 0 < Width(s[0]) <= n && FirstBytes(s[1..], n - Width(s[0])).Some?
    requires var rest := FirstBytes(s[1..], n - Width(s[0])).value; rest <= s[1..] && Bytes(rest) == n - Width(s[0])
    ensures FirstBytes(s, n).Some? && FirstBytes(s, n).value <= s && Bytes(FirstBytes(s, n).value) == n && Boundary(s, n)
  {
    var cut := FirstBytes(s, n).value;
    assert cut[1..] == FirstBytes(s[1..], n - Width(s[0])).value;
    assert cut == s[..|cut|];
  }

  /** The exact condition of the panic: the LLM answered, and the 80th byte of the prompt or the 400th of the answer
      falls inside a character. */
  lemma PanicsExactly(prompt: string, llm: LlmReply, insert: InsertReply)
    ensures RunAndPersist(prompt, llm, insert).RunPanicked?
       <==> && llm.Answered? && llm.text != []
            && (!CutsCleanly(prompt, 80) || !CutsCleanly(llm.text, 400))
  {
    FirstBytesExact(prompt, 80);
    if llm.Answered? { FirstBytesExact(llm.text, 400); }
  }

  function RunError(r: RunReply): CoordError
    requires !r.Persisted? && !r.RunPanicked?
  {
    if r.InsertLost? then Db else r.error
  }

  /** The computers of the runs, in order. */
  function Computers(log: seq<Event>): seq<string> {
    if log == [] then []
    else
      var last := log[|log| - 1];
      Computers(log[..|log| - 1]) + if last.Ran? then [last.computer] else []
  }

  datatype Tally = Claims | Wins | Applied | Runs | Outputs | Releases | Freed | Refused

  predicate Counts(tally: Tally, e: Event) {
    match tally
    case Claims => e.Claimed?
    case Wins => e.Claimed? && e.reply.Won?
    case Applied => e.Claimed? && (e.reply.Won? || e.reply == ClaimFailed(true))
    case Runs => e.Ran?
    case Outputs => e.Ran? && (e.result.Persisted? || e.result.InsertLost?)
    case Releases => e.Released?
    case Freed => e.Released? && e.applied
    case Refused => e.Released? && !e.applied
  }

  function Count(log: seq<Event>, tally: Tally): nat {
    if log == [] then 0 else Count(log[..|log| - 1], tally) + if Counts(tally, log[|log| - 1]) then 1 else 0
  }

  /** Every claim that was won is followed at once by the run on that slot and by the release of
      that slot, as usable unless the run failed for good; nothing else runs or releases. */
  ghost predicate Bracketed(log: seq<Event>)
    decreases |log|
  {
    var n := |log|;
    log == []
    || (log[n - 1].Released? && n >= 3 && EndsWithSession(log) && Bracketed(log[..n - 3]))
    || (!log[n - 1].Released? && !log[n - 1].Ran? && !(log[n - 1].Claimed? && log[n - 1].reply.Won?) && Bracketed(log[..n - 1]))
  }

  predicate EndsWithSession(log: seq<Event>)
    requires |log| >= 3
  {
    var a, b, c := log[|log| - 3], log[|log| - 2], log[|log| - 1];
    && b.Ran? && !b.result.RunPanicked? && a == Claimed(b.slot, Won)
    && c.Released? && c.slot == b.slot && c.ok == SlotFine(b.result)
  }

  /** A claim that was won and a run that panicked: no release follows. */
  predicate EndsWithPanic(log: seq<Event>) {
    |log| >= 2 && log[|log| - 1].Ran? && log[|log| - 1].result.RunPanicked? && log[|log| - 2] == Claimed(log[|log| - 1].slot, Won)
  }

  /** The log without the session that a panic cut off. */
  function Closed(log: seq<Event>): seq<Event> {
    if EndsWithPanic(log) then log[..|log| - 2] else log
  }

  /** The failures after which another computer is tried. */
  predicate MayRetry(r: RunReply) {
    r == RunFailed(Http) || r == RunFailed(NoLlmServer) || r == RunFailed(EmptyResponse)
  }

  predicate SlotFine(r: RunReply) {
    r.Persisted? || MayRetry(r)
  }

  /** Only a failure the caller may retry lets the dispatch go on. */
  ghost predicate OnlyTransientSoFar(log: seq<Event>) {
    forall i :: 0 <= i < |log| ==>
      match log[i]
      case Claimed(_, reply) => !reply.ClaimFailed?
      case Ran(_, _, reply) => MayRetry(reply)
      case Released(_, _, _) => true
      case _ => false
  }

  /** The error of the last run, if there was one. */
  function LastRunError(log: seq<Event>): Option<CoordError> {
    if log == [] then None
    else
      var last := log[|log| - 1];
      if last.Ran? && !last.result.Persisted? && !last.result.RunPanicked? then Some(RunError(last.result))
      else LastRunError(log[..|log| - 1])
  }

  /** What the caller is told, read off the last events. */
  ghost predicate Explains(log: seq<Event>, target: Option<string>, outcome: Outcome) {
    log != [] && var last := log[|log| - 1];
    match last
    case PickedNone =>
      var e := LastRunError(log);
      outcome == Failed(if e.Some? then e.value else NoSlot(target))
    case PickError(e) => outcome == Failed(e)
    case Claimed(_, reply) => outcome.Failed? && if reply.Lost? then outcome.error.NoSlot? else outcome.error == Db
    case Released(_, _, _) =>
      && |log| >= 2 && log[|log| - 2].Ran? && !log[|log| - 2].result.RunPanicked?
      && var run := log[|log| - 2];
         && (run.result == Persisted ==> outcome == Receipt(run.slot, run.computer))
         && (run.result == InsertLost ==> outcome == Failed(Db))
         && (run.result.RunFailed? ==> outcome == Failed(run.result.error))
    case Ran(_, _, reply) => reply.RunPanicked? && outcome == Aborted
  }

  lemma CountStep(log: seq<Event>, e: Event, tally: Tally)
    ensures Count(log + [e], tally) == Count(log, tally) + if Counts(tally, e) then 1 else 0
  {
    assert (log + [e])[..|log|] == log;
  }

  lemma ComputersStep(log: seq<Event>, e: Event)
    ensures Computers(log + [e]) == Computers(log) + if e.Ran? then [e.computer] else []
  {
    assert (log + [e])[..|log|] == log;
  }

  lemma LastErrorStep(log: seq<Event>, e: Event)
    ensures LastRunError(log + [e])
         == if e.Ran? && !e.result.Persisted? && !e.result.RunPanicked? then Some(RunError(e.result)) else LastRunError(log)
  {
    assert (log + [e])[..|log|] == log;
  }

  /** Lost claims at the end of the log. */
  function LostRun(log: seq<Event>): nat {
    if log != [] && log[|log| - 1].Claimed? && log[|log| - 1].reply.Lost? then 1 + LostRun(log[..|log| - 1]) else 0
  }

  /** Event `p` is what the environment answered to the pick, the claim, the run or the release that was due: attempt
      number and try number are counted from the log. */
  ghost predicate EventOk(log: seq<Event>, p: nat, target: Option<string>, prompt: string, env: Env)
    requires p < |log|
  {
    var before := log[..p];
    var a, k, tried := Count(before, Runs), LostRun(before), Computers(before);
    match log[p]
    case PickedNone => PickOf(env.snapshot(a, k), target, tried, NoneIdle)
    case PickError(e) => PickOf(env.snapshot(a, k), target, tried, PickFailed(e))
    case Claimed(slot, reply) =>
      reply == env.claim(a, k) && exists computer :: PickOf(env.snapshot(a, k), target, tried, Found(slot, computer))
    case Ran(slot, computer, result) =>
      && p > 0 && log[p - 1] == Claimed(slot, Won) && result == RunAndPersist(prompt, env.llm(a), env.insert(a))
      && PickOf(env.snapshot(a, LostRun(log[..p - 1])), target, tried, Found(slot, computer))
    case Released(_, _, applied) => a > 0 && applied == env.release(a - 1)
  }

  ghost predicate Obeys(log: seq<Event>, target: Option<string>, prompt: string, env: Env) {
    forall p :: 0 <= p < |log| ==> EventOk(log, p, target, prompt, env)
  }

  /** The dispatch does not give up early: a failure that may be retried is final only after three runs, and lost claims
      only after eight of them in a row; before that nothing but these happens. */
  ghost predicate Persistent(log: seq<Event>) {
    && (|log| >= 2 && log[|log| - 1].Released? && log[|log| - 2].Ran?
        && (log[|log| - 2].result == RunFailed(Http) || log[|log| - 2].result == RunFailed(NoLlmServer)
            || log[|log| - 2].result == RunFailed(EmptyResponse))
        ==> Count(log, Runs) == 3)
    && (log != [] && log[|log| - 1].Claimed? && log[|log| - 1].reply.Lost? ==> LostRun(log) == 8)
    && (forall p :: 0 <= p < |log| - 1 ==> !log[p].PickedNone? && !log[p].PickError?)
    && (forall p :: 0 <= p < |log| - 2 && log[p].Ran? ==>
          log[p].result == RunFailed(Http) || log[p].result == RunFailed(NoLlmServer) || log[p].result == RunFailed(EmptyResponse))
  }

  lemma ObeysSnoc(log: seq<Event>, e: Event, target: Option<string>, prompt: string, env: Env)
    requires Obeys(log, target, prompt, env) && EventOk(log + [e], |log|, target, prompt, env)
    ensures Obeys(log + [e], target, prompt, env)
  {
    var log' := log + [e];
    forall p | 0 <= p < |log'| ensures EventOk(log', p, target, prompt, env) {
      if p < |log| {
        assert EventOk(log, p, target, prompt, env);
        assert log'[..p] == log[..p] && log'[p] == log[p];
        if p > 0 { assert log'[..p - 1] == log[..p - 1]; }
      }
    }
  }

  lemma LostStep(log: seq<Event>, e: Event)
    ensures LostRun(log + [e]) == if e.Claimed? && e.reply.Lost? then LostRun(log) + 1 else 0
  {
    assert (log + [e])[..|log|] == log;
  }

  lemma {:induction false} RunsAreComputers(log: seq<Event>)
    ensures Count(log, Runs) == |Computers(log)|
  {
    if log != [] { RunsAreComputers(log[..|log| - 1]); }
  }

  /** An event that answers the pick or the claim that is due. */
  lemma ObeysPick(log: seq<Event>, e: Event, a: nat, k: nat, target: Option<string>, prompt: string, env: Env, r: PickReply)
    requires Obeys(log, target, prompt, env) && Count(log, Runs) == a && LostRun(log) == k
    requires PickOf(env.snapshot(a, k), target, Computers(log), r)
    requires match r
             case PickFailed(error) => e == PickError(error)
             case NoneIdle => e == PickedNone
             case Found(slot, _) => e == Claimed(slot, env.claim(a, k))
    ensures Obeys(log + [e], target, prompt, env)
  {
    assert (log + [e])[..|log|] == log;
    ObeysSnoc(log, e, target, prompt, env);
  }

  /** A claim that is won, and its run. */
  lemma ObeysRun(log: seq<Event>, a: nat, slot: Key, computer: string, target: Option<string>, prompt: string, env: Env)
    requires Obeys(log, target, prompt, env) && Count(log, Runs) == a && env.claim(a, LostRun(log)) == Won
    requires PickOf(env.snapshot(a, LostRun(log)), target, Computers(log), Found(slot, computer))
    ensures var run := Ran(slot, computer, RunAndPersist(prompt, env.llm(a), env.insert(a)));
            Obeys(log + [Claimed(slot, Won)] + [run], target, prompt, env)
  {
    var run := Ran(slot, computer, RunAndPersist(prompt, env.llm(a), env.insert(a)));
    var claimed := log + [Claimed(slot, Won)];
    ObeysPick(log, Claimed(slot, Won), a, LostRun(log), target, prompt, env, Found(slot, computer));
    CountStep(log, Claimed(slot, Won), Runs);
    ComputersStep(log, Claimed(slot, Won));
    var both := claimed + [run];
    assert both[..|claimed|] == claimed && both[..|claimed| - 1] == log;
    ObeysSnoc(claimed, run, target, prompt, env);
  }

  lemma ObeysRelease(log: seq<Event>, run: Event, a: nat, slot: Key, ok: bool, target: Option<string>, prompt: string, env: Env)
    requires Obeys(log + [run], target, prompt, env) && run.Ran? && Count(log, Runs) == a
    ensures Obeys(log + [run] + [Released(slot, ok, env.release(a))], target, prompt, env)
  {
    var ran := log + [run];
    CountStep(log, run, Runs);
    assert (ran + [Released(slot, ok, env.release(a))])[..|ran|] == ran;
    ObeysSnoc(ran, Released(slot, ok, env.release(a)), target, prompt, env);
  }

  /** What holds of the log while the loops run. */
  ghost predicate Going(log: seq<Event>, tries: nat, excluded: seq<string>, last: Option<CoordError>) {
    && Bracketed(log) && OnlyTransientSoFar(log)
    && Count(log, Claims) <= tries && Count(log, Outputs) == 0
    && excluded == Computers(log) && Distinct(excluded)
    && last == LastRunError(log)
  }

  lemma TransientLost(log: seq<Event>, slot: Key)
    requires OnlyTransientSoFar(log)
    ensures OnlyTransientSoFar(log + [Claimed(slot, Lost)])
  {}

  lemma LogLost(log: seq<Event>, tries: nat, excluded: seq<string>, last: Option<CoordError>, slot: Key)
    requires Going(log, tries, excluded, last)
    ensures Going(log + [Claimed(slot, Lost)], tries + 1, excluded, last)
  {
    var e := Claimed(slot, Lost);
    TransientLost(log, slot);
    CountStep(log, e, Claims);
    CountStep(log, e, Outputs);
    ComputersStep(log, e);
    LastErrorStep(log, e);
    QuietBracketed(log, e);
  }

  function Session(log: seq<Event>, slot: Key, computer: string, reply: RunReply, applied: bool): seq<Event>
    requires !reply.RunPanicked?
  {
    log + [Claimed(slot, Won)] + [Ran(slot, computer, reply)] + [Released(slot, SlotFine(reply), applied)]
  }

  /** A claim and a run at the end of the log. */
  lemma LogRun(log: seq<Event>, tries: nat, excluded: seq<string>, last: Option<CoordError>,
               slot: Key, computer: string, reply: RunReply)
    requires Going(log, tries, excluded, last) && computer !in excluded
    ensures var log' := log + [Claimed(slot, Won)] + [Ran(slot, computer, reply)];
            && Count(log', Claims) <= tries + 1
            && Count(log', Outputs) == (if reply.Persisted? || reply.InsertLost? then 1 else 0)
            && Computers(log') == excluded + [computer] && Distinct(Computers(log'))
            && LastRunError(log') == (if reply.Persisted? || reply.RunPanicked? then last else Some(RunError(reply)))
  {
    var a, b := Claimed(slot, Won), Ran(slot, computer, reply);
    CountStep(log, a, Claims);
    CountStep(log + [a], b, Claims);
    CountStep(log, a, Outputs);
    CountStep(log + [a], b, Outputs);
    ComputersStep(log, a);
    ComputersStep(log + [a], b);
    LastErrorStep(log, a);
    LastErrorStep(log + [a], b);
  }

  /** A whole claim, run and release at the end of the log. */
  lemma LogSession(log: seq<Event>, tries: nat, excluded: seq<string>, last: Option<CoordError>,
                   slot: Key, computer: string, reply: RunReply, applied: bool)
    requires Going(log, tries, excluded, last) && computer !in excluded && !reply.RunPanicked?
    ensures var log' := Session(log, slot, computer, reply, applied);
            && Bracketed(log')
            && Count(log', Claims) <= tries + 1
            && Count(log', Outputs) == (if reply.RunFailed? then 0 else 1)
            && Computers(log') == excluded + [computer] && Distinct(Computers(log'))
            && LastRunError(log') == (if reply.Persisted? then last else Some(RunError(reply)))
            && (MayRetry(reply) ==> OnlyTransientSoFar(log'))
  {
    LogRun(log, tries, excluded, last, slot, computer, reply);
    var log1, c := log + [Claimed(slot, Won)] + [Ran(slot, computer, reply)], Released(slot, SlotFine(reply), applied);
    CountStep(log1, c, Claims);
    CountStep(log1, c, Outputs);
    ComputersStep(log1, c);
    LastErrorStep(log1, c);
    SessionBracketed(log, slot, computer, reply, applied);
  }

  lemma SessionBracketed(log: seq<Event>, slot: Key, computer: string, reply: RunReply, applied: bool)
    requires Bracketed(log) && !reply.RunPanicked?
    ensures Bracketed(Session(log, slot, computer, reply, applied))
  {
    var log' := Session(log, slot, computer, reply, applied);
    assert log'[..|log|] == log && |log'| == |log| + 3;
  }

  lemma QuietBracketed(log: seq<Event>, e: Event)
    requires Bracketed(log) && !e.Released? && !e.Ran? && !(e.Claimed? && e.reply.Won?)
    ensures Bracketed(log + [e])
  {
    assert (log + [e])[..|log|] == log;
  }

  /** Main result for one dispatch. Each claim won was run, and on every return path released
      exactly once, at most 3 runs and 24 claims were made, no computer was asked twice, one output
      row was inserted if the caller got a receipt and none otherwise (except for an insert whose
      reply was lost), and the outcome is the one the log explains. */
  ghost predicate DispatchContract(log: seq<Event>, target: Option<string>, outcome: Outcome) {
    && Bracketed(Closed(log)) && (outcome.Aborted? <==> EndsWithPanic(log))
    && |Computers(log)| <= MAX_LLM_ATTEMPTS && Distinct(Computers(log))
    && Count(log, Claims) <= MAX_LLM_ATTEMPTS * MAX_CLAIM_ATTEMPTS
    && Explains(log, target, outcome)
    && FailsOnlyAtEnd(log)
    && (outcome.Receipt? ==> Count(log, Outputs) == 1)
    && (outcome.Failed? ==> Count(log, Outputs) == if EndsWithLostInsert(log) then 1 else 0)
    && (outcome.Aborted? ==> Count(log, Outputs) == 0)
  }

  /** A claim that fails ends the dispatch. */
  ghost predicate FailsOnlyAtEnd(log: seq<Event>) {
    forall i :: 0 <= i < |log| - 1 ==> !(log[i].Claimed? && log[i].reply.ClaimFailed?)
  }

  /** The last claim was applied, but its reply was lost. */
  predicate EndsWithLostClaim(log: seq<Event>) {
    log != [] && log[|log| - 1].Claimed? && log[|log| - 1].reply == ClaimFailed(true)
  }

  predicate EndsWithLostInsert(log: seq<Event>) {
    |log| >= 2 && log[|log| - 2].Ran? && log[|log| - 2].result.InsertLost?
  }

  /** An event other than a run leaves the outputs, the computers and the last error. */
  lemma QuietCounts(log: seq<Event>, e: Event)
    requires !e.Ran?
    ensures Count(log + [e], Outputs) == Count(log, Outputs) && Count(log + [e], Claims) <= Count(log, Claims) + 1
    ensures Computers(log + [e]) == Computers(log) && LastRunError(log + [e]) == LastRunError(log)
  {
    CountStep(log, e, Claims);
    CountStep(log, e, Outputs);
    ComputersStep(log, e);
    LastErrorStep(log, e);
  }

  /** The last event of a dispatch that did not reach the LLM again. */
  lemma EndsEarly(log: seq<Event>, tries: nat, excluded: seq<string>, last: Option<CoordError>,
                  e: Event, target: Option<string>, outcome: Outcome)
    requires Going(log, tries, excluded, last) && |excluded| <= MAX_LLM_ATTEMPTS
    requires e.PickedNone? || e.PickError? || (e.Claimed? && e.reply.ClaimFailed?)
    requires tries + 1 <= MAX_LLM_ATTEMPTS * MAX_CLAIM_ATTEMPTS
    requires e.PickedNone? ==> outcome == Failed(if last.Some? then last.value else NoSlot(target))
    requires e.PickError? ==> outcome == Failed(e.error)
    requires e.Claimed? ==> outcome == Failed(Db)
    ensures DispatchContract(log + [e], target, outcome)
  {
    var log' := log + [e];
    QuietCounts(log, e);
    QuietBracketed(log, e);
    assert log'[|log'| - 1] == e && Closed(log') == log';
    assert Explains(log', target, outcome);
    assert FailsOnlyAtEnd(log') && !EndsWithLostInsert(log') by { EarlyShape(log, e); }
  }

  lemma EarlyShape(log: seq<Event>, e: Event)
    requires OnlyTransientSoFar(log) && Bracketed(log) && !e.Ran?
    ensures FailsOnlyAtEnd(log + [e]) && !EndsWithLostInsert(log + [e])
  {
    if log != [] { assert !log[|log| - 1].Ran?; }
  }

  /** The pool was contended: every claim of the last round was lost. */
  lemma EndsContended(log: seq<Event>, tries: nat, excluded: seq<string>, last: Option<CoordError>,
                      target: Option<string>, context: Option<string>)
    requires Going(log, tries, excluded, last) && |excluded| <= MAX_LLM_ATTEMPTS
    requires tries <= MAX_LLM_ATTEMPTS * MAX_CLAIM_ATTEMPTS
    requires log != [] && log[|log| - 1].Claimed? && log[|log| - 1].reply.Lost?
    ensures DispatchContract(log, target, Failed(NoSlot(context)))
  {
    assert |log| >= 2 && log[|log| - 2].Ran? ==> !log[|log| - 2].result.InsertLost?;
  }

  /** After a run the dispatch is over, or it may go on with another computer. */
  lemma SessionEnds(log: seq<Event>, attempt: nat, excluded: seq<string>, last: Option<CoordError>,
                    slot: Key, computer: string, reply: RunReply, applied: bool, target: Option<string>)
    requires attempt < MAX_LLM_ATTEMPTS && |excluded| == attempt && computer !in excluded && !reply.RunPanicked?
    requires Going(log, (attempt + 1) * MAX_CLAIM_ATTEMPTS - 1, excluded, last)
    ensures var log' := Session(log, slot, computer, reply, applied);
            && (reply.Persisted? ==> DispatchContract(log', target, Receipt(slot, computer)))
            && (!reply.Persisted? ==> DispatchContract(log', target, Failed(RunError(reply))))
            && (MayRetry(reply)
                ==> Going(log', (attempt + 1) * MAX_CLAIM_ATTEMPTS, excluded + [computer], Some(RunError(reply))))
  {
    LogSession(log, (attempt + 1) * MAX_CLAIM_ATTEMPTS - 1, excluded, last, slot, computer, reply, applied);
    var log' := Session(log, slot, computer, reply, applied);
    assert log'[|log'| - 1] == Released(slot, SlotFine(reply), applied) && log'[|log'| - 2] == Ran(slot, computer, reply);
  }

  /** A panic ends the dispatch where it is. */
  lemma PanicEnds(log: seq<Event>, attempt: nat, excluded: seq<string>, last: Option<CoordError>,
                  slot: Key, computer: string, target: Option<string>)
    requires attempt < MAX_LLM_ATTEMPTS && |excluded| == attempt && computer !in excluded
    requires Going(log, (attempt + 1) * MAX_CLAIM_ATTEMPTS - 1, excluded, last)
    ensures DispatchContract(log + [Claimed(slot, Won)] + [Ran(slot, computer, RunPanicked)], target, Aborted)
  {
    LogRun(log, (attempt + 1) * MAX_CLAIM_ATTEMPTS - 1, excluded, last, slot, computer, RunPanicked);
    PanicShape(log, slot, computer, target);
  }

  lemma PanicShape(log: seq<Event>, slot: Key, computer: string, target: Option<string>)
    requires OnlyTransientSoFar(log)
    ensures var log' := log + [Claimed(slot, Won)] + [Ran(slot, computer, RunPanicked)];
            EndsWithPanic(log') && Closed(log') == log && FailsOnlyAtEnd(log') && Explains(log', target, Aborted)
  {
    var log' := log + [Claimed(slot, Won)] + [Ran(slot, computer, RunPanicked)];
    assert log'[..|log'| - 2] == log;
    forall i | 0 <= i < |log| ensures log'[i] == log[i] {}
  }

  datatype Try = Taken(slot: Key, computer: string) | GiveUp(error: CoordError) | Again

  /** One pick and one claim. */
  method ClaimOnce(target: Option<string>, env: Env, attempt: nat, k: nat, log0: seq<Event>,
                   excluded: seq<string>, last: Option<CoordError>, ghost prompt: string)
    returns (log: seq<Event>, t: Try)
    requires attempt < MAX_LLM_ATTEMPTS && k < MAX_CLAIM_ATTEMPTS && |excluded| == attempt
    requires Going(log0, attempt * MAX_CLAIM_ATTEMPTS + k, excluded, last)
    requires Obeys(log0, target, prompt, env) && LostRun(log0) == k
    ensures Obeys(log, target, prompt, env)
    ensures t.Taken? ==>
      && log == log0 && t.computer !in excluded && env.claim(attempt, k) == Won
      && PickOf(env.snapshot(attempt, k), target, excluded, Found(t.slot, t.computer))
    ensures t.GiveUp? ==> DispatchContract(log, target, Failed(t.error)) && Persistent(log)
    ensures t.Again? ==>
      && Going(log, attempt * MAX_CLAIM_ATTEMPTS + k + 1, excluded, last) && LostRun(log) == k + 1
      && log != [] && log[|log| - 1].Claimed? && log[|log| - 1].reply.Lost?
  {
    var candidate := PickWorker(env.snapshot(attempt, k), target, excluded);
    var reply := env.claim(attempt, k);
    RunsAreComputers(log0);
    if candidate.PickFailed? || candidate.NoneIdle? || reply.ClaimFailed? {
      var e := if candidate.PickFailed? then PickError(candidate.error)
               else if candidate.NoneIdle? then PickedNone
               else Claimed(candidate.slot, reply);
      var error := if candidate.PickFailed? then candidate.error
                   else if candidate.NoneIdle? then (if last.Some? then last.value else NoSlot(target))
                   else Db;
      EndsEarly(log0, attempt * MAX_CLAIM_ATTEMPTS + k, excluded, last, e, target, Failed(error));
      ObeysPick(log0, e, attempt, k, target, prompt, env, candidate);
      EndsPersistent(log0, e);
      return log0 + [e], GiveUp(error);
    }
    if reply.Won? {
      PickSkipsExcluded(env.snapshot(attempt, k), target, excluded, candidate);
      return log0, Taken(candidate.slot, candidate.computer);
    }
    LogLost(log0, attempt * MAX_CLAIM_ATTEMPTS + k, excluded, last, candidate.slot);
    LostStep(log0, Claimed(candidate.slot, Lost));
    ObeysPick(log0, Claimed(candidate.slot, Lost), attempt, k, target, prompt, env, candidate);
    return log0 + [Claimed(candidate.slot, Lost)], Again;
  }

  /** A log that goes on may end with any event other than a lost claim or a release. */
  lemma EndsPersistent(log: seq<Event>, e: Event)
    requires OnlyTransientSoFar(log) && !e.Released? && !(e.Claimed? && e.reply.Lost?)
    ensures Persistent(log + [e])
  {
    var log' := log + [e];
    forall p | 0 <= p < |log| ensures log'[p] == log[p] {}
  }

  lemma SessionPersistent(log: seq<Event>, slot: Key, computer: string, reply: RunReply, applied: bool)
    requires OnlyTransientSoFar(log) && !reply.RunPanicked? && (MayRetry(reply) ==> Count(log, Runs) == 2)
    ensures Persistent(Session(log, slot, computer, reply, applied))
  {
    var log' := Session(log, slot, computer, reply, applied);
    CountStep(log, Claimed(slot, Won), Runs);
    CountStep(log + [Claimed(slot, Won)], Ran(slot, computer, reply), Runs);
    CountStep(log + [Claimed(slot, Won)] + [Ran(slot, computer, reply)], Released(slot, SlotFine(reply), applied), Runs);
    forall p | 0 <= p < |log| ensures log'[p] == log[p] {}
  }

  lemma PanicPersistent(log: seq<Event>, slot: Key, computer: string)
    requires OnlyTransientSoFar(log)
    ensures Persistent(log + [Claimed(slot, Won)] + [Ran(slot, computer, RunPanicked)])
  {
    var log' := log + [Claimed(slot, Won)] + [Ran(slot, computer, RunPanicked)];
    forall p | 0 <= p < |log| ensures log'[p] == log[p] {}
  }

  lemma LostPersistent(log: seq<Event>)
    requires OnlyTransientSoFar(log) && LostRun(log) == 8
    ensures Persistent(log)
  {}

  lemma GoingWiden(log: seq<Event>, tries: nat, tries': nat, excluded: seq<string>, last: Option<CoordError>)
    requires Going(log, tries, excluded, last) && tries <= tries'
    ensures Going(log, tries', excluded, last)
  {}

  /** The inner loop: pick and claim until a claim is won, at most eight times. */
  method ClaimSome(target: Option<string>, env: Env, attempt: nat, log0: seq<Event>, excluded: seq<string>,
                   last: Option<CoordError>, ghost prompt: string)
    returns (log: seq<Event>, t: Try)
    requires attempt < MAX_LLM_ATTEMPTS && |excluded| == attempt
    requires Going(log0, attempt * MAX_CLAIM_ATTEMPTS, excluded, last) && Obeys(log0, target, prompt, env) && LostRun(log0) == 0
    ensures !t.Again? && Obeys(log, target, prompt, env)
    ensures t.Taken? ==>
      && t.computer !in excluded && Going(log, (attempt + 1) * MAX_CLAIM_ATTEMPTS - 1, excluded, last)
      && env.claim(attempt, LostRun(log)) == Won
      && PickOf(env.snapshot(attempt, LostRun(log)), target, excluded, Found(t.slot, t.computer))
    ensures t.GiveUp? ==> DispatchContract(log, target, Failed(t.error)) && Persistent(log)
  {
    log := log0;
    for k := 0 to MAX_CLAIM_ATTEMPTS
      invariant Going(log, attempt * MAX_CLAIM_ATTEMPTS + k, excluded, last)
      invariant Obeys(log, target, prompt, env) && LostRun(log) == k
      invariant k > 0 ==> log != [] && log[|log| - 1].Claimed? && log[|log| - 1].reply.Lost?
    {
      ghost var tries := attempt * MAX_CLAIM_ATTEMPTS + k;
      log, t := ClaimOnce(target, env, attempt, k, log, excluded, last, prompt);
      if !t.Again? {
        if t.Taken? { GoingWiden(log, tries, (attempt + 1) * MAX_CLAIM_ATTEMPTS - 1, excluded, last); }
        return;
      }
    }
    var context := Some("all idle slots lost to concurrent dispatchers");
    EndsContended(log, (attempt + 1) * MAX_CLAIM_ATTEMPTS, excluded, last, target, context);
    LostPersistent(log);
    t := GiveUp(NoSlot(context));
  }

  /** One run on a slot that was claimed, and the release of the slot if the run returns. */
  method RunOnce(target: Option<string>, prompt: string, env: Env, attempt: nat, log0: seq<Event>, excluded: seq<string>,
                 last: Option<CoordError>, slot: Key, computer: string)
    returns (log: seq<Event>, reply: RunReply)
    requires attempt < MAX_LLM_ATTEMPTS && |excluded| == attempt && computer !in excluded
    requires Going(log0, (attempt + 1) * MAX_CLAIM_ATTEMPTS - 1, excluded, last) && Obeys(log0, target, prompt, env)
    requires env.claim(attempt, LostRun(log0)) == Won
    requires PickOf(env.snapshot(attempt, LostRun(log0)), target, excluded, Found(slot, computer))
    ensures Obeys(log, target, prompt, env) && LostRun(log) == 0
    ensures reply == RunAndPersist(prompt, env.llm(attempt), env.insert(attempt))
    ensures reply.RunPanicked? ==> DispatchContract(log, target, Aborted) && Persistent(log)
    ensures reply.Persisted? ==> DispatchContract(log, target, Receipt(slot, computer)) && Persistent(log)
    ensures !reply.RunPanicked? && !reply.Persisted? ==>
      && DispatchContract(log, target, Failed(RunError(reply)))
      && (!MayRetry(reply) || attempt == 2 ==> Persistent(log))
      && (MayRetry(reply) ==> Going(log, (attempt + 1) * MAX_CLAIM_ATTEMPTS, excluded + [computer], Some(RunError(reply))))
  {
    reply := RunAndPersist(prompt, env.llm(attempt), env.insert(attempt));
    log := log0 + [Claimed(slot, Won)] + [Ran(slot, computer, reply)];
    if reply.RunPanicked? {
      PanicDone(target, prompt, env, attempt, log0, excluded, last, slot, computer);
      return;
    }
    log := log + [Released(slot, reply.Persisted? || RunError(reply).IsTransient(), env.release(attempt))];
    assert log == Session(log0, slot, computer, reply, env.release(attempt));
    SessionDone(target, prompt, env, attempt, log0, excluded, last, slot, computer);
  }

  lemma PanicDone(target: Option<string>, prompt: string, env: Env, attempt: nat, log: seq<Event>, excluded: seq<string>,
                  last: Option<CoordError>, slot: Key, computer: string)
    requires attempt < MAX_LLM_ATTEMPTS && |excluded| == attempt && computer !in excluded
    requires Going(log, (attempt + 1) * MAX_CLAIM_ATTEMPTS - 1, excluded, last) && Obeys(log, target, prompt, env)
    requires env.claim(attempt, LostRun(log)) == Won && RunAndPersist(prompt, env.llm(attempt), env.insert(attempt)).RunPanicked?
    requires PickOf(env.snapshot(attempt, LostRun(log)), target, excluded, Found(slot, computer))
    ensures var log' := log + [Claimed(slot, Won)] + [Ran(slot, computer, RunPanicked)];
            && Obeys(log', target, prompt, env) && LostRun(log') == 0
            && DispatchContract(log', target, Aborted) && Persistent(log')
  {
    RunsAreComputers(log);
    ObeysRun(log, attempt, slot, computer, target, prompt, env);
    LostStep(log + [Claimed(slot, Won)], Ran(slot, computer, RunPanicked));
    PanicEnds(log, attempt, excluded, last, slot, computer, target);
    PanicPersistent(log, slot, computer);
  }

  lemma SessionDone(target: Option<string>, prompt: string, env: Env, attempt: nat, log: seq<Event>, excluded: seq<string>,
                    last: Option<CoordError>, slot: Key, computer: string)
    requires attempt < MAX_LLM_ATTEMPTS && |excluded| == attempt && computer !in excluded
    requires Going(log, (attempt + 1) * MAX_CLAIM_ATTEMPTS - 1, excluded, last) && Obeys(log, target, prompt, env)
    requires env.claim(attempt, LostRun(log)) == Won && !RunAndPersist(prompt, env.llm(attempt), env.insert(attempt)).RunPanicked?
    requires PickOf(env.snapshot(attempt, LostRun(log)), target, excluded, Found(slot, computer))
    ensures var reply := RunAndPersist(prompt, env.llm(attempt), env.insert(attempt));
            var log' := Session(log, slot, computer, reply, env.release(attempt));
            && Obeys(log', target, prompt, env) && LostRun(log') == 0
            && (reply.Persisted? ==> DispatchContract(log', target, Receipt(slot, computer)) && Persistent(log'))
            && (!reply.Persisted? ==> DispatchContract(log', target, Failed(RunError(reply))))
            && (!MayRetry(reply) || attempt == 2 ==> Persistent(log'))
            && (MayRetry(reply) ==> Going(log', (attempt + 1) * MAX_CLAIM_ATTEMPTS, excluded + [computer], Some(RunError(reply))))
  {
    var reply := RunAndPersist(prompt, env.llm(attempt), env.insert(attempt));
    RunsAreComputers(log);
    SessionObeys(target, prompt, env, attempt, log, slot, computer);
    SessionEnds(log, attempt, excluded, last, slot, computer, reply, env.release(attempt), target);
    if !MayRetry(reply) || attempt == 2 { SessionPersistent(log, slot, computer, reply, env.release(attempt)); }
  }

  lemma SessionObeys(target: Option<string>, prompt: string, env: Env, attempt: nat, log: seq<Event>, slot: Key, computer: string)
    requires Obeys(log, target, prompt, env) && Count(log, Runs) == attempt && env.claim(attempt, LostRun(log)) == Won
    requires !RunAndPersist(prompt, env.llm(attempt), env.insert(attempt)).RunPanicked?
    requires PickOf(env.snapshot(attempt, LostRun(log)), target, Computers(log), Found(slot, computer))
    ensures var log' := Session(log, slot, computer, RunAndPersist(prompt, env.llm(attempt), env.insert(attempt)), env.release(attempt));
            Obeys(log', target, prompt, env) && LostRun(log') == 0
  {
    var reply := RunAndPersist(prompt, env.llm(attempt), env.insert(attempt));
    var claimed := log + [Claimed(slot, Won)];
    ObeysRun(log, attempt, slot, computer, target, prompt, env);
    CountStep(log, Claimed(slot, Won), Runs);
    ObeysRelease(claimed, Ran(slot, computer, reply), attempt, slot, SlotFine(reply), target, prompt, env);
    LostStep(claimed + [Ran(slot, computer, reply)], Released(slot, SlotFine(reply), env.release(attempt)));
  }

  /** `dispatch_task`. Every event is what the environment answered to what was due, the log is in order, and the
      dispatch gives up only when it has to. */
  method DispatchTask(target: Option<string>, prompt: string, env: Env) returns (outcome: Outcome, log: seq<Event>)
    ensures DispatchContract(log, target, outcome)
    ensures Obeys(log, target, prompt, env) && Persistent(log)
    ensures CutsCleanly(prompt, 80) && (forall a :: env.llm(a).Answered? ==> CutsCleanly(env.llm(a).text, 400)) ==> !outcome.Aborted?
  {
    log := [];
    var excluded: seq<string> := [];
    var lastTransient: Option<CoordError> := None;
    for attempt := 0 to MAX_LLM_ATTEMPTS
      invariant Going(log, attempt * MAX_CLAIM_ATTEMPTS, excluded, lastTransient)
      invariant |excluded| == attempt && Obeys(log, target, prompt, env) && LostRun(log) == 0
      invariant attempt > 0 ==> lastTransient.Some?
      invariant attempt == MAX_LLM_ATTEMPTS ==> DispatchContract(log, target, Failed(lastTransient.value)) && Persistent(log)
    {
      var t;
      log, t := ClaimSome(target, env, attempt, log, excluded, lastTransient, prompt);
      if t.GiveUp? {
        return Failed(t.error), log;
      }
      var slot, computer := t.slot, t.computer;
      var reply;
      log, reply := RunOnce(target, prompt, env, attempt, log, excluded, lastTransient, slot, computer);
      PanicsExactly(prompt, env.llm(attempt), env.insert(attempt));
      if reply.RunPanicked? {
        return Aborted, log;
      }
      if reply.Persisted? {
        return Receipt(slot, computer), log;
      }
      if !RunError(reply).IsTransient() {
        return Failed(RunError(reply)), log;
      }
      excluded := excluded + [computer];
      lastTransient := Some(RunError(reply));
    }
    return Failed(lastTransient.value), log;
  }

  // ----- What the bracketing means for the slots

  /** As many releases as claims won, and as many runs. */
  lemma {:induction false} SessionsBalance(log: seq<Event>)
    requires Bracketed(log)
    ensures Count(log, Wins) == Count(log, Runs) == Count(log, Releases)
    decreases |log|
  {
    var n := |log|;
    if n == 0 { return; }
    if log[n - 1].Released? {
      SessionsBalance(log[..n - 3]);
      LastThree(log, Wins);
      LastThree(log, Runs);
      LastThree(log, Releases);
    } else {
      SessionsBalance(log[..n - 1]);
    }
  }

  /** The last two events of a log. */
  lemma LastTwo(log: seq<Event>, tally: Tally)
    requires |log| >= 2
    ensures var n := |log|;
            Count(log, tally)
            == Count(log[..n - 2], tally) + (if Counts(tally, log[n - 2]) then 1 else 0) + (if Counts(tally, log[n - 1]) then 1 else 0)
  {
    var n := |log|;
    assert log[..n - 1] == log[..n - 2] + [log[n - 2]];
    CountStep(log[..n - 2], log[n - 2], tally);
  }

  /** Main result on the releases issued: every claim won was run, and was released exactly once if the dispatch
      returned; a panic leaves the last one without a release. */
  lemma ClaimsAreReleased(log: seq<Event>, target: Option<string>, outcome: Outcome)
    requires DispatchContract(log, target, outcome)
    ensures Count(log, Wins) == Count(log, Runs) == Count(log, Releases) + if outcome.Aborted? then 1 else 0
  {
    SessionsBalance(Closed(log));
    if EndsWithPanic(log) {
      LastTwo(log, Wins);
      LastTwo(log, Runs);
      LastTwo(log, Releases);
    }
  }

  lemma {:induction false} ReleasesSplit(log: seq<Event>)
    ensures Count(log, Releases) == Count(log, Freed) + Count(log, Refused)
  {
    if log != [] { ReleasesSplit(log[..|log| - 1]); }
  }

  lemma {:induction false} AppliedAreWins(log: seq<Event>)
    requires forall i :: 0 <= i < |log| ==> !(log[i].Claimed? && log[i].reply.ClaimFailed?)
    ensures Count(log, Applied) == Count(log, Wins)
  {
    if log != [] { AppliedAreWins(log[..|log| - 1]); }
  }

  lemma AppliedOverWins(log: seq<Event>)
    requires log != [] && FailsOnlyAtEnd(log)
    ensures Count(log, Applied) == Count(log, Wins) + if EndsWithLostClaim(log) then 1 else 0
  {
    var n := |log|;
    assert log == log[..n - 1] + [log[n - 1]];
    CountStep(log[..n - 1], log[n - 1], Applied);
    CountStep(log[..n - 1], log[n - 1], Wins);
    AppliedAreWins(log[..n - 1]);
  }

  /** Main result on the slots: the claims applied in the database exceed the releases applied by one for every release
      that was refused, one for a claim whose reply was lost at the end, and one for a panic. So the dispatch leaves no
      slot taken if and only if none of the three happened. */
  lemma SlotsLeftTaken(log: seq<Event>, target: Option<string>, outcome: Outcome)
    requires DispatchContract(log, target, outcome)
    ensures Count(log, Applied)
         == Count(log, Freed) + Count(log, Refused) + (if EndsWithLostClaim(log) then 1 else 0) + (if outcome.Aborted? then 1 else 0)
    ensures Count(log, Applied) == Count(log, Freed)
       <==> (forall e :: e in log && e.Released? ==> e.applied) && !EndsWithLostClaim(log) && !outcome.Aborted?
  {
    ClaimsAreReleased(log, target, outcome);
    ReleasesSplit(log);
    AppliedOverWins(log);
    NoneRefused(log);
  }

  lemma {:induction false} NoneRefused(log: seq<Event>)
    ensures Count(log, Refused) == 0 <==> forall e :: e in log && e.Released? ==> e.applied
  {
    if log != [] {
      var init, last := log[..|log| - 1], log[|log| - 1];
      NoneRefused(init);
      assert log == init + [last];
    }
  }

  lemma LastThree(log: seq<Event>, tally: Tally)
    requires |log| >= 3
    ensures var n := |log|;
            Count(log, tally)
            == Count(log[..n - 3], tally) + (if Counts(tally, log[n - 3]) then 1 else 0)
               + (if Counts(tally, log[n - 2]) then 1 else 0) + (if Counts(tally, log[n - 1]) then 1 else 0)
  {
    var n := |log|;
    assert log[..n - 2] == log[..n - 3] + [log[n - 3]];
    assert log[..n - 1] == log[..n - 2] + [log[n - 2]];
    CountStep(log[..n - 3], log[n - 3], tally);
    CountStep(log[..n - 2], log[n - 2], tally);
  }
}
