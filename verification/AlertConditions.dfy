/** Conditions and metrics of crates/ff-agent/src/alert_evaluator.rs: the condition grammar, the
    reading of a metric for one computer, and the static analysis behind `ff alert doctor`.

    Numbers are reals; parsing a floating-point literal is the parameter `number`. */
module AlertConditions {
  import opened Options

  type Number = string -> Option<real>

  datatype Condition =
    | NumGt(n: real) | NumLt(n: real) | NumGe(n: real) | NumLe(n: real) | NumEq(n: real)
    | StrEq(s: string) | StrNe(s: string)
    | Unparseable
  {
    predicate IsNumeric() { NumGt? || NumLt? || NumGe? || NumLe? || NumEq? }
  }

  // ----- Parsing

  /** Unicode white space. */
  predicate IsSpace(c: char) {
    var u := c as int;
    || 9 <= u <= 13 || u == 32 || u == 0x85 || u == 0xA0 || u == 0x1680
    || 0x2000 <= u <= 0x200A || u == 0x2028 || u == 0x2029 || u == 0x202F || u == 0x205F || u == 0x3000
  }

  function TrimStart(s: string): string {
    if s != [] && IsSpace(s[0]) then TrimStart(s[1..]) else s
  }

  function TrimEnd(s: string): string {
    if s != [] && IsSpace(s[|s| - 1]) then TrimEnd(s[..|s| - 1]) else s
  }

  function Trim(s: string): string {
    TrimEnd(TrimStart(s))
  }

  datatype Operator = Ge | Le | Eq | Ne | Gt | Lt | NoOperator

  /** The operator at the start; two-character operators first. */
  function OperatorOf(s: string): Operator {
    if ">=" <= s then Ge
    else if "<=" <= s then Le
    else if "==" <= s then Eq
    else if "!=" <= s then Ne
    else if ">" <= s then Gt
    else if "<" <= s then Lt
    else NoOperator
  }

  predicate Quoted(arg: string, q: char) {
    |arg| >= 2 && arg[0] == q && arg[|arg| - 1] == q
  }

  /** What an operator and an argument mean. */
  function Meaning(number: Number, op: Operator, arg: string): Condition {
    if Quoted(arg, '\'') || Quoted(arg, '"') then
      var inner := arg[1..|arg| - 1];
      if op.Eq? then StrEq(inner) else if op.Ne? then StrNe(inner) else Unparseable
    else
      match number(arg)
      case None => Unparseable
      case Some(n) =>
        match op
        case Gt => NumGt(n)
        case Lt => NumLt(n)
        case Ge => NumGe(n)
        case Le => NumLe(n)
        case Eq => NumEq(n)
        case _ => Unparseable
  }

  /** `parse_condition`. */
  function ParseCondition(number: Number, raw: string): Condition {
    var s := Trim(raw);
    var op := OperatorOf(s);
    if op.NoOperator? then Unparseable
    else Meaning(number, op, Argument(s, op))
  }

  /** What follows the operator. */
  function Argument(s: string, op: Operator): string {
    var len := if op.Gt? || op.Lt? then 1 else 2;
    if len <= |s| then Trim(s[len..]) else []
  }

  ghost predicate AllSpace(s: string) {
    forall i :: 0 <= i < |s| ==> IsSpace(s[i])
  }

  /** No space at either end. */
  predicate Tight(s: string) {
    s != [] && !IsSpace(s[0]) && !IsSpace(s[|s| - 1])
  }

  lemma {:induction false} TrimStartPad(pad: string, core: string)
    requires AllSpace(pad) && core != [] && !IsSpace(core[0])
    ensures TrimStart(pad + core) == core
  {
    if pad == [] {
      assert pad + core == core;
    } else {
      TrimStartPad(pad[1..], core);
      assert (pad + core)[1..] == pad[1..] + core;
    }
  }

  lemma {:induction false} TrimEndPad(core: string, pad: string)
    requires AllSpace(pad) && core != [] && !IsSpace(core[|core| - 1])
    ensures TrimEnd(core + pad) == core
  {
    if pad == [] {
      assert core + pad == core;
    } else {
      TrimEndPad(core, pad[..|pad| - 1]);
      assert (core + pad)[..|core + pad| - 1] == core + pad[..|pad| - 1];
    }
  }

  lemma TrimPads(a: string, core: string, b: string)
    requires AllSpace(a) && Tight(core) && AllSpace(b)
    ensures Trim(a + core + b) == core
  {
    assert a + core + b == a + (core + b);
    TrimStartPad(a, core + b);
    TrimEndPad(core, b);
  }

  function OperatorText(op: Operator): (text: string)
    ensures |text| <= 2
  {
    match op
    case Ge => ">=" case Le => "<=" case Eq => "==" case Ne => "!=" case Gt => ">" case Lt => "<" case NoOperator => ""
  }

  lemma OperatorFound(op: Operator, rest: string)
    requires !op.NoOperator? && rest != [] && ((op.Gt? || op.Lt?) ==> rest[0] != '=')
    ensures OperatorOf(OperatorText(op) + rest) == op
  {
    var s := OperatorText(op) + rest;
    assert forall i :: 0 <= i < |OperatorText(op)| ==> s[i] == OperatorText(op)[i];
    assert s[|OperatorText(op)|] == rest[0];
  }

  /** The grammar: an operator and an argument, with white space anywhere around them, parse to their meaning.
      The one ambiguity is an argument that starts with `=` right after `>` or `<`. */
  lemma ParsesWritten(number: Number, a: string, op: Operator, b: string, arg: string, c: string)
    requires AllSpace(a) && AllSpace(b) && AllSpace(c) && Tight(arg) && !op.NoOperator?
    requires (op.Gt? || op.Lt?) && b == [] ==> arg[0] != '='
    ensures ParseCondition(number, a + (OperatorText(op) + b + arg) + c) == Meaning(number, op, arg)
  {
    var core := OperatorText(op) + b + arg;
    CoreTight(op, b, arg);
    TrimPads(a, core, c);
    assert core == OperatorText(op) + (b + arg);
    OperatorFound(op, b + arg);
    ArgumentFound(op, b, arg);
  }

  lemma CoreTight(op: Operator, b: string, arg: string)
    requires !op.NoOperator? && Tight(arg)
    ensures Tight(OperatorText(op) + b + arg)
  {
    var core := OperatorText(op) + b + arg;
    assert core[0] == OperatorText(op)[0] && core[|core| - 1] == arg[|arg| - 1];
  }

  lemma ArgumentFound(op: Operator, b: string, arg: string)
    requires !op.NoOperator? && AllSpace(b) && Tight(arg)
    ensures Argument(OperatorText(op) + b + arg, op) == arg
  {
    assert (OperatorText(op) + b + arg)[|OperatorText(op)|..] == b + arg + [];
    TrimPads(b, arg, []);
  }

  // ----- Evaluation

  /** `f64::EPSILON`, two to the power of -52. */
  const EPSILON := 1.0 / 4_503_599_627_370_496.0

  predicate EvalNumeric(c: Condition, v: real) {
    match c
    case NumGt(n) => v > n
    case NumLt(n) => v < n
    case NumGe(n) => v >= n
    case NumLe(n) => v <= n
    case NumEq(n) => -EPSILON < v - n < EPSILON
    case _ => false
  }

  predicate EvalString(c: Condition, v: string) {
    match c
    case StrEq(s) => v == s
    case StrNe(s) => v != s
    case _ => false
  }

  const MIN32 := -0x8000_0000
  const MAX32 := 0x7fff_ffff
  const MIN64 := -0x8000_0000_0000_0000
  const MAX64 := 0x7fff_ffff_ffff_ffff

  type Int32 = x: int | MIN32 <= x <= MAX32

  type Int64 = x: int | MIN64 <= x <= MAX64

  /** The counts come from a scraped metrics page and may be negative. */
  datatype Server = Server(queueDepth: Int32, activeRequests: Int32, tokensPerSec: real)

  datatype Beat = Beat(computer: string, cpuPct: real, ramPct: real, ramUsedGb: real, diskFreeGb: real, gpuPct: real,
                       servers: seq<Server>, goingOffline: bool)

  /** What a tick reads: the beats, and the ages the database knows. */
  datatype Snapshot = Snapshot(beats: seq<Beat>, leaderAge: Option<Int64>, beatAge: map<string, Int64>)

  predicate IsBeatSourcedNumeric(metric: string) {
    || metric == "cpu_pct" || metric == "ram_pct" || metric == "ram_used_gb" || metric == "disk_free_gb"
    || metric == "gpu_pct" || metric == "llm_queue_depth" || metric == "llm_active_requests" || metric == "llm_tokens_per_sec"
  }

  predicate IsEvaluatorMetric(metric: string) {
    || IsBeatSourcedNumeric(metric)
    || metric == "computer_status" || metric == "leader_heartbeat_age_secs" || metric == "beat_age_secs"
  }

  predicate IsImperativeMetric(metric: string) {
    || metric == "db_index_corruption" || metric == "fleet_integrity_degraded" || metric == "stale_local_backup_age_secs"
    || metric == "backup_restore_drill_failed" || metric == "upgrade_rollout_halted" || metric == "secret_expiry_days_remaining"
    || metric == "postgres_replica_dead" || metric == "ssh_mesh_degraded"
  }

  function FindBeat(beats: seq<Beat>, computer: string): Option<Beat> {
    if beats == [] then None
    else if beats[0].computer == computer then Some(beats[0])
    else FindBeat(beats[1..], computer)
  }

  function SumQueue(servers: seq<Server>): int {
    if servers == [] then 0 else servers[0].queueDepth + SumQueue(servers[1..])
  }

  function SumActive(servers: seq<Server>): int {
    if servers == [] then 0 else servers[0].activeRequests + SumActive(servers[1..])
  }

  function SumTokens(servers: seq<Server>): real {
    if servers == [] then 0.0 else servers[0].tokensPerSec + SumTokens(servers[1..])
  }

  /** The number a beat gives for a beat-sourced metric. */
  function BeatValue(metric: string, b: Beat): real
    requires IsBeatSourcedNumeric(metric)
  {
    if metric == "cpu_pct" then b.cpuPct
    else if metric == "ram_pct" then b.ramPct
    else if metric == "ram_used_gb" then b.ramUsedGb
    else if metric == "disk_free_gb" then b.diskFreeGb
    else if metric == "gpu_pct" then b.gpuPct
    else if metric == "llm_queue_depth" then SumQueue(b.servers) as real
    else if metric == "llm_active_requests" then SumActive(b.servers) as real
    else SumTokens(b.servers)
  }

  function StatusOf(beat: Option<Beat>): string {
    if beat.None? then "sdown" else if beat.value.goingOffline then "offline" else "online"
  }

  datatype Reading = Unknown | Numeric(v: real) | Text(s: string)

  /** The value `evaluate_current` reads. A missing beat, and a free disk of exactly 0, are unknown;
      a missing age counts as 0. */
  function Read(metric: string, computer: string, snap: Snapshot): Reading {
    var beat := FindBeat(snap.beats, computer);
    if IsBeatSourcedNumeric(metric) then
      if beat.None? then Unknown
      else if metric == "disk_free_gb" && beat.value.diskFreeGb == 0.0 then Unknown
      else Numeric(BeatValue(metric, beat.value))
    else if metric == "computer_status" then Text(StatusOf(beat))
    else if metric == "leader_heartbeat_age_secs" then
      Numeric(if snap.leaderAge.Some? then snap.leaderAge.value as real else 0.0)
    else if metric == "beat_age_secs" then
      Numeric(if computer in snap.beatAge then snap.beatAge[computer] as real else 0.0)
    else Unknown
  }

  /** `evaluate_current`: whether the condition matches now. */
  predicate Matches(metric: string, c: Condition, computer: string, snap: Snapshot) {
    match Read(metric, computer, snap)
    case Unknown => false
    case Numeric(v) => EvalNumeric(c, v)
    case Text(s) => EvalString(c, s)
  }

  /** What is read for each metric: from the first beat of that computer, from its servers, or from the database. */
  lemma ReadExact(computer: string, snap: Snapshot, i: nat)
    requires i < |snap.beats| && snap.beats[i].computer == computer
    requires forall j :: 0 <= j < i ==> snap.beats[j].computer != computer
    ensures var b := snap.beats[i];
            && Read("cpu_pct", computer, snap) == Numeric(b.cpuPct) && Read("ram_pct", computer, snap) == Numeric(b.ramPct)
            && Read("ram_used_gb", computer, snap) == Numeric(b.ramUsedGb) && Read("gpu_pct", computer, snap) == Numeric(b.gpuPct)
            && Read("disk_free_gb", computer, snap) == (if b.diskFreeGb == 0.0 then Unknown else Numeric(b.diskFreeGb))
            && Read("llm_queue_depth", computer, snap) == Numeric(SumQueue(b.servers) as real)
            && Read("llm_active_requests", computer, snap) == Numeric(SumActive(b.servers) as real)
            && Read("llm_tokens_per_sec", computer, snap) == Numeric(SumTokens(b.servers))
            && Read("computer_status", computer, snap) == Text(if b.goingOffline then "offline" else "online")
  {
    FirstBeat(snap.beats, computer, i);
  }

  lemma {:induction false} FirstBeat(beats: seq<Beat>, computer: string, i: nat)
    requires i < |beats| && beats[i].computer == computer && forall j :: 0 <= j < i ==> beats[j].computer != computer
    ensures FindBeat(beats, computer) == Some(beats[i])
  {
    if i > 0 { FirstBeat(beats[1..], computer, i - 1); }
  }

  /** The ages come from the database and count as 0 if it knows none. */
  lemma AgesExact(computer: string, snap: Snapshot)
    ensures Read("leader_heartbeat_age_secs", computer, snap)
         == Numeric(if snap.leaderAge.Some? then snap.leaderAge.value as real else 0.0)
    ensures Read("beat_age_secs", computer, snap) == Numeric(if computer in snap.beatAge then snap.beatAge[computer] as real else 0.0)
    ensures (forall j :: 0 <= j < |snap.beats| ==> snap.beats[j].computer != computer) ==>
      Read("computer_status", computer, snap) == Text("sdown")
  {
    if forall j :: 0 <= j < |snap.beats| ==> snap.beats[j].computer != computer { NoBeat(snap.beats, computer); }
  }

  /** A written comparison with a number holds of exactly the values it says; equality is up to `f64::EPSILON`. */
  lemma WrittenNumberMeans(number: Number, a: string, op: Operator, b: string, arg: string, c: string, v: real)
    requires AllSpace(a) && AllSpace(b) && AllSpace(c) && Tight(arg) && !op.NoOperator? && number(arg).Some?
    requires !Quoted(arg, '\'') && !Quoted(arg, '"') && ((op.Gt? || op.Lt?) && b == [] ==> arg[0] != '=')
    ensures var written, n := ParseCondition(number, a + (OperatorText(op) + b + arg) + c), number(arg).value;
            && (op == Gt ==> (EvalNumeric(written, v) <==> v > n)) && (op == Lt ==> (EvalNumeric(written, v) <==> v < n))
            && (op == Ge ==> (EvalNumeric(written, v) <==> v >= n)) && (op == Le ==> (EvalNumeric(written, v) <==> v <= n))
            && (op == Eq ==> (EvalNumeric(written, v) <==> -EPSILON < v - n < EPSILON)) && (op == Ne ==> written == Unparseable)
  {
    ParsesWritten(number, a, op, b, arg, c);
  }

  /** A written comparison with a quoted text holds of exactly that text, or of every other. */
  lemma WrittenTextMeans(number: Number, a: string, op: Operator, b: string, quote: char, text: string, c: string, v: string)
    requires AllSpace(a) && AllSpace(b) && AllSpace(c) && (quote == '\'' || quote == '"')
    ensures var written := ParseCondition(number, a + (OperatorText(op) + b + ([quote] + text + [quote])) + c);
            && (op == Eq ==> (EvalString(written, v) <==> v == text)) && (op == Ne ==> (EvalString(written, v) <==> v != text))
            && (op == Gt || op == Lt || op == Ge || op == Le ==> written == Unparseable)
  {
    var arg := [quote] + text + [quote];
    if !op.NoOperator? {
      assert arg[1..|arg| - 1] == text;
      ParsesWritten(number, a, op, b, arg, c);
    }
  }

  // ----- The doctor

  datatype Fireability = EvaluatorPolled | ImperativelyFired | NotParseable | UnknownMetric | UnsatisfiableValue

  predicate IsStatus(s: string) {
    s == "offline" || s == "online" || s == "sdown"
  }

  /** `classify_policy_fireability`. */
  function Classify(number: Number, metric: string, condition: string): Fireability {
    var c := ParseCondition(number, condition);
    if c.Unparseable? then NotParseable
    else if metric == "computer_status" && c.StrEq? && !IsStatus(c.s) then UnsatisfiableValue
    else if IsEvaluatorMetric(metric) then EvaluatorPolled
    else if IsImperativeMetric(metric) then ImperativelyFired
    else UnknownMetric
  }

  /** The policy matches for some computer in some snapshot. */
  ghost predicate CanMatch(metric: string, c: Condition) {
    exists computer, snap :: Matches(metric, c, computer, snap)
  }

  /** The doctor is sound: what it does not call polled never matches, whatever the beats say. */
  lemma DoctorSound(number: Number, metric: string, condition: string, computer: string, snap: Snapshot)
    requires Matches(metric, ParseCondition(number, condition), computer, snap)
    ensures Classify(number, metric, condition) == EvaluatorPolled
  {
    var c := ParseCondition(number, condition);
    if metric == "computer_status" {
      assert IsStatus(StatusOf(FindBeat(snap.beats, computer)));
    }
  }

  /** No numeric policy on a beat's content matches for a computer without a beat, and no low-disk
      policy matches on a sample of exactly 0. */
  lemma SilentWithoutBeat(metric: string, c: Condition, computer: string, snap: Snapshot)
    requires IsBeatSourcedNumeric(metric)
    requires forall i :: 0 <= i < |snap.beats| ==> snap.beats[i].computer != computer
    ensures !Matches(metric, c, computer, snap)
  {
    NoBeat(snap.beats, computer);
  }

  lemma {:induction false} NoBeat(beats: seq<Beat>, computer: string)
    requires forall i :: 0 <= i < |beats| ==> beats[i].computer != computer
    ensures FindBeat(beats, computer).None?
  {
    if beats != [] { NoBeat(beats[1..], computer); }
  }

  // ----- When a polled policy can really match

  /** An integer lies within `EPSILON` of `n`. */
  predicate NearInteger(n: real) {
    n - n.Floor as real < EPSILON || (n.Floor + 1) as real - n < EPSILON
  }

  predicate IsCount(metric: string) {
    metric == "llm_queue_depth" || metric == "llm_active_requests"
  }

  predicate IsAge(metric: string) {
    metric == "leader_heartbeat_age_secs" || metric == "beat_age_secs"
  }

  /** Some integer meets the condition. A count is a sum over servers, so every integer can occur. */
  predicate CountMeets(c: Condition) {
    c.IsNumeric() && (c.NumEq? ==> NearInteger(c.n))
  }

  /** Some 64-bit integer meets the condition. */
  predicate AgeMeets(c: Condition) {
    match c
    case NumGt(n) => n < MAX64 as real
    case NumGe(n) => n <= MAX64 as real
    case NumLt(n) => n > MIN64 as real
    case NumLe(n) => n >= MIN64 as real
    case NumEq(n) =>
      || (MIN64 <= n.Floor <= MAX64 && n - n.Floor as real < EPSILON)
      || (MIN64 <= n.Floor + 1 <= MAX64 && (n.Floor + 1) as real - n < EPSILON)
    case _ => false
  }

  /** The exact condition, decided from the metric and the condition alone. */
  predicate Fireable(metric: string, c: Condition) {
    if metric == "computer_status" then c.StrNe? || (c.StrEq? && IsStatus(c.s))
    else if IsCount(metric) then CountMeets(c)
    else if IsAge(metric) then AgeMeets(c)
    else IsBeatSourcedNumeric(metric) && c.IsNumeric()
  }

  /** An integer that meets the condition. */
  function CountFor(c: Condition): int
    requires CountMeets(c)
  {
    match c
    case NumGt(n) => n.Floor + 1
    case NumGe(n) => n.Floor + 1
    case NumLt(n) => n.Floor - 1
    case NumLe(n) => n.Floor
    case NumEq(n) => if n - n.Floor as real < EPSILON then n.Floor else n.Floor + 1
  }

  /** A 64-bit integer that meets the condition. */
  function AgeFor(c: Condition): Int64
    requires AgeMeets(c)
  {
    match c
    case NumGt(_) => MAX64
    case NumGe(_) => MAX64
    case NumLt(_) => MIN64
    case NumLe(_) => MIN64
    case NumEq(n) => if MIN64 <= n.Floor <= MAX64 && n - n.Floor as real < EPSILON then n.Floor else n.Floor + 1
  }

  lemma CountExact(c: Condition, k: int)
    ensures CountMeets(c) ==> EvalNumeric(c, CountFor(c) as real)
    ensures EvalNumeric(c, k as real) ==> CountMeets(c)
  {
    if c.NumEq? && EvalNumeric(c, k as real) { NearIs(c.n, k); }
  }

  lemma NearIs(n: real, k: int)
    requires -EPSILON < k as real - n < EPSILON
    ensures k == n.Floor || k == n.Floor + 1
  {}

  lemma AgeExact(c: Condition, k: Int64)
    ensures AgeMeets(c) ==> EvalNumeric(c, AgeFor(c) as real)
    ensures EvalNumeric(c, k as real) ==> AgeMeets(c)
  {
    if c.NumEq? && EvalNumeric(c, k as real) { NearIs(c.n, k); }
  }

  /** A real number other than 0 that meets a numeric condition. */
  function RealFor(c: Condition): real
    requires c.IsNumeric()
  {
    match c
    case NumGt(n) => if n < 1.0 then 1.0 else n + 1.0
    case NumGe(n) => if n < 1.0 then 1.0 else n + 1.0
    case NumLt(n) => if n > -1.0 then -1.0 else n - 1.0
    case NumLe(n) => if n > -1.0 then -1.0 else n - 1.0
    case NumEq(n) => if n == 0.0 then EPSILON / 2.0 else n
  }

  /** Servers whose counts add up to `k`, however large, and whose tokens add up to `v`. */
  function ServersFor(v: real, k: int): seq<Server>
    decreases if k < 0 then -k else k
  {
    if MIN32 <= k <= MAX32 then [Server(k, k, v)]
    else if k > 0 then [Server(MAX32, MAX32, 0.0)] + ServersFor(v, k - MAX32)
    else [Server(MIN32, MIN32, 0.0)] + ServersFor(v, k - MIN32)
  }

  lemma {:induction false} ServersAddUp(v: real, k: int)
    ensures var servers := ServersFor(v, k); SumQueue(servers) == k && SumActive(servers) == k && SumTokens(servers) == v
    decreases if k < 0 then -k else k
  {
    var servers := ServersFor(v, k);
    if MIN32 <= k <= MAX32 {
      assert servers[1..] == [];
      assert SumQueue(servers[1..]) == 0 && SumActive(servers[1..]) == 0 && SumTokens(servers[1..]) == 0.0;
    } else {
      var rest := if k > 0 then k - MAX32 else k - MIN32;
      ServersAddUp(v, rest);
      assert servers[1..] == ServersFor(v, rest);
    }
  }

  /** A beat that reports `v` for every content metric and `k` for every count. */
  function BeatOf(v: real, k: int): Beat {
    Beat("c", v, v, v, v, v, ServersFor(v, k), true)
  }

  lemma BeatOfValues(metric: string, v: real, k: int)
    requires IsBeatSourcedNumeric(metric)
    ensures BeatValue(metric, BeatOf(v, k)) == if IsCount(metric) then k as real else v
  {
    ServersAddUp(v, k);
  }

  /** A snapshot in which the policy matches. */
  function Witness(metric: string, c: Condition): Snapshot
    requires Fireable(metric, c)
  {
    if metric == "computer_status" then
      var s := if c.StrEq? then c.s else if c.s == "sdown" then "online" else "sdown";
      if s == "sdown" then Snapshot([], None, map[])
      else Snapshot([BeatOf(1.0, 0).(goingOffline := s == "offline")], None, map[])
    else if IsAge(metric) then Snapshot([], Some(AgeFor(c)), map["c" := AgeFor(c)])
    else if IsCount(metric) then Snapshot([BeatOf(1.0, CountFor(c))], None, map[])
    else Snapshot([BeatOf(RealFor(c), 0)], None, map[])
  }

  lemma FireableMatches(metric: string, c: Condition)
    requires Fireable(metric, c)
    ensures Matches(metric, c, "c", Witness(metric, c))
  {
    if IsAge(metric) {
      AgeExact(c, 0);
    } else if IsCount(metric) {
      CountExact(c, 0);
      BeatOfValues(metric, 1.0, CountFor(c));
    } else if IsBeatSourcedNumeric(metric) {
      BeatOfValues(metric, RealFor(c), 0);
    }
  }

  /** Main result: a policy can match exactly when `Fireable` says so. The doctor's verdict `polled`
      is necessary for that but not sufficient: it misses a condition of the wrong kind for the
      metric and a number that a count or an age can never reach. */
  lemma DoctorExact(number: Number, metric: string, condition: string)
    ensures var c := ParseCondition(number, condition);
            && (CanMatch(metric, c) <==> Fireable(metric, c))
            && (CanMatch(metric, c) ==> Classify(number, metric, condition) == EvaluatorPolled)
  {
    var c := ParseCondition(number, condition);
    if Fireable(metric, c) { FireableMatches(metric, c); }
    forall computer, snap | Matches(metric, c, computer, snap)
      ensures Fireable(metric, c) && Classify(number, metric, condition) == EvaluatorPolled
    {
      DoctorSound(number, metric, condition, computer, snap);
      MatchIsFireable(metric, c, computer, snap);
    }
  }

  lemma MatchIsFireable(metric: string, c: Condition, computer: string, snap: Snapshot)
    requires Matches(metric, c, computer, snap)
    ensures Fireable(metric, c)
  {
    var beat := FindBeat(snap.beats, computer);
    if metric == "llm_queue_depth" { CountExact(c, SumQueue(beat.value.servers)); }
    if metric == "llm_active_requests" { CountExact(c, SumActive(beat.value.servers)); }
    if metric == "leader_heartbeat_age_secs" { AgeExact(c, if snap.leaderAge.Some? then snap.leaderAge.value else 0); }
    if metric == "beat_age_secs" { AgeExact(c, if computer in snap.beatAge then snap.beatAge[computer] else 0); }
    assert metric == "computer_status" ==> IsStatus(StatusOf(FindBeat(snap.beats, computer)));
  }

  /** Polled, but never matching: a string condition on a number, and a queue of half a request. */
  lemma PolledButDead(number: Number)
    requires number("0.5") == Some(0.5)
    ensures Classify(number, "cpu_pct", "== 'hot'") == EvaluatorPolled && !CanMatch("cpu_pct", ParseCondition(number, "== 'hot'"))
    ensures Classify(number, "llm_queue_depth", "== 0.5") == EvaluatorPolled && !CanMatch("llm_queue_depth", ParseCondition(number, "== 0.5"))
  {
    ParsesHot(number);
    ParsesHalf(number);
    DoctorExact(number, "cpu_pct", "== 'hot'");
    DoctorExact(number, "llm_queue_depth", "== 0.5");
  }

  lemma ParsesHot(number: Number)
    ensures ParseCondition(number, "== 'hot'") == StrEq("hot")
  {
    var s := "== 'hot'";
    assert Trim(s) == s;
    assert s[2..] == " 'hot'" && " 'hot'"[1..] == "'hot'";
    assert TrimStart(" 'hot'") == "'hot'" && Trim(" 'hot'") == "'hot'";
    assert "'hot'"[1..4] == "hot";
  }

  lemma ParsesHalf(number: Number)
    requires number("0.5") == Some(0.5)
    ensures ParseCondition(number, "== 0.5") == NumEq(0.5)
  {
    ParsesWritten(number, "", Eq, " ", "0.5", "");
    assert "" + (OperatorText(Eq) + " " + "0.5") + "" == "== 0.5";
  }
}
