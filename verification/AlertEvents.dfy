/** Firing and resolving alerts: `evaluate_once` of crates/ff-agent/src/alert_evaluator.rs, run by one
    leader at a time. Instants are integer microseconds. The cooldown is measured on the leader's clock, the
    events are stamped by the database's. A tick visits (policy, computer) pairs in order; each visit reads the
    pair's events and fires, resolves or does nothing. */
module AlertEvents {
  import opened Options
  import opened AlertConditions

  datatype Policy = Policy(id: nat, metric: string, scope: string, scopeComputer: Option<nat>, condition: string,
                           durationSecs: int, cooldownSecs: int)

  datatype Event = Event(policy: nat, computer: nat, firedAt: int, resolvedAt: Option<int>)

  const MICROS := 1_000_000

  // ----- The pair's events

  predicate Of(e: Event, policy: nat, computer: nat) {
    e.policy == policy && e.computer == computer
  }

  /** Position of the latest unresolved event of the pair; the length if there is none. */
  function Unresolved(events: seq<Event>, policy: nat, computer: nat): (i: nat)
    ensures i <= |events|
    ensures i < |events| ==> Of(events[i], policy, computer) && events[i].resolvedAt.None?
    ensures i == |events| ==> forall j :: 0 <= j < |events| && Of(events[j], policy, computer) ==> events[j].resolvedAt.Some?
  {
    if events == [] then 0
    else
      var n := |events| - 1;
      if Of(events[n], policy, computer) && events[n].resolvedAt.None? then n
      else
        var i := Unresolved(events[..n], policy, computer);
        if i == n then n + 1 else i
  }

  /** The latest resolution of the pair. */
  function LastResolved(events: seq<Event>, policy: nat, computer: nat): (t: Option<int>)
    ensures forall j :: 0 <= j < |events| && Of(events[j], policy, computer) && events[j].resolvedAt.Some?
                        ==> t.Some? && events[j].resolvedAt.value <= t.value
    ensures t.Some? ==> exists j :: 0 <= j < |events| && Of(events[j], policy, computer) && events[j].resolvedAt == t
  {
    if events == [] then None
    else
      var n := |events| - 1;
      var t := LastResolved(events[..n], policy, computer);
      var e := events[n];
      if Of(e, policy, computer) && e.resolvedAt.Some? && (t.None? || t.value < e.resolvedAt.value) then e.resolvedAt else t
  }

  /** Whole seconds, truncated toward zero. */
  function Seconds(micros: int): int {
    if micros >= 0 then micros / MICROS else -((-micros) / MICROS)
  }

  // ----- One visit

  /** `now`: the leader's clock when the visit reads it; `stamp`: the database's clock at the visit's write. */
  datatype Visit = Visit(policy: Policy, computer: nat, matches: bool, held: bool, now: int, stamp: int)

  predicate InCooldown(events: seq<Event>, v: Visit) {
    var t := LastResolved(events, v.policy.id, v.computer);
    t.Some? && Seconds(v.now - t.value) < v.policy.cooldownSecs
  }

  predicate Fires(events: seq<Event>, v: Visit) {
    && v.matches && Unresolved(events, v.policy.id, v.computer) == |events|
    && !InCooldown(events, v) && (v.policy.durationSecs > 0 ==> v.held)
  }

  predicate Resolves(events: seq<Event>, v: Visit) {
    !v.matches && Unresolved(events, v.policy.id, v.computer) < |events|
  }

  function AfterVisit(events: seq<Event>, v: Visit): seq<Event> {
    if Fires(events, v) then events + [Event(v.policy.id, v.computer, v.stamp, None)]
    else if Resolves(events, v) then
      var i := Unresolved(events, v.policy.id, v.computer);
      events[i := events[i].(resolvedAt := Some(v.stamp))]
    else events
  }

  ghost predicate OpenAt(events: seq<Event>, policy: nat, computer: nat, j: nat) {
    j < |events| && events[j].policy == policy && events[j].computer == computer && events[j].resolvedAt == None
  }

  ghost predicate LastOpenAt(events: seq<Event>, policy: nat, computer: nat, i: nat) {
    OpenAt(events, policy, computer, i) && forall j: nat :: i < j ==> !OpenAt(events, policy, computer, j)
  }

  /** Some resolution of the pair is younger than the cooldown. A cooldown counts whole seconds, cut off toward zero, so
      one of 0 or less only concerns resolutions in the future of the leader's clock. */
  ghost predicate Cooling(events: seq<Event>, v: Visit) {
    exists j :: 0 <= j < |events| && events[j].policy == v.policy.id && events[j].computer == v.computer && events[j].resolvedAt.Some?
                && if v.policy.cooldownSecs > 0 then v.now - events[j].resolvedAt.value < v.policy.cooldownSecs * 1_000_000
                   else v.now - events[j].resolvedAt.value <= (v.policy.cooldownSecs - 1) * 1_000_000
  }

  lemma CoolingExact(events: seq<Event>, v: Visit)
    ensures InCooldown(events, v) <==> Cooling(events, v)
  {
    var t := LastResolved(events, v.policy.id, v.computer);
    if t.Some? {
      var j :| 0 <= j < |events| && Of(events[j], v.policy.id, v.computer) && events[j].resolvedAt == t;
      SecondsExact(v.now - t.value, v.policy.cooldownSecs);
    }
  }

  lemma SecondsExact(x: int, c: int)
    ensures Seconds(x) < c <==> if c > 0 then x < c * 1_000_000 else x <= (c - 1) * 1_000_000
  {}

  /** What one visit does, in every case: a matching condition adds an open event if the pair has none, is not cooling
      down and the condition was held or need not be; a condition that no longer matches resolves the pair's last open
      event; anything else changes nothing. */
  lemma VisitExact(events: seq<Event>, v: Visit)
    ensures v.matches && (forall j: nat :: !OpenAt(events, v.policy.id, v.computer, j)) && !Cooling(events, v)
            && (v.policy.durationSecs <= 0 || v.held)
            ==> AfterVisit(events, v) == events + [Event(v.policy.id, v.computer, v.stamp, None)]
    ensures v.matches && ((exists j: nat :: OpenAt(events, v.policy.id, v.computer, j)) || Cooling(events, v)
                          || (v.policy.durationSecs > 0 && !v.held))
            ==> AfterVisit(events, v) == events
    ensures !v.matches && (forall j: nat :: !OpenAt(events, v.policy.id, v.computer, j)) ==> AfterVisit(events, v) == events
    ensures !v.matches ==>
      forall i: nat :: LastOpenAt(events, v.policy.id, v.computer, i) ==>
        AfterVisit(events, v) == events[i := events[i].(resolvedAt := Some(v.stamp))]
  {
    CoolingExact(events, v);
    LastOpen(events, v.policy.id, v.computer);
  }

  lemma {:induction false} LastOpen(events: seq<Event>, policy: nat, computer: nat)
    ensures var i := Unresolved(events, policy, computer);
            && (i == |events| <==> forall j: nat :: !OpenAt(events, policy, computer, j))
            && (i < |events| ==> OpenAt(events, policy, computer, i))
            && forall j: nat :: i < j ==> !OpenAt(events, policy, computer, j)
  {
    if events != [] {
      var n := |events| - 1;
      LastOpen(events[..n], policy, computer);
      forall j: nat | j < n ensures OpenAt(events, policy, computer, j) <==> OpenAt(events[..n], policy, computer, j) {}
      var i := Unresolved(events, policy, computer);
      assert i < |events| ==> OpenAt(events, policy, computer, i);
      forall j: nat | i == |events| ensures !OpenAt(events, policy, computer, j) {
        if j < n { assert !OpenAt(events[..n], policy, computer, j); }
      }
    }
  }

  function ResolvedOnes(events: seq<Event>): set<nat> {
    set i | 0 <= i < |events| && events[i].resolvedAt.Some?
  }

  function CountResolved(events: seq<Event>): nat {
    |ResolvedOnes(events)|
  }

  /** A visit resolves one event or none, and firing resolves none. */
  lemma PlayCounts(events: seq<Event>, v: Visit)
    ensures CountResolved(AfterVisit(events, v)) == CountResolved(events) + if Resolves(events, v) then 1 else 0
  {
    var i := Unresolved(events, v.policy.id, v.computer);
    assert ResolvedOnes(AfterVisit(events, v)) == ResolvedOnes(events) + if Resolves(events, v) then {i} else {};
  }

  function Play(events: seq<Event>, visits: seq<Visit>): seq<Event> {
    if visits == [] then events else AfterVisit(Play(events, visits[..|visits| - 1]), visits[|visits| - 1])
  }

  // ----- The law of one pair

  /** The database's clock never runs backward along the visits. */
  ghost predicate Stamped(visits: seq<Visit>, start: int) {
    && (forall i :: 0 <= i < |visits| ==> start <= visits[i].stamp)
    && (forall i, j :: 0 <= i < j < |visits| ==> visits[i].stamp <= visits[j].stamp)
  }

  /** The leader's clock is at most `maxAhead` ahead of the database's. A visit reads it before it writes, so this
      is what such a bound comes to. */
  ghost predicate AheadAtMost(visits: seq<Visit>, maxAhead: nat) {
    forall i :: 0 <= i < |visits| ==> visits[i].now <= visits[i].stamp + maxAhead
  }

  /** `cooldown` is what the policy asks for, or less. */
  ghost predicate Cooldowns(visits: seq<Visit>, cooldown: nat -> int) {
    forall i :: 0 <= i < |visits| ==> cooldown(visits[i].policy.id) <= visits[i].policy.cooldownSecs
  }

  /** Of the events of a pair only the last may be unresolved. */
  ghost predicate OnlyLastOpen(events: seq<Event>) {
    forall i, j :: 0 <= i < j < |events| && Of(events[j], events[i].policy, events[i].computer) ==> events[i].resolvedAt.Some?
  }

  /** The events of a pair alternate: fire, resolve, fire, resolve. */
  ghost predicate Alternates(events: seq<Event>) {
    && OnlyLastOpen(events)
    && forall i, j :: 0 <= i < j < |events| && Of(events[j], events[i].policy, events[i].computer) ==>
         events[i].resolvedAt.Some? && events[i].firedAt <= events[i].resolvedAt.value <= events[j].firedAt
  }

  /** Each event of a pair fires no earlier than the cooldown, less `slack`, after every earlier resolution. */
  ghost predicate Spaced(events: seq<Event>, cooldown: nat -> int, slack: nat) {
    forall i, j :: 0 <= i < j < |events| && Of(events[j], events[i].policy, events[i].computer) && events[i].resolvedAt.Some? ==>
      events[i].resolvedAt.value + cooldown(events[i].policy) * MICROS - slack <= events[j].firedAt
  }

  ghost predicate Past(events: seq<Event>, now: int) {
    forall i :: 0 <= i < |events| ==>
      events[i].firedAt <= now && (events[i].resolvedAt.Some? ==> events[i].firedAt <= events[i].resolvedAt.value <= now)
  }

  /** Without any assumption on the clocks: a visit keeps all but the last event of a pair resolved. */
  lemma {:induction false} PlayOnlyLastOpen(events: seq<Event>, visits: seq<Visit>)
    requires OnlyLastOpen(events)
    ensures OnlyLastOpen(Play(events, visits))
  {
    if visits != [] {
      var init, v := visits[..|visits| - 1], visits[|visits| - 1];
      PlayOnlyLastOpen(events, init);
      var before, after := Play(events, init), Play(events, visits);
      forall i, j | 0 <= i < j < |after| && Of(after[j], after[i].policy, after[i].computer) ensures after[i].resolvedAt.Some? {
        if j < |before| { assert Of(before[j], before[i].policy, before[i].computer); }
      }
    }
  }

  lemma PastGrows(events: seq<Event>, v: Visit, t: int)
    requires Past(events, t) && t <= v.stamp
    ensures Past(AfterVisit(events, v), v.stamp)
  {}

  lemma VisitAlternates(events: seq<Event>, v: Visit, t: int)
    requires Alternates(events) && Past(events, t) && t <= v.stamp && OnlyLastOpen(AfterVisit(events, v))
    ensures Alternates(AfterVisit(events, v))
  {
    var after := AfterVisit(events, v);
    forall i, j | 0 <= i < j < |after| && Of(after[j], after[i].policy, after[i].computer)
      ensures after[i].resolvedAt.Some? && after[i].firedAt <= after[i].resolvedAt.value <= after[j].firedAt
    {
      if j < |events| {
        assert Of(events[j], events[i].policy, events[i].computer) && events[i].resolvedAt.Some?;
        assert after[i] == events[i];
      }
    }
  }

  lemma {:induction false} PlayAlternates(events: seq<Event>, visits: seq<Visit>, start: int)
    requires Alternates(events) && Past(events, start) && Stamped(visits, start)
    ensures Alternates(Play(events, visits))
    ensures Past(Play(events, visits), if visits == [] then start else visits[|visits| - 1].stamp)
  {
    if visits != [] {
      var init, v := visits[..|visits| - 1], visits[|visits| - 1];
      var t := if init == [] then start else init[|init| - 1].stamp;
      PlayAlternates(events, init, start);
      PlayOnlyLastOpen(events, visits);
      PastGrows(Play(events, init), v, t);
      VisitAlternates(Play(events, init), v, t);
    }
  }

  lemma CooldownOver(now: int, t: int, stamp: int, cooldown: int, maxAhead: nat)
    requires t <= stamp && now <= stamp + maxAhead && Seconds(now - t) >= cooldown
    ensures t + cooldown * MICROS - maxAhead <= stamp
  {}

  lemma FireSpaced(events: seq<Event>, v: Visit, t: int, cooldown: nat -> int, maxAhead: nat)
    requires Spaced(events, cooldown, maxAhead) && Past(events, t) && t <= v.stamp && Fires(events, v)
    requires v.now <= v.stamp + maxAhead && cooldown(v.policy.id) <= v.policy.cooldownSecs
    ensures Spaced(AfterVisit(events, v), cooldown, maxAhead)
  {
    var after := AfterVisit(events, v);
    forall i, j | 0 <= i < j < |after| && Of(after[j], after[i].policy, after[i].computer) && after[i].resolvedAt.Some?
      ensures after[i].resolvedAt.value + cooldown(after[i].policy) * MICROS - maxAhead <= after[j].firedAt
    {
      if j < |events| {
        assert Of(events[j], events[i].policy, events[i].computer);
      } else {
        var last := LastResolved(events, v.policy.id, v.computer);
        CooldownOver(v.now, last.value, v.stamp, v.policy.cooldownSecs, maxAhead);
        assert cooldown(v.policy.id) * MICROS <= v.policy.cooldownSecs * MICROS;
      }
    }
  }

  /** The unresolved event of a pair is its last one, so its resolution has no event behind it. */
  lemma ResolveSpaced(events: seq<Event>, v: Visit, cooldown: nat -> int, slack: nat)
    requires Spaced(events, cooldown, slack) && OnlyLastOpen(events) && Resolves(events, v)
    ensures Spaced(AfterVisit(events, v), cooldown, slack)
  {
    var after := AfterVisit(events, v);
    forall i, j | 0 <= i < j < |after| && Of(after[j], after[i].policy, after[i].computer) && after[i].resolvedAt.Some?
      ensures after[i].resolvedAt.value + cooldown(after[i].policy) * MICROS - slack <= after[j].firedAt
    {
      assert Of(events[j], events[i].policy, events[i].computer) && events[i].resolvedAt.Some?;
      assert after[i] == events[i];
    }
  }

  lemma {:induction false} PlaySpaced(events: seq<Event>, visits: seq<Visit>, start: int, cooldown: nat -> int, maxAhead: nat)
    requires Alternates(events) && Spaced(events, cooldown, maxAhead) && Past(events, start) && Stamped(visits, start)
    requires AheadAtMost(visits, maxAhead) && Cooldowns(visits, cooldown)
    ensures Spaced(Play(events, visits), cooldown, maxAhead)
  {
    if visits != [] {
      var init, v := visits[..|visits| - 1], visits[|visits| - 1];
      PlaySpaced(events, init, start, cooldown, maxAhead);
      PlayAlternates(events, init, start);
      var before, t := Play(events, init), if init == [] then start else init[|init| - 1].stamp;
      if Fires(before, v) {
        FireSpaced(before, v, t, cooldown, maxAhead);
      } else if Resolves(before, v) {
        ResolveSpaced(before, v, cooldown, maxAhead);
      }
    }
  }

  // ----- The history check

  predicate HasColumn(metric: string) {
    IsBeatSourcedNumeric(metric)
  }

  /** `condition_held_for_duration`: a metric without history counts as held; otherwise there must be
      a row, and every row, a missing value read as 0, must match. */
  method ConditionHeldForDuration(metric: string, c: Condition, rows: seq<Option<real>>) returns (held: bool)
    ensures held == Held(metric, c, rows)
  {
    if !HasColumn(metric) { return true; }
    if rows == [] { return false; }
    for i := 0 to |rows|
      invariant forall j :: 0 <= j < i ==> EvalNumeric(c, ValueOr0(rows[j]))
    {
      if !EvalNumeric(c, ValueOr0(rows[i])) { return false; }
    }
    return true;
  }

  function ValueOr0(v: Option<real>): real {
    if v.Some? then v.value else 0.0
  }

  predicate Held(metric: string, c: Condition, rows: seq<Option<real>>) {
    HasColumn(metric) ==> rows != [] && forall j :: 0 <= j < |rows| ==> EvalNumeric(c, ValueOr0(rows[j]))
  }

  // ----- One tick

  datatype Target = Target(id: nat, name: string)

  /** What a tick is given. `failAfter` visits are made before a database error ends the tick. */
  datatype Tick = Tick(policies: seq<Policy>, presenceMuted: bool, snap: Snapshot,
                       computers: seq<Target>, leader: Option<Target>,
                       history: (nat, string, int) -> seq<Option<real>>,
                       clock: nat -> int, stamps: nat -> int, failAfter: nat)

  predicate IsPresence(metric: string) {
    metric == "beat_age_secs" || metric == "leader_heartbeat_age_secs" || metric == "computer_status"
  }

  predicate Skipped(number: Number, tick: Tick, p: Policy) {
    (tick.presenceMuted && IsPresence(p.metric)) || ParseCondition(number, p.condition).Unparseable?
  }

  function WithId(computers: seq<Target>, id: nat): seq<Target> {
    if computers == [] then []
    else if computers[0].id == id then [computers[0]]
    else WithId(computers[1..], id)
  }

  /** Target computers by scope. */
  function Targets(tick: Tick, p: Policy): seq<Target> {
    if p.scope == "any_computer" then tick.computers
    else if p.scope == "specific" then (if p.scopeComputer.Some? then WithId(tick.computers, p.scopeComputer.value) else [])
    else if p.scope == "leader_only" then (if tick.leader.Some? then [tick.leader.value] else [])
    else []
  }

  function VisitOf(number: Number, tick: Tick, p: Policy, t: Target, k: nat): Visit {
    var c := ParseCondition(number, p.condition);
    Visit(p, t.id, Matches(p.metric, c, t.name, tick.snap),
          Held(p.metric, c, tick.history(t.id, p.metric, p.durationSecs)), tick.clock(k), tick.stamps(k))
  }

  /** The visits of the first `n` targets, the first of them being visit number `k` of the tick. */
  function TargetVisits(number: Number, tick: Tick, p: Policy, targets: seq<Target>, n: nat, k: nat): (vs: seq<Visit>)
    requires n <= |targets|
    ensures |vs| == n
  {
    if n == 0 then [] else TargetVisits(number, tick, p, targets, n - 1, k) + [VisitOf(number, tick, p, targets[n - 1], k + n - 1)]
  }

  function PolicyVisits(number: Number, tick: Tick, p: Policy, k: nat): seq<Visit> {
    TargetVisits(number, tick, p, Targets(tick, p), |Targets(tick, p)|, k)
  }

  /** The visits of one policy, the first of them being visit number `k`; none if it is skipped. */
  function Block(number: Number, tick: Tick, p: Policy, k: nat): seq<Visit> {
    if Skipped(number, tick, p) then [] else PolicyVisits(number, tick, p, k)
  }

  function Blocks(number: Number, tick: Tick): (Policy, nat) -> seq<Visit> {
    (p: Policy, k: nat) => Block(number, tick, p, k)
  }

  /** The visits of the first `n` policies. */
  function Chain(block: (Policy, nat) -> seq<Visit>, policies: seq<Policy>, n: nat): seq<Visit>
    requires n <= |policies|
  {
    if n == 0 then []
    else
      var before := Chain(block, policies, n - 1);
      before + block(policies[n - 1], |before|)
  }

  function Take(visits: seq<Visit>, n: nat): seq<Visit> {
    if n < |visits| then visits[..n] else visits
  }

  /** All visits of a tick. */
  function TickVisits(number: Number, tick: Tick): seq<Visit> {
    Chain(Blocks(number, tick), tick.policies, |tick.policies|)
  }

  /** The visits the tick makes before it ends or fails. */
  function Made(number: Number, tick: Tick): seq<Visit> {
    Take(TickVisits(number, tick), tick.failAfter)
  }

  lemma PlayStep(events: seq<Event>, visits: seq<Visit>, v: Visit)
    ensures Play(events, visits + [v]) == AfterVisit(Play(events, visits), v)
  {
    assert (visits + [v])[..|visits|] == visits;
  }

  class Evaluator {
    var events: seq<Event>

    constructor ()
      ensures events == []
    {
      events := [];
    }

    /** One visit of the inner loop; returns how many events it fired and resolved. */
    method Process(v: Visit) returns (fired: nat, resolved: nat)
      modifies this
      ensures events == AfterVisit(old(events), v)
      ensures fired == (if Fires(old(events), v) then 1 else 0) && resolved == (if Resolves(old(events), v) then 1 else 0)
    {
      fired, resolved := 0, 0;
      var i := Unresolved(events, v.policy.id, v.computer);
      if v.matches {
        if i < |events| { return; }
        var t := LastResolved(events, v.policy.id, v.computer);
        if t.Some? && Seconds(v.now - t.value) < v.policy.cooldownSecs { return; }
        if v.policy.durationSecs > 0 && !v.held { return; }
        events := events + [Event(v.policy.id, v.computer, v.stamp, None)];
        fired := 1;
      } else if i < |events| {
        events := events[i := events[i].(resolvedAt := Some(v.stamp))];
        resolved := 1;
      }
    }

    /** The inner loop over the visits of one policy, ended by a database error after `budget` of them. */
    method ProcessAll(visits: seq<Visit>, budget: nat) returns (ok: bool, fired: nat, resolved: nat)
      modifies this
      ensures ok <==> |visits| <= budget
      ensures events == Play(old(events), if ok then visits else visits[..budget])
      ensures |events| == |old(events)| + fired && CountResolved(events) == CountResolved(old(events)) + resolved
    {
      fired, resolved := 0, 0;
      for j := 0 to |visits|
        invariant j <= budget
        invariant events == Play(old(events), visits[..j])
        invariant |events| == |old(events)| + fired && CountResolved(events) == CountResolved(old(events)) + resolved
      {
        if j == budget { return false, fired, resolved; }
        assert visits[..j + 1] == visits[..j] + [visits[j]];
        PlayStep(old(events), visits[..j], visits[j]);
        PlayCounts(events, visits[j]);
        var f, r := Process(visits[j]);
        fired, resolved := fired + f, resolved + r;
      }
      assert visits[..|visits|] == visits;
      ok := true;
    }

    /** `evaluate_once`: the new table is the old one after the visits the tick made. */
    method EvaluateOnce(number: Number, tick: Tick) returns (ok: bool, fired: nat, resolved: nat)
      modifies this
      ensures events == Play(old(events), Made(number, tick))
      ensures |events| == |old(events)| + fired && CountResolved(events) == CountResolved(old(events)) + resolved
      ensures ok <==> |TickVisits(number, tick)| <= tick.failAfter
    {
      ok, fired, resolved := EvaluatePolicies(Blocks(number, tick), tick.policies, tick.failAfter);
    }

    /** The outer loop, for any visits `block` of a policy. */
    method EvaluatePolicies(block: (Policy, nat) -> seq<Visit>, policies: seq<Policy>, failAfter: nat)
      returns (ok: bool, fired: nat, resolved: nat)
      modifies this
      ensures events == Play(old(events), Take(Chain(block, policies, |policies|), failAfter))
      ensures |events| == |old(events)| + fired && CountResolved(events) == CountResolved(old(events)) + resolved
      ensures ok <==> |Chain(block, policies, |policies|)| <= failAfter
    {
      fired, resolved := 0, 0;
      var k := 0;
      for n := 0 to |policies|
        invariant k == |Chain(block, policies, n)| <= failAfter
        invariant events == Play(old(events), Chain(block, policies, n))
        invariant |events| == |old(events)| + fired && CountResolved(events) == CountResolved(old(events)) + resolved
      {
        var visits := block(policies[n], k);
        var done, f, r := EvaluatePolicy(block, policies, n, failAfter, visits, failAfter - k, old(events));
        fired, resolved := fired + f, resolved + r;
        if !done { return false, fired, resolved; }
        k := k + |visits|;
      }
      ok := true;
    }

    /** The visits of one policy: further along the chain, or up to the error that ends the tick. */
    method EvaluatePolicy(ghost block: (Policy, nat) -> seq<Visit>, ghost policies: seq<Policy>, ghost n: nat, ghost failAfter: nat,
                          visits: seq<Visit>, budget: nat, ghost before: seq<Event>)
      returns (done: bool, fired: nat, resolved: nat)
      requires n < |policies| && |Chain(block, policies, n)| <= failAfter && events == Play(before, Chain(block, policies, n))
      requires visits == block(policies[n], |Chain(block, policies, n)|) && budget == failAfter - |Chain(block, policies, n)|
      modifies this
      ensures done <==> |visits| <= budget
      ensures done ==> events == Play(before, Chain(block, policies, n + 1))
      ensures !done ==>
        events == Play(before, Take(Chain(block, policies, |policies|), failAfter)) && failAfter < |Chain(block, policies, |policies|)|
      ensures |events| == |old(events)| + fired && CountResolved(events) == CountResolved(old(events)) + resolved
    {
      done, fired, resolved := ProcessAll(visits, budget);
      AfterPolicy(before, block, policies, n, failAfter);
    }
  }

  lemma {:induction false} PlayAppend(events: seq<Event>, a: seq<Visit>, b: seq<Visit>)
    ensures Play(Play(events, a), b) == Play(events, a + b)
  {
    if b == [] {
      assert a + b == a;
    } else {
      PlayAppend(events, a, b[..|b| - 1]);
      assert (a + b)[..|a + b| - 1] == a + b[..|b| - 1];
    }
  }

  lemma {:induction false} ChainPrefix(block: (Policy, nat) -> seq<Visit>, policies: seq<Policy>, m: nat, n: nat)
    requires m <= n <= |policies|
    ensures Chain(block, policies, m) <= Chain(block, policies, n)
    decreases n - m
  {
    if m < n { ChainPrefix(block, policies, m, n - 1); }
  }

  /** What was visited before an error is a proper prefix of the whole tick. */
  lemma CutShort(block: (Policy, nat) -> seq<Visit>, policies: seq<Policy>, n: nat, failAfter: nat)
    requires n < |policies|
    requires var before := Chain(block, policies, n);
             |before| <= failAfter < |before| + |block(policies[n], |before|)|
    ensures var before := Chain(block, policies, n);
            && Take(Chain(block, policies, |policies|), failAfter) == before + block(policies[n], |before|)[..failAfter - |before|]
            && failAfter < |Chain(block, policies, |policies|)|
  {
    ChainPrefix(block, policies, n + 1, |policies|);
    var whole, all := Chain(block, policies, n + 1), Chain(block, policies, |policies|);
    assert all[..failAfter] == whole[..failAfter];
  }

  /** The table after one more policy: further along the chain, or at the point where the tick failed. */
  lemma AfterPolicy(events: seq<Event>, block: (Policy, nat) -> seq<Visit>, policies: seq<Policy>, n: nat, failAfter: nat)
    requires n < |policies| && |Chain(block, policies, n)| <= failAfter
    ensures var before := Chain(block, policies, n);
            var visits, budget := block(policies[n], |before|), failAfter - |before|;
            if |visits| <= budget then Play(Play(events, before), visits) == Play(events, Chain(block, policies, n + 1))
            else
              && Play(Play(events, before), visits[..budget]) == Play(events, Take(Chain(block, policies, |policies|), failAfter))
              && failAfter < |Chain(block, policies, |policies|)|
  {
    var before := Chain(block, policies, n);
    var visits, budget := block(policies[n], |before|), failAfter - |before|;
    if |visits| <= budget {
      PlayAppend(events, before, visits);
    } else {
      PlayAppend(events, before, visits[..budget]);
      CutShort(block, policies, n, failAfter);
    }
  }

  // ----- Any number of ticks

  /** The table after the ticks, each run by `EvaluateOnce` on the table the last one left. */
  function TableAfter(number: Number, ticks: seq<Tick>): seq<Event> {
    if ticks == [] then []
    else Play(TableAfter(number, ticks[..|ticks| - 1]), Made(number, ticks[|ticks| - 1]))
  }

  function AllMade(number: Number, ticks: seq<Tick>): seq<Visit> {
    if ticks == [] then [] else AllMade(number, ticks[..|ticks| - 1]) + Made(number, ticks[|ticks| - 1])
  }

  lemma {:induction false} TableIsPlay(number: Number, ticks: seq<Tick>)
    ensures TableAfter(number, ticks) == Play([], AllMade(number, ticks))
  {
    if ticks != [] {
      TableIsPlay(number, ticks[..|ticks| - 1]);
      PlayAppend([], AllMade(number, ticks[..|ticks| - 1]), Made(number, ticks[|ticks| - 1]));
    }
  }

  /** Main result: over any sequence of ticks, also ones cut short by errors, the events of each
      (policy, computer) pair alternate between firing and resolving, and only the last one may be unresolved.
      The first needs a database clock that does not run backward, the second nothing. */
  lemma AlertsAlternate(number: Number, ticks: seq<Tick>, start: int)
    ensures OnlyLastOpen(TableAfter(number, ticks))
    ensures Stamped(AllMade(number, ticks), start) ==> Alternates(TableAfter(number, ticks))
  {
    TableIsPlay(number, ticks);
    PlayOnlyLastOpen([], AllMade(number, ticks));
    if Stamped(AllMade(number, ticks), start) { PlayAlternates([], AllMade(number, ticks), start); }
  }

  /** In every run in which the leader's clock is at most `maxAhead` ahead, the cooldown falls short by at most
      `slack`. */
  ghost predicate AlwaysSpaced(maxAhead: nat, slack: nat) {
    forall number, ticks, start, cooldown ::
      Stamped(AllMade(number, ticks), start) && AheadAtMost(AllMade(number, ticks), maxAhead) && Cooldowns(AllMade(number, ticks), cooldown)
      ==> Spaced(TableAfter(number, ticks), cooldown, slack)
  }

  /** Main result on the cooldown: it falls short by at most `slack` in every run if and only if the leader's clock
      is never more than `slack` ahead of the database's. With a slack of 0: a new event fires at least the
      cooldown after the previous resolution exactly if the leader's clock is never ahead. */
  lemma CooldownExactly(maxAhead: nat, slack: nat)
    ensures AlwaysSpaced(maxAhead, slack) <==> maxAhead <= slack
  {
    if maxAhead <= slack {
      forall number, ticks, start, cooldown
        | Stamped(AllMade(number, ticks), start) && AheadAtMost(AllMade(number, ticks), maxAhead) && Cooldowns(AllMade(number, ticks), cooldown)
        ensures Spaced(TableAfter(number, ticks), cooldown, slack)
      {
        TableIsPlay(number, ticks);
        PlaySpaced([], AllMade(number, ticks), start, cooldown, maxAhead);
      }
    } else {
      var ticks := FiresEarly(NoNumbers, maxAhead, slack);
      assert !AlwaysSpaced(maxAhead, slack) by {
        assert !Spaced(TableAfter(NoNumbers, ticks), (_: nat) => maxAhead, slack);
      }
    }
  }

  const NoNumbers: Number := _ => None

  /** A tick on one policy and one computer, which is down or up, by a leader `ahead` of the database. */
  function DownTick(cooldown: nat, down: bool, ahead: nat, stamp: int): Tick {
    var beats := if down then [] else [BeatOf(1.0, 0)];
    Tick([DownPolicy(cooldown)], false, Snapshot(beats, None, map[]), [Target(0, "c")], None,
         (_, _, _) => [], _ => stamp + ahead, _ => stamp, 1)
  }

  function DownPolicy(cooldown: nat): Policy {
    Policy(0, "computer_status", "any_computer", None, "" + (OperatorText(Eq) + " " + "'sdown'") + "", 0, cooldown)
  }

  lemma DownParses(number: Number, cooldown: nat)
    ensures ParseCondition(number, DownPolicy(cooldown).condition) == StrEq("sdown")
  {
    ParsesWritten(number, "", Eq, " ", "'sdown'", "");
    assert "'sdown'"[1..6] == "sdown";
  }

  lemma DownVisit(number: Number, cooldown: nat, down: bool, ahead: nat, stamp: int) returns (tick: Tick, v: Visit)
    ensures Made(number, tick) == [v] && IsDownVisit(v, cooldown, down, ahead, stamp)
  {
    tick := DownTick(cooldown, down, ahead, stamp);
    var p := DownPolicy(cooldown);
    DownParses(number, cooldown);
    OneVisit(number, tick, p, Target(0, "c"));
    v := VisitOf(number, tick, p, Target(0, "c"), 0);
  }

  /** The visits of a tick with one policy and one target. */
  lemma OneVisit(number: Number, tick: Tick, p: Policy, t: Target)
    requires tick.policies == [p] && !Skipped(number, tick, p) && Targets(tick, p) == [t] && tick.failAfter > 0
    ensures Made(number, tick) == [VisitOf(number, tick, p, t, 0)]
  {
    var block := Blocks(number, tick);
    assert Chain(block, tick.policies, 0) == [];
    assert TargetVisits(number, tick, p, [t], 0, 0) == [];
    assert block(p, 0) == [VisitOf(number, tick, p, t, 0)];
    assert Chain(block, tick.policies, 1) == [] + block(tick.policies[0], 0);
  }

  lemma TickStep(number: Number, ticks: seq<Tick>, t: Tick, v: Visit)
    requires Made(number, t) == [v]
    ensures AllMade(number, ticks + [t]) == AllMade(number, ticks) + [v]
    ensures TableAfter(number, ticks + [t]) == AfterVisit(TableAfter(number, ticks), v)
  {
    assert (ticks + [t])[..|ticks|] == ticks;
    assert [v][..0] == [];
    var table := TableAfter(number, ticks);
    assert Play(table, []) == table && Play(table, [v]) == AfterVisit(table, v);
  }

  predicate IsDownVisit(v: Visit, cooldown: nat, down: bool, ahead: nat, stamp: int) {
    && v.policy == DownPolicy(cooldown) && v.computer == 0 && v.matches == down && v.now == stamp + ahead && v.stamp == stamp
  }

  /** Up to the resolution at 0, and the next event `ahead` before the end of the cooldown. */
  lemma EarlyEvents(u: Visit, v: Visit, w: Visit, ahead: nat)
    requires ahead > 0 && IsDownVisit(u, ahead, true, ahead, 0) && IsDownVisit(v, ahead, false, ahead, 0)
    requires IsDownVisit(w, ahead, true, ahead, ahead * MICROS - ahead)
    ensures AfterVisit(AfterVisit(AfterVisit([], u), v), w) == [Event(0, 0, 0, Some(0)), Event(0, 0, ahead * MICROS - ahead, None)]
  {
    var fired, resolved := [Event(0, 0, 0, None)], [Event(0, 0, 0, Some(0))];
    assert AfterVisit([], u) == fired;
    assert Unresolved(fired, 0, 0) == 0;
    assert AfterVisit(fired, v) == resolved;
    assert resolved[..0] == [];
    assert LastResolved(resolved, 0, 0) == Some(0);
    assert Unresolved(resolved, 0, 0) == 1;
    assert Seconds(w.now) == ahead;
  }

  /** The failing input: an alert fires and resolves at 0, and with a leader `ahead` of the database the next one
      fires `ahead` before the end of the cooldown. */
  lemma FiresEarly(number: Number, ahead: nat, slack: nat) returns (ticks: seq<Tick>)
    requires slack < ahead
    ensures Stamped(AllMade(number, ticks), 0) && AheadAtMost(AllMade(number, ticks), ahead)
    ensures Cooldowns(AllMade(number, ticks), (_: nat) => ahead)
    ensures !Spaced(TableAfter(number, ticks), (_: nat) => ahead, slack)
  {
    var again := ahead * MICROS - ahead;
    var a, u := DownVisit(number, ahead, true, ahead, 0);
    var b, v := DownVisit(number, ahead, false, ahead, 0);
    var c, w := DownVisit(number, ahead, true, ahead, again);
    ticks := [a] + [b] + [c];
    ThreeTicks(number, [], [a], [a] + [b], ticks, a, u, b, v, c, w);
    EarlyVisits(u, v, w, ahead);
    EarlyEvents(u, v, w, ahead);
    TooEarly(ahead, slack);
  }

  lemma ThreeTicks(number: Number, none: seq<Tick>, one: seq<Tick>, two: seq<Tick>, three: seq<Tick>,
                   a: Tick, u: Visit, b: Tick, v: Visit, c: Tick, w: Visit)
    requires Made(number, a) == [u] && Made(number, b) == [v] && Made(number, c) == [w]
    requires none == [] && one == none + [a] && two == one + [b] && three == two + [c]
    ensures AllMade(number, three) == [u, v, w]
    ensures TableAfter(number, three) == AfterVisit(AfterVisit(AfterVisit([], u), v), w)
  {
    TickStep(number, none, a, u);
    TickStep(number, one, b, v);
    TickStep(number, two, c, w);
  }

  lemma EarlyVisits(u: Visit, v: Visit, w: Visit, ahead: nat)
    requires ahead > 0 && IsDownVisit(u, ahead, true, ahead, 0) && IsDownVisit(v, ahead, false, ahead, 0)
    requires IsDownVisit(w, ahead, true, ahead, ahead * MICROS - ahead)
    ensures Stamped([u, v, w], 0) && AheadAtMost([u, v, w], ahead) && Cooldowns([u, v, w], (_: nat) => ahead)
  {}

  lemma TooEarly(ahead: nat, slack: nat)
    requires slack < ahead
    ensures !Spaced([Event(0, 0, 0, Some(0)), Event(0, 0, ahead * MICROS - ahead, None)], (_: nat) => ahead, slack)
  {
    var table := [Event(0, 0, 0, Some(0)), Event(0, 0, ahead * MICROS - ahead, None)];
    assert Of(table[1], table[0].policy, table[0].computer);
  }

  // ----- Who may fire

  /** A visit of the chain belongs to one of its policies. */
  lemma {:induction false} ChainMember(block: (Policy, nat) -> seq<Visit>, policies: seq<Policy>, n: nat, v: Visit)
    returns (p: Policy, k: nat)
    requires n <= |policies| && v in Chain(block, policies, n)
    ensures p in policies && v in block(p, k)
  {
    var before := Chain(block, policies, n - 1);
    if v in before {
      p, k := ChainMember(block, policies, n - 1, v);
    } else {
      p, k := policies[n - 1], |before|;
    }
  }

  /** Every visit of a tick comes from a policy that is not skipped and one of its targets. */
  lemma VisitFrom(number: Number, tick: Tick, v: Visit) returns (t: Target, k: nat)
    requires v in TickVisits(number, tick)
    ensures v.policy in tick.policies && !Skipped(number, tick, v.policy)
    ensures t in Targets(tick, v.policy) && v == VisitOf(number, tick, v.policy, t, k)
  {
    var p, k0 := ChainMember(Blocks(number, tick), tick.policies, |tick.policies|, v);
    assert v in Block(number, tick, p, k0);
    t, k := TargetFrom(number, tick, p, Targets(tick, p), |Targets(tick, p)|, k0, v);
  }

  lemma {:induction false} TargetFrom(number: Number, tick: Tick, p: Policy, targets: seq<Target>, n: nat, k0: nat, v: Visit)
    returns (t: Target, k: nat)
    requires n <= |targets| && v in TargetVisits(number, tick, p, targets, n, k0)
    ensures t in targets && v == VisitOf(number, tick, p, t, k)
  {
    if v == VisitOf(number, tick, p, targets[n - 1], k0 + n - 1) {
      t, k := targets[n - 1], k0 + n - 1;
    } else {
      t, k := TargetFrom(number, tick, p, targets, n - 1, k0, v);
    }
  }

  /** And every target of every policy that is neither muted nor unparseable is visited. */
  lemma VisitsComplete(number: Number, tick: Tick, p: Policy, t: Target) returns (k: nat)
    requires p in tick.policies && t in Targets(tick, p) && !ParseCondition(number, p.condition).Unparseable?
    requires tick.presenceMuted ==>
      p.metric != "beat_age_secs" && p.metric != "leader_heartbeat_age_secs" && p.metric != "computer_status"
    ensures VisitOf(number, tick, p, t, k) in TickVisits(number, tick)
  {
    var n :| 0 <= n < |tick.policies| && tick.policies[n] == p;
    var k0 := |Chain(Blocks(number, tick), tick.policies, n)|;
    k := TargetVisited(number, tick, p, Targets(tick, p), |Targets(tick, p)|, k0, t);
    InChain(Blocks(number, tick), tick.policies, n, VisitOf(number, tick, p, t, k));
  }

  lemma InChain(block: (Policy, nat) -> seq<Visit>, policies: seq<Policy>, n: nat, v: Visit)
    requires n < |policies| && v in block(policies[n], |Chain(block, policies, n)|)
    ensures v in Chain(block, policies, |policies|)
  {
    var before := Chain(block, policies, n);
    InPrefix(before + block(policies[n], |before|), Chain(block, policies, |policies|), v) by {
      ChainPrefix(block, policies, n + 1, |policies|);
    }
  }

  lemma InPrefix(a: seq<Visit>, b: seq<Visit>, v: Visit)
    requires a <= b && v in a
    ensures v in b
  {}

  lemma {:induction false} TargetVisited(number: Number, tick: Tick, p: Policy, targets: seq<Target>, n: nat, k0: nat, t: Target)
    returns (k: nat)
    requires n <= |targets| && t in targets[..n]
    ensures VisitOf(number, tick, p, t, k) in TargetVisits(number, tick, p, targets, n, k0)
  {
    if t == targets[n - 1] {
      k := k0 + n - 1;
    } else {
      assert t in targets[..n - 1];
      k := TargetVisited(number, tick, p, targets, n - 1, k0, t);
    }
  }

  /** The targets of each scope. */
  lemma TargetsExact(tick: Tick, p: Policy, t: Target)
    ensures p.scope == "any_computer" ==> (t in Targets(tick, p) <==> t in tick.computers)
    ensures p.scope == "leader_only" ==> (t in Targets(tick, p) <==> tick.leader == Some(t))
    ensures p.scope == "specific" && t in Targets(tick, p) ==> t in tick.computers && p.scopeComputer == Some(t.id)
    ensures p.scope == "specific" && t in tick.computers && p.scopeComputer == Some(t.id) ==> Targets(tick, p) != []
    ensures p.scope != "any_computer" && p.scope != "leader_only" && p.scope != "specific" ==> Targets(tick, p) == []
  {
    if p.scopeComputer.Some? { WithIdExact(tick.computers, p.scopeComputer.value, t); }
  }

  lemma {:induction false} WithIdExact(computers: seq<Target>, id: nat, t: Target)
    ensures t in WithId(computers, id) ==> t in computers && t.id == id
    ensures t in computers && t.id == id ==> WithId(computers, id) != []
  {
    if computers != [] { WithIdExact(computers[1..], id, t); }
  }

  /** The scope names computers. */
  predicate HasTarget(p: Policy) {
    p.scope == "any_computer" || p.scope == "leader_only" || (p.scope == "specific" && p.scopeComputer.Some?)
  }

  predicate PolicyFireable(number: Number, p: Policy) {
    Fireable(p.metric, ParseCondition(number, p.condition)) && HasTarget(p)
  }

  /** A visit matches only if its policy is fireable. */
  lemma VisitsAreLive(number: Number, tick: Tick, v: Visit)
    requires v in TickVisits(number, tick)
    ensures v.policy in tick.policies && !Skipped(number, tick, v.policy)
    ensures v.matches ==> PolicyFireable(number, v.policy)
  {
    var t, k := VisitFrom(number, tick, v);
    if v.matches { MatchIsFireable(v.policy.metric, ParseCondition(number, v.policy.condition), t.name, tick.snap); }
  }

  // ----- Why an event was fired

  /** The history of the metric has rows, and every one meets the condition; a missing value counts as 0. */
  ghost predicate HistoryMeets(c: Condition, rows: seq<Option<real>>) {
    rows != [] && forall i :: 0 <= i < |rows| ==> EvalNumeric(c, if rows[i].Some? then rows[i].value else 0.0)
  }

  /** The tick had a policy and a target of it for which the condition matched and, if the policy has a duration and the
      metric a history column, was met by the whole history. */
  ghost predicate Justified(number: Number, tick: Tick, e: Event) {
    exists p, t :: JustifiedBy(number, tick, e, p, t)
  }

  ghost predicate JustifiedBy(number: Number, tick: Tick, e: Event, p: Policy, t: Target) {
    var c := ParseCondition(number, p.condition);
    && p in tick.policies && p.id == e.policy && t in Targets(tick, p) && t.id == e.computer
    && Matches(p.metric, c, t.name, tick.snap)
    && (p.durationSecs > 0 && IsBeatSourcedNumeric(p.metric) ==> HistoryMeets(c, tick.history(t.id, p.metric, p.durationSecs)))
  }

  /** Old events keep their places and their pairs, and a new one comes from a visit that matched and was held. */
  ghost predicate GrownBy(a: seq<Event>, b: seq<Event>, visits: seq<Visit>) {
    && |a| <= |b| && (forall i :: 0 <= i < |a| ==> b[i].policy == a[i].policy && b[i].computer == a[i].computer)
    && forall i :: |a| <= i < |b| ==> exists v :: v in visits && FiredBy(b[i], v)
  }

  predicate FiredBy(e: Event, v: Visit) {
    v.policy.id == e.policy && v.computer == e.computer && v.matches && (v.policy.durationSecs > 0 ==> v.held)
  }

  lemma {:induction false} PlayGrows(events: seq<Event>, visits: seq<Visit>)
    ensures GrownBy(events, Play(events, visits), visits)
  {
    if visits != [] {
      var init, v := visits[..|visits| - 1], visits[|visits| - 1];
      PlayGrows(events, init);
      var before, after := Play(events, init), Play(events, visits);
      forall i | |events| <= i < |after| ensures exists u :: u in visits && FiredBy(after[i], u) {
        if i < |before| {
          var u :| u in init && FiredBy(before[i], u);
          assert u in visits && FiredBy(after[i], u);
        } else {
          assert v in visits && FiredBy(after[i], v);
        }
      }
    }
  }

  /** Main result on firing: every event a tick adds is justified, so a policy with a duration fires only on a history
      that met its condition in every row. */
  lemma FiredJustified(number: Number, tick: Tick, events: seq<Event>)
    ensures var after := Play(events, Made(number, tick));
            |events| <= |after| && forall i :: |events| <= i < |after| ==> Justified(number, tick, after[i])
  {
    var after := Play(events, Made(number, tick));
    PlayGrows(events, Made(number, tick));
    forall i | |events| <= i < |after| ensures Justified(number, tick, after[i]) {
      var e := after[i];
      assert exists v :: v in Made(number, tick) && FiredBy(e, v);
      var v :| v in Made(number, tick) && FiredBy(e, v);
      assert v in TickVisits(number, tick);
      var t, k := VisitFrom(number, tick, v);
      assert JustifiedBy(number, tick, after[i], v.policy, t);
    }
  }

  /** The same for every event of a whole run. */
  lemma {:induction false} AllJustified(number: Number, ticks: seq<Tick>, i: nat)
    requires i < |TableAfter(number, ticks)|
    ensures exists tick :: tick in ticks && Justified(number, tick, TableAfter(number, ticks)[i])
  {
    var init, last := ticks[..|ticks| - 1], ticks[|ticks| - 1];
    var before, after := TableAfter(number, init), TableAfter(number, ticks);
    PlayGrows(before, Made(number, last));
    FiredJustified(number, last, before);
    if i < |before| {
      AllJustified(number, init, i);
      var tick :| tick in init && Justified(number, tick, before[i]);
      var p, t :| JustifiedBy(number, tick, before[i], p, t);
      assert JustifiedBy(number, tick, after[i], p, t);
      assert tick in ticks && Justified(number, tick, after[i]);
    } else {
      assert last in ticks && Justified(number, last, after[i]);
    }
  }

  /** Number of events of a policy. */
  function CountOf(events: seq<Event>, policy: nat): nat {
    if events == [] then 0 else CountOf(events[..|events| - 1], policy) + if events[|events| - 1].policy == policy then 1 else 0
  }

  lemma {:induction false} CountUpdate(events: seq<Event>, i: nat, e: Event, policy: nat)
    requires i < |events| && events[i].policy == e.policy
    ensures CountOf(events[i := e], policy) == CountOf(events, policy)
  {
    var n := |events| - 1;
    if i < n {
      CountUpdate(events[..n], i, e, policy);
      assert events[i := e][..n] == events[..n][i := e];
    } else {
      assert events[i := e][..n] == events[..n];
    }
  }

  /** A policy gains an event only from a visit of its own that matches. */
  lemma {:induction false} OnlyMatchesFire(events: seq<Event>, visits: seq<Visit>, policy: nat)
    requires forall v :: v in visits && v.policy.id == policy ==> !v.matches
    ensures CountOf(Play(events, visits), policy) == CountOf(events, policy)
  {
    if visits != [] {
      var init, v := visits[..|visits| - 1], visits[|visits| - 1];
      assert v in visits && forall u :: u in init ==> u in visits;
      OnlyMatchesFire(events, init, policy);
      var before := Play(events, init);
      if Fires(before, v) {
        assert (before + [Event(v.policy.id, v.computer, v.stamp, None)])[..|before|] == before;
      } else if Resolves(before, v) {
        var i := Unresolved(before, v.policy.id, v.computer);
        CountUpdate(before, i, before[i].(resolvedAt := Some(v.stamp)), policy);
      }
    }
  }

  /** Whatever the beats, the history and the table, a tick never fires a policy that is not fireable. */
  lemma DeadPolicyNeverFires(number: Number, tick: Tick, events: seq<Event>, policy: nat)
    requires forall p :: p in tick.policies && p.id == policy ==> !PolicyFireable(number, p)
    ensures CountOf(Play(events, Made(number, tick)), policy) == CountOf(events, policy)
  {
    forall v | v in Made(number, tick) && v.policy.id == policy ensures !v.matches {
      assert v in TickVisits(number, tick);
      VisitsAreLive(number, tick, v);
    }
    OnlyMatchesFire(events, Made(number, tick), policy);
  }

  /** The doctor's verdict is sound for whole ticks: a policy it does not call polled never fires. */
  lemma UnpolledNeverFires(number: Number, tick: Tick, events: seq<Event>, policy: nat)
    requires forall p :: p in tick.policies && p.id == policy ==> Classify(number, p.metric, p.condition) != EvaluatorPolled
    ensures CountOf(Play(events, Made(number, tick)), policy) == CountOf(events, policy)
  {
    forall p | p in tick.policies && p.id == policy ensures !PolicyFireable(number, p) {
      DoctorExact(number, p.metric, p.condition);
    }
    DeadPolicyNeverFires(number, tick, events, policy);
  }

  /** Some tick on the policy alone fires it. */
  ghost predicate CanFire(number: Number, p: Policy) {
    exists tick :: FiresIn(number, tick, p)
  }

  ghost predicate FiresIn(number: Number, tick: Tick, p: Policy) {
    tick.policies == [p] && CountOf(Play([], Made(number, tick)), p.id) > 0
  }

  /** Main result: a policy can fire if and only if its metric can meet its condition and its scope names
      computers, whatever duration and cooldown it asks for. */
  lemma FiresExactly(number: Number, p: Policy)
    ensures CanFire(number, p) <==> PolicyFireable(number, p)
  {
    forall tick | FiresIn(number, tick, p) ensures PolicyFireable(number, p) {
      if !PolicyFireable(number, p) { DeadPolicyNeverFires(number, tick, [], p.id); }
    }
    if PolicyFireable(number, p) {
      var tick := FiringTick(number, p);
      assert FiresIn(number, tick, p);
    }
  }

  /** A tick on the computer "c" whose present and past meet the condition. */
  lemma FiringTick(number: Number, p: Policy) returns (tick: Tick)
    requires PolicyFireable(number, p)
    ensures FiresIn(number, tick, p)
  {
    var c := ParseCondition(number, p.condition);
    var t := Target(if p.scopeComputer.Some? then p.scopeComputer.value else 0, "c");
    var rows := if HasColumn(p.metric) then [Some(Read(p.metric, "c", Witness(p.metric, c)).v)] else [];
    FireableMatches(p.metric, c);
    tick := Tick([p], false, Witness(p.metric, c), [t], Some(t), (_, _, _) => rows, _ => 0, _ => 0, 1);
    OneVisit(number, tick, p, t);
    var v := VisitOf(number, tick, p, t, 0);
    assert Held(p.metric, c, rows);
    FirstFires(v);
  }

  lemma FirstFires(v: Visit)
    requires v.matches && v.held
    ensures CountOf(Play([], [v]), v.policy.id) == 1
  {
    assert [v][..0] == [];
    assert Play([], []) == [];
    var e := Event(v.policy.id, v.computer, v.stamp, None);
    assert AfterVisit([], v) == [e];
    assert [e][..0] == [];
  }

  /** Events of the policy, before and after, are the same. */
  ghost predicate SameFor(a: seq<Event>, b: seq<Event>, policy: nat) {
    && |a| <= |b|
    && (forall i :: 0 <= i < |a| && a[i].policy == policy ==> b[i] == a[i])
    && (forall i :: 0 <= i < |b| && b[i].policy == policy ==> i < |a| && b[i] == a[i])
  }

  lemma {:induction false} UnvisitedUnchanged(events: seq<Event>, visits: seq<Visit>, policy: nat)
    requires forall v :: v in visits ==> v.policy.id != policy
    ensures SameFor(events, Play(events, visits), policy)
  {
    if visits != [] {
      var init, v := visits[..|visits| - 1], visits[|visits| - 1];
      assert v in visits && forall u :: u in init ==> u in visits;
      UnvisitedUnchanged(events, init, policy);
    }
  }

  /** While presence alerts are muted, a tick neither fires nor resolves a presence policy. */
  lemma MutedPolicyUntouched(number: Number, tick: Tick, events: seq<Event>, policy: nat)
    requires tick.presenceMuted && forall p :: p in tick.policies && p.id == policy ==>
      p.metric == "beat_age_secs" || p.metric == "leader_heartbeat_age_secs" || p.metric == "computer_status"
    ensures SameFor(events, Play(events, Made(number, tick)), policy)
  {
    forall v | v in Made(number, tick) ensures v.policy.id != policy {
      assert v in TickVisits(number, tick);
      VisitsAreLive(number, tick, v);
    }
    UnvisitedUnchanged(events, Made(number, tick), policy);
  }
}
