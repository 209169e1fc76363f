/** Any number of dispatchers share the worker slots, while a reaper sweeps the stale ones
    (crates/ff-agent/src/agent_coordinator.rs). A release does not check who holds the slot,
    so exclusive use rests on timing: the longest hold plus the lag of the client clock that
    stamps a claim must not exceed the staleness ceiling of 3600 seconds. That bound is exact. */
module SlotProtocol {
  import opened Options
  import opened SlotTables

  /** `maxHold`: the longest time between a claim and its release or the dispatcher's crash.
      `maxLag`: how far the clock that stamps a claim may be behind the database clock. */
  datatype Config = Config(maxHold: nat, maxLag: nat)

  /** Seconds after which the stuck-slot reaper resets a busy slot. */
  const BUSY_STALE_SECS := 3600

  datatype Dispatcher = Free | Picked(slot: Key) | Holding(slot: Key, item: nat, since: int)

  datatype World = World(tables: Tables, now: int, dispatchers: map<nat, Dispatcher>)

  datatype Step =
    | Pick(d: nat, slot: Key)
    | TryClaim(d: nat, item: nat, stamp: int)
    | Finish(d: nat, ok: bool)
    | Crash(d: nat)
    | Wait(seconds: nat)
    | Reap(swept: set<Key>)
    | Seed(slot: Key)
    | Recover(slot: Key)
    | Unstick(slot: Key)
    | Elsewhere(items: map<nat, WorkItem>, worktrees: map<nat, Worktree>, leased: set<Key>)

  function StateOf(w: World, d: nat): Dispatcher {
    if d in w.dispatchers then w.dispatchers[d] else Free
  }

  /** The stuck-slot reaper of crates/ff-agent/src/sub_agent_reaper.rs goes by the start of the work. */
  predicate Stuck(t: Tables, slot: Key, now: int) {
    && slot in t.agents && t.agents[slot].status.Busy? && slot !in t.leased
    && (t.agents[slot].startedAt.None? || t.agents[slot].startedAt.value < now - BUSY_STALE_SECS)
  }

  /** The rows the stuck-slot reaper takes: busy and not leased, and started more than an hour ago or at no known time. */
  lemma StuckExact(t: Tables, slot: Key, now: int)
    ensures Stuck(t, slot, now)
       <==> && slot in t.agents && t.agents[slot].status == Busy && slot !in t.leased
            && (t.agents[slot].startedAt.Some? ==> t.agents[slot].startedAt.value + 3600 < now)
  {}

  /** When a step may be taken. A crash also stands for a dispatch that panics, and for a release that fails: the
      dispatcher is gone and its row stays. A dispatcher picks an idle slot, but by the time it claims, the
      slot may be gone. Time passes only as long as no hold exceeds `maxHold`. */
  ghost predicate Enabled(c: Config, w: World, step: Step) {
    match step
    case Pick(d, slot) => !StateOf(w, d).Holding? && Claimable(w.tables, slot)
    case TryClaim(d, _, stamp) => StateOf(w, d).Picked? && w.now - c.maxLag <= stamp
    case Finish(d, _) => StateOf(w, d).Holding?
    case Crash(d) => true
    case Wait(seconds) => forall d :: StateOf(w, d).Holding? ==> w.now + seconds - StateOf(w, d).since <= c.maxHold
    case Reap(swept) => Sweepable(w.tables, swept, STALE_HEARTBEAT_SECS, w.now)
    case Seed(slot) => slot !in w.tables.agents
    case Recover(slot) => slot in w.tables.agents && !w.tables.agents[slot].status.Busy?
    case Unstick(slot) => Stuck(w.tables, slot, w.now)
    case Elsewhere(_, _, _) => true
  }

  function Apply(w: World, step: Step): World
    requires step.TryClaim? ==> StateOf(w, step.d).Picked?
    requires step.Finish? ==> StateOf(w, step.d).Holding?
  {
    var t := w.tables;
    match step
    case Pick(d, slot) => w.(dispatchers := w.dispatchers[d := Picked(slot)])
    case TryClaim(d, item, stamp) =>
      var slot := StateOf(w, d).slot;
      w.(tables := Claim(t, slot, item, stamp),
         dispatchers := w.dispatchers[d := if Claimable(t, slot) then Holding(slot, item, w.now) else Free])
    case Finish(d, ok) =>
      w.(tables := Release(t, StateOf(w, d).slot, ok, w.now), dispatchers := w.dispatchers[d := Free])
    case Crash(d) => w.(dispatchers := w.dispatchers[d := Free])
    case Wait(seconds) => w.(now := w.now + seconds)
    case Reap(swept) => w.(tables := Sweep(t, swept, w.now))
    case Seed(slot) => w.(tables := t.(agents := t.agents[slot := SubAgent(Idle, None, None, None)]))
    case Recover(slot) => w.(tables := t.(agents := t.agents[slot := SubAgent(Idle, None, None, Some(w.now))]))
    case Unstick(slot) =>
      if slot in t.agents then w.(tables := t.(agents := t.agents[slot := t.agents[slot].(status := Idle, item := None)])) else w
    case Elsewhere(items, worktrees, leased) =>
      w.(tables := Tables(t.agents, items, worktrees, leased))
  }

  ghost predicate Init(w: World) {
    IdleIsEmpty(w.tables) && forall d :: StateOf(w, d).Free?
  }

  ghost predicate Run(c: Config, w: World, steps: seq<Step>)
    decreases |steps|
  {
    steps == [] || (Enabled(c, w, steps[0]) && Run(c, Apply(w, steps[0]), steps[1..]))
  }

  ghost function After(c: Config, w: World, steps: seq<Step>): World
    requires Run(c, w, steps)
    decreases |steps|
  {
    if steps == [] then w else After(c, Apply(w, steps[0]), steps[1..])
  }

  // ----- Safety

  ghost predicate Exclusive(w: World) {
    forall d, e :: d != e && StateOf(w, d).Holding? && StateOf(w, e).Holding? ==> StateOf(w, d).slot != StateOf(w, e).slot
  }

  /** The slot a dispatcher holds is busy with that dispatcher's item. */
  ghost predicate HeldIsBusy(w: World) {
    forall d :: StateOf(w, d).Holding? ==> HoldsRow(w, d)
  }

  ghost predicate HoldsRow(w: World, d: nat)
    requires StateOf(w, d).Holding?
  {
    var h := StateOf(w, d);
    h.slot in w.tables.agents && w.tables.agents[h.slot].status.Busy? && w.tables.agents[h.slot].item == Some(h.item)
  }

  ghost predicate Safe(w: World) {
    Exclusive(w) && HeldIsBusy(w) && IdleIsEmpty(w.tables)
  }

  /** The row carries a heartbeat and a start that are at most `maxHold + maxLag` old. */
  ghost predicate FreshRow(c: Config, w: World, d: nat)
    requires StateOf(w, d).Holding?
  {
    var h := StateOf(w, d);
    && h.slot in w.tables.agents && w.tables.agents[h.slot].heartbeat.Some? && w.tables.agents[h.slot].startedAt.Some?
    && h.since - c.maxLag <= w.tables.agents[h.slot].heartbeat.value
    && h.since - c.maxLag <= w.tables.agents[h.slot].startedAt.value
    && h.since <= w.now <= h.since + c.maxHold
  }

  ghost predicate Inv(c: Config, w: World) {
    Safe(w) && forall d :: StateOf(w, d).Holding? ==> FreshRow(c, w, d)
  }

  lemma StepOther(c: Config, w: World, step: Step, d: nat)
    requires Enabled(c, w, step)
    ensures ((step.Pick? || step.TryClaim? || step.Finish? || step.Crash?) && step.d == d)
            || StateOf(Apply(w, step), d) == StateOf(w, d)
  {}

  /** Holders that were there before still exclude each other. */
  lemma StillExclusive(w: World, w': World)
    requires Exclusive(w)
    requires forall d :: StateOf(w', d).Holding? ==> StateOf(w', d) == StateOf(w, d)
    ensures Exclusive(w')
  {
    forall d, e | d != e && StateOf(w', d).Holding? && StateOf(w', e).Holding?
      ensures StateOf(w', d).slot != StateOf(w', e).slot
    {
      assert StateOf(w, d).slot != StateOf(w, e).slot;
    }
  }

  lemma ClaimKeeps(c: Config, w: World, step: Step)
    requires Inv(c, w) && Enabled(c, w, step) && step.TryClaim?
    ensures Inv(c, Apply(w, step))
  {
    var w' := Apply(w, step);
    forall d | StateOf(w', d).Holding? ensures HoldsRow(w', d) && FreshRow(c, w', d) {
      if d != step.d {
        assert StateOf(w', d) == StateOf(w, d);
        assert HoldsRow(w, d) && FreshRow(c, w, d);
      }
    }
    forall d, e | d != e && StateOf(w', d).Holding? && StateOf(w', e).Holding?
      ensures StateOf(w', d).slot != StateOf(w', e).slot
    {
      assert d != step.d ==> HoldsRow(w, d);
      assert e != step.d ==> HoldsRow(w, e);
    }
  }

  lemma FinishKeeps(c: Config, w: World, step: Step)
    requires Inv(c, w) && Enabled(c, w, step) && step.Finish?
    ensures Inv(c, Apply(w, step))
  {
    var w' := Apply(w, step);
    forall d | StateOf(w', d).Holding? ensures HoldsRow(w', d) && FreshRow(c, w', d) {
      assert StateOf(w', d) == StateOf(w, d) && d != step.d;
      assert StateOf(w, step.d).Holding?;
      assert StateOf(w, d).slot != StateOf(w, step.d).slot;
      assert HoldsRow(w, d) && FreshRow(c, w, d);
    }
    StillExclusive(w, w');
  }

  /** A sweep never takes a held slot: its heartbeat is fresh enough. */
  lemma ReapKeeps(c: Config, w: World, step: Step)
    requires c.maxHold + c.maxLag <= STALE_HEARTBEAT_SECS
    requires Inv(c, w) && Enabled(c, w, step) && step.Reap?
    ensures Inv(c, Apply(w, step))
  {
    var w' := Apply(w, step);
    forall d | StateOf(w', d).Holding? ensures HoldsRow(w', d) && FreshRow(c, w', d) {
      assert HoldsRow(w, d) && FreshRow(c, w, d);
      var slot := StateOf(w, d).slot;
      assert !Stale(w.tables, slot, STALE_HEARTBEAT_SECS, w.now);
      assert slot !in step.swept;
    }
    StillExclusive(w, w');
  }

  /** The stuck-slot reaper takes no held slot either, by the same bound. */
  lemma UnstickKeeps(c: Config, w: World, step: Step)
    requires c.maxHold + c.maxLag <= BUSY_STALE_SECS
    requires Inv(c, w) && Enabled(c, w, step) && step.Unstick?
    ensures Inv(c, Apply(w, step))
  {
    var w' := Apply(w, step);
    forall d | StateOf(w', d).Holding? ensures HoldsRow(w', d) && FreshRow(c, w', d) {
      assert HoldsRow(w, d) && FreshRow(c, w, d);
      assert !Stuck(w.tables, StateOf(w, d).slot, w.now);
    }
    StillExclusive(w, w');
  }

  lemma OtherKeeps(c: Config, w: World, step: Step)
    requires Inv(c, w) && Enabled(c, w, step)
    requires !step.TryClaim? && !step.Finish? && !step.Reap? && !step.Unstick?
    ensures Inv(c, Apply(w, step))
  {
    var w' := Apply(w, step);
    forall d | StateOf(w', d).Holding? ensures HoldsRow(w', d) && FreshRow(c, w', d) {
      StepOther(c, w, step, d);
      assert HoldsRow(w, d) && FreshRow(c, w, d);
    }
    forall d ensures StateOf(w', d).Holding? ==> StateOf(w', d) == StateOf(w, d) {
      StepOther(c, w, step, d);
    }
    StillExclusive(w, w');
  }

  lemma StepKeeps(c: Config, w: World, step: Step)
    requires c.maxHold + c.maxLag <= STALE_HEARTBEAT_SECS
    requires Inv(c, w) && Enabled(c, w, step)
    ensures Inv(c, Apply(w, step))
  {
    if step.TryClaim? { ClaimKeeps(c, w, step); }
    else if step.Finish? { FinishKeeps(c, w, step); }
    else if step.Reap? { ReapKeeps(c, w, step); }
    else if step.Unstick? { UnstickKeeps(c, w, step); }
    else { OtherKeeps(c, w, step); }
  }

  lemma {:induction false} RunKeeps(c: Config, w: World, steps: seq<Step>)
    requires c.maxHold + c.maxLag <= STALE_HEARTBEAT_SECS
    requires Inv(c, w) && Run(c, w, steps)
    ensures Inv(c, After(c, w, steps))
    decreases |steps|
  {
    if steps != [] {
      StepKeeps(c, w, steps[0]);
      RunKeeps(c, Apply(w, steps[0]), steps[1..]);
    }
  }

  // ----- The bound is exact

  /** One slot, two dispatchers: the first stamps its claim as far back as it may and holds as long
      as it may; the sweep takes its row, and the second claims the slot. */
  lemma TooLong(c: Config) returns (w: World, steps: seq<Step>)
    requires c.maxHold + c.maxLag > STALE_HEARTBEAT_SECS
    ensures Init(w) && Run(c, w, steps) && !Exclusive(After(c, w, steps))
  {
    var slot := Key(0, 0);
    var tables := Tables(map[slot := SubAgent(Idle, None, None, None)], map[], map[], {});
    w := World(tables, 0, map[]);
    var pick, claim := Pick(0, slot), TryClaim(0, 10, -(c.maxLag as int));
    var w1 := Apply(w, pick);
    var w2 := Apply(w1, claim);
    assert StateOf(w2, 0) == Holding(slot, 10, 0);
    assert forall d :: d != 0 ==> StateOf(w2, d).Free?;
    var w3 := Apply(w2, Wait(c.maxHold));
    assert Stale(w3.tables, slot, STALE_HEARTBEAT_SECS, w3.now);
    var w4 := Apply(w3, Reap({slot}));
    assert w4.tables.agents[slot].status.Idle?;
    var w5 := Apply(w4, Pick(1, slot));
    var w6 := Apply(w5, TryClaim(1, 11, c.maxHold));
    assert StateOf(w6, 0).Holding? && StateOf(w6, 1).Holding? && StateOf(w6, 0).slot == StateOf(w6, 1).slot;
    steps := [];
    steps := RunBack(c, w5, TryClaim(1, 11, c.maxHold), steps);
    steps := RunBack(c, w4, Pick(1, slot), steps);
    steps := RunBack(c, w3, Reap({slot}), steps);
    steps := RunBack(c, w2, Wait(c.maxHold), steps);
    steps := RunBack(c, w1, claim, steps);
    steps := RunBack(c, w, pick, steps);
  }

  lemma RunBack(c: Config, w: World, step: Step, rest: seq<Step>) returns (steps: seq<Step>)
    requires Enabled(c, w, step) && Run(c, Apply(w, step), rest)
    ensures Run(c, w, steps) && After(c, w, steps) == After(c, Apply(w, step), rest)
  {
    steps := [step] + rest;
    assert steps[1..] == rest;
  }

  /** Every run from an initial state stays safe. */
  ghost predicate AlwaysSafe(c: Config) {
    forall w, steps :: Init(w) && Run(c, w, steps) ==> Safe(After(c, w, steps))
  }

  /** Main result: in every interleaving no two dispatchers hold the same slot, a held slot is busy
      with its holder's item and an idle slot is empty, if and only if the longest hold plus the
      clock lag is at most 3600 seconds. */
  lemma SafeExactly(c: Config)
    ensures AlwaysSafe(c) <==> c.maxHold + c.maxLag <= STALE_HEARTBEAT_SECS
  {
    if c.maxHold + c.maxLag <= STALE_HEARTBEAT_SECS {
      forall w, steps | Init(w) && Run(c, w, steps) ensures Safe(After(c, w, steps)) {
        RunKeeps(c, w, steps);
      }
    } else {
      var w, steps := TooLong(c);
      assert !Safe(After(c, w, steps));
    }
  }

  /** A crash loses no slot: once the ceiling has passed, a complete sweep takes the abandoned row,
      whatever the dispatchers do, unless a lease owns it. */
  lemma CrashedSlotRecovers(w: World, slot: Key)
    requires slot in w.tables.agents && w.tables.agents[slot].status.Busy? && slot !in w.tables.leased
    requires w.tables.agents[slot].heartbeat.Some?
    requires w.now > w.tables.agents[slot].heartbeat.value + STALE_HEARTBEAT_SECS
    ensures var swept := AllStale(w.tables, STALE_HEARTBEAT_SECS, w.now);
            var row := Apply(w, Reap(swept)).tables.agents[slot];
            (row.status.Idle? && row.item.None?)
            || (row.status.CleanupPending? && row.item == w.tables.agents[slot].item
                && row.item.Some? && NeedsCleanup(w.tables, row.item.value))
  {
    SweepSlots(w.tables, AllStale(w.tables, STALE_HEARTBEAT_SECS, w.now), STALE_HEARTBEAT_SECS, w.now, slot);
  }
}
