/** The tables of crates/ff-agent/src/agent_coordinator.rs and the SQL statements on them:
    claiming a slot, releasing it, the stale-slot sweep and the seeding of rows. Every
    statement is one atomic step. A slot is named by its unique (computer, slot) pair. */
module SlotTables {
  import opened Options

  datatype Key = Key(computer: nat, slot: int)

  datatype SlotStatus = Idle | Busy | Error | CleanupPending

  datatype SubAgent = SubAgent(status: SlotStatus, item: Option<nat>, startedAt: Option<int>, heartbeat: Option<int>)

  datatype WorkItem = WorkItem(status: string, assignedTo: Option<nat>, assignedComputer: Option<string>)

  datatype Worktree = Worktree(item: nat, status: string)

  /** `leased` holds the slots that have an unreleased row in `work_item_leases`. */
  datatype Tables = Tables(agents: map<Key, SubAgent>, items: map<nat, WorkItem>,
                           worktrees: map<nat, Worktree>, leased: set<Key>)

  /** Seconds after which a busy slot counts as stale. */
  const STALE_HEARTBEAT_SECS := 3600

  // ----- Claim and release

  predicate Claimable(t: Tables, s: Key) {
    s in t.agents && t.agents[s].status.Idle?
  }

  /** `claim_slot`: a compare-and-swap on the status. */
  function Claim(t: Tables, s: Key, item: nat, stamp: int): Tables {
    if Claimable(t, s) then t.(agents := t.agents[s := SubAgent(Busy, Some(item), Some(stamp), Some(stamp))])
    else t
  }

  /** `release_slot`: no check of the owner. */
  function Release(t: Tables, s: Key, ok: bool, now: int): Tables {
    if s in t.agents then t.(agents := t.agents[s := SubAgent(if ok then Idle else Error, None, None, Some(now))])
    else t
  }

  /** After a claim that was won the slot is busy with the item, stamped by the claim, and cannot be claimed; a claim
      that was lost changes nothing; no other slot and no other table changes. */
  lemma ClaimExact(t: Tables, s: Key, item: nat, stamp: int)
    ensures var t' := Claim(t, s, item, stamp);
            && (s in t.agents && t.agents[s].status == Idle ==>
                  t' == t.(agents := t.agents[s := SubAgent(Busy, Some(item), Some(stamp), Some(stamp))]) && !Claimable(t', s))
            && (s !in t.agents || t.agents[s].status != Idle ==> t' == t)
  {}

  /** A slot released as usable can be claimed again, and one released after a failure cannot; either way it is empty,
      and no other slot and no other table changes. */
  lemma ReleaseExact(t: Tables, s: Key, ok: bool, now: int)
    requires s in t.agents
    ensures var t' := Release(t, s, ok, now);
            && s in t'.agents && t'.agents[s].item == None && t'.agents[s].startedAt == None
            && (Claimable(t', s) <==> ok) && (!ok ==> t'.agents[s].status == Error)
            && t' == t.(agents := t.agents[s := t'.agents[s]])
  {}

  // ----- The sweep

  predicate Stale(t: Tables, s: Key, ceiling: int, now: int) {
    && s in t.agents && t.agents[s].status.Busy?
    && (t.agents[s].heartbeat.None? || t.agents[s].heartbeat.value < now - ceiling)
    && s !in t.leased
  }

  /** Rows the sweep may take: stale ones that no other transaction has locked. */
  predicate Sweepable(t: Tables, swept: set<Key>, ceiling: int, now: int) {
    forall s :: s in swept ==> Stale(t, s, ceiling, now)
  }

  predicate Terminal(status: string) {
    status == "done" || status == "failed" || status == "cancelled"
  }

  /** The item has a worktree that is not cleaned. */
  predicate NeedsCleanup(t: Tables, item: nat) {
    exists w :: w in t.worktrees && t.worktrees[w].item == item && t.worktrees[w].status != "cleaned"
  }

  predicate Tracks(t: Tables, swept: set<Key>, item: nat) {
    exists s :: s in swept && s in t.agents && t.agents[s].item == Some(item)
  }

  function SweptRow(t: Tables, s: Key, now: int): SubAgent
    requires s in t.agents
  {
    var item := t.agents[s].item;
    if item.Some? && NeedsCleanup(t, item.value) then SubAgent(CleanupPending, item, None, Some(now))
    else SubAgent(Idle, None, None, Some(now))
  }

  predicate Requeues(t: Tables, swept: set<Key>, item: nat) {
    item in t.items && Tracks(t, swept, item) && !NeedsCleanup(t, item) && !Terminal(t.items[item].status)
  }

  /** What `reap_stale_busy_slots` is to do with the rows `swept`. */
  function Sweep(t: Tables, swept: set<Key>, now: int): Tables {
    Tables(
      map s | s in t.agents :: if s in swept then SweptRow(t, s, now) else t.agents[s],
      map i | i in t.items :: if Requeues(t, swept, i) then WorkItem("ready", None, None) else t.items[i],
      map w | w in t.worktrees ::
        var wt := t.worktrees[w];
        if wt.status != "cleaned" && Tracks(t, swept, wt.item) then wt.(status := "stale") else wt,
      t.leased)
  }

  datatype ReapedSlot = ReapedSlot(slot: Key, item: Option<nat>, requeued: bool)

  /** One returned row per swept slot. */
  function SweepReport(t: Tables, swept: set<Key>): set<ReapedSlot> {
    set s | s in swept && s in t.agents ::
      var item := t.agents[s].item;
      ReapedSlot(s, item, item.Some? && Requeues(t, swept, item.value))
  }

  // ----- The statement, stage by stage. Every stage reads the tables as they were at the start, and what the
  // ----- stages before it returned.

  /** A row of `stale` or of `reaped`. */
  datatype SlotItem = SlotItem(slot: Key, item: Option<nat>)

  /** `stale`: the rows that were locked. */
  function StaleRows(t: Tables, swept: set<Key>): set<SlotItem> {
    set s | s in swept && s in t.agents :: SlotItem(s, t.agents[s].item)
  }

  predicate Joins(stale: set<SlotItem>, wt: Worktree) {
    wt.status != "cleaned" && exists r :: r in stale && r.item == Some(wt.item)
  }

  /** `pending_cleanup`: the worktrees that are updated, and the items it returns. */
  function MarkedWorktrees(t: Tables, stale: set<SlotItem>): map<nat, Worktree> {
    map w | w in t.worktrees :: if Joins(stale, t.worktrees[w]) then t.worktrees[w].(status := "stale") else t.worktrees[w]
  }

  function PendingCleanup(t: Tables, stale: set<SlotItem>): set<nat> {
    set w | w in t.worktrees && Joins(stale, t.worktrees[w]) :: t.worktrees[w].item
  }

  /** `reaped`: the new row of a slot, from its row in `stale`. */
  function ReapedRow(r: SlotItem, pending: set<nat>, now: int): SubAgent {
    var cleanup := r.item.Some? && r.item.value in pending;
    SubAgent(if cleanup then CleanupPending else Idle, if cleanup then r.item else None, None, Some(now))
  }

  /** `reaped`: the slots that are updated; each joins one row of `stale`. */
  function ReapedAgents(t: Tables, stale: set<SlotItem>, pending: set<nat>, now: int): map<Key, SubAgent> {
    map s | s in t.agents ::
      if SlotItem(s, t.agents[s].item) in stale then ReapedRow(SlotItem(s, t.agents[s].item), pending, now) else t.agents[s]
  }

  /** `reaped`: what it returns, the slots and the items they had. */
  function ReapedRows(t: Tables, stale: set<SlotItem>): set<SlotItem> {
    set r | r in stale && r.slot in t.agents
  }

  predicate JoinsReaped(t: Tables, reaped: set<SlotItem>, pending: set<nat>, i: nat) {
    && i in t.items && (exists r :: r in reaped && r.item == Some(i))
    && i !in pending && !Terminal(t.items[i].status)
  }

  /** `requeued`: the items that are updated, and the ones it returns. An item that several rows of `reaped` join is
      updated once. */
  function RequeuedItems(t: Tables, reaped: set<SlotItem>, pending: set<nat>): map<nat, WorkItem> {
    map i | i in t.items :: if JoinsReaped(t, reaped, pending, i) then WorkItem("ready", None, None) else t.items[i]
  }

  function Requeued(t: Tables, reaped: set<SlotItem>, pending: set<nat>): set<nat> {
    set i | i in t.items && JoinsReaped(t, reaped, pending, i)
  }

  /** The final `SELECT`. */
  function Selected(reaped: set<SlotItem>, requeued: set<nat>): set<ReapedSlot> {
    set r | r in reaped :: ReapedSlot(r.slot, r.item, r.item.Some? && r.item.value in requeued)
  }

  /** The second stage returns exactly the items of swept slots that have something to clean. */
  lemma PendingExact(t: Tables, swept: set<Key>, i: nat)
    ensures i in PendingCleanup(t, StaleRows(t, swept)) <==> Tracks(t, swept, i) && NeedsCleanup(t, i)
  {
    TracksExact(t, swept, i);
    if Tracks(t, swept, i) && NeedsCleanup(t, i) {
      var w :| w in t.worktrees && t.worktrees[w].item == i && t.worktrees[w].status != "cleaned";
      assert Joins(StaleRows(t, swept), t.worktrees[w]);
    }
  }

  lemma TracksExact(t: Tables, swept: set<Key>, i: nat)
    ensures (exists r :: r in StaleRows(t, swept) && r.item == Some(i)) <==> Tracks(t, swept, i)
  {
    if Tracks(t, swept, i) {
      var s :| s in swept && s in t.agents && t.agents[s].item == Some(i);
      assert SlotItem(s, Some(i)) in StaleRows(t, swept);
    }
  }

  /** Main result on the sweep: the five stages together, for any rows, have the declared effect on all three
      tables and return the declared report, also if several slots track one item. */
  lemma StagesExact(t: Tables, swept: set<Key>, now: int)
    requires swept <= t.agents.Keys
    ensures var stale := StaleRows(t, swept);
            var pending, reaped := PendingCleanup(t, stale), ReapedRows(t, stale);
            && Tables(ReapedAgents(t, stale, pending, now), RequeuedItems(t, reaped, pending), MarkedWorktrees(t, stale), t.leased)
               == Sweep(t, swept, now)
            && Selected(reaped, Requeued(t, reaped, pending)) == SweepReport(t, swept)
  {
    var stale := StaleRows(t, swept);
    var pending, reaped := PendingCleanup(t, stale), ReapedRows(t, stale);
    assert reaped == stale;
    forall s | s in t.agents ensures SlotItem(s, t.agents[s].item) in stale <==> s in swept {}
    forall s | s in swept ensures ReapedRow(SlotItem(s, t.agents[s].item), pending, now) == SweptRow(t, s, now) {
      SweptRowExact(t, swept, s, now);
    }
    forall i | i in t.items ensures JoinsReaped(t, reaped, pending, i) <==> Requeues(t, swept, i) {
      PendingExact(t, swept, i);
      TracksExact(t, swept, i);
    }
    forall w | w in t.worktrees ensures Joins(stale, t.worktrees[w]) <==> t.worktrees[w].status != "cleaned" && Tracks(t, swept, t.worktrees[w].item) {
      TracksExact(t, swept, t.worktrees[w].item);
    }
    assert ReapedAgents(t, stale, pending, now) == Sweep(t, swept, now).agents;
    assert RequeuedItems(t, reaped, pending) == Sweep(t, swept, now).items;
    assert MarkedWorktrees(t, stale) == Sweep(t, swept, now).worktrees;
    ReportExact(t, swept, Requeued(t, reaped, pending));
  }

  lemma SweptRowExact(t: Tables, swept: set<Key>, s: Key, now: int)
    requires s in swept && s in t.agents
    ensures ReapedRow(SlotItem(s, t.agents[s].item), PendingCleanup(t, StaleRows(t, swept)), now) == SweptRow(t, s, now)
  {
    var item := t.agents[s].item;
    if item.Some? {
      assert Tracks(t, swept, item.value);
      PendingExact(t, swept, item.value);
    }
  }

  lemma ReportExact(t: Tables, swept: set<Key>, requeued: set<nat>)
    requires swept <= t.agents.Keys && forall i :: i in requeued <==> Requeues(t, swept, i)
    ensures Selected(StaleRows(t, swept), requeued) == SweepReport(t, swept)
  {
    var stale := StaleRows(t, swept);
    forall x ensures x in Selected(stale, requeued) <==> x in SweepReport(t, swept) {
      if x in Selected(stale, requeued) {
        var r :| r in stale && x == ReapedSlot(r.slot, r.item, r.item.Some? && r.item.value in requeued);
      }
      if x in SweepReport(t, swept) {
        assert SlotItem(x.slot, t.agents[x.slot].item) in stale;
      }
    }
  }

  /** Slots that track one item share its fate: they are parked together or freed together, and the report says the
      same of both. */
  lemma SharedItem(t: Tables, swept: set<Key>, now: int, a: Key, b: Key)
    requires a in swept && b in swept && swept <= t.agents.Keys && t.agents[a].item == t.agents[b].item
    ensures Sweep(t, swept, now).agents[a] == Sweep(t, swept, now).agents[b]
    ensures forall x, y :: x in SweepReport(t, swept) && y in SweepReport(t, swept) && x.slot == a && y.slot == b
                           ==> x.item == y.item && x.requeued == y.requeued
  {}

  /** An idle worker slot has no current item. */
  predicate IdleIsEmpty(t: Tables) {
    forall s :: s in t.agents && t.agents[s].status.Idle? ==> t.agents[s].item.None?
  }

  /** What one sweep does to the slots: swept ones become idle and empty, or keep their item as
      `CleanupPending` exactly if it has an uncleaned worktree; all others, and with them every
      leased slot, stay as they were. */
  lemma SweepSlots(t: Tables, swept: set<Key>, ceiling: int, now: int, s: Key)
    requires Sweepable(t, swept, ceiling, now) && s in t.agents
    ensures Sweep(t, swept, now).agents.Keys == t.agents.Keys
    ensures IdleIsEmpty(t) ==> IdleIsEmpty(Sweep(t, swept, now))
    ensures s !in swept || s in t.leased || !t.agents[s].status.Busy? ==> Sweep(t, swept, now).agents[s] == t.agents[s]
    ensures s in swept ==>
      var before, after := t.agents[s], Sweep(t, swept, now).agents[s];
      && (after.status.CleanupPending? <==> before.item.Some? && NeedsCleanup(t, before.item.value))
      && (after.status.CleanupPending? ==> after.item == before.item)
      && (!after.status.CleanupPending? ==> after.status.Idle? && after.item.None?)
      && after.heartbeat == Some(now)
  {
    assert s in swept ==> Stale(t, s, ceiling, now);
  }

  /** The rows a complete sweep takes: busy, without a heartbeat in the last `ceiling` seconds, and not leased. */
  lemma StaleExact(t: Tables, ceiling: int, now: int, s: Key)
    ensures s in AllStale(t, ceiling, now)
       <==> && s in t.agents && t.agents[s].status == Busy && s !in t.leased
            && (t.agents[s].heartbeat.Some? ==> t.agents[s].heartbeat.value + ceiling < now)
  {}

  /** What one sweep does to the items: an item changes only by going back to the queue, which
      happens exactly if a swept slot tracked it, it has no uncleaned worktree and it is not
      terminal; the report flags exactly the slots of those items. */
  lemma SweepItems(t: Tables, swept: set<Key>, now: int, i: nat)
    requires swept <= t.agents.Keys && i in t.items
    ensures Sweep(t, swept, now).items.Keys == t.items.Keys
    ensures var requeued := exists r :: r in SweepReport(t, swept) && r.item == Some(i) && r.requeued;
            && (requeued <==>
                  && (exists s :: s in swept && t.agents[s].item == Some(i))
                  && (forall w :: w in t.worktrees && t.worktrees[w].item == i ==> t.worktrees[w].status == "cleaned")
                  && t.items[i].status != "done" && t.items[i].status != "failed" && t.items[i].status != "cancelled")
            && Sweep(t, swept, now).items[i] == (if requeued then WorkItem("ready", None, None) else t.items[i])
    ensures forall r :: r in SweepReport(t, swept) && r.item == Some(i) ==> (r.requeued <==> Requeues(t, swept, i))
  {
    if Requeues(t, swept, i) {
      var s :| s in swept && s in t.agents && t.agents[s].item == Some(i);
      assert ReapedSlot(s, Some(i), true) in SweepReport(t, swept);
    }
  }

  /** An item that is terminal, or still has a worktree to clean, is never re-queued, and the
      worktree is marked for cleaning if its slot was swept. */
  lemma SweepWorktrees(t: Tables, swept: set<Key>, now: int, w: nat)
    requires w in t.worktrees && t.worktrees[w].status != "cleaned" && t.worktrees[w].item in t.items
    ensures var i := t.worktrees[w].item;
            && Sweep(t, swept, now).items[i] == t.items[i]
            && Sweep(t, swept, now).worktrees.Keys == t.worktrees.Keys
            && Sweep(t, swept, now).worktrees[w].status == (if Tracks(t, swept, i) then "stale" else t.worktrees[w].status)
  {
    assert NeedsCleanup(t, t.worktrees[w].item);
  }

  /** Every stale row. */
  function AllStale(t: Tables, ceiling: int, now: int): set<Key> {
    set s | s in t.agents && Stale(t, s, ceiling, now)
  }

  /** A complete sweep leaves nothing for a second one. */
  lemma SweepIdempotent(t: Tables, ceiling: int, now: int)
    ensures AllStale(Sweep(t, AllStale(t, ceiling, now), now), ceiling, now) == {}
  {
    var swept := AllStale(t, ceiling, now);
    var t' := Sweep(t, swept, now);
    forall s | s in t'.agents ensures !Stale(t', s, ceiling, now) {
      assert s in swept || t'.agents[s] == t.agents[s];
    }
  }

  // ----- The statements as methods on the tables

  class CoordinatorDb {
    var agents: map<Key, SubAgent>
    var items: map<nat, WorkItem>
    var worktrees: map<nat, Worktree>
    var leased: set<Key>

    ghost function Contents(): Tables
      reads this
    {
      Tables(agents, items, worktrees, leased)
    }

    /** `claim_slot`. */
    method ClaimSlot(s: Key, item: nat, now: int) returns (won: bool)
      modifies this`agents
      ensures won == old(Claimable(Contents(), s))
      ensures Contents() == old(Claim(Contents(), s, item, now))
    {
      won := s in agents && agents[s].status.Idle?;
      if won {
        agents := agents[s := SubAgent(Busy, Some(item), Some(now), Some(now))];
      }
    }

    /** `release_slot`. */
    method ReleaseSlot(s: Key, ok: bool, now: int)
      modifies this`agents
      ensures Contents() == old(Release(Contents(), s, ok, now))
    {
      if s in agents {
        agents := agents[s := SubAgent(if ok then Idle else Error, None, None, Some(now))];
      }
    }

    /** `reap_stale_busy_slots`, stage by stage; rows locked by other transactions are skipped. */
    method ReapStaleBusySlots(ceiling: int, now: int, locked: set<Key>) returns (reaped: set<ReapedSlot>)
      modifies this
      ensures var swept := old(AllStale(Contents(), ceiling, now)) - locked;
              && Contents() == old(Sweep(Contents(), swept, now))
              && reaped == old(SweepReport(Contents(), swept))
    {
      var t := Tables(agents, items, worktrees, leased);
      var stale := StaleRows(t, AllStale(t, ceiling, now) - locked);
      var pending := PendingCleanup(t, stale);
      worktrees := MarkedWorktrees(t, stale);
      agents := ReapedAgents(t, stale, pending, now);
      var returned := ReapedRows(t, stale);
      items := RequeuedItems(t, returned, pending);
      reaped := Selected(returned, Requeued(t, returned, pending));
      StagesExact(t, AllStale(t, ceiling, now) - locked, now);
    }

    /** One `INSERT ... ON CONFLICT DO NOTHING`. */
    method InsertIfMissing(key: Key) returns (inserted: bool)
      modifies this`agents
      ensures inserted == (key !in old(agents))
      ensures agents == if inserted then old(agents)[key := SubAgent(Idle, None, None, None)] else old(agents)
      ensures |agents| == old(|agents|) + if inserted then 1 else 0
    {
      inserted := key !in agents;
      if inserted {
        MapGrows(agents, key, SubAgent(Idle, None, None, None));
        agents := agents[key := SubAgent(Idle, None, None, None)];
      }
    }

    /** `ensure_sub_agent_rows`: existing rows stay, missing ones are created idle and empty, and
        the result counts the created ones. */
    method EnsureSubAgentRows(computer: nat, desired: nat) returns (created: nat)
      modifies this`agents
      ensures agents == SeedRows(old(agents), computer, desired)
      ensures created == |agents| - old(|agents|)
    {
      created := 0;
      for slot := 0 to desired
        invariant agents == SeedRows(old(agents), computer, slot)
        invariant created == |agents| - old(|agents|)
      {
        var inserted := InsertIfMissing(Key(computer, slot));
        if inserted { created := created + 1; }
      }
    }
  }

  function SeedRows(agents: map<Key, SubAgent>, computer: nat, n: nat): map<Key, SubAgent> {
    if n == 0 then agents
    else
      var before := SeedRows(agents, computer, n - 1);
      if Key(computer, n - 1) in before then before
      else before[Key(computer, n - 1) := SubAgent(Idle, None, None, None)]
  }

  /** Seeding leaves existing rows alone and adds exactly the missing slots `0..n`, idle and empty. */
  lemma {:induction false} SeedRowsExact(agents: map<Key, SubAgent>, computer: nat, n: nat, s: Key)
    ensures var after := SeedRows(agents, computer, n);
            && (s in after <==> s in agents || (s.computer == computer && 0 <= s.slot < n))
            && (s in agents ==> after[s] == agents[s])
            && (s in after && s !in agents ==> after[s] == SubAgent(Idle, None, None, None))
  {
    if n > 0 {
      SeedRowsExact(agents, computer, n - 1, s);
    }
  }

  lemma MapGrows(m: map<Key, SubAgent>, k: Key, v: SubAgent)
    requires k !in m
    ensures |m[k := v]| == |m| + 1 && m[k := v].Keys == m.Keys + {k}
  {
    assert m[k := v].Keys == m.Keys + {k};
  }
}
