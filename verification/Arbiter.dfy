/** The rows of the resource arbiter of crates/ff-agent/src/arbiter.rs, with the statements of
    crates/ff-db/src/queries.rs on them: granting and freeing a host set, and what running the prework and
    restore plans does to an intent's row.

    Hosts are keyed by lower-cased name, an intent's plans are numbered steps, and an intent's rows
    keep their request (hosts and priority) for ever. Every write may fail, and a write that reports an error may
    have been applied all the same. */
module Arbiter {
  import opened Options
  import opened Text
  import opened HostOrder

  datatype Reservation = Available | Reserved | Drained

  datatype Host = Host(state: Reservation, owner: Option<nat>, expiresAt: Option<int>)

  datatype IntentState = Pending | Granted | Active | Releasing | Done | Denied

  datatype Intent = Intent(hosts: seq<string>, priority: int, createdAt: int, requestedSecs: int, state: IntentState,
                           preworkSteps: nat, restoreSteps: nat, preworkCursor: int, restoreCursor: int)

  datatype Mode = Off | DryRun | Actuate

  type Hosts = map<string, Host>

  type Intents = map<nat, Intent>

  // ----- Host sets

  ghost predicate DistinctKeys(wanted: seq<string>) {
    forall i, j :: 0 <= i < j < |wanted| ==> Lower(wanted[i]) != Lower(wanted[j])
  }

  lemma StrictIsDistinct(wanted: seq<string>)
    requires StrictlyAscending(wanted)
    ensures DistinctKeys(wanted)
  {
    forall i, j | 0 <= i < j < |wanted| ensures Lower(wanted[i]) != Lower(wanted[j]) {
      LexTotal(Lower(wanted[i]), Lower(wanted[j]));
    }
  }

  predicate IsAvailable(hosts: Hosts, key: string) {
    key in hosts && hosts[key].state.Available?
  }

  ghost predicate Grantable(hosts: Hosts, wanted: seq<string>) {
    wanted != [] && DistinctKeys(wanted) && forall i :: 0 <= i < |wanted| ==> IsAvailable(hosts, Lower(wanted[i]))
  }

  function Grant(hosts: Hosts, id: nat, wanted: seq<string>, expires: int): Hosts {
    map k | k in hosts :: if k in Keys(wanted) then Host(Reserved, Some(id), Some(expires)) else hosts[k]
  }

  function Release(hosts: Hosts, id: nat): Hosts {
    map k | k in hosts :: if hosts[k].owner == Some(id) then Host(Available, None, None) else hosts[k]
  }

  function Owned(hosts: Hosts, id: nat): set<string> {
    set k | k in hosts && hosts[k].owner == Some(id)
  }

  /** The intent owns its whole host set or nothing. */
  ghost predicate WholeOrNone(hosts: Hosts, id: nat, wanted: seq<string>) {
    Owned(hosts, id) == {} || Owned(hosts, id) == Keys(wanted)
  }

  ghost predicate Consistent(hosts: Hosts, intents: Intents) {
    && (forall k :: k in hosts && hosts[k].state.Available? ==> hosts[k].owner.None?)
    && (forall id :: id in intents ==> WholeOrNone(hosts, id, intents[id].hosts))
  }

  /** Same intents with the same requests. */
  ghost predicate SameRequests(a: Intents, b: Intents) {
    a.Keys == b.Keys && forall id :: id in a ==> a[id].hosts == b[id].hosts && a[id].priority == b[id].priority
  }

  lemma GrantOwned(hosts: Hosts, id: nat, wanted: seq<string>, expires: int, other: nat)
    requires Grantable(hosts, wanted) && forall k :: k in hosts && hosts[k].state.Available? ==> hosts[k].owner.None?
    ensures other != id ==> Owned(Grant(hosts, id, wanted, expires), other) == Owned(hosts, other)
    ensures Owned(Grant(hosts, id, wanted, expires), id) == Owned(hosts, id) + Keys(wanted)
  {
    assert forall k :: k in Keys(wanted) ==> IsAvailable(hosts, k);
  }

  /** A grant gives the intent its whole set and takes nothing from anybody. */
  lemma GrantKeeps(hosts: Hosts, intents: Intents, id: nat, expires: int)
    requires Consistent(hosts, intents) && id in intents && Grantable(hosts, SortedHostSet(intents[id].hosts))
    ensures var hosts' := Grant(hosts, id, SortedHostSet(intents[id].hosts), expires);
            && Consistent(hosts', intents) && Owned(hosts', id) == Keys(intents[id].hosts)
            && (forall other :: other != id ==> Owned(hosts', other) == Owned(hosts, other))
            && hosts'.Keys == hosts.Keys
            && forall k :: k in hosts ==>
                 hosts'[k] == if k in Keys(intents[id].hosts) then Host(Reserved, Some(id), Some(expires)) else hosts[k]
  {
    var wanted := SortedHostSet(intents[id].hosts);
    SortedHostSetExact(intents[id].hosts);
    var hosts' := Grant(hosts, id, wanted, expires);
    forall other ensures other != id ==> Owned(hosts', other) == Owned(hosts, other) {
      GrantOwned(hosts, id, wanted, expires, other);
    }
    assert Owned(hosts, id) == {} by {
      assert IsAvailable(hosts, Lower(wanted[0]));
      assert Lower(wanted[0]) in Keys(wanted);
    }
    GrantOwned(hosts, id, wanted, expires, id);
    forall other | other in intents ensures WholeOrNone(hosts', other, intents[other].hosts) {
      assert WholeOrNone(hosts, other, intents[other].hosts);
    }
  }

  /** Freeing takes everything from one intent and nothing from the others. */
  lemma ReleaseKeeps(hosts: Hosts, intents: Intents, id: nat)
    requires Consistent(hosts, intents)
    ensures Consistent(Release(hosts, id), intents) && Owned(Release(hosts, id), id) == {}
    ensures forall other :: other != id ==> Owned(Release(hosts, id), other) == Owned(hosts, other)
    ensures Release(hosts, id).Keys == hosts.Keys
    ensures forall k :: k in hosts ==> Release(hosts, id)[k] == if k in Owned(hosts, id) then Host(Available, None, None) else hosts[k]
  {
    var hosts' := Release(hosts, id);
    forall other ensures Owned(hosts', other) == if other == id then {} else Owned(hosts, other) {
      assert forall k :: k in hosts' && hosts'[k].owner == Some(other) ==> other != id && hosts[k].owner == Some(other);
    }
    forall other | other in intents ensures WholeOrNone(hosts', other, intents[other].hosts) {
      assert WholeOrNone(hosts, other, intents[other].hosts);
    }
  }

  lemma ConsistentSameRequests(hosts: Hosts, a: Intents, b: Intents)
    requires Consistent(hosts, a) && SameRequests(a, b)
    ensures Consistent(hosts, b)
  {
    forall id | id in b ensures WholeOrNone(hosts, id, b[id].hosts) {
      assert WholeOrNone(hosts, id, a[id].hosts);
    }
  }

  // ----- Plans

  /** What becomes of a write: done, done although the reply was an error, or not done. */
  datatype Fate = Ok | Lost | Refused
  {
    predicate Applies() { !Refused? }
  }

  /** The steps and writes of one `run_prework`, with the write of `granted` before it. */
  datatype PreworkFates = PreworkFates(granted: Fate, step: nat -> bool, save: nat -> Fate, active: Fate)

  /** The steps and writes of one `release_intent`. */
  datatype ReleaseFates = ReleaseFates(releasing: Fate, step: nat -> bool, save: nat -> Fate, free: Fate, done: Fate)

  function Start(cursor: int): nat {
    if cursor < 0 then 0 else cursor
  }

  function Written(row: Intent, state: IntentState, fate: Fate): Intent {
    if fate.Applies() then row.(state := state) else row
  }

  /** The loop goes on behind step `j`: the step succeeded and its cursor was saved. */
  predicate Proceeds(f: PreworkFates, j: nat) {
    f.step(j) && f.save(j).Ok?
  }

  /** The first step from `k` on behind which the loop does not go on; `n` if there is none. */
  function StopAt(f: PreworkFates, k: nat, n: nat): (stop: nat)
    requires k <= n
    ensures k <= stop <= n
    ensures forall j :: k <= j < stop ==> Proceeds(f, j)
    ensures stop < n ==> !Proceeds(f, stop)
    decreases n - k
  {
    if k == n then n else if Proceeds(f, k) then StopAt(f, k + 1, n) else k
  }

  /** The intent's row after `run_prework`. */
  function AfterPrework(row: Intent, f: PreworkFates): Intent {
    var k, n := Start(row.preworkCursor), row.preworkSteps;
    if k >= n then Written(row, Active, f.active)
    else
      var stop := StopAt(f, k, n);
      if stop == n then Written(row.(preworkCursor := n), Active, f.active)
      else if f.step(stop) && f.save(stop).Lost? then row.(preworkCursor := stop + 1)
      else if stop > k then row.(preworkCursor := stop)
      else row
  }

  function AfterGranted(row: Intent, f: PreworkFates): Intent {
    AfterPrework(Written(row, Granted, f.granted), f)
  }

  /** The prework went further: the cursor moved, or the intent became active. */
  predicate Advanced(before: Intent, after: Intent) {
    after.preworkCursor != before.preworkCursor || (after.state.Active? && !before.state.Active?)
  }

  /** The first thing the prework has to do gets done. */
  predicate FirstGetsDone(row: Intent, f: PreworkFates) {
    var k := Start(row.preworkCursor);
    if k < row.preworkSteps then f.step(k) && f.save(k).Applies() else f.active.Applies()
  }

  /** What a grant does to the prework: it goes further exactly if the first thing left to do gets done; the
      cursor never moves back nor past a step that failed; and the intent becomes active exactly if every
      remaining step succeeded, every cursor was saved and the last write was applied. */
  lemma PreworkExact(row: Intent, f: PreworkFates)
    requires !row.state.Active?
    ensures var row' := AfterGranted(row, f);
            var k, n := Start(row.preworkCursor), row.preworkSteps;
            && (Advanced(row, row') <==> FirstGetsDone(row, f))
            && k <= Start(row'.preworkCursor) && (forall j :: k <= j < Start(row'.preworkCursor) ==> f.step(j))
            && (row'.state.Active? <==> f.active.Applies() && forall j :: k <= j < n ==> Proceeds(f, j))
            && row' == row.(preworkCursor := row'.preworkCursor, state := row'.state)
  {
    var k, n := Start(row.preworkCursor), row.preworkSteps;
    if k < n {
      var stop := StopAt(f, k, n);
      assert stop > k ==> Proceeds(f, k);
      forall j | k <= j < stop ensures f.step(j) { assert Proceeds(f, j); }
    }
  }

  /** The persisted restore cursor: behind the last step whose write was applied. */
  function SavedCursor(save: nat -> Fate, k: nat, n: nat, cursor: int): int {
    if k >= n then cursor else if save(n - 1).Applies() then n else SavedCursor(save, k, n - 1, cursor)
  }

  /** The intent's row after `release_intent`. */
  function AfterRestore(row: Intent, f: ReleaseFates): Intent {
    var saved := SavedCursor(f.save, Start(row.restoreCursor), row.restoreSteps, row.restoreCursor);
    Written(Written(row, Releasing, f.releasing).(restoreCursor := saved), Done, f.done)
  }

  lemma {:induction false} SavedExact(save: nat -> Fate, k: nat, n: nat, cursor: int)
    ensures var c := SavedCursor(save, k, n, cursor);
            if exists j :: k <= j < n && save(j).Applies() then
              k < c <= n && save(c - 1).Applies() && forall j :: c <= j < n ==> !save(j).Applies()
            else c == cursor
    decreases n
  {
    if k < n && !save(n - 1).Applies() { SavedExact(save, k, n - 1, cursor); }
  }

  /** What a release does to the row: the state is the last one whose write was applied, and the restore cursor stands
      behind the last step whose write was applied; it stays if there was none. */
  lemma RestoreExact(row: Intent, f: ReleaseFates)
    ensures var row' := AfterRestore(row, f);
            var k, n := Start(row.restoreCursor), row.restoreSteps;
            && row' == row.(restoreCursor := row'.restoreCursor, state := row'.state)
            && row'.state == (if f.done != Refused then Done else if f.releasing != Refused then Releasing else row.state)
            && (if exists j :: k <= j < n && f.save(j) != Refused then
                  k < row'.restoreCursor <= n && f.save(row'.restoreCursor - 1) != Refused
                  && forall j :: row'.restoreCursor <= j < n ==> f.save(j) == Refused
                else row'.restoreCursor == row.restoreCursor)
  {
    SavedExact(f.save, Start(row.restoreCursor), row.restoreSteps, row.restoreCursor);
  }

  function Range(k: nat, n: nat): seq<nat> {
    if k < n then seq(n - k, i requires 0 <= i => k + i) else []
  }
}
