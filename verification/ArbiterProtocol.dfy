/** Any number of arbiter calls at once, each of them free to crash between any two statements, and
    every write free to fail: granting, running prework from the persisted cursor, and releasing
    (crates/ff-agent/src/arbiter.rs). Every statement and every plan step is one atomic step. Calls may also
    resume the prework of any intent; no pass does so (`ArbiterPass.NeverResumed`), and the laws hold even if one did.

    `succeeded`, `attempted`, `activated` and `freed` record the history of the plans; the fields with `Now` record it
    since the last grant of the intent, its tenure. */
module ArbiterProtocol {
  import opened Options
  import opened Arbiter
  import opened HostOrder

  /** Where a call stands. Cursors are the call's own, read when it looked at the row. */
  datatype Call =
    | NoCall
    | Looking(id: nat, prework: nat, restore: nat)
    | Granting(id: nat, cursor: nat)
    | Prework(id: nat, cursor: nat)
    | SavePrework(id: nat, cursor: nat)
    | Restore(id: nat, cursor: nat)
    | SaveRestore(id: nat, cursor: nat)
    | Finishing(id: nat)

  datatype World = World(hosts: Hosts, intents: Intents, calls: seq<Call>,
                         succeeded: set<(nat, nat)>, attempted: set<(nat, nat)>, activated: set<nat>, freed: set<nat>,
                         succeededNow: set<(nat, nat)>, attemptedNow: set<(nat, nat)>, activatedNow: set<nat>, freedNow: set<nat>)

  /** `ok`: whether the plan step, or the write to the database, succeeds. */
  datatype Step =
    | Declare(id: nat, row: Intent)
    | Look(c: nat, id: nat)
    | TryGrant(c: nat, expires: int)
    | SetGranted(c: nat, ok: bool)
    | ResumePrework(c: nat)
    | RunStep(c: nat, ok: bool)
    | SaveCursor(c: nat, ok: bool)
    | SetActive(c: nat, ok: bool)
    | BeginRelease(c: nat, ok: bool)
    | RestoreStep(c: nat, ok: bool)
    | SaveRestoreCursor(c: nat, ok: bool)
    | FreeHosts(c: nat, ok: bool)
    | SetDone(c: nat, ok: bool)
    | Crash(c: nat)
    | Operator(key: string, state: Reservation)

  ghost predicate Known(w: World, c: nat) {
    c < |w.calls| && (w.calls[c].NoCall? || w.calls[c].id in w.intents)
  }

  ghost predicate Enabled(w: World, s: Step) {
    match s
    case Declare(id, row) => id !in w.intents && Owned(w.hosts, id) == {} && row.state.Pending? && row.preworkCursor == 0 && row.restoreCursor == 0
    case Look(c, id) => c < |w.calls| && w.calls[c].NoCall? && id in w.intents
    case TryGrant(c, _) => Known(w, c) && w.calls[c].Looking?
    case SetGranted(c, _) => Known(w, c) && w.calls[c].Granting?
    case ResumePrework(c) => Known(w, c) && w.calls[c].Looking?
    case RunStep(c, _) => Known(w, c) && w.calls[c].Prework? && w.calls[c].cursor < w.intents[w.calls[c].id].preworkSteps
    case SaveCursor(c, _) => Known(w, c) && w.calls[c].SavePrework?
    case SetActive(c, _) => Known(w, c) && w.calls[c].Prework? && w.calls[c].cursor >= w.intents[w.calls[c].id].preworkSteps
    case BeginRelease(c, _) => Known(w, c) && w.calls[c].Looking?
    case RestoreStep(c, _) => Known(w, c) && w.calls[c].Restore? && w.calls[c].cursor < w.intents[w.calls[c].id].restoreSteps
    case SaveRestoreCursor(c, _) => Known(w, c) && w.calls[c].SaveRestore?
    case FreeHosts(c, _) => Known(w, c) && w.calls[c].Restore? && w.calls[c].cursor >= w.intents[w.calls[c].id].restoreSteps
    case SetDone(c, _) => Known(w, c) && w.calls[c].Finishing?
    case Crash(c) => c < |w.calls|
    case Operator(key, _) => key in w.hosts && w.hosts[key].owner.None?
  }

  function SetState(intents: Intents, id: nat, state: IntentState, ok: bool): Intents
    requires id in intents
  {
    if ok then intents[id := intents[id].(state := state)] else intents
  }

  function Others(history: set<(nat, nat)>, id: nat): set<(nat, nat)> {
    set e | e in history && e.0 != id
  }

  /** The history of the intent's tenure starts again. */
  function NewTenure(w: World, id: nat): World {
    w.(succeededNow := Others(w.succeededNow, id), attemptedNow := Others(w.attemptedNow, id),
       activatedNow := w.activatedNow - {id}, freedNow := w.freedNow - {id})
  }

  ghost function Apply(w: World, s: Step): World
    requires Enabled(w, s)
  {
    match s
    case Declare(id, row) => w.(intents := w.intents[id := row])
    case Look(c, id) => w.(calls := w.calls[c := Looking(id, Start(w.intents[id].preworkCursor), Start(w.intents[id].restoreCursor))])
    case TryGrant(c, expires) =>
      var id := w.calls[c].id;
      var wanted := SortedHostSet(w.intents[id].hosts);
      if Grantable(w.hosts, wanted) then
        NewTenure(w, id).(hosts := Grant(w.hosts, id, wanted, expires), calls := w.calls[c := Granting(id, w.calls[c].prework)])
      else w.(calls := w.calls[c := NoCall])
    case SetGranted(c, ok) =>
      var id := w.calls[c].id;
      w.(intents := SetState(w.intents, id, Granted, ok), calls := w.calls[c := Prework(id, w.calls[c].cursor)])
    case ResumePrework(c) => w.(calls := w.calls[c := Prework(w.calls[c].id, w.calls[c].prework)])
    case RunStep(c, ok) =>
      var id, k := w.calls[c].id, w.calls[c].cursor;
      if ok then w.(succeeded := w.succeeded + {(id, k)}, succeededNow := w.succeededNow + {(id, k)}, calls := w.calls[c := SavePrework(id, k + 1)])
      else w.(calls := w.calls[c := NoCall])
    case SaveCursor(c, ok) =>
      var id, k := w.calls[c].id, w.calls[c].cursor;
      if ok then w.(intents := w.intents[id := w.intents[id].(preworkCursor := k)], calls := w.calls[c := Prework(id, k)])
      else w.(calls := w.calls[c := NoCall])
    case SetActive(c, ok) =>
      var id := w.calls[c].id;
      w.(intents := SetState(w.intents, id, Active, ok), activated := if ok then w.activated + {id} else w.activated,
         activatedNow := if ok then w.activatedNow + {id} else w.activatedNow, calls := w.calls[c := NoCall])
    case BeginRelease(c, ok) =>
      var id := w.calls[c].id;
      w.(intents := SetState(w.intents, id, Releasing, ok), calls := w.calls[c := Restore(id, w.calls[c].restore)])
    case RestoreStep(c, _) =>
      var id, k := w.calls[c].id, w.calls[c].cursor;
      w.(attempted := w.attempted + {(id, k)}, attemptedNow := w.attemptedNow + {(id, k)}, calls := w.calls[c := SaveRestore(id, k + 1)])
    case SaveRestoreCursor(c, ok) =>
      var id, k := w.calls[c].id, w.calls[c].cursor;
      w.(intents := if ok then w.intents[id := w.intents[id].(restoreCursor := k)] else w.intents, calls := w.calls[c := Restore(id, k)])
    case FreeHosts(c, ok) =>
      var id := w.calls[c].id;
      w.(hosts := if ok then Release(w.hosts, id) else w.hosts, freed := if ok then w.freed + {id} else w.freed,
         freedNow := if ok then w.freedNow + {id} else w.freedNow, calls := w.calls[c := Finishing(id)])
    case SetDone(c, ok) =>
      w.(intents := SetState(w.intents, w.calls[c].id, Done, ok), calls := w.calls[c := NoCall])
    case Crash(c) => w.(calls := w.calls[c := NoCall])
    case Operator(key, state) => w.(hosts := w.hosts[key := Host(state, None, None)])
  }

  ghost predicate Init(w: World) {
    && w.intents == map[] && (forall k :: k in w.hosts ==> w.hosts[k].owner.None?)
    && (forall c :: 0 <= c < |w.calls| ==> w.calls[c].NoCall?)
    && w.succeeded == {} && w.attempted == {} && w.activated == {} && w.freed == {}
    && w.succeededNow == {} && w.attemptedNow == {} && w.activatedNow == {} && w.freedNow == {}
  }

  ghost predicate Run(w: World, steps: seq<Step>)
    decreases |steps|
  {
    steps == [] || (Enabled(w, steps[0]) && Run(Apply(w, steps[0]), steps[1..]))
  }

  ghost function After(w: World, steps: seq<Step>): World
    requires Run(w, steps)
    decreases |steps|
  {
    if steps == [] then w else After(Apply(w, steps[0]), steps[1..])
  }

  // ----- Safety

  /** The first `n` steps of the intent's plan are in the history. */
  ghost predicate Covered(history: set<(nat, nat)>, id: nat, n: nat) {
    forall k: nat :: k < n ==> (id, k) in history
  }

  ghost predicate Safe(w: World) {
    && Consistent(w.hosts, w.intents)
    && (forall id :: id in w.intents && w.intents[id].state.Active? ==> id in w.activated)
    && (forall id :: id in w.activated ==> id in w.intents && Covered(w.succeeded, id, w.intents[id].preworkSteps))
    && (forall id :: id in w.freed ==> id in w.intents && Covered(w.attempted, id, w.intents[id].restoreSteps))
  }

  /** The call's own cursor stands behind steps that are in the history. */
  ghost predicate CallOk(w: World, call: Call) {
    match call
    case NoCall => true
    case Looking(id, prework, restore) => id in w.intents && Covered(w.succeeded, id, prework) && Covered(w.attempted, id, restore)
    case Granting(id, cursor) => id in w.intents && Covered(w.succeeded, id, cursor)
    case Prework(id, cursor) => id in w.intents && Covered(w.succeeded, id, cursor)
    case SavePrework(id, cursor) => id in w.intents && Covered(w.succeeded, id, cursor)
    case Restore(id, cursor) => id in w.intents && Covered(w.attempted, id, cursor)
    case SaveRestore(id, cursor) => id in w.intents && Covered(w.attempted, id, cursor)
    case Finishing(id) => id in w.intents
  }

  ghost predicate RowOk(w: World, id: nat)
    requires id in w.intents
  {
    Covered(w.succeeded, id, Start(w.intents[id].preworkCursor)) && Covered(w.attempted, id, Start(w.intents[id].restoreCursor))
  }

  ghost predicate Inv(w: World) {
    && Safe(w)
    && (forall id :: id in w.intents ==> RowOk(w, id))
    && (forall c :: 0 <= c < |w.calls| ==> CallOk(w, w.calls[c]))
  }

  /** The history only grows and the plans stay as declared. */
  ghost predicate Grows(w: World, w': World) {
    && w.succeeded <= w'.succeeded && w.attempted <= w'.attempted && w.intents.Keys <= w'.intents.Keys
    && forall id :: id in w.intents ==>
         && w'.intents[id].preworkSteps == w.intents[id].preworkSteps && w'.intents[id].restoreSteps == w.intents[id].restoreSteps
         && w'.intents[id].hosts == w.intents[id].hosts
  }

  lemma StepGrows(w: World, s: Step)
    requires Enabled(w, s)
    ensures Grows(w, Apply(w, s))
  {}

  lemma CallStays(w: World, w': World, call: Call)
    requires Grows(w, w') && CallOk(w, call)
    ensures CallOk(w', call)
  {}

  predicate OfCall(s: Step, c: nat) {
    !s.Declare? && !s.Operator? && s.c == c
  }

  lemma OtherCallsStay(w: World, s: Step, c: nat)
    requires Enabled(w, s) && c < |w.calls| && !OfCall(s, c)
    ensures |Apply(w, s).calls| == |w.calls| && Apply(w, s).calls[c] == w.calls[c]
  {}

  /** The stepping call stays in order. */
  lemma OwnCallOk(w: World, s: Step)
    requires Inv(w) && Enabled(w, s) && !s.Declare? && !s.Operator?
    ensures |Apply(w, s).calls| == |w.calls| && CallOk(Apply(w, s), Apply(w, s).calls[s.c])
  {
    assert CallOk(w, w.calls[s.c]);
    if s.Look? { assert RowOk(w, s.id); }
  }

  lemma CallsKeep(w: World, s: Step)
    requires Inv(w) && Enabled(w, s)
    ensures |Apply(w, s).calls| == |w.calls|
    ensures forall c :: 0 <= c < |w.calls| ==> CallOk(Apply(w, s), Apply(w, s).calls[c])
  {
    StepGrows(w, s);
    if !s.Declare? && !s.Operator? { OwnCallOk(w, s); }
    forall c | 0 <= c < |w.calls| ensures CallOk(Apply(w, s), Apply(w, s).calls[c]) {
      if !OfCall(s, c) {
        OtherCallsStay(w, s, c);
        CallStays(w, Apply(w, s), w.calls[c]);
      }
    }
  }

  predicate SameCursors(a: Intent, b: Intent) {
    a.preworkCursor == b.preworkCursor && a.restoreCursor == b.restoreCursor
  }

  lemma RowStays(w: World, w': World, id: nat)
    requires Grows(w, w') && id in w.intents && SameCursors(w.intents[id], w'.intents[id]) && RowOk(w, id)
    ensures RowOk(w', id)
  {}

  lemma OtherRowsStay(w: World, s: Step, id: nat)
    requires Enabled(w, s) && id in w.intents
    requires (s.SaveCursor? || s.SaveRestoreCursor?) ==> w.calls[s.c].id != id
    ensures id in Apply(w, s).intents && SameCursors(w.intents[id], Apply(w, s).intents[id])
  {}

  lemma RowsKeep(w: World, s: Step)
    requires Inv(w) && Enabled(w, s)
    ensures forall id :: id in Apply(w, s).intents ==> RowOk(Apply(w, s), id)
  {
    StepGrows(w, s);
    var w' := Apply(w, s);
    forall id | id in w'.intents ensures RowOk(w', id) {
      if (s.SaveCursor? || s.SaveRestoreCursor?) && w.calls[s.c].id == id {
        assert CallOk(w, w.calls[s.c]) && RowOk(w, id);
      } else if id in w.intents {
        OtherRowsStay(w, s, id);
        RowStays(w, w', id);
      }
    }
  }

  lemma OwnershipKeeps(w: World, s: Step)
    requires Inv(w) && Enabled(w, s)
    ensures Consistent(Apply(w, s).hosts, Apply(w, s).intents)
  {
    var w' := Apply(w, s);
    StepGrows(w, s);
    if s.TryGrant? {
      if Grantable(w.hosts, SortedHostSet(w.intents[w.calls[s.c].id].hosts)) {
        GrantKeeps(w.hosts, w.intents, w.calls[s.c].id, s.expires);
      }
    } else if s.FreeHosts? {
      ReleaseKeeps(w.hosts, w.intents, w.calls[s.c].id);
    } else {
      forall id ensures Owned(w'.hosts, id) == Owned(w.hosts, id) {
        assert forall k :: k in w.hosts ==> k in w'.hosts && w'.hosts[k].owner == w.hosts[k].owner;
      }
      forall id | id in w'.intents ensures WholeOrNone(w'.hosts, id, w'.intents[id].hosts) {
        if id in w.intents { assert WholeOrNone(w.hosts, id, w.intents[id].hosts); }
      }
    }
  }

  lemma HistoryKeeps(w: World, s: Step)
    requires Inv(w) && Enabled(w, s)
    ensures var w' := Apply(w, s);
            && (forall id :: id in w'.intents && w'.intents[id].state.Active? ==> id in w'.activated)
            && (forall id :: id in w'.activated ==> id in w'.intents && Covered(w'.succeeded, id, w'.intents[id].preworkSteps))
            && (forall id :: id in w'.freed ==> id in w'.intents && Covered(w'.attempted, id, w'.intents[id].restoreSteps))
  {
    var w' := Apply(w, s);
    StepGrows(w, s);
    if s.SetActive? || s.FreeHosts? { assert CallOk(w, w.calls[s.c]); }
  }

  lemma {:induction false} RunKeeps(w: World, steps: seq<Step>)
    requires Inv(w) && Run(w, steps)
    ensures Inv(After(w, steps))
    decreases |steps|
  {
    if steps != [] {
      CallsKeep(w, steps[0]);
      RowsKeep(w, steps[0]);
      OwnershipKeeps(w, steps[0]);
      HistoryKeeps(w, steps[0]);
      RunKeeps(Apply(w, steps[0]), steps[1..]);
    }
  }

  /** Main result: in every run, with crashes and failing writes anywhere and any number of calls on the
      same intent, every intent owns its whole host set or none of it, an intent is active only if every
      prework step has succeeded, and a host set has been freed only if every restore step has been
      attempted. */
  lemma AlwaysSafe(w: World, steps: seq<Step>)
    requires Init(w) && Run(w, steps)
    ensures Safe(After(w, steps))
  {
    RunKeeps(w, steps);
  }

  // ----- Termination

  function Left(n: nat, k: nat): nat {
    if k < n then n - k else 0
  }

  /** Statements and steps a call may still take, for plans of `p` prework and `r` restore steps. */
  function Rank(call: Call, p: nat, r: nat): nat {
    match call
    case NoCall => 0
    case Finishing(_) => 1
    case Restore(_, k) => 2 + 2 * Left(r, k)
    case SaveRestore(_, k) => 3 + 2 * Left(r, k)
    case Prework(_, k) => 1 + 2 * Left(p, k)
    case SavePrework(_, k) => 2 + 2 * Left(p, k)
    case Granting(_, k) => 2 + 2 * Left(p, k)
    case Looking(_, j, k) => 4 + 2 * Left(p, j) + 2 * Left(r, k)
  }

  /** Both plan loops terminate: a step of a call lowers its rank, and nobody else's step changes the call
      or the length of its plans. */
  lemma CallsTerminate(w: World, s: Step, c: nat)
    requires Inv(w) && Enabled(w, s) && c < |w.calls| && w.calls[c] != NoCall
    ensures w.calls[c].id in w.intents
    ensures var w', p, r := Apply(w, s), w.intents[w.calls[c].id].preworkSteps, w.intents[w.calls[c].id].restoreSteps;
            && w.calls[c].id in w'.intents
            && w'.intents[w.calls[c].id].preworkSteps == p && w'.intents[w.calls[c].id].restoreSteps == r
            && if OfCall(s, c) then Rank(w'.calls[c], p, r) < Rank(w.calls[c], p, r) else w'.calls[c] == w.calls[c]
  {
    StepGrows(w, s);
    assert CallOk(w, w.calls[c]);
    if OfCall(s, c) { OwnStepLowers(w, s); }
  }

  lemma OwnStepLowers(w: World, s: Step)
    requires Enabled(w, s) && !s.Declare? && !s.Operator? && Known(w, s.c) && w.calls[s.c] != NoCall
    ensures var p, r := w.intents[w.calls[s.c].id].preworkSteps, w.intents[w.calls[s.c].id].restoreSteps;
            Rank(Apply(w, s).calls[s.c], p, r) < Rank(w.calls[s.c], p, r)
  {}
}
