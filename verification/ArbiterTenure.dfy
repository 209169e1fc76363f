/** The laws of the arbiter's plans per tenure, the time from one grant of an intent to the next. The cursors of an
    intent outlive its tenure, so the laws need a condition, and it is exact. */
module ArbiterTenure {
  import opened Options
  import opened Text
  import opened HostOrder
  import opened Arbiter
  import opened ArbiterProtocol

  /** The first `cursor` steps of a plan of `n` steps are in the history. */
  ghost predicate CoveredUpTo(history: set<(nat, nat)>, id: nat, cursor: nat, n: nat) {
    forall k: nat :: k < cursor && k < n ==> (id, k) in history
  }

  /** In its present tenure the intent became active only after every prework step succeeded in that tenure, and was
      freed only after every restore step was attempted in it. */
  ghost predicate TenureOk(w: World, id: nat) {
    id in w.intents
    && (id in w.activatedNow ==> CoveredUpTo(w.succeededNow, id, w.intents[id].preworkSteps, w.intents[id].preworkSteps))
    && (id in w.freedNow ==> CoveredUpTo(w.attemptedNow, id, w.intents[id].restoreSteps, w.intents[id].restoreSteps))
  }

  ghost predicate PreworkClean(w: World, id: nat, cursor: nat)
    requires id in w.intents
  {
    CoveredUpTo(w.succeededNow, id, cursor, w.intents[id].preworkSteps)
  }

  ghost predicate RestoreClean(w: World, id: nat, cursor: nat)
    requires id in w.intents
  {
    CoveredUpTo(w.attemptedNow, id, cursor, w.intents[id].restoreSteps)
  }

  ghost predicate CallClean(w: World, call: Call, id: nat)
    requires id in w.intents
  {
    match call
    case NoCall => true
    case Looking(x, prework, restore) => x == id ==> PreworkClean(w, id, prework) && RestoreClean(w, id, restore)
    case Granting(x, cursor) => x == id ==> PreworkClean(w, id, cursor)
    case Prework(x, cursor) => x == id ==> PreworkClean(w, id, cursor)
    case SavePrework(x, cursor) => x == id ==> PreworkClean(w, id, cursor)
    case Restore(x, cursor) => x == id ==> RestoreClean(w, id, cursor)
    case SaveRestore(x, cursor) => x == id ==> RestoreClean(w, id, cursor)
    case Finishing(_) => true
  }

  /** Every cursor of the intent, persisted or in a call, stands behind steps of this tenure. */
  ghost predicate Clean(w: World, id: nat) {
    && id in w.intents
    && PreworkClean(w, id, Start(w.intents[id].preworkCursor)) && RestoreClean(w, id, Start(w.intents[id].restoreCursor))
    && forall c :: 0 <= c < |w.calls| ==> CallClean(w, w.calls[c], id)
  }

  /** The step is a grant of the intent, which starts a new tenure. */
  ghost predicate Grants(w: World, s: Step, id: nat) {
    s.TryGrant? && s.c < |w.calls| && w.calls[s.c] != NoCall && w.calls[s.c].id == id && id in w.intents
    && Grantable(w.hosts, SortedHostSet(w.intents[id].hosts))
  }

  /** The steps lead from `w` to `w'` within one tenure of the intent. */
  ghost predicate InTenure(w: World, w': World, id: nat, steps: seq<Step>)
    decreases |steps|
  {
    if steps == [] then w' == w
    else Enabled(w, steps[0]) && !Grants(w, steps[0], id) && InTenure(Apply(w, steps[0]), w', id, steps[1..])
  }

  ghost predicate AlwaysKept(w: World, id: nat) {
    forall w', steps :: InTenure(w, w', id, steps) ==> TenureOk(w', id)
  }

  /** What a step within the tenure does to the intent's histories and plans. */
  ghost predicate Continues(w: World, w': World, id: nat) {
    && id in w.intents && id in w'.intents
    && w'.intents[id].preworkSteps == w.intents[id].preworkSteps && w'.intents[id].restoreSteps == w.intents[id].restoreSteps
    && (forall k: nat :: (id, k) in w.succeededNow ==> (id, k) in w'.succeededNow)
    && (forall k: nat :: (id, k) in w.attemptedNow ==> (id, k) in w'.attemptedNow)
  }

  lemma StepContinues(w: World, s: Step, id: nat)
    requires Enabled(w, s) && id in w.intents && !Grants(w, s, id)
    ensures Continues(w, Apply(w, s), id)
  {}

  lemma CallStaysClean(w: World, w': World, call: Call, id: nat)
    requires Continues(w, w', id) && CallClean(w, call, id)
    ensures CallClean(w', call, id)
  {}

  lemma OwnCallClean(w: World, s: Step, id: nat)
    requires Clean(w, id) && Enabled(w, s) && !Grants(w, s, id) && !s.Declare? && !s.Operator?
    ensures id in Apply(w, s).intents && |Apply(w, s).calls| == |w.calls| && CallClean(Apply(w, s), Apply(w, s).calls[s.c], id)
  {
    assert CallClean(w, w.calls[s.c], id);
  }

  lemma CursorsClean(w: World, s: Step, id: nat)
    requires Clean(w, id) && Enabled(w, s) && !Grants(w, s, id) && id in Apply(w, s).intents
    ensures var row := Apply(w, s).intents[id];
            PreworkClean(Apply(w, s), id, Start(row.preworkCursor)) && RestoreClean(Apply(w, s), id, Start(row.restoreCursor))
  {
    StepContinues(w, s, id);
    if (s.SaveCursor? || s.SaveRestoreCursor?) && w.calls[s.c].id == id {
      assert CallClean(w, w.calls[s.c], id);
    } else {
      OtherRowsStay(w, s, id);
    }
  }

  lemma StepClean(w: World, s: Step, id: nat)
    requires Clean(w, id) && Enabled(w, s) && !Grants(w, s, id)
    ensures Clean(Apply(w, s), id)
  {
    var w' := Apply(w, s);
    StepContinues(w, s, id);
    CursorsClean(w, s, id);
    if !s.Declare? && !s.Operator? { OwnCallClean(w, s, id); }
    forall c | 0 <= c < |w'.calls| ensures CallClean(w', w'.calls[c], id) {
      if !OfCall(s, c) {
        OtherCallsStay(w, s, c);
        CallStaysClean(w, w', w.calls[c], id);
      }
    }
  }

  lemma StepTenureOk(w: World, s: Step, id: nat)
    requires Clean(w, id) && TenureOk(w, id) && Enabled(w, s) && !Grants(w, s, id)
    ensures TenureOk(Apply(w, s), id)
  {
    StepContinues(w, s, id);
    if s.SetActive? || s.FreeHosts? { assert CallClean(w, w.calls[s.c], id); }
  }

  lemma {:induction false} CleanKept(w: World, w': World, id: nat, steps: seq<Step>)
    requires Clean(w, id) && TenureOk(w, id) && InTenure(w, w', id, steps)
    ensures TenureOk(w', id)
    decreases |steps|
  {
    if steps != [] {
      StepClean(w, steps[0], id);
      StepTenureOk(w, steps[0], id);
      CleanKept(Apply(w, steps[0]), w', id, steps[1..]);
    }
  }

  /** What goes wrong after a step within the tenure goes wrong. */
  lemma StepBack(w: World, s: Step, id: nat)
    requires Enabled(w, s) && !Grants(w, s, id) && !AlwaysKept(Apply(w, s), id)
    ensures !AlwaysKept(w, id)
  {
    var w', steps :| InTenure(Apply(w, s), w', id, steps) && !TenureOk(w', id);
    assert ([s] + steps)[1..] == steps;
    assert InTenure(w, w', id, [s] + steps);
  }

  lemma BadNow(w: World, id: nat)
    requires !TenureOk(w, id)
    ensures !AlwaysKept(w, id)
  {
    assert InTenure(w, w, id, []);
  }

  /** A call that runs the rest of the prework never makes up for a step it skipped. */
  lemma {:induction false} SkippedPrework(w: World, c: nat, id: nat, cursor: nat, j: nat)
    requires id in w.intents && c < |w.calls| && w.calls[c] == Prework(id, cursor)
    requires j < cursor && j < w.intents[id].preworkSteps && (id, j) !in w.succeededNow
    ensures !AlwaysKept(w, id)
    decreases Left(w.intents[id].preworkSteps, cursor)
  {
    if cursor < w.intents[id].preworkSteps {
      var w1 := Apply(w, RunStep(c, true));
      var w2 := Apply(w1, SaveCursor(c, true));
      SkippedPrework(w2, c, id, cursor + 1, j);
      StepBack(w1, SaveCursor(c, true), id);
      StepBack(w, RunStep(c, true), id);
    } else {
      BadNow(Apply(w, SetActive(c, true)), id);
      StepBack(w, SetActive(c, true), id);
    }
  }

  lemma {:induction false} SkippedRestore(w: World, c: nat, id: nat, cursor: nat, j: nat)
    requires id in w.intents && c < |w.calls| && w.calls[c] == Restore(id, cursor)
    requires j < cursor && j < w.intents[id].restoreSteps && (id, j) !in w.attemptedNow
    ensures !AlwaysKept(w, id)
    decreases Left(w.intents[id].restoreSteps, cursor)
  {
    if cursor < w.intents[id].restoreSteps {
      var w1 := Apply(w, RestoreStep(c, true));
      var w2 := Apply(w1, SaveRestoreCursor(c, true));
      SkippedRestore(w2, c, id, cursor + 1, j);
      StepBack(w1, SaveRestoreCursor(c, true), id);
      StepBack(w, RestoreStep(c, true), id);
    } else {
      BadNow(Apply(w, FreeHosts(c, true)), id);
      StepBack(w, FreeHosts(c, true), id);
    }
  }

  lemma UncleanPrework(w: World, c: nat, id: nat, cursor: nat)
    requires id in w.intents && c < |w.calls| && w.calls[c] == Prework(id, cursor) && !PreworkClean(w, id, cursor)
    ensures !AlwaysKept(w, id)
  {
    var j: nat :| j < cursor && j < w.intents[id].preworkSteps && (id, j) !in w.succeededNow;
    SkippedPrework(w, c, id, cursor, j);
  }

  lemma UncleanRestore(w: World, c: nat, id: nat, cursor: nat)
    requires id in w.intents && c < |w.calls| && w.calls[c] == Restore(id, cursor) && !RestoreClean(w, id, cursor)
    ensures !AlwaysKept(w, id)
  {
    var j: nat :| j < cursor && j < w.intents[id].restoreSteps && (id, j) !in w.attemptedNow;
    SkippedRestore(w, c, id, cursor, j);
  }

  /** A call whose cursor is not of this tenure can go on to break the law. */
  lemma UncleanCall(w: World, c: nat, id: nat)
    requires id in w.intents && c < |w.calls| && !CallClean(w, w.calls[c], id)
    ensures !AlwaysKept(w, id)
  {
    match w.calls[c]
    case Looking(_, prework, restore) =>
      if !PreworkClean(w, id, prework) {
        UncleanPrework(Apply(w, ResumePrework(c)), c, id, prework);
        StepBack(w, ResumePrework(c), id);
      } else {
        UncleanRestore(Apply(w, BeginRelease(c, true)), c, id, restore);
        StepBack(w, BeginRelease(c, true), id);
      }
    case Granting(_, cursor) =>
      UncleanPrework(Apply(w, SetGranted(c, true)), c, id, cursor);
      StepBack(w, SetGranted(c, true), id);
    case Prework(_, cursor) => UncleanPrework(w, c, id, cursor);
    case SavePrework(_, cursor) =>
      UncleanPrework(Apply(w, SaveCursor(c, true)), c, id, cursor);
      StepBack(w, SaveCursor(c, true), id);
    case Restore(_, cursor) => UncleanRestore(w, c, id, cursor);
    case SaveRestore(_, cursor) =>
      UncleanRestore(Apply(w, SaveRestoreCursor(c, true)), c, id, cursor);
      StepBack(w, SaveRestoreCursor(c, true), id);
  }

  /** Main result per tenure: from a given state, every continuation of the tenure activates the intent only after all
      its prework steps and frees it only after all its restore steps of that tenure, if and only if every cursor of
      the intent, persisted or in a call, stands behind steps of that tenure. */
  lemma TenureExactly(w: World, id: nat, idle: nat)
    requires TenureOk(w, id) && idle < |w.calls| && w.calls[idle].NoCall?
    ensures AlwaysKept(w, id) <==> Clean(w, id)
  {
    if Clean(w, id) {
      forall w', steps | InTenure(w, w', id, steps) ensures TenureOk(w', id) { CleanKept(w, w', id, steps); }
    } else if c :| 0 <= c < |w.calls| && !CallClean(w, w.calls[c], id) {
      UncleanCall(w, c, id);
    } else {
      var w' := Apply(w, Look(idle, id));
      assert !CallClean(w', w'.calls[idle], id);
      UncleanCall(w', idle, id);
      StepBack(w, Look(idle, id), id);
    }
  }

  /** At the start of a tenure the condition can be read off the cursors: each is 0, or its plan is empty. */
  lemma FreshTenureClean(w: World, s: Step, id: nat)
    requires Enabled(w, s) && Grants(w, s, id)
    ensures TenureOk(Apply(w, s), id)
    ensures forall cursor: nat ::
      && (PreworkClean(Apply(w, s), id, cursor) <==> cursor == 0 || w.intents[id].preworkSteps == 0)
      && (RestoreClean(Apply(w, s), id, cursor) <==> cursor == 0 || w.intents[id].restoreSteps == 0)
  {
    var w' := Apply(w, s);
    forall k: nat ensures (id, k) !in w'.succeededNow && (id, k) !in w'.attemptedNow {}
    forall cursor: nat
      ensures PreworkClean(w', id, cursor) <==> cursor == 0 || w.intents[id].preworkSteps == 0
      ensures RestoreClean(w', id, cursor) <==> cursor == 0 || w.intents[id].restoreSteps == 0
    {
      if cursor > 0 { assert (id, 0) !in w'.succeededNow && (id, 0) !in w'.attemptedNow; }
    }
  }

  // ----- A tenure that skips its plans

  ghost predicate Reaches(w: World, w': World) {
    exists steps :: Run(w, steps) && After(w, steps) == w'
  }

  lemma {:induction false} RunOn(w: World, steps: seq<Step>, s: Step)
    requires Run(w, steps) && Enabled(After(w, steps), s)
    ensures Run(w, steps + [s]) && After(w, steps + [s]) == Apply(After(w, steps), s)
    decreases |steps|
  {
    if steps == [] {
      assert steps + [s] == [s] && [s][1..] == [];
      assert Run(Apply(w, s), []);
    } else {
      RunOn(Apply(w, steps[0]), steps[1..], s);
      assert (steps + [s])[1..] == steps[1..] + [s];
    }
  }

  lemma ReachesNext(w: World, w': World, s: Step)
    requires Reaches(w, w') && Enabled(w', s)
    ensures Reaches(w, Apply(w', s))
  {
    var steps :| Run(w, steps) && After(w, steps) == w';
    RunOn(w, steps, s);
    assert Run(w, steps + [s]);
  }

  /** A pending intent with one prework and one restore step. */
  function OneStepRow(prework: int, restore: int): Intent {
    Intent(["sia"], 1, 0, 60, Pending, 1, 1, prework, restore)
  }

  function OneHost(reserved: bool): Hosts {
    map["sia" := if reserved then Host(Reserved, Some(0), Some(9)) else Host(Available, None, None)]
  }

  lemma OneHostSet()
    ensures Grantable(OneHost(false), SortedHostSet(["sia"]))
    ensures Grant(OneHost(false), 0, SortedHostSet(["sia"]), 9) == OneHost(true) && Release(OneHost(true), 0) == OneHost(false)
  {
    var wanted := SortedHostSet(["sia"]);
    SortedHostSetExact(["sia"]);
    StrictIsDistinct(wanted);
    assert Lower("sia") == "sia";
    assert Keys(["sia"]) == {"sia"} by { assert Lower(["sia"][0]) in Keys(["sia"]); }
    assert forall i :: 0 <= i < |wanted| ==> Lower(wanted[i]) in Keys(wanted);
    assert "sia" in Keys(wanted);
  }

  /** One call on the intent 0, which is pending, not active in this tenure, and the tenure's histories. */
  predicate At(w: World, call: Call, prework: int, restore: int, reserved: bool, ran: set<(nat, nat)>, tried: set<(nat, nat)>) {
    && w.calls == [call] && w.intents == map[0 := OneStepRow(prework, restore)] && w.hosts == OneHost(reserved)
    && w.succeededNow == ran && w.attemptedNow == tried && w.activatedNow == {}
  }

  lemma OneGrant(w0: World, w: World, prework: int, restore: int, ran: set<(nat, nat)>, tried: set<(nat, nat)>) returns (w': World)
    requires Reaches(w0, w) && At(w, NoCall, prework, restore, false, ran, tried)
    requires (forall e :: e in ran ==> e.0 == 0) && (forall e :: e in tried ==> e.0 == 0)
    ensures Reaches(w0, w') && At(w', Granting(0, Start(prework)), prework, restore, true, {}, {})
  {
    OneHostSet();
    ReachesNext(w0, w, Look(0, 0));
    var w1 := Apply(w, Look(0, 0));
    ReachesNext(w0, w1, TryGrant(0, 9));
    w' := Apply(w1, TryGrant(0, 9));
    assert Others(ran, 0) == {} && Others(tried, 0) == {};
  }

  /** The prework runs, but neither state is written. */
  lemma OnePrework(w0: World, w: World) returns (w': World)
    requires Reaches(w0, w) && At(w, Granting(0, 0), 0, 0, true, {}, {})
    ensures Reaches(w0, w') && At(w', NoCall, 1, 0, true, {(0, 0)}, {})
  {
    ReachesNext(w0, w, SetGranted(0, false));
    var w1 := OneStep(w0, Apply(w, SetGranted(0, false)));
    ReachesNext(w0, w1, SetActive(0, false));
    w' := Apply(w1, SetActive(0, false));
  }

  lemma OneStep(w0: World, w: World) returns (w': World)
    requires Reaches(w0, w) && At(w, Prework(0, 0), 0, 0, true, {}, {})
    ensures Reaches(w0, w') && At(w', Prework(0, 1), 1, 0, true, {(0, 0)}, {})
  {
    ReachesNext(w0, w, RunStep(0, true));
    var w1 := Apply(w, RunStep(0, true));
    ReachesNext(w0, w1, SaveCursor(0, true));
    w' := Apply(w1, SaveCursor(0, true));
  }

  /** The restore runs and the host is freed, but neither state is written. */
  lemma OneRelease(w0: World, w: World) returns (w': World)
    requires Reaches(w0, w) && At(w, NoCall, 1, 0, true, {(0, 0)}, {})
    ensures Reaches(w0, w') && At(w', NoCall, 1, 1, false, {(0, 0)}, {(0, 0)})
  {
    ReachesNext(w0, w, Look(0, 0));
    var w1 := Apply(w, Look(0, 0));
    ReachesNext(w0, w1, BeginRelease(0, false));
    var w2 := OneRestore(w0, Apply(w1, BeginRelease(0, false)));
    w' := OneFree(w0, w2);
  }

  lemma OneRestore(w0: World, w: World) returns (w': World)
    requires Reaches(w0, w) && At(w, Restore(0, 0), 1, 0, true, {(0, 0)}, {})
    ensures Reaches(w0, w') && At(w', Restore(0, 1), 1, 1, true, {(0, 0)}, {(0, 0)})
  {
    ReachesNext(w0, w, RestoreStep(0, true));
    var w1 := Apply(w, RestoreStep(0, true));
    ReachesNext(w0, w1, SaveRestoreCursor(0, true));
    w' := Apply(w1, SaveRestoreCursor(0, true));
  }

  lemma OneFree(w0: World, w: World) returns (w': World)
    requires Reaches(w0, w) && At(w, Restore(0, 1), 1, 1, true, {(0, 0)}, {(0, 0)})
    ensures Reaches(w0, w') && At(w', NoCall, 1, 1, false, {(0, 0)}, {(0, 0)})
  {
    OneHostSet();
    ReachesNext(w0, w, FreeHosts(0, true));
    var w1 := Apply(w, FreeHosts(0, true));
    ReachesNext(w0, w1, SetDone(0, false));
    w' := Apply(w1, SetDone(0, false));
  }

  /** The failing run: four writes of the state are refused, the intent is released while it is still pending with both
      cursors at the end, and its second tenure makes it active without running a prework step. */
  lemma SecondTenureSkips() returns (w: World, w': World)
    ensures Init(w) && Reaches(w, w') && !TenureOk(w', 0)
    ensures 0 in w'.intents && w'.intents[0].state.Active? && w'.intents[0].preworkSteps == 1 && w'.succeededNow == {}
  {
    w := World(OneHost(false), map[], [NoCall], {}, {}, {}, {}, {}, {}, {}, {});
    assert Run(w, []) && After(w, []) == w;
    ReachesNext(w, w, Declare(0, OneStepRow(0, 0)));
    var w1 := Apply(w, Declare(0, OneStepRow(0, 0)));
    var w2 := OneGrant(w, w1, 0, 0, {}, {});
    var w3 := OnePrework(w, w2);
    var w4 := OneRelease(w, w3);
    var w5 := OneGrant(w, w4, 1, 1, {(0, 0)}, {(0, 0)});
    w' := OneActivation(w, w5);
  }

  lemma OneActivation(w0: World, w: World) returns (w': World)
    requires Reaches(w0, w) && At(w, Granting(0, 1), 1, 1, true, {}, {})
    ensures Reaches(w0, w') && !TenureOk(w', 0)
    ensures 0 in w'.intents && w'.intents[0].state.Active? && w'.intents[0].preworkSteps == 1 && w'.succeededNow == {}
  {
    ReachesNext(w0, w, SetGranted(0, true));
    var w1 := Apply(w, SetGranted(0, true));
    ReachesNext(w0, w1, SetActive(0, true));
    w' := Apply(w1, SetActive(0, true));
    assert (0, 0) !in w'.succeededNow;
  }
}
