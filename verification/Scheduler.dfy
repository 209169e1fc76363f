/** The project-management scheduler tick of src/pm/mod.rs: filter the ready items,
    score them by weighted shortest job first, sort, and give each item the first
    capable slot that is still free.

    Scores are reals and instants are integer nanoseconds. A matching is a sequence
    aligned with the items: `Some(s)` gives the item slot number `s`. */
module Scheduler {
  import opened Options
  import opened Text

  datatype Quadrant = Q1 | Q2 | Q3 | Q4

  datatype Status = Idea | Ready | InProgress | Blocked | Done

  datatype WorkItem = WorkItem(id: string, status: Status, quadrant: Quadrant, priority: int,
                               createdAt: int, blockedByCount: nat, required: set<string>)

  datatype Slot = Slot(id: string, capabilities: set<string>)

  datatype Assignment = Assignment(itemId: string, slotId: string, pickScore: real)

  // ----- Scoring

  const AGE_POINTS_PER_HOUR := 10.0
  const BLOCKER_PENALTY := 50.0
  const NANOS_PER_SECOND := 1_000_000_000

  function BaseScore(q: Quadrant): real {
    match q
    case Q1 => 1000.0
    case Q2 => 750.0
    case Q3 => 500.0
    case Q4 => 250.0
  }

  /** Whole seconds of a duration, truncated toward zero. */
  function WholeSeconds(nanos: int): int {
    if nanos >= 0 then nanos / NANOS_PER_SECOND else -((-nanos) / NANOS_PER_SECOND)
  }

  function PickScore(item: WorkItem, now: int): real {
    BaseScore(item.quadrant) + ((6 - item.priority) * 100) as real
      + WholeSeconds(now - item.createdAt) as real / 3600.0 * AGE_POINTS_PER_HOUR
      - item.blockedByCount as real * BLOCKER_PENALTY
  }

  predicate SlotCanHandle(item: WorkItem, slot: Slot) {
    item.required <= slot.capabilities
  }

  function JobSize(item: WorkItem): (size: real)
    ensures size >= 1.0
  {
    if |item.required| < 1 then 1.0 else |item.required| as real
  }

  function MatchScore(item: WorkItem, slot: Slot, now: int): Option<real> {
    if SlotCanHandle(item, slot) then Some(PickScore(item, now) / JobSize(item)) else None
  }

  /** The fold over all slots: the best match score, at least 0. */
  function BestScore(item: WorkItem, slots: seq<Slot>, now: int): (score: real)
    ensures score >= 0.0
  {
    if slots == [] then 0.0
    else
      var best := BestScore(item, slots[..|slots| - 1], now);
      match MatchScore(item, slots[|slots| - 1], now)
      case None => best
      case Some(s) => if best < s then s else best
  }

  /** The score is the item's own weighted score, cut off at 0, as soon as one slot can take it. */
  lemma {:induction false} BestScoreExact(item: WorkItem, slots: seq<Slot>, now: int)
    ensures var own := PickScore(item, now) / JobSize(item);
            BestScore(item, slots, now)
            == if own > 0.0 && exists s :: s in slots && SlotCanHandle(item, s) then own else 0.0
  {
    if slots != [] {
      var init, last := slots[..|slots| - 1], slots[|slots| - 1];
      BestScoreExact(item, init, now);
      assert slots == init + [last];
      assert forall s :: s in slots <==> s in init || s == last;
    }
  }

  // ----- What the scores mean

  function QuadrantPoints(q: Quadrant): int {
    match q case Q1 => 1000 case Q2 => 750 case Q3 => 500 case Q4 => 250
  }

  /** The points of an item that is not from the future: 100 for each priority level above 6, 10 for each hour, counted
      in whole seconds, and 50 less for each blocker. */
  lemma PickScoreExact(item: WorkItem, now: int)
    requires item.createdAt <= now
    ensures var seconds := (now - item.createdAt) / 1_000_000_000;
            PickScore(item, now) == (QuadrantPoints(item.quadrant) + 600 - 100 * item.priority - 50 * item.blockedByCount) as real
                                    + seconds as real / 360.0
  {}

  predicate FasterQuadrant(q: Quadrant, r: Quadrant) {
    (q.Q1? && !r.Q1?) || (q.Q2? && (r.Q3? || r.Q4?)) || (q.Q3? && r.Q4?)
  }

  /** `a` asks for nothing `b` does not ask for, is as urgent in every respect, and more so in one: a more urgent
      quadrant, a smaller priority number, fewer blockers, older by a second, or smaller. */
  predicate MoreUrgent(a: WorkItem, b: WorkItem, now: int) {
    && a.required <= b.required && (a.quadrant == b.quadrant || FasterQuadrant(a.quadrant, b.quadrant))
    && a.priority <= b.priority && a.blockedByCount <= b.blockedByCount && a.createdAt <= b.createdAt
    && (FasterQuadrant(a.quadrant, b.quadrant) || a.priority < b.priority || a.blockedByCount < b.blockedByCount
        || (a.createdAt + 1_000_000_000 <= b.createdAt && b.createdAt <= now)
        || (|a.required| < |b.required| && |b.required| > 1))
  }

  lemma OlderScores(x: int, y: int)
    requires x >= y
    ensures WholeSeconds(x) >= WholeSeconds(y)
    ensures y >= 0 && x >= y + 1_000_000_000 ==> WholeSeconds(x) > WholeSeconds(y)
  {}

  /** Less work, or more points: the quotient is larger as soon as the larger points are positive. */
  lemma QuotientLarger(p: real, q: real, m: real, n: real)
    requires p > 0.0 && p >= q && 1.0 <= m <= n && (p > q || m < n)
    ensures p / m > 0.0 && p / m > q / n
  {
    assert p / m > 0.0;
    if q > 0.0 {
      assert p * n > q * m by { Products(p, q, m, n); }
      assert p / m - q / n == (p * n - q * m) / (m * n);
    } else {
      assert q / n <= 0.0;
    }
  }

  lemma Products(p: real, q: real, m: real, n: real)
    requires p > 0.0 && p >= q > 0.0 && 1.0 <= m <= n && (p > q || m < n)
    ensures p * n > q * m
  {
    assert p * n >= p * m && p * m >= q * m;
    if p > q { assert p * m > q * m; } else { assert p * n > p * m; }
  }

  lemma MoreUrgentPoints(a: WorkItem, b: WorkItem, now: int)
    requires MoreUrgent(a, b, now)
    ensures PickScore(a, now) >= PickScore(b, now) && JobSize(a) <= JobSize(b)
    ensures PickScore(a, now) > PickScore(b, now) || JobSize(a) < JobSize(b)
  {
    OlderScores(now - a.createdAt, now - b.createdAt);
    SubsetSize(a.required, b.required);
  }

  lemma {:induction false} SubsetSize(a: set<string>, b: set<string>)
    requires a <= b
    ensures |a| <= |b|
  {
    if a != {} {
      var x :| x in a;
      SubsetSize(a - {x}, b - {x});
    }
  }

  /** A more urgent item with a positive score ranks first as soon as a slot can take it. */
  lemma MoreUrgentRanks(a: WorkItem, b: WorkItem, slots: seq<Slot>, now: int)
    requires MoreUrgent(a, b, now) && PickScore(a, now) > 0.0 && exists s :: s in slots && a.required <= s.capabilities
    ensures BestScore(a, slots, now) > BestScore(b, slots, now)
  {
    MoreUrgentPoints(a, b, now);
    QuotientLarger(PickScore(a, now), PickScore(b, now), JobSize(a), JobSize(b));
    BestScoreExact(a, slots, now);
    BestScoreExact(b, slots, now);
    var s :| s in slots && a.required <= s.capabilities;
    assert SlotCanHandle(a, s);
  }

  // ----- The order of the ready items

  /** Higher score first, then smaller identifier. */
  predicate Ahead(a: WorkItem, b: WorkItem, slots: seq<Slot>, now: int) {
    var sa, sb := BestScore(a, slots, now), BestScore(b, slots, now);
    sa > sb || (sa == sb && LexLess(a.id, b.id))
  }

  /** The sort is stable, so items that compare equal keep their positions' order. */
  predicate RanksBefore(items: seq<WorkItem>, slots: seq<Slot>, now: int, i: nat, j: nat)
    requires i < |items| && j < |items|
  {
    Ahead(items[i], items[j], slots, now) || (!Ahead(items[j], items[i], slots, now) && i < j)
  }

  lemma AheadTransitive(a: WorkItem, b: WorkItem, c: WorkItem, slots: seq<Slot>, now: int)
    ensures Ahead(a, b, slots, now) && Ahead(b, c, slots, now) ==> Ahead(a, c, slots, now)
    ensures Ahead(a, b, slots, now) ==> !Ahead(b, a, slots, now)
    ensures !Ahead(b, a, slots, now) && !Ahead(c, b, slots, now) ==> !Ahead(c, a, slots, now)
  {
    if LexLess(a.id, b.id) && LexLess(b.id, c.id) { LexTransitive(a.id, b.id, c.id); }
    if LexLess(c.id, a.id) && LexLess(a.id, b.id) { LexTransitive(c.id, a.id, b.id); }
    if LexLess(b.id, c.id) && LexLess(c.id, a.id) { LexTransitive(b.id, c.id, a.id); }
    LexTotal(a.id, b.id);
    LexTotal(b.id, c.id);
    LexTotal(a.id, c.id);
  }

  lemma RanksTransitive(items: seq<WorkItem>, slots: seq<Slot>, now: int, i: nat, j: nat, k: nat)
    requires i < |items| && j < |items| && k < |items|
    ensures RanksBefore(items, slots, now, i, j) && RanksBefore(items, slots, now, j, k) ==> RanksBefore(items, slots, now, i, k)
  {
    AheadTransitive(items[i], items[j], items[k], slots, now);
    AheadTransitive(items[j], items[k], items[i], slots, now);
    AheadTransitive(items[k], items[i], items[j], slots, now);
  }

  predicate InRange(s: seq<nat>, n: nat) {
    forall k :: 0 <= k < |s| ==> s[k] < n
  }

  ghost predicate Ranked(items: seq<WorkItem>, slots: seq<Slot>, now: int, order: seq<nat>) {
    && InRange(order, |items|)
    && forall i, j :: 0 <= i < j < |order| ==> RanksBefore(items, slots, now, order[i], order[j])
  }

  /** Put position `x` behind everything that ranks before it. */
  function Insert(items: seq<WorkItem>, slots: seq<Slot>, now: int, order: seq<nat>, x: nat): (r: seq<nat>)
    requires InRange(order, |items|) && x < |items|
    ensures InRange(r, |items|)
    ensures forall y :: y in r <==> y in order || y == x
  {
    if order == [] then [x]
    else if RanksBefore(items, slots, now, order[0], x) then
      [order[0]] + Insert(items, slots, now, order[1..], x)
    else [x] + order
  }

  lemma RankedCons(items: seq<WorkItem>, slots: seq<Slot>, now: int, head: nat, rest: seq<nat>)
    requires Ranked(items, slots, now, rest) && head < |items|
    requires forall y :: y in rest ==> RanksBefore(items, slots, now, head, y)
    ensures Ranked(items, slots, now, [head] + rest)
  {}

  lemma RanksTotal(items: seq<WorkItem>, slots: seq<Slot>, now: int, i: nat, j: nat)
    requires i < |items| && j < |items| && i != j
    ensures RanksBefore(items, slots, now, i, j) || RanksBefore(items, slots, now, j, i)
  {
    AheadTransitive(items[i], items[j], items[i], slots, now);
  }

  lemma {:induction false} InsertRanked(items: seq<WorkItem>, slots: seq<Slot>, now: int, order: seq<nat>, x: nat)
    requires Ranked(items, slots, now, order) && x < |items| && x !in order
    ensures Ranked(items, slots, now, Insert(items, slots, now, order, x))
  {
    if order == [] { return; }
    var head, rest := order[0], order[1..];
    assert order == [head] + rest;
    forall y | y in rest ensures RanksBefore(items, slots, now, head, y) {
      var k :| 0 <= k < |rest| && rest[k] == y;
      assert order[k + 1] == y;
    }
    if RanksBefore(items, slots, now, head, x) {
      InsertRanked(items, slots, now, rest, x);
      RankedCons(items, slots, now, head, Insert(items, slots, now, rest, x));
    } else {
      RanksTotal(items, slots, now, head, x);
      forall y | y in rest ensures RanksBefore(items, slots, now, x, y) {
        RanksTransitive(items, slots, now, x, head, y);
      }
      RankedCons(items, slots, now, x, order);
    }
  }

  /** Positions of the ready items among the first `n`, sorted. */
  function Order(items: seq<WorkItem>, slots: seq<Slot>, now: int, n: nat): (order: seq<nat>)
    requires n <= |items|
    ensures InRange(order, |items|)
  {
    if n == 0 then []
    else
      var before := Order(items, slots, now, n - 1);
      if items[n - 1].status.Ready? then Insert(items, slots, now, before, n - 1) else before
  }

  lemma {:induction false} OrderMembers(items: seq<WorkItem>, slots: seq<Slot>, now: int, n: nat, i: nat)
    requires n <= |items|
    ensures i in Order(items, slots, now, n) <==> i < n && items[i].status.Ready?
  {
    if n > 0 { OrderMembers(items, slots, now, n - 1, i); }
  }

  lemma {:induction false} OrderRanked(items: seq<WorkItem>, slots: seq<Slot>, now: int, n: nat)
    requires n <= |items|
    ensures Ranked(items, slots, now, Order(items, slots, now, n))
  {
    if n > 0 {
      OrderRanked(items, slots, now, n - 1);
      if items[n - 1].status.Ready? {
        OrderMembers(items, slots, now, n - 1, n - 1);
        InsertRanked(items, slots, now, Order(items, slots, now, n - 1), n - 1);
      }
    }
  }

  lemma RankedDistinct(items: seq<WorkItem>, slots: seq<Slot>, now: int, order: seq<nat>)
    requires Ranked(items, slots, now, order)
    ensures Distinct(order)
  {
    forall i, j | 0 <= i < j < |order| ensures order[i] != order[j] {
      assert RanksBefore(items, slots, now, order[i], order[j]);
      AheadTransitive(items[order[i]], items[order[i]], items[order[i]], slots, now);
    }
  }

  function ItemsAt(items: seq<WorkItem>, order: seq<nat>): seq<WorkItem>
    requires InRange(order, |items|)
  {
    seq(|order|, k requires 0 <= k < |order| => items[order[k]])
  }

  // ----- First fit

  /** Position in `available` of the first slot that can take the item; its length if there is none. */
  function FirstCapable(item: WorkItem, slots: seq<Slot>, available: seq<nat>): (k: nat)
    requires InRange(available, |slots|)
    ensures k <= |available|
    ensures k < |available| ==> SlotCanHandle(item, slots[available[k]])
    ensures forall j :: 0 <= j < k ==> !SlotCanHandle(item, slots[available[j]])
  {
    if available == [] then 0
    else if SlotCanHandle(item, slots[available[0]]) then 0
    else 1 + FirstCapable(item, slots, available[1..])
  }

  /** `Vec::swap_remove`: the last element takes the removed one's place. */
  function SwapRemove(s: seq<nat>, k: nat): (r: seq<nat>)
    requires k < |s|
    ensures |r| == |s| - 1
    ensures forall n :: InRange(s, n) ==> InRange(r, n)
  {
    s[k := s[|s| - 1]][..|s| - 1]
  }

  /** The element `k` is gone, the last one stands in its place unless it was the last itself, and the others stay. */
  lemma SwapRemoveExact(s: seq<nat>, k: nat, j: nat)
    requires k < |s| && j < |s| - 1
    ensures SwapRemove(s, k)[j] == if j == k then s[|s| - 1] else s[j]
  {}

  lemma SwapRemoveDistinct(s: seq<nat>, k: nat)
    requires k < |s| && Distinct(s)
    ensures Distinct(SwapRemove(s, k))
    ensures forall x :: x in SwapRemove(s, k) <==> x in s && x != s[k]
  {
    var r := SwapRemove(s, k);
    forall x | x in s && x != s[k] ensures x in r {
      var j :| 0 <= j < |s| && s[j] == x;
      assert x == if j == |s| - 1 then r[k] else r[j];
    }
  }

  /** What the loop gives each item of `work`, in order. */
  function Greedy(work: seq<WorkItem>, slots: seq<Slot>, available: seq<nat>): (picks: seq<Option<nat>>)
    requires InRange(available, |slots|)
    ensures |picks| == |work|
    ensures forall k :: 0 <= k < |picks| && picks[k].Some? ==> picks[k].value < |slots|
  {
    if work == [] then []
    else
      var k := FirstCapable(work[0], slots, available);
      if k == |available| then [None] + Greedy(work[1..], slots, available)
      else [Some(available[k])] + Greedy(work[1..], slots, SwapRemove(available, k))
  }

  function Assignments(work: seq<WorkItem>, slots: seq<Slot>, picks: seq<Option<nat>>, now: int): seq<Assignment>
    requires |picks| == |work|
    requires forall k :: 0 <= k < |picks| && picks[k].Some? ==> picks[k].value < |slots|
  {
    if work == [] then []
    else
      var rest := Assignments(work[1..], slots, picks[1..], now);
      match picks[0]
      case None => rest
      case Some(s) => [Reported(work[0], slots[s], now)] + rest
  }

  function AllSlots(slots: seq<Slot>): (r: seq<nat>)
    ensures |r| == |slots| && InRange(r, |slots|)
  {
    seq(|slots|, k requires 0 <= k < |slots| => k)
  }

  /** A one-to-one assignment of the items of `work` to capable slots of `available`. */
  ghost predicate Matching(work: seq<WorkItem>, slots: seq<Slot>, available: seq<nat>, m: seq<Option<nat>>)
    requires InRange(available, |slots|)
  {
    && |m| == |work|
    && (forall k :: 0 <= k < |m| && m[k].Some? ==>
          m[k].value in available && SlotCanHandle(work[k], slots[m[k].value]))
    && (forall i, j :: 0 <= i < j < |m| && m[i].Some? ==> m[i] != m[j])
  }

  lemma {:induction false} GreedyIsMatching(work: seq<WorkItem>, slots: seq<Slot>, available: seq<nat>)
    requires InRange(available, |slots|) && Distinct(available)
    ensures Matching(work, slots, available, Greedy(work, slots, available))
  {
    if work != [] {
      var k := FirstCapable(work[0], slots, available);
      if k == |available| {
        GreedyIsMatching(work[1..], slots, available);
      } else {
        SwapRemoveDistinct(available, k);
        GreedyIsMatching(work[1..], slots, SwapRemove(available, k));
      }
    }
  }

  lemma GreedyFirst(work: seq<WorkItem>, slots: seq<Slot>, available: seq<nat>)
    requires InRange(available, |slots|) && work != []
    ensures var k := FirstCapable(work[0], slots, available);
            && Greedy(work, slots, available)[0] == (if k == |available| then None else Some(available[k]))
            && Greedy(work, slots, available)[1..]
               == Greedy(work[1..], slots, if k == |available| then available else SwapRemove(available, k))
  {}

  /** One item of first fit: the slots that are left, and why the item went without. */
  lemma GreedyTurn(work: seq<WorkItem>, slots: seq<Slot>, available: seq<nat>) returns (rest: seq<nat>)
    requires InRange(available, |slots|) && Distinct(available) && work != []
    ensures InRange(rest, |slots|) && Distinct(rest)
    ensures Greedy(work, slots, available)[1..] == Greedy(work[1..], slots, rest)
    ensures forall s :: s in available ==> s in rest || Greedy(work, slots, available)[0] == Some(s)
    ensures Greedy(work, slots, available)[0].None? ==> forall s :: s in available ==> !SlotCanHandle(work[0], slots[s])
  {
    var f := FirstCapable(work[0], slots, available);
    GreedyFirst(work, slots, available);
    if f == |available| {
      rest := available;
    } else {
      rest := SwapRemove(available, f);
      SwapRemoveDistinct(available, f);
    }
  }

  lemma ShiftPick(picks: seq<Option<nat>>, k: nat)
    requires 0 < k < |picks|
    ensures picks[1..][k - 1] == picks[k]
  {}

  /** An item left out finds every capable slot in the hands of an item ranked before it. */
  lemma {:induction false} GreedyLeavesNothing(work: seq<WorkItem>, slots: seq<Slot>, available: seq<nat>, k: nat, s: nat) returns (j: nat)
    requires InRange(available, |slots|) && Distinct(available)
    requires k < |work| && Greedy(work, slots, available)[k].None?
    requires s in available && SlotCanHandle(work[k], slots[s])
    ensures j < k && Greedy(work, slots, available)[j] == Some(s)
  {
    var picks := Greedy(work, slots, available);
    var rest := GreedyTurn(work, slots, available);
    j := 0;
    if k == 0 { assert false; }
    if picks[0] != Some(s) {
      ShiftPick(picks, k);
      j := GreedyLeavesNothing(work[1..], slots, rest, k - 1, s);
      ShiftPick(picks, j + 1);
      j := j + 1;
    }
  }

  // ----- Half-optimality

  /** Total weight of the matched items. */
  function Total(w: seq<real>, m: seq<Option<nat>>): real
    requires |w| == |m|
  {
    if m == [] then 0.0 else (if m[0].Some? then w[0] else 0.0) + Total(w[1..], m[1..])
  }

  lemma {:induction false} TotalDrop(w: seq<real>, m: seq<Option<nat>>, j: nat)
    requires |w| == |m| && j < |m| && m[j].Some?
    ensures Total(w, m) == Total(w, m[j := None]) + w[j]
  {
    if j > 0 {
      TotalDrop(w[1..], m[1..], j - 1);
      assert m[j := None][1..] == m[1..][j - 1 := None];
    } else {
      assert m[j := None][1..] == m[1..];
    }
  }

  ghost predicate Weights(w: seq<real>) {
    && (forall k :: 0 <= k < |w| ==> w[k] >= 0.0)
    && (forall i, j :: 0 <= i < j < |w| ==> w[i] >= w[j])
  }

  /** Take slot `s` out of a matching: the loss is at most the largest weight. */
  lemma Displace(w: seq<real>, m: seq<Option<nat>>, s: nat, top: real) returns (m': seq<Option<nat>>)
    requires |w| == |m| && top >= 0.0 && forall k :: 0 <= k < |w| ==> w[k] <= top
    requires forall i, j :: 0 <= i < j < |m| && m[i].Some? ==> m[i] != m[j]
    ensures |m'| == |m| && Total(w, m) <= Total(w, m') + top
    ensures forall k :: 0 <= k < |m| ==> m'[k] == if m[k] == Some(s) then None else m[k]
  {
    if j :| 0 <= j < |m| && m[j] == Some(s) {
      m' := m[j := None];
      TotalDrop(w, m, j);
    } else {
      m' := m;
    }
  }

  /** Charge every edge of the other matching to the pick that used its item or its slot. */
  lemma {:induction false} GreedyHalfOptimal(work: seq<WorkItem>, slots: seq<Slot>, available: seq<nat>,
                                             w: seq<real>, m: seq<Option<nat>>)
    requires InRange(available, |slots|) && Distinct(available)
    requires |w| == |work| && Weights(w) && Matching(work, slots, available, m)
    ensures Total(w, m) <= 2.0 * Total(w, Greedy(work, slots, available))
  {
    if work != [] {
      var k := FirstCapable(work[0], slots, available);
      if k == |available| {
        assert forall s :: s in available ==> !SlotCanHandle(work[0], slots[s]);
        GreedyHalfOptimal(work[1..], slots, available, w[1..], m[1..]);
      } else {
        var rest := SwapRemove(available, k);
        SwapRemoveDistinct(available, k);
        var m' := Displace(w[1..], m[1..], available[k], w[0]);
        assert Matching(work[1..], slots, rest, m') by {
          forall i, j | 0 <= i < j < |m'| && m'[i].Some? ensures m'[i] != m'[j] {
            assert m[i + 1] != m[j + 1];
          }
        }
        GreedyHalfOptimal(work[1..], slots, rest, w[1..], m');
      }
    }
  }

  // ----- The tick

  function TickWork(items: seq<WorkItem>, slots: seq<Slot>, now: int): seq<WorkItem> {
    ItemsAt(items, Order(items, slots, now, |items|))
  }

  function TickPicks(items: seq<WorkItem>, slots: seq<Slot>, now: int): seq<Option<nat>> {
    Greedy(TickWork(items, slots, now), slots, AllSlots(slots))
  }

  /** The slot each item of the input list gets. */
  function TickMatching(items: seq<WorkItem>, slots: seq<Slot>, now: int): (m: seq<Option<nat>>)
    ensures |m| == |items|
  {
    var order, picks := Order(items, slots, now, |items|), TickPicks(items, slots, now);
    seq(|items|, i requires 0 <= i < |items| => PickOf(order, picks, i))
  }

  /** The pick at `i`'s place in the order, if it has one. */
  function PickOf(order: seq<nat>, picks: seq<Option<nat>>, i: nat): Option<nat>
    requires |order| == |picks|
  {
    if order == [] then None
    else if order[0] == i then picks[0]
    else PickOf(order[1..], picks[1..], i)
  }

  lemma {:induction false} PickAt(order: seq<nat>, picks: seq<Option<nat>>, i: nat)
    requires |order| == |picks| && Distinct(order)
    ensures i !in order ==> PickOf(order, picks, i).None?
    ensures forall k :: 0 <= k < |order| && order[k] == i ==> PickOf(order, picks, i) == picks[k]
  {
    if order != [] && order[0] != i { PickAt(order[1..], picks[1..], i); }
  }

  /** A one-to-one assignment of ready items to capable slots. */
  ghost predicate ReadyMatching(items: seq<WorkItem>, slots: seq<Slot>, m: seq<Option<nat>>) {
    && Matching(items, slots, AllSlots(slots), m)
    && forall i :: 0 <= i < |m| && m[i].Some? ==> items[i].status.Ready?
  }

  function Scores(items: seq<WorkItem>, slots: seq<Slot>, now: int): seq<real> {
    seq(|items|, i requires 0 <= i < |items| => BestScore(items[i], slots, now))
  }

  function Ones(n: nat): seq<real> {
    seq(n, _ => 1.0)
  }

  /** Weights and matching of the list, rearranged into the order. */
  function Along<T>(order: seq<nat>, xs: seq<T>): (r: seq<T>)
    requires InRange(order, |xs|)
    ensures |r| == |order|
  {
    seq(|order|, k requires 0 <= k < |order| => xs[order[k]])
  }

  lemma {:induction false} TotalOfNone(w: seq<real>, m: seq<Option<nat>>)
    requires |w| == |m| && forall k :: 0 <= k < |m| ==> m[k].None?
    ensures Total(w, m) == 0.0
  {
    if m != [] { TotalOfNone(w[1..], m[1..]); }
  }

  lemma AlongTail<T>(order: seq<nat>, xs: seq<T>)
    requires InRange(order, |xs|) && order != []
    ensures InRange(order[1..], |xs|) && Along(order, xs)[0] == xs[order[0]] && Along(order, xs)[1..] == Along(order[1..], xs)
  {}

  lemma AlongUpdate(order: seq<nat>, m: seq<Option<nat>>, i: nat, x: Option<nat>)
    requires InRange(order, |m|) && i < |m| && i !in order
    ensures Along(order, m[i := x]) == Along(order, m)
  {
    forall k | 0 <= k < |order| ensures order[k] != i { assert order[k] in order; }
  }

  /** Summing along an order that visits every matched item once gives the same total. */
  lemma {:induction false} TotalAlong(w: seq<real>, m: seq<Option<nat>>, order: seq<nat>)
    requires |w| == |m| && InRange(order, |m|) && Distinct(order)
    requires forall i :: 0 <= i < |m| && m[i].Some? ==> i in order
    ensures Total(Along(order, w), Along(order, m)) == Total(w, m)
    decreases |order|
  {
    if order == [] {
      TotalOfNone(w, m);
    } else {
      var i, rest, m' := order[0], order[1..], m[order[0] := None];
      assert order == [i] + rest && i !in rest;
      AlongTail(order, w);
      AlongTail(order, m);
      AlongUpdate(rest, m, i, None);
      TotalAlong(w, m', rest);
      if m[i].Some? { TotalDrop(w, m, i); } else { assert m' == m; }
    }
  }

  lemma AllSlotsDistinct(slots: seq<Slot>)
    ensures Distinct(AllSlots(slots))
    ensures forall s: nat :: s in AllSlots(slots) <==> s < |slots|
  {
    forall s: nat | s < |slots| ensures s in AllSlots(slots) {
      assert AllSlots(slots)[s] == s;
    }
  }

  lemma TickAlong(items: seq<WorkItem>, slots: seq<Slot>, now: int)
    ensures var order := Order(items, slots, now, |items|);
            && Ranked(items, slots, now, order) && Distinct(order)
            && Along(order, TickMatching(items, slots, now)) == TickPicks(items, slots, now)
            && (forall i :: 0 <= i < |items| && i !in order ==> TickMatching(items, slots, now)[i].None?)
            && (forall i: nat :: i in order <==> i < |items| && items[i].status.Ready?)
  {
    var order, picks := Order(items, slots, now, |items|), TickPicks(items, slots, now);
    OrderRanked(items, slots, now, |items|);
    RankedDistinct(items, slots, now, order);
    forall i: nat ensures i in order <==> i < |items| && items[i].status.Ready? {
      OrderMembers(items, slots, now, |items|, i);
    }
    forall i: nat ensures i !in order ==> PickOf(order, picks, i).None? { PickAt(order, picks, i); }
    forall k | 0 <= k < |order| ensures PickOf(order, picks, order[k]) == picks[k] { PickAt(order, picks, order[k]); }
  }

  /** A matching of the ordered items is one of the list they were taken from. */
  lemma MatchingFromAlong(items: seq<WorkItem>, slots: seq<Slot>, order: seq<nat>, m: seq<Option<nat>>)
    requires |m| == |items| && InRange(order, |items|)
    requires Matching(ItemsAt(items, order), slots, AllSlots(slots), Along(order, m))
    requires forall i :: 0 <= i < |m| && m[i].Some? ==> i in order
    ensures Matching(items, slots, AllSlots(slots), m)
  {
    var a := Along(order, m);
    forall i | 0 <= i < |m| && m[i].Some?
      ensures m[i].value in AllSlots(slots) && SlotCanHandle(items[i], slots[m[i].value])
    {
      var k :| 0 <= k < |order| && order[k] == i;
      assert a[k] == m[i] && ItemsAt(items, order)[k] == items[i];
    }
    forall i, j | 0 <= i < j < |m| && m[i].Some? ensures m[i] != m[j] {
      if m[j].Some? {
        var k :| 0 <= k < |order| && order[k] == i;
        var l :| 0 <= l < |order| && order[l] == j;
        assert a[k] == m[i] && a[l] == m[j] && k != l;
      }
    }
  }

  /** Only ready items, only capable slots, no slot twice. */
  lemma TickIsMatching(items: seq<WorkItem>, slots: seq<Slot>, now: int)
    ensures ReadyMatching(items, slots, TickMatching(items, slots, now))
    ensures var m := TickMatching(items, slots, now);
            |m| == |items| && forall i :: 0 <= i < |m| && m[i].Some? ==>
              items[i].status == Ready && m[i].value < |slots| && items[i].required <= slots[m[i].value].capabilities
  {
    TickAlong(items, slots, now);
    AllSlotsDistinct(slots);
    GreedyIsMatching(TickWork(items, slots, now), slots, AllSlots(slots));
    MatchingFromAlong(items, slots, Order(items, slots, now, |items|), TickMatching(items, slots, now));
  }

  /** If a ready item is left out, every capable slot went to an item that precedes it
      in (score descending, identifier ascending, position ascending) order. */
  lemma TickLeavesNothing(items: seq<WorkItem>, slots: seq<Slot>, now: int, i: nat, s: nat)
    requires i < |items| && items[i].status.Ready? && TickMatching(items, slots, now)[i].None?
    requires s < |slots| && items[i].required <= slots[s].capabilities
    ensures exists j :: 0 <= j < |items| && TickMatching(items, slots, now)[j] == Some(s)
                        && RanksBefore(items, slots, now, j, i)
  {
    var order, m := Order(items, slots, now, |items|), TickMatching(items, slots, now);
    TickAlong(items, slots, now);
    AllSlotsDistinct(slots);
    var k :| 0 <= k < |order| && order[k] == i;
    assert Along(order, m)[k].None?;
    var l := GreedyLeavesNothing(TickWork(items, slots, now), slots, AllSlots(slots), k, s);
    assert Along(order, m)[l] == m[order[l]];
    assert RanksBefore(items, slots, now, order[l], i);
  }

  lemma OnePerSlot(m: seq<Option<nat>>, l: nat, j: nat)
    requires l < |m| && j < |m| && m[l] == m[j] && m[j].Some?
    requires forall p, q :: 0 <= p < q < |m| && m[p].Some? ==> m[p] != m[q]
    ensures l == j
  {}

  /** Main result on urgency: of two ready items the more urgent one is never left out while the other gets a slot, if
      its points are positive. */
  lemma UrgentNotLeftOut(items: seq<WorkItem>, slots: seq<Slot>, now: int, i: nat, j: nat)
    requires i < |items| && j < |items| && items[i].status == Ready && items[j].status == Ready
    requires MoreUrgent(items[i], items[j], now) && PickScore(items[i], now) > 0.0
    requires TickMatching(items, slots, now)[j].Some?
    ensures TickMatching(items, slots, now)[i].Some?
  {
    TickIsMatching(items, slots, now);
    var m := TickMatching(items, slots, now);
    var s := m[j].value;
    assert slots[s] in slots && items[i].required <= slots[s].capabilities;
    MoreUrgentRanks(items[i], items[j], slots, now);
    forall l | 0 <= l < |items| && m[l] == Some(s) ensures !RanksBefore(items, slots, now, l, i) {
      OnePerSlot(m, l, j);
    }
    if m[i].None? { TickLeavesNothing(items, slots, now, i, s); }
  }

  lemma MatchingAlong(items: seq<WorkItem>, slots: seq<Slot>, m: seq<Option<nat>>, order: seq<nat>)
    requires Matching(items, slots, AllSlots(slots), m) && InRange(order, |items|) && Distinct(order)
    ensures Matching(ItemsAt(items, order), slots, AllSlots(slots), Along(order, m))
  {
    var a := Along(order, m);
    forall i, j | 0 <= i < j < |a| && a[i].Some? ensures a[i] != a[j] {
      var p, q := order[i], order[j];
      assert p != q;
    }
  }

  /** Main result: no matching of ready items to capable slots has more than twice the
      tick's total score, nor more than twice as many assignments. */
  lemma TickHalfOptimal(items: seq<WorkItem>, slots: seq<Slot>, now: int, m: seq<Option<nat>>)
    requires ReadyMatching(items, slots, m)
    ensures Total(Scores(items, slots, now), m)
         <= 2.0 * Total(Scores(items, slots, now), TickMatching(items, slots, now))
    ensures Total(Ones(|items|), m) <= 2.0 * Total(Ones(|items|), TickMatching(items, slots, now))
  {
    var order := Order(items, slots, now, |items|);
    TickAlong(items, slots, now);
    AllSlotsDistinct(slots);
    MatchingAlong(items, slots, m, order);
    var scores, ones := Scores(items, slots, now), Ones(|items|);
    assert Weights(Along(order, scores)) by {
      forall i, j | 0 <= i < j < |order| ensures Along(order, scores)[i] >= Along(order, scores)[j] {
        assert RanksBefore(items, slots, now, order[i], order[j]);
      }
    }
    HalfAlong(items, slots, now, scores, m);
    HalfAlong(items, slots, now, ones, m);
  }

  lemma HalfAlong(items: seq<WorkItem>, slots: seq<Slot>, now: int, w: seq<real>, m: seq<Option<nat>>)
    requires ReadyMatching(items, slots, m)
    requires |w| == |items| && Weights(Along(Order(items, slots, now, |items|), w))
    ensures Total(w, m) <= 2.0 * Total(w, TickMatching(items, slots, now))
  {
    var order := Order(items, slots, now, |items|);
    TickAlong(items, slots, now);
    AllSlotsDistinct(slots);
    MatchingAlong(items, slots, m, order);
    GreedyHalfOptimal(TickWork(items, slots, now), slots, AllSlots(slots), Along(order, w), Along(order, m));
    TotalAlong(w, m, order);
    TotalAlong(w, TickMatching(items, slots, now), order);
  }

  // ----- The tick depends only on the set of ready items

  ghost predicate InOrder(work: seq<WorkItem>, slots: seq<Slot>, now: int) {
    forall i, j :: 0 <= i < j < |work| ==> Ahead(work[i], work[j], slots, now)
  }

  lemma {:induction false} InOrderUnique(a: seq<WorkItem>, b: seq<WorkItem>, slots: seq<Slot>, now: int)
    requires InOrder(a, slots, now) && InOrder(b, slots, now)
    requires forall x :: x in a <==> x in b
    ensures a == b
  {
    assert |a| > 0 ==> a[0] in b;
    assert |b| > 0 ==> b[0] in a;
    if a != [] {
      FirstInOrder(a, b, slots, now);
      var a', b' := a[1..], b[1..];
      forall x ensures x in a' <==> x in b' {
        NotAgain(a, slots, now);
        NotAgain(b, slots, now);
        assert x in a <==> x == a[0] || x in a';
        assert x in b <==> x == b[0] || x in b';
      }
      InOrderUnique(a', b', slots, now);
    }
  }

  lemma FirstInOrder(a: seq<WorkItem>, b: seq<WorkItem>, slots: seq<Slot>, now: int)
    requires a != [] && b != [] && InOrder(a, slots, now) && InOrder(b, slots, now)
    requires a[0] in b && b[0] in a
    ensures a[0] == b[0]
  {
    if a[0] != b[0] {
      var i :| 0 <= i < |b| && b[i] == a[0];
      var j :| 0 <= j < |a| && a[j] == b[0];
      AheadTransitive(a[0], b[0], a[0], slots, now);
    }
  }

  lemma NotAgain(a: seq<WorkItem>, slots: seq<Slot>, now: int)
    requires a != [] && InOrder(a, slots, now)
    ensures a[0] !in a[1..]
  {
    if a[0] in a[1..] {
      var j :| 0 <= j < |a| - 1 && a[1..][j] == a[0];
      assert Ahead(a[0], a[j + 1], slots, now);
      AheadTransitive(a[0], a[0], a[0], slots, now);
    }
  }

  ghost predicate DistinctReadyIds(items: seq<WorkItem>) {
    forall i, j :: 0 <= i < j < |items| && items[i].status.Ready? && items[j].status.Ready? ==> items[i].id != items[j].id
  }

  lemma TickWorkInOrder(items: seq<WorkItem>, slots: seq<Slot>, now: int)
    requires DistinctReadyIds(items)
    ensures InOrder(TickWork(items, slots, now), slots, now)
    ensures forall x :: x in TickWork(items, slots, now) <==> x in items && x.status.Ready?
  {
    var order, work := Order(items, slots, now, |items|), TickWork(items, slots, now);
    OrderRanked(items, slots, now, |items|);
    forall i: nat ensures i in order <==> i < |items| && items[i].status.Ready? {
      OrderMembers(items, slots, now, |items|, i);
    }
    RankedDistinct(items, slots, now, order);
    forall i, j | 0 <= i < j < |work| ensures Ahead(work[i], work[j], slots, now) {
      var p, q := order[i], order[j];
      assert p in order && q in order;
      assert RanksBefore(items, slots, now, p, q);
      assert items[p].id != items[q].id;
      LexTotal(items[p].id, items[q].id);
    }
    forall x | x in items && x.status.Ready? ensures x in work {
      var i :| 0 <= i < |items| && items[i] == x;
      var k :| 0 <= k < |order| && order[k] == i;
      assert work[k] == x;
    }
    forall x | x in work ensures x in items && x.status.Ready? {
      var k :| 0 <= k < |work| && work[k] == x;
      assert order[k] in order;
    }
  }

  /** The tick's output list. */
  function Tick(items: seq<WorkItem>, slots: seq<Slot>, now: int): seq<Assignment> {
    Assignments(TickWork(items, slots, now), slots, TickPicks(items, slots, now), now)
  }

  /** Main result: with distinct identifiers the output depends only on the set of ready
      items. Permuting the list, or adding and removing items that are not ready, changes nothing. */
  lemma TickDependsOnReadySet(items: seq<WorkItem>, items': seq<WorkItem>, slots: seq<Slot>, now: int)
    requires DistinctReadyIds(items) && DistinctReadyIds(items')
    requires forall x: WorkItem :: x.status.Ready? ==> (x in items <==> x in items')
    ensures Tick(items, slots, now) == Tick(items', slots, now)
  {
    TickWorkInOrder(items, slots, now);
    TickWorkInOrder(items', slots, now);
    InOrderUnique(TickWork(items, slots, now), TickWork(items', slots, now), slots, now);
  }

  lemma {:induction false} AssignmentsList(work: seq<WorkItem>, slots: seq<Slot>, picks: seq<Option<nat>>, now: int, a: Assignment)
    requires |picks| == |work|
    requires forall k :: 0 <= k < |picks| && picks[k].Some? ==> picks[k].value < |slots|
    ensures a in Assignments(work, slots, picks, now)
       <==> exists k :: 0 <= k < |work| && picks[k].Some? && a == Reported(work[k], slots[picks[k].value], now)
  {
    if work != [] {
      var rest := Assignments(work[1..], slots, picks[1..], now);
      AssignmentsList(work[1..], slots, picks[1..], now, a);
      if a in rest {
        var k :| 0 <= k < |work| - 1 && picks[1..][k].Some? && a == Reported(work[1..][k], slots[picks[1..][k].value], now);
        assert picks[k + 1].Some? && a == Reported(work[k + 1], slots[picks[k + 1].value], now);
      }
      if k :| 0 <= k < |work| && picks[k].Some? && a == Reported(work[k], slots[picks[k].value], now) {
        if k > 0 { assert a == Reported(work[1..][k - 1], slots[picks[1..][k - 1].value], now); }
      }
    }
  }

  lemma {:induction false} AssignmentsCount(work: seq<WorkItem>, slots: seq<Slot>, picks: seq<Option<nat>>, now: int)
    requires |picks| == |work|
    requires forall k :: 0 <= k < |picks| && picks[k].Some? ==> picks[k].value < |slots|
    ensures |Assignments(work, slots, picks, now)| as real == Total(Ones(|work|), picks)
  {
    if work != [] {
      AssignmentsCount(work[1..], slots, picks[1..], now);
      assert Ones(|work|)[1..] == Ones(|work| - 1);
    }
  }

  function Reported(item: WorkItem, slot: Slot, now: int): Assignment {
    Assignment(item.id, slot.id, PickScore(item, now))
  }

  /** The pairs of a matching, read off in the order that visits each of them. */
  lemma ReportsAlong(items: seq<WorkItem>, slots: seq<Slot>, now: int, m: seq<Option<nat>>, order: seq<nat>, a: Assignment)
    requires |m| == |items| && InRange(order, |items|)
    requires forall i :: 0 <= i < |m| && m[i].Some? ==> m[i].value < |slots| && i in order
    ensures a in Assignments(ItemsAt(items, order), slots, Along(order, m), now)
       <==> exists i :: 0 <= i < |m| && m[i].Some? && a == Reported(items[i], slots[m[i].value], now)
  {
    var work, picks := ItemsAt(items, order), Along(order, m);
    AssignmentsList(work, slots, picks, now, a);
    if k :| 0 <= k < |work| && picks[k].Some? && a == Reported(work[k], slots[picks[k].value], now) {
      assert m[order[k]].Some? && a == Reported(items[order[k]], slots[m[order[k]].value], now);
    }
    if i :| 0 <= i < |m| && m[i].Some? && a == Reported(items[i], slots[m[i].value], now) {
      var k :| 0 <= k < |order| && order[k] == i;
      assert picks[k].Some? && a == Reported(work[k], slots[picks[k].value], now);
    }
  }

  /** The output list names exactly the pairs of the matching. */
  lemma TickReportsMatching(items: seq<WorkItem>, slots: seq<Slot>, now: int, a: Assignment)
    ensures var m := TickMatching(items, slots, now);
            && (forall i :: 0 <= i < |m| && m[i].Some? ==> m[i].value < |slots|)
            && (a in Tick(items, slots, now)
                <==> exists i :: 0 <= i < |m| && m[i].Some? && a == Reported(items[i], slots[m[i].value], now))
  {
    TickAlong(items, slots, now);
    TickIsMatching(items, slots, now);
    AllSlotsDistinct(slots);
    ReportsAlong(items, slots, now, TickMatching(items, slots, now), Order(items, slots, now, |items|), a);
  }

  /** The score the tick reports for an item: its points. */
  lemma ReportedScores(items: seq<WorkItem>, slots: seq<Slot>, now: int, a: Assignment) returns (i: nat, s: nat)
    requires a in Tick(items, slots, now)
    ensures i < |items| && s < |slots| && a.itemId == items[i].id && a.slotId == slots[s].id
    ensures items[i].createdAt <= now ==>
      var seconds := (now - items[i].createdAt) / 1_000_000_000;
      a.pickScore == (QuadrantPoints(items[i].quadrant) + 600 - 100 * items[i].priority - 50 * items[i].blockedByCount) as real
                     + seconds as real / 360.0
  {
    TickReportsMatching(items, slots, now, a);
    TickIsMatching(items, slots, now);
    var m := TickMatching(items, slots, now);
    i :| 0 <= i < |m| && m[i].Some? && a == Reported(items[i], slots[m[i].value], now);
    s := m[i].value;
    if items[i].createdAt <= now { PickScoreExact(items[i], now); }
  }

  /** The output list has as many entries as the matching has pairs. */
  lemma TickCount(items: seq<WorkItem>, slots: seq<Slot>, now: int)
    ensures |Tick(items, slots, now)| as real == Total(Ones(|items|), TickMatching(items, slots, now))
  {
    var order := Order(items, slots, now, |items|);
    TickAlong(items, slots, now);
    AssignmentsCount(TickWork(items, slots, now), slots, TickPicks(items, slots, now), now);
    TotalAlong(Ones(|items|), TickMatching(items, slots, now), order);
    assert Along(order, Ones(|items|)) == Ones(|order|);
  }

  // ----- The loop

  /** The assignments the loop still makes for `work` from the slots in `available`. */
  function Remaining(work: seq<WorkItem>, slots: seq<Slot>, available: seq<nat>, now: int): seq<Assignment>
    requires InRange(available, |slots|)
  {
    Assignments(work, slots, Greedy(work, slots, available), now)
  }

  lemma RemainingStep(work: seq<WorkItem>, slots: seq<Slot>, available: seq<nat>, now: int)
    requires InRange(available, |slots|) && work != []
    ensures var k := FirstCapable(work[0], slots, available);
            Remaining(work, slots, available, now)
            == if k == |available| then Remaining(work[1..], slots, available, now)
               else [Reported(work[0], slots[available[k]], now)]
                    + Remaining(work[1..], slots, SwapRemove(available, k), now)
  {
    var k := FirstCapable(work[0], slots, available);
    var picks := Greedy(work, slots, available);
    assert picks[1..] == Greedy(work[1..], slots, if k == |available| then available else SwapRemove(available, k));
  }

  /** The assignment loop of the tick. */
  method AssignAll(ready: seq<WorkItem>, slots: seq<Slot>, now: int) returns (assignments: seq<Assignment>)
    ensures assignments == Remaining(ready, slots, AllSlots(slots), now)
  {
    var available := AllSlots(slots);
    assignments := [];
    ghost var all := Remaining(ready, slots, available, now);
    assert ready[0..] == ready;
    for n := 0 to |ready|
      invariant InRange(available, |slots|) && assignments + Remaining(ready[n..], slots, available, now) == all
    {
      var item := ready[n];
      assert ready[n..][0] == item && ready[n..][1..] == ready[n + 1..];
      RemainingStep(ready[n..], slots, available, now);
      var idx := FirstCapable(item, slots, available);
      if idx < |available| {
        var slot := available[idx];
        available := SwapRemove(available, idx);
        assignments := assignments + [Assignment(item.id, slots[slot].id, PickScore(item, now))];
      }
    }
  }

  /** `scheduler_tick`. */
  method SchedulerTick(items: seq<WorkItem>, slots: seq<Slot>, now: int) returns (assignments: seq<Assignment>)
    ensures assignments == Tick(items, slots, now)
  {
    assignments := AssignAll(TickWork(items, slots, now), slots, now);
  }
}
