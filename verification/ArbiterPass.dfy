/** One pass of the resource arbiter, `arbiter_pass` of crates/ff-agent/src/arbiter.rs: releasing expired leases,
    then walking the queue with preemption and grants. `Env` says which reads, writes and plan steps fail, and
    every law of a pass holds for every `Env`. */
module ArbiterPass {
  import opened Options
  import opened Text
  import opened HostOrder
  import opened Arbiter

  /** Why an intent is released. */
  datatype Cause = Expiry | Preemption(challenger: nat, host: string)

  /** The answers of the database and of the steps in one pass. The first three queries and the read of an
      expired owner's row end the pass when they fail; the two reads of a holder's row are made for each
      challenger and host, the second one to release the holder. */
  datatype Env = Env(
    expiredQuery: bool,
    expiredRead: nat -> bool,
    pendingQuery: bool,
    reservedQuery: bool,
    priorityRead: (nat, string) -> bool,
    holderRead: (nat, string) -> bool,
    grant: nat -> Fate,
    prework: nat -> PreworkFates,
    release: (nat, Cause) -> ReleaseFates)

  datatype PassEvent =
    | Preempted(holder: nat, challenger: nat, host: string)
    | GrantedTo(id: nat)
    | Queued(id: nat)
    | GrantFailed(id: nat, applied: bool)

  /** The queue entry in whose turn the event happened. */
  function EntryOf(e: PassEvent): nat {
    if e.Preempted? then e.challenger else e.id
  }

  datatype Db = Db(hosts: Hosts, intents: Intents)

  ghost predicate ConsistentDb(db: Db) {
    Consistent(db.hosts, db.intents)
  }

  /** Priority of the holder of a reserved host; 0 if unknown. */
  function HolderPriority(intents: Intents, h: Host): int {
    if h.owner.Some? && h.owner.value in intents then intents[h.owner.value].priority else 0
  }

  /** `holder_priority`: also 0 if the read fails. */
  function PriorityAsRead(intents: Intents, snapshot: Hosts, env: Env, id: nat, k: string): int {
    if k in snapshot && env.priorityRead(id, k) then HolderPriority(intents, snapshot[k]) else 0
  }

  /** The reserved hosts of the snapshot that stand in the way. */
  function Blocking(snapshot: Hosts, wanted: seq<string>): set<string> {
    set k | k in snapshot && !snapshot[k].state.Available? && k in Keys(wanted)
  }

  predicate OutranksAsRead(intents: Intents, snapshot: Hosts, env: Env, id: nat)
    requires id in intents
  {
    forall k :: k in Blocking(snapshot, intents[id].hosts) ==> PriorityAsRead(intents, snapshot, env, id, k) < intents[id].priority
  }

  /** The host is blocked by a known holder whose row is read a second time. */
  predicate Releasable(intents: Intents, snapshot: Hosts, env: Env, id: nat, k: string) {
    && k in snapshot && !snapshot[k].state.Available? && snapshot[k].owner.Some?
    && snapshot[k].owner.value in intents && env.holderRead(id, k)
  }

  function AfterRelease(db: Db, id: nat, f: ReleaseFates): Db {
    if id !in db.intents then db
    else Db(if f.free.Applies() then Release(db.hosts, id) else db.hosts, db.intents[id := AfterRestore(db.intents[id], f)])
  }

  /** The holders of the blocking hosts among `wanted` are released, host by host. */
  function AfterPreempt(db: Db, snapshot: Hosts, env: Env, id: nat, wanted: seq<string>): Db {
    if wanted == [] then db
    else
      var before, k := AfterPreempt(db, snapshot, env, id, wanted[..|wanted| - 1]), Lower(wanted[|wanted| - 1]);
      if Releasable(db.intents, snapshot, env, id, k) then
        AfterRelease(before, snapshot[k].owner.value, env.release(snapshot[k].owner.value, Preemption(id, k)))
      else before
  }

  function PreemptLog(intents: Intents, snapshot: Hosts, env: Env, id: nat, wanted: seq<string>): seq<PassEvent> {
    if wanted == [] then []
    else
      var before, k := PreemptLog(intents, snapshot, env, id, wanted[..|wanted| - 1]), Lower(wanted[|wanted| - 1]);
      if Releasable(intents, snapshot, env, id, k) then before + [Preempted(snapshot[k].owner.value, id, k)] else before
  }

  function LeaseEnd(row: Intent, now: int): int {
    now + if row.requestedSecs < 1 then 1 else row.requestedSecs
  }

  /** The attempt to grant an intent that nothing in the snapshot blocks. */
  ghost function AfterGrant(db: Db, now: int, env: Env, id: nat): Db
    requires id in db.intents
  {
    var row := db.intents[id];
    var wanted := SortedHostSet(row.hosts);
    if env.grant(id).Refused? || !Grantable(db.hosts, wanted) then db
    else
      Db(Grant(db.hosts, id, wanted, LeaseEnd(row, now)),
         if env.grant(id).Ok? then db.intents[id := AfterGranted(row, env.prework(id))] else db.intents)
  }

  ghost function GrantEvent(db: Db, env: Env, id: nat): PassEvent
    requires id in db.intents
  {
    var available := Grantable(db.hosts, SortedHostSet(db.intents[id].hosts));
    match env.grant(id)
    case Ok => if available then GrantedTo(id) else Queued(id)
    case Lost => GrantFailed(id, available)
    case Refused => GrantFailed(id, false)
  }

  /** One entry of the queue. */
  ghost function AfterTurn(db: Db, snapshot: Hosts, now: int, env: Env, id: nat): Db {
    if id !in db.intents then db
    else if Blocking(snapshot, db.intents[id].hosts) == {} then AfterGrant(db, now, env, id)
    else if OutranksAsRead(db.intents, snapshot, env, id) then AfterPreempt(db, snapshot, env, id, SortedHostSet(db.intents[id].hosts))
    else db
  }

  ghost function TurnLog(db: Db, snapshot: Hosts, env: Env, id: nat): seq<PassEvent> {
    if id !in db.intents then []
    else if Blocking(snapshot, db.intents[id].hosts) == {} then [GrantEvent(db, env, id)]
    else
      (if OutranksAsRead(db.intents, snapshot, env, id)
       then PreemptLog(db.intents, snapshot, env, id, SortedHostSet(db.intents[id].hosts)) else [])
      + [Queued(id)]
  }

  /** The walk over the queue; the snapshot of the hosts is taken at its start. */
  ghost function Walk(start: Db, now: int, env: Env, queue: seq<nat>): Db {
    if queue == [] then start
    else AfterTurn(Walk(start, now, env, queue[..|queue| - 1]), start.hosts, now, env, queue[|queue| - 1])
  }

  ghost function WalkLog(start: Db, now: int, env: Env, queue: seq<nat>): seq<PassEvent> {
    if queue == [] then []
    else
      WalkLog(start, now, env, queue[..|queue| - 1])
      + TurnLog(Walk(start, now, env, queue[..|queue| - 1]), start.hosts, env, queue[|queue| - 1])
  }

  function ExpiredOwners(hosts: Hosts, now: int): set<nat> {
    set k | k in hosts && hosts[k].owner.Some? && hosts[k].expiresAt.Some? && hosts[k].expiresAt.value < now :: hosts[k].owner.value
  }

  /** The owners of expired leases are released. */
  function Reaped(db: Db, env: Env, expired: seq<nat>): Db {
    if expired == [] then db
    else
      var id := expired[|expired| - 1];
      AfterRelease(Reaped(db, env, expired[..|expired| - 1]), id, env.release(id, Expiry))
  }

  ghost predicate Lists(ids: seq<nat>, all: set<nat>) {
    Distinct(ids) && forall id :: id in ids <==> id in all
  }

  /** The order of the queue: priority descending, then creation ascending. */
  predicate Precedes(a: Intent, b: Intent) {
    a.priority > b.priority || (a.priority == b.priority && a.createdAt <= b.createdAt)
  }

  function PendingIds(intents: Intents): set<nat> {
    set id | id in intents && intents[id].state.Pending?
  }

  ghost predicate InQueueOrder(queue: seq<nat>, intents: Intents) {
    forall i, j :: 0 <= i < j < |queue| && queue[i] in intents && queue[j] in intents ==> Precedes(intents[queue[i]], intents[queue[j]])
  }

  /** `pg_pending_work_intents`: the pending rows in queue order. */
  ghost predicate IsQueue(queue: seq<nat>, intents: Intents) {
    Lists(queue, PendingIds(intents)) && InQueueOrder(queue, intents)
  }

  /** What a pass saw and did. `handled`: how many owners of expired leases were released. */
  datatype Trace = Trace(ok: bool, expired: seq<nat>, handled: nat, queue: seq<nat>, log: seq<PassEvent>)

  /** The reaping half handles the owners up to the first row it cannot read. */
  ghost predicate ReapedUpTo(env: Env, expired: seq<nat>, handled: nat) {
    && handled <= |expired| && (forall i :: 0 <= i < handled ==> env.expiredRead(expired[i]))
    && (handled < |expired| ==> !env.expiredRead(expired[handled]))
  }

  /** An active pass from one state of the database to another. */
  ghost predicate PassOf(before: Db, after: Db, now: int, env: Env, t: Trace) {
    if !env.expiredQuery then after == before && !t.ok && t.handled == 0 && t.log == []
    else
      && Lists(t.expired, ExpiredOwners(before.hosts, now)) && ReapedUpTo(env, t.expired, t.handled)
      && var start := Reaped(before, env, t.expired[..t.handled]);
         if t.handled < |t.expired| || !env.pendingQuery || !env.reservedQuery then after == start && !t.ok && t.log == []
         else
           && t.ok && IsQueue(t.queue, start.intents)
           && after == Walk(start, now, env, t.queue) && t.log == WalkLog(start, now, env, t.queue)
  }

  // ----- Releasing holders

  /** A row that was released any number of times: the prework is untouched, and the state is the old one or one
      that a release writes. */
  predicate OnlyReleased(a: Intent, b: Intent) {
    b == a.(restoreCursor := b.restoreCursor, state := b.state) && (b.state == a.state || b.state.Releasing? || b.state.Done?)
  }

  /** From `a` to `b` only holders in the snapshot lost hosts, and only their rows changed. */
  ghost predicate Loosens(a: Db, b: Db, snapshot: Hosts) {
    && SameRequests(a.intents, b.intents) && a.hosts.Keys == b.hosts.Keys
    && (forall x :: Owned(b.hosts, x) == Owned(a.hosts, x) || (Owned(b.hosts, x) == {} && Owned(snapshot, x) != {}))
    && (forall k :: k in a.hosts ==>
          b.hosts[k] == a.hosts[k] || (a.hosts[k].owner.Some? && Owned(snapshot, a.hosts[k].owner.value) != {}))
    && (forall x :: x in a.intents ==>
          OnlyReleased(a.intents[x], b.intents[x]) && (Owned(snapshot, x) == {} ==> b.intents[x] == a.intents[x]))
  }

  lemma LoosensChain(a: Db, b: Db, c: Db, snapshot: Hosts)
    requires Loosens(a, b, snapshot) && Loosens(b, c, snapshot)
    ensures Loosens(a, c, snapshot)
  {
    forall x | x in a.intents
      ensures OnlyReleased(a.intents[x], c.intents[x]) && (Owned(snapshot, x) == {} ==> c.intents[x] == a.intents[x])
    {
      assert OnlyReleased(a.intents[x], b.intents[x]) && OnlyReleased(b.intents[x], c.intents[x]);
    }
  }

  lemma ReleaseLoosens(db: Db, snapshot: Hosts, id: nat, f: ReleaseFates)
    requires ConsistentDb(db) && Owned(snapshot, id) != {}
    ensures ConsistentDb(AfterRelease(db, id, f)) && Loosens(db, AfterRelease(db, id, f), snapshot)
  {
    if id in db.intents {
      var db' := AfterRelease(db, id, f);
      ReleaseKeeps(db.hosts, db.intents, id);
      ConsistentSameRequests(db'.hosts, db.intents, db'.intents);
    }
  }

  lemma {:induction false} PreemptLoosens(db: Db, snapshot: Hosts, env: Env, id: nat, wanted: seq<string>)
    requires ConsistentDb(db)
    ensures var db' := AfterPreempt(db, snapshot, env, id, wanted); ConsistentDb(db') && Loosens(db, db', snapshot)
  {
    if wanted != [] {
      var init, k := wanted[..|wanted| - 1], Lower(wanted[|wanted| - 1]);
      PreemptLoosens(db, snapshot, env, id, init);
      if Releasable(db.intents, snapshot, env, id, k) {
        var before, holder := AfterPreempt(db, snapshot, env, id, init), snapshot[k].owner.value;
        assert k in Owned(snapshot, holder);
        ReleaseLoosens(before, snapshot, holder, env.release(holder, Preemption(id, k)));
        LoosensChain(db, before, AfterPreempt(db, snapshot, env, id, wanted), snapshot);
      }
    }
  }

  /** The preemptions of a turn: one per blocking host with a known holder whose row could be read. */
  lemma {:induction false} PreemptLogExact(intents: Intents, snapshot: Hosts, env: Env, id: nat, wanted: seq<string>, e: PassEvent)
    ensures e in PreemptLog(intents, snapshot, env, id, wanted)
       <==> && e.Preempted? && e.challenger == id && e.host in Keys(wanted)
            && Releasable(intents, snapshot, env, id, e.host) && snapshot[e.host].owner == Some(e.holder)
  {
    if wanted != [] {
      var init, last := wanted[..|wanted| - 1], wanted[|wanted| - 1];
      assert wanted == init + [last];
      KeysSnoc(init, last);
      PreemptLogExact(intents, snapshot, env, id, init, e);
    }
  }

  // ----- The state in the middle of a walk

  /** The hosts of the intent were reserved for it in this pass, whether or not the pass learned of it. */
  ghost predicate Took(log: seq<PassEvent>, id: nat) {
    GrantedTo(id) in log || GrantFailed(id, true) in log
  }

  ghost function Taken(intents: Intents, log: seq<PassEvent>, id: nat): set<string> {
    if id in intents && Took(log, id) then Keys(intents[id].hosts) else {}
  }

  ghost predicate RowInPass(start: Db, db: Db, log: seq<PassEvent>, env: Env, x: nat)
    requires x in start.intents && x in db.intents
  {
    if GrantedTo(x) in log then db.intents[x] == AfterGranted(start.intents[x], env.prework(x))
    else OnlyReleased(start.intents[x], db.intents[x]) && (Owned(start.hosts, x) == {} ==> db.intents[x] == start.intents[x])
  }

  /** Holders in the snapshot keep their set or lose it, and everybody else owns what the pass gave him. */
  ghost predicate OwnersInPass(start: Db, hosts: Hosts, log: seq<PassEvent>) {
    && (forall x :: Owned(start.hosts, x) != {} ==>
          (Owned(hosts, x) == {} || Owned(hosts, x) == Owned(start.hosts, x)) && !Took(log, x))
    && (forall x :: Owned(start.hosts, x) == {} ==> Owned(hosts, x) == Taken(start.intents, log, x))
  }

  /** A host that was available is so still, or has an owner. */
  ghost predicate HostsInPass(start: Hosts, hosts: Hosts) {
    && start.Keys == hosts.Keys
    && forall k :: IsAvailable(start, k) ==> hosts[k] == start[k] || (hosts[k].owner.Some? && !hosts[k].state.Available?)
  }

  /** Rows change by a grant or by releases. */
  ghost predicate RowsInPass(start: Db, db: Db, log: seq<PassEvent>, env: Env) {
    && SameRequests(start.intents, db.intents)
    && forall x :: x in start.intents ==> RowInPass(start, db, log, env, x)
  }

  ghost predicate InPass(start: Db, db: Db, log: seq<PassEvent>, env: Env) {
    && ConsistentDb(start) && ConsistentDb(db) && OwnersInPass(start, db.hosts, log)
    && HostsInPass(start.hosts, db.hosts) && RowsInPass(start, db, log, env)
  }

  /** The log of a turn without a grant. */
  ghost predicate Idle(more: seq<PassEvent>) {
    forall x :: !Took(more, x)
  }

  lemma TookMore(log: seq<PassEvent>, more: seq<PassEvent>, x: nat)
    ensures Took(log + more, x) <==> Took(log, x) || Took(more, x)
    ensures GrantedTo(x) in log + more <==> GrantedTo(x) in log || GrantedTo(x) in more
  {}

  lemma LoosenedOwners(start: Db, a: Db, b: Db, log: seq<PassEvent>, more: seq<PassEvent>)
    requires OwnersInPass(start, a.hosts, log) && Loosens(a, b, start.hosts) && Idle(more)
    ensures OwnersInPass(start, b.hosts, log + more)
  {
    forall x ensures Taken(start.intents, log + more, x) == Taken(start.intents, log, x) && (Took(log + more, x) <==> Took(log, x)) {
      TookMore(log, more, x);
      assert !Took(more, x);
    }
  }

  lemma LoosenedHosts(start: Db, a: Db, b: Db, log: seq<PassEvent>)
    requires ConsistentDb(start) && OwnersInPass(start, a.hosts, log) && HostsInPass(start.hosts, a.hosts) && Loosens(a, b, start.hosts)
    ensures HostsInPass(start.hosts, b.hosts)
  {
    forall k | IsAvailable(start.hosts, k) ensures b.hosts[k] == a.hosts[k] {
      if a.hosts[k].owner.Some? {
        var x := a.hosts[k].owner.value;
        assert k in Owned(a.hosts, x) && k !in Owned(start.hosts, x);
      }
    }
  }

  lemma LoosenedRows(start: Db, a: Db, b: Db, log: seq<PassEvent>, more: seq<PassEvent>, env: Env)
    requires OwnersInPass(start, a.hosts, log) && RowsInPass(start, a, log, env) && Loosens(a, b, start.hosts) && Idle(more)
    ensures RowsInPass(start, b, log + more, env)
  {
    forall x | x in start.intents ensures RowInPass(start, b, log + more, env, x) {
      TookMore(log, more, x);
      assert RowInPass(start, a, log, env, x) && !Took(more, x);
      assert OnlyReleased(a.intents[x], b.intents[x]);
      assert GrantedTo(x) in log ==> Took(log, x);
    }
  }

  lemma LoosenedInPass(start: Db, db: Db, db': Db, log: seq<PassEvent>, more: seq<PassEvent>, env: Env)
    requires InPass(start, db, log, env) && Loosens(db, db', start.hosts) && ConsistentDb(db') && Idle(more)
    ensures InPass(start, db', log + more, env)
  {
    LoosenedOwners(start, db, db', log, more);
    LoosenedHosts(start, db, db', log);
    LoosenedRows(start, db, db', log, more, env);
  }

  /** An intent whose hosts are all available owns nothing. */
  lemma NothingInSnapshot(snapshot: Hosts, intents: Intents, id: nat)
    requires Consistent(snapshot, intents) && id in intents && Grantable(snapshot, SortedHostSet(intents[id].hosts))
    ensures Owned(snapshot, id) == {}
  {
    SortedHostSetExact(intents[id].hosts);
    assert WholeOrNone(snapshot, id, intents[id].hosts);
    var h := Lower(SortedHostSet(intents[id].hosts)[0]);
    assert h in Keys(SortedHostSet(intents[id].hosts)) && IsAvailable(snapshot, h);
  }

  /** What a walk can still grant: the hosts free in the snapshot that no earlier entry took. */
  lemma GrantableNow(start: Db, db: Db, log: seq<PassEvent>, env: Env, wanted: seq<string>)
    requires InPass(start, db, log, env) && Blocking(start.hosts, wanted) == {} && wanted != [] && DistinctKeys(wanted)
    ensures Grantable(db.hosts, wanted)
       <==> && Keys(wanted) <= start.hosts.Keys
            && forall x :: Took(log, x) && x in start.intents ==> Keys(wanted) !! Keys(start.intents[x].hosts)
    ensures Grantable(db.hosts, wanted) ==> Grantable(start.hosts, wanted)
  {
    forall i | 0 <= i < |wanted|
      ensures Lower(wanted[i]) in Keys(wanted)
      ensures Lower(wanted[i]) in start.hosts ==> IsAvailable(start.hosts, Lower(wanted[i]))
    {
      assert Lower(wanted[i]) !in Blocking(start.hosts, wanted);
    }
    forall k | k in Keys(wanted) && k in start.hosts
      ensures !IsAvailable(db.hosts, k) <==> exists x :: Took(log, x) && x in start.intents && k in Keys(start.intents[x].hosts)
    {
      OwnedByTaker(start, db, log, env, k);
    }
  }

  /** A host that was available at the start has been reserved exactly by an entry that took it. */
  lemma OwnedByTaker(start: Db, db: Db, log: seq<PassEvent>, env: Env, k: string)
    requires InPass(start, db, log, env) && IsAvailable(start.hosts, k)
    ensures !IsAvailable(db.hosts, k) <==> exists x :: Took(log, x) && x in start.intents && k in Keys(start.intents[x].hosts)
  {
    if !IsAvailable(db.hosts, k) {
      var x := db.hosts[k].owner.value;
      assert k in Owned(db.hosts, x);
      assert k !in Owned(start.hosts, x);
      assert k in Taken(start.intents, log, x);
    }
    forall x | Took(log, x) && x in start.intents && k in Keys(start.intents[x].hosts) ensures !IsAvailable(db.hosts, k) {
      assert Owned(start.hosts, x) == {};
      assert k in Owned(db.hosts, x);
    }
  }

  lemma GrantInPass(start: Db, db: Db, log: seq<PassEvent>, now: int, env: Env, id: nat)
    requires InPass(start, db, log, env) && id in db.intents && Blocking(start.hosts, db.intents[id].hosts) == {}
    requires !Took(log, id)
    ensures InPass(start, AfterGrant(db, now, env, id), log + [GrantEvent(db, env, id)], env)
  {
    if Grantable(db.hosts, SortedHostSet(db.intents[id].hosts)) && !env.grant(id).Refused? {
      GrantTakes(start, db, log, now, env, id);
      TookGrows(start, db, AfterGrant(db, now, env, id), log, GrantEvent(db, env, id), env, id);
    } else {
      LoosensSame(db, start.hosts);
      LoosenedInPass(start, db, db, log, [GrantEvent(db, env, id)], env);
    }
  }

  lemma GrantTakes(start: Db, db: Db, log: seq<PassEvent>, now: int, env: Env, id: nat)
    requires InPass(start, db, log, env) && id in db.intents && Blocking(start.hosts, db.intents[id].hosts) == {}
    requires Grantable(db.hosts, SortedHostSet(db.intents[id].hosts)) && !env.grant(id).Refused?
    ensures ConsistentDb(AfterGrant(db, now, env, id)) && Owned(start.hosts, id) == {}
    ensures Granting(db, AfterGrant(db, now, env, id), GrantEvent(db, env, id), env, id)
  {
    var wanted := SortedHostSet(db.intents[id].hosts);
    SortedHostSetExact(db.intents[id].hosts);
    assert Blocking(start.hosts, wanted) == {};
    GrantableNow(start, db, log, env, wanted);
    NothingInSnapshot(start.hosts, start.intents, id);
    GrantGranting(db, now, env, id);
  }

  lemma GrantGranting(db: Db, now: int, env: Env, id: nat)
    requires ConsistentDb(db) && id in db.intents && !env.grant(id).Refused?
    requires Grantable(db.hosts, SortedHostSet(db.intents[id].hosts))
    ensures ConsistentDb(AfterGrant(db, now, env, id))
    ensures Granting(db, AfterGrant(db, now, env, id), GrantEvent(db, env, id), env, id)
  {
    var db' := AfterGrant(db, now, env, id);
    GrantKeeps(db.hosts, db.intents, id, LeaseEnd(db.intents[id], now));
    GrantedSameRequest(db.intents[id], env.prework(id));
    ConsistentSameRequests(db'.hosts, db.intents, db'.intents);
  }

  lemma GrantedSameRequest(row: Intent, f: PreworkFates)
    ensures AfterGranted(row, f).hosts == row.hosts && AfterGranted(row, f).priority == row.priority
  {}

  /** The step from `a` to `b` gives the intent its hosts and changes no other owner and no other row. */
  ghost predicate Granting(a: Db, b: Db, e: PassEvent, env: Env, id: nat) {
    && id in a.intents && (e == GrantedTo(id) || e == GrantFailed(id, true))
    && SameRequests(a.intents, b.intents) && b.hosts.Keys == a.hosts.Keys
    && Owned(b.hosts, id) == Keys(a.intents[id].hosts) && (forall x :: x != id ==> Owned(b.hosts, x) == Owned(a.hosts, x))
    && (forall k :: k in a.hosts ==> b.hosts[k] == a.hosts[k] || (b.hosts[k].owner.Some? && !b.hosts[k].state.Available?))
    && (forall x :: x in a.intents && x != id ==> b.intents[x] == a.intents[x])
    && b.intents[id] == if e.GrantedTo? then AfterGranted(a.intents[id], env.prework(id)) else a.intents[id]
  }

  lemma LoosensSame(db: Db, snapshot: Hosts)
    ensures Loosens(db, db, snapshot)
  {}

  lemma TookGrows(start: Db, db: Db, db': Db, log: seq<PassEvent>, e: PassEvent, env: Env, id: nat)
    requires InPass(start, db, log, env) && ConsistentDb(db') && Owned(start.hosts, id) == {} && !Took(log, id)
    requires Granting(db, db', e, env, id)
    ensures InPass(start, db', log + [e], env)
  {
    forall x ensures Took(log + [e], x) <==> Took(log, x) || x == id {
      TookMore(log, [e], x);
      assert e in [e];
    }
    GrantedOwners(start, db, db', log, e, env, id);
    GrantedRows(start, db, db', log, e, env, id);
  }

  lemma GrantedOwners(start: Db, a: Db, b: Db, log: seq<PassEvent>, e: PassEvent, env: Env, id: nat)
    requires OwnersInPass(start, a.hosts, log) && SameRequests(start.intents, a.intents) && Granting(a, b, e, env, id)
    requires Owned(start.hosts, id) == {} && forall x :: Took(log + [e], x) <==> Took(log, x) || x == id
    ensures OwnersInPass(start, b.hosts, log + [e])
  {}

  lemma GrantedRows(start: Db, a: Db, b: Db, log: seq<PassEvent>, e: PassEvent, env: Env, id: nat)
    requires RowsInPass(start, a, log, env) && Granting(a, b, e, env, id) && Owned(start.hosts, id) == {} && !Took(log, id)
    ensures RowsInPass(start, b, log + [e], env)
  {
    forall x | x in start.intents ensures RowInPass(start, b, log + [e], env, x) {
      TookMore(log, [e], x);
      assert RowInPass(start, a, log, env, x);
    }
  }

  lemma TurnInPass(start: Db, db: Db, log: seq<PassEvent>, now: int, env: Env, id: nat)
    requires InPass(start, db, log, env) && !Took(log, id)
    ensures InPass(start, AfterTurn(db, start.hosts, now, env, id), log + TurnLog(db, start.hosts, env, id), env)
  {
    var more, db' := TurnLog(db, start.hosts, env, id), AfterTurn(db, start.hosts, now, env, id);
    if id in db.intents && Blocking(start.hosts, db.intents[id].hosts) == {} {
      GrantInPass(start, db, log, now, env, id);
    } else {
      LoosensSame(db, start.hosts);
      forall x ensures !Took(more, x) { BlockedTakesNothing(db, start.hosts, env, id, x); }
      if id in db.intents { PreemptLoosens(db, start.hosts, env, id, SortedHostSet(db.intents[id].hosts)); }
      LoosenedInPass(start, db, db', log, more, env);
    }
  }

  lemma BlockedTakesNothing(db: Db, snapshot: Hosts, env: Env, id: nat, x: nat)
    requires id in db.intents ==> Blocking(snapshot, db.intents[id].hosts) != {}
    ensures !Took(TurnLog(db, snapshot, env, id), x)
  {
    if id in db.intents {
      var wanted := SortedHostSet(db.intents[id].hosts);
      PreemptLogExact(db.intents, snapshot, env, id, wanted, GrantedTo(x));
      PreemptLogExact(db.intents, snapshot, env, id, wanted, GrantFailed(x, true));
    }
  }

  // ----- The laws of a walk

  lemma TurnEntries(db: Db, snapshot: Hosts, env: Env, id: nat, e: PassEvent)
    requires e in TurnLog(db, snapshot, env, id)
    ensures EntryOf(e) == id
  {
    if id in db.intents { PreemptLogExact(db.intents, snapshot, env, id, SortedHostSet(db.intents[id].hosts), e); }
  }

  lemma {:induction false} WalkInPass(start: Db, now: int, env: Env, queue: seq<nat>)
    requires ConsistentDb(start) && Distinct(queue)
    ensures InPass(start, Walk(start, now, env, queue), WalkLog(start, now, env, queue), env)
    ensures forall e :: e in WalkLog(start, now, env, queue) ==> EntryOf(e) in queue
  {
    if queue != [] {
      var init, id := queue[..|queue| - 1], queue[|queue| - 1];
      WalkInPass(start, now, env, init);
      var db, log := Walk(start, now, env, init), WalkLog(start, now, env, init);
      assert id !in init;
      assert EntryOf(GrantedTo(id)) == id && EntryOf(GrantFailed(id, true)) == id;
      TurnInPass(start, db, log, now, env, id);
      forall e | e in WalkLog(start, now, env, queue) ensures EntryOf(e) in queue {
        if e in TurnLog(db, start.hosts, env, id) { TurnEntries(db, start.hosts, env, id, e); }
      }
    }
  }

  /** The events of an entry are those of its turn. */
  lemma {:induction false} WalkSplit(start: Db, now: int, env: Env, queue: seq<nat>, i: nat, e: PassEvent)
    requires ConsistentDb(start) && Distinct(queue) && i < |queue| && EntryOf(e) == queue[i]
    ensures e in WalkLog(start, now, env, queue) <==> e in TurnLog(Walk(start, now, env, queue[..i]), start.hosts, env, queue[i])
    decreases |queue|
  {
    var init, last := queue[..|queue| - 1], queue[|queue| - 1];
    WalkInPass(start, now, env, init);
    if i < |init| {
      WalkSplit(start, now, env, init, i, e);
      assert init[..i] == queue[..i];
      if e in TurnLog(Walk(start, now, env, init), start.hosts, env, last) {
        TurnEntries(Walk(start, now, env, init), start.hosts, env, last, e);
      }
    } else {
      assert last !in init;
    }
  }

  lemma SameReads(a: Intents, b: Intents, snapshot: Hosts, env: Env, id: nat)
    requires SameRequests(a, b) && id in a
    ensures OutranksAsRead(a, snapshot, env, id) <==> OutranksAsRead(b, snapshot, env, id)
    ensures forall k :: Releasable(a, snapshot, env, id, k) <==> Releasable(b, snapshot, env, id, k)
  {
    forall k ensures PriorityAsRead(a, snapshot, env, id, k) == PriorityAsRead(b, snapshot, env, id, k) {}
  }

  /** The host is in the challenger's set and not available. */
  ghost predicate Blocks(start: Db, id: nat, k: string)
    requires id in start.intents
  {
    k in Keys(start.intents[id].hosts) && k in start.hosts && start.hosts[k].state != Available
  }

  ghost predicate KnownHolder(start: Db, k: string)
    requires k in start.hosts
  {
    start.hosts[k].owner.Some? && start.hosts[k].owner.value in start.intents
  }

  /** The challenger `id` releases the holder of host `k`: the host blocks it and has a known holder whose row is read a
      second time; of every host that blocks it the holder has a lower priority, or the challenger's is positive if
      that holder is unknown or his priority could not be read. */
  ghost predicate Challenges(start: Db, env: Env, queue: seq<nat>, id: nat, k: string) {
    && id in queue && id in start.intents && Blocks(start, id, k) && KnownHolder(start, k) && env.holderRead(id, k)
    && forall b :: Blocks(start, id, b) ==>
         if KnownHolder(start, b) && env.priorityRead(id, b)
         then start.intents[start.hosts[b].owner.value].priority < start.intents[id].priority
         else 0 < start.intents[id].priority
  }

  lemma ChallengesExact(start: Db, env: Env, queue: seq<nat>, id: nat, k: string)
    requires id in queue && id in start.intents
    ensures Challenges(start, env, queue, id, k)
       <==> && k in Blocking(start.hosts, start.intents[id].hosts)
            && OutranksAsRead(start.intents, start.hosts, env, id) && Releasable(start.intents, start.hosts, env, id, k)
  {
    forall b ensures Blocks(start, id, b) <==> b in Blocking(start.hosts, start.intents[id].hosts) {}
  }

  /** Main result on preemption: the holder of a host is released for a challenger exactly if the host blocks the
      challenger, every priority as it was read, 0 where the read failed, is below the challenger's, and the
      holder's row could be read again. */
  lemma PreemptsExactly(start: Db, now: int, env: Env, queue: seq<nat>, holder: nat, id: nat, k: string)
    requires ConsistentDb(start) && IsQueue(queue, start.intents)
    ensures Preempted(holder, id, k) in WalkLog(start, now, env, queue)
       <==> Challenges(start, env, queue, id, k) && start.hosts[k].owner == Some(holder)
  {
    WalkInPass(start, now, env, queue);
    assert EntryOf(Preempted(holder, id, k)) == id;
    if id in queue {
      var i :| 0 <= i < |queue| && queue[i] == id;
      assert id in PendingIds(start.intents);
      EntryPreempts(start, now, env, queue, i, holder, k);
    }
  }

  lemma EntryPreempts(start: Db, now: int, env: Env, queue: seq<nat>, i: nat, holder: nat, k: string)
    requires ConsistentDb(start) && Distinct(queue) && i < |queue| && queue[i] in start.intents
    ensures Preempted(holder, queue[i], k) in WalkLog(start, now, env, queue)
       <==> Challenges(start, env, queue, queue[i], k) && start.hosts[k].owner == Some(holder)
  {
    WalkSplit(start, now, env, queue, i, Preempted(holder, queue[i], k));
    WalkInPass(start, now, env, queue[..i]);
    TurnPreempts(start, Walk(start, now, env, queue[..i]), WalkLog(start, now, env, queue[..i]), env, queue, holder, queue[i], k);
  }

  lemma TurnPreempts(start: Db, db: Db, log: seq<PassEvent>, env: Env, queue: seq<nat>, holder: nat, id: nat, k: string)
    requires InPass(start, db, log, env) && id in queue && id in start.intents
    ensures Preempted(holder, id, k) in TurnLog(db, start.hosts, env, id)
       <==> Challenges(start, env, queue, id, k) && start.hosts[k].owner == Some(holder)
  {
    var wanted := SortedHostSet(db.intents[id].hosts);
    SortedHostSetExact(db.intents[id].hosts);
    SameReads(start.intents, db.intents, start.hosts, env, id);
    PreemptLogExact(db.intents, start.hosts, env, id, wanted, Preempted(holder, id, k));
    ChallengesExact(start, env, queue, id, k);
  }

  ghost predicate OnlyLowerPreempted(start: Db, log: seq<PassEvent>) {
    forall e :: e in log && e.Preempted? ==>
      && e.holder in start.intents && e.challenger in start.intents
      && start.intents[e.holder].priority < start.intents[e.challenger].priority
  }

  /** No failed read hides a holder that the challenger does not outrank. */
  ghost predicate FailedReadsHarmless(start: Db, env: Env, queue: seq<nat>) {
    forall id, k :: Challenges(start, env, queue, id, k) && !env.priorityRead(id, k)
                    ==> HolderPriority(start.intents, start.hosts[k]) < start.intents[id].priority
  }

  /** A pass releases only holders of strictly lower priority if and only if every failed read of a priority was
      of a holder below the challenger. */
  lemma OutrankingExactly(start: Db, now: int, env: Env, queue: seq<nat>)
    requires ConsistentDb(start) && IsQueue(queue, start.intents)
    ensures OnlyLowerPreempted(start, WalkLog(start, now, env, queue)) <==> FailedReadsHarmless(start, env, queue)
  {
    var log := WalkLog(start, now, env, queue);
    if OnlyLowerPreempted(start, log) {
      forall id, k | Challenges(start, env, queue, id, k)
        ensures HolderPriority(start.intents, start.hosts[k]) < start.intents[id].priority
      {
        var e := Preempted(start.hosts[k].owner.value, id, k);
        PreemptsExactly(start, now, env, queue, e.holder, id, k);
        assert e in log;
      }
    }
    if FailedReadsHarmless(start, env, queue) {
      forall e | e in log && e.Preempted?
        ensures e.holder in start.intents && e.challenger in start.intents
        ensures start.intents[e.holder].priority < start.intents[e.challenger].priority
      {
        PreemptsExactly(start, now, env, queue, e.holder, e.challenger, e.host);
        assert PriorityAsRead(start.intents, start.hosts, env, e.challenger, e.host) < start.intents[e.challenger].priority;
      }
    }
  }

  /** The failing input: the read of the holder's priority fails, its row is read all the same, and a challenger of
      priority 1 releases a holder of priority 9. */
  lemma FailedReadPreemptsHigher(env: Env, now: int) returns (start: Db, queue: seq<nat>)
    requires !env.priorityRead(2, "sia") && env.holderRead(2, "sia")
    ensures ConsistentDb(start) && IsQueue(queue, start.intents)
    ensures Preempted(1, 2, "sia") in WalkLog(start, now, env, queue)
    ensures 1 in start.intents && 2 in start.intents && start.intents[1].priority > start.intents[2].priority
  {
    var holder := Intent(["sia"], 9, 0, 60, Active, 0, 0, 0, 0);
    var challenger := Intent(["sia"], 1, 1, 60, Pending, 0, 0, 0, 0);
    start, queue := Db(map["sia" := Host(Reserved, Some(1), Some(100))], map[1 := holder, 2 := challenger]), [2];
    assert Lower("sia") == "sia";
    assert Keys(["sia"]) == {"sia"} by { assert Lower(["sia"][0]) in Keys(["sia"]); }
    assert Owned(start.hosts, 1) == {"sia"} && Owned(start.hosts, 2) == {};
    assert PendingIds(start.intents) == {2};
    assert Challenges(start, env, queue, 2, "sia");
    PreemptsExactly(start, now, env, queue, 1, 2, "sia");
  }

  ghost predicate AllAvailable(hosts: Hosts, wanted: seq<string>) {
    wanted != [] && forall k :: k in Keys(wanted) ==> IsAvailable(hosts, k)
  }

  lemma AllAvailableExact(hosts: Hosts, wanted: seq<string>)
    ensures AllAvailable(hosts, wanted) <==> Grantable(hosts, SortedHostSet(wanted))
    ensures AllAvailable(hosts, wanted) <==> wanted != [] && Blocking(hosts, wanted) == {} && Keys(wanted) <= hosts.Keys
  {
    SortedHostSetExact(wanted);
    var set' := SortedHostSet(wanted);
    StrictIsDistinct(set');
    if wanted != [] { assert Lower(wanted[0]) in Keys(wanted); }
    if set' != [] { assert Lower(set'[0]) in Keys(set'); }
    if AllAvailable(hosts, wanted) {
      forall i | 0 <= i < |set'| ensures IsAvailable(hosts, Lower(set'[i])) { assert Lower(set'[i]) in Keys(set'); }
    }
    if wanted != [] && Blocking(hosts, wanted) == {} && Keys(wanted) <= hosts.Keys {
      forall k | k in Keys(wanted) ensures IsAvailable(hosts, k) { assert k !in Blocking(hosts, wanted); }
    }
  }

  /** Main result on grants: an entry is granted exactly if the write succeeds, every host of its set was available
      when the pass took its snapshot, and no entry before it, of the same or higher priority, took one of them. */
  lemma GrantsExactly(start: Db, now: int, env: Env, queue: seq<nat>, i: nat)
    requires ConsistentDb(start) && IsQueue(queue, start.intents) && i < |queue|
    ensures queue[i] in start.intents
    ensures GrantedTo(queue[i]) in WalkLog(start, now, env, queue)
       <==> && env.grant(queue[i]).Ok? && AllAvailable(start.hosts, start.intents[queue[i]].hosts)
            && forall j :: 0 <= j < i && Took(WalkLog(start, now, env, queue), queue[j]) ==>
                 queue[j] in start.intents && Keys(start.intents[queue[i]].hosts) !! Keys(start.intents[queue[j]].hosts)
    ensures forall j :: 0 <= j < i ==>
      queue[j] in start.intents && start.intents[queue[j]].priority >= start.intents[queue[i]].priority
  {
    var id, log, log' := queue[i], WalkLog(start, now, env, queue), WalkLog(start, now, env, queue[..i]);
    assert id in PendingIds(start.intents);
    WalkInPass(start, now, env, queue[..i]);
    WalkSplit(start, now, env, queue, i, GrantedTo(id));
    forall j | 0 <= j < i ensures queue[j] in start.intents && (Took(log, queue[j]) <==> Took(log', queue[j])) {
      assert queue[j] in PendingIds(start.intents);
      TookEarlier(start, now, env, queue, i, j);
    }
    TurnGrants(start, Walk(start, now, env, queue[..i]), log', env, id);
    forall x | Took(log', x) ensures exists j :: 0 <= j < i && queue[j] == x {
      assert EntryOf(GrantedTo(x)) == x && EntryOf(GrantFailed(x, true)) == x;
      assert x in queue[..i];
    }
  }

  /** What an entry took does not depend on the entries behind it. */
  lemma TookEarlier(start: Db, now: int, env: Env, queue: seq<nat>, i: nat, j: nat)
    requires ConsistentDb(start) && Distinct(queue) && j < i < |queue|
    ensures Took(WalkLog(start, now, env, queue), queue[j]) <==> Took(WalkLog(start, now, env, queue[..i]), queue[j])
  {
    assert queue[..i][..j] == queue[..j];
    WalkSplit(start, now, env, queue, j, GrantedTo(queue[j]));
    WalkSplit(start, now, env, queue, j, GrantFailed(queue[j], true));
    WalkSplit(start, now, env, queue[..i], j, GrantedTo(queue[j]));
    WalkSplit(start, now, env, queue[..i], j, GrantFailed(queue[j], true));
  }

  lemma TurnGrants(start: Db, db: Db, log: seq<PassEvent>, env: Env, id: nat)
    requires InPass(start, db, log, env) && id in start.intents
    ensures GrantedTo(id) in TurnLog(db, start.hosts, env, id)
       <==> && env.grant(id).Ok? && AllAvailable(start.hosts, start.intents[id].hosts)
            && forall x :: Took(log, x) && x in start.intents ==> Keys(start.intents[id].hosts) !! Keys(start.intents[x].hosts)
  {
    var hosts := db.intents[id].hosts;
    AllAvailableExact(start.hosts, hosts);
    if Blocking(start.hosts, hosts) == {} {
      SortedHostSetExact(hosts);
      StrictIsDistinct(SortedHostSet(hosts));
      AllAvailableExact(db.hosts, hosts);
      if hosts != [] {
        assert Lower(hosts[0]) in Keys(SortedHostSet(hosts));
        GrantableNow(start, db, log, env, SortedHostSet(hosts));
      }
    } else {
      BlockedTakesNothing(db, start.hosts, env, id, id);
    }
  }

  // ----- Leases

  /** Some host of the intent has a lease that ended before `now`. */
  ghost predicate LeaseOver(hosts: Hosts, id: nat, now: int) {
    exists k :: k in hosts && hosts[k].owner == Some(id) && hosts[k].expiresAt.Some? && hosts[k].expiresAt.value < now
  }

  lemma ExpiredExact(hosts: Hosts, now: int, id: nat)
    ensures id in ExpiredOwners(hosts, now) <==> LeaseOver(hosts, id, now)
  {
    if LeaseOver(hosts, id, now) {
      var k :| k in hosts && hosts[k].owner == Some(id) && hosts[k].expiresAt.Some? && hosts[k].expiresAt.value < now;
      assert hosts[k].owner.value == id;
    }
  }

  /** The state of the tables between the two halves of a pass. */
  ghost function Halfway(before: Db, env: Env, t: Trace): Db {
    if t.handled <= |t.expired| then Reaped(before, env, t.expired[..t.handled]) else before
  }

  /** Main result on leases: an intent none of whose leases has ended keeps its row and its hosts through the reaping
      half of a pass; one of whose leases has ended loses all its hosts if its row and those read before it can be
      read and the write that frees them is applied. A pass that fails in between stops there. */
  lemma LeasesExactly(before: Db, after: Db, now: int, env: Env, t: Trace, id: nat)
    requires ConsistentDb(before) && PassOf(before, after, now, env, t) && env.expiredQuery && id in before.intents
    ensures id in Halfway(before, env, t).intents
    ensures !LeaseOver(before.hosts, id, now) ==>
      && Halfway(before, env, t).intents[id] == before.intents[id]
      && Owned(Halfway(before, env, t).hosts, id) == Owned(before.hosts, id)
    ensures LeaseOver(before.hosts, id, now) ==> exists i :: 0 <= i < |t.expired| && t.expired[i] == id
    ensures env.release(id, Expiry).free != Refused ==>
      forall i :: 0 <= i < |t.expired| && t.expired[i] == id && (forall j :: 0 <= j <= i ==> env.expiredRead(t.expired[j])) ==>
        Owned(Halfway(before, env, t).hosts, id) == {}
    ensures !t.ok ==> after == Halfway(before, env, t)
  {
    ExpiredExact(before.hosts, now, id);
    assert id in t.expired <==> id in ExpiredOwners(before.hosts, now);
    var done := t.expired[..t.handled];
    ReapedExact(before, env, done, id);
    forall i | 0 <= i < |t.expired| && t.expired[i] == id && (forall j :: 0 <= j <= i ==> env.expiredRead(t.expired[j]))
      ensures id in done
    {
      assert i < t.handled;
      assert done[i] == id;
    }
  }

  /** A host that an entry took carries that entry's lease to the end of the pass: one second at least, otherwise the
      seconds it asked for. */
  lemma {:induction false} LeaseLength(start: Db, now: int, env: Env, queue: seq<nat>, x: nat, k: string)
    requires ConsistentDb(start) && Distinct(queue) && x in start.intents && k in Keys(start.intents[x].hosts)
    requires Took(WalkLog(start, now, env, queue), x)
    ensures k in Walk(start, now, env, queue).hosts
    ensures var secs := start.intents[x].requestedSecs;
            Walk(start, now, env, queue).hosts[k] == Host(Reserved, Some(x), Some(if secs <= 1 then now + 1 else now + secs))
  {
    var init, id := queue[..|queue| - 1], queue[|queue| - 1];
    var more := TurnLog(Walk(start, now, env, init), start.hosts, env, id);
    TookMore(WalkLog(start, now, env, init), more, x);
    RequestStays(start, now, env, init, x);
    if Took(WalkLog(start, now, env, init), x) {
      LeaseLength(start, now, env, init, x, k);
      LastTurnKeepsLease(start, now, env, queue, x, k);
    } else {
      TurnSetsLease(Walk(start, now, env, init), start.hosts, now, env, id, x, k);
    }
  }

  lemma RequestStays(start: Db, now: int, env: Env, queue: seq<nat>, x: nat)
    requires ConsistentDb(start) && Distinct(queue) && x in start.intents
    ensures ConsistentDb(Walk(start, now, env, queue)) && x in Walk(start, now, env, queue).intents
    ensures var row := Walk(start, now, env, queue).intents[x];
            row.requestedSecs == start.intents[x].requestedSecs && row.hosts == start.intents[x].hosts
  {
    WalkInPass(start, now, env, queue);
    assert RowInPass(start, Walk(start, now, env, queue), WalkLog(start, now, env, queue), env, x);
  }

  lemma LastTurnKeepsLease(start: Db, now: int, env: Env, queue: seq<nat>, x: nat, k: string)
    requires ConsistentDb(start) && Distinct(queue) && queue != []
    requires Took(WalkLog(start, now, env, queue[..|queue| - 1]), x)
    requires var db := Walk(start, now, env, queue[..|queue| - 1]); k in db.hosts && db.hosts[k].owner == Some(x) && db.hosts[k].state.Reserved?
    ensures k in Walk(start, now, env, queue).hosts
    ensures Walk(start, now, env, queue).hosts[k] == Walk(start, now, env, queue[..|queue| - 1]).hosts[k]
  {
    var init := queue[..|queue| - 1];
    WalkInPass(start, now, env, init);
    TurnKeepsLease(start, Walk(start, now, env, init), WalkLog(start, now, env, init), now, env, queue[|queue| - 1], x, k);
  }

  lemma TurnKeepsLease(start: Db, db: Db, log: seq<PassEvent>, now: int, env: Env, id: nat, x: nat, k: string)
    requires InPass(start, db, log, env) && Took(log, x) && k in db.hosts
    requires db.hosts[k].owner == Some(x) && db.hosts[k].state.Reserved?
    ensures var db' := AfterTurn(db, start.hosts, now, env, id); k in db'.hosts && db'.hosts[k] == db.hosts[k]
  {
    if id in db.intents && Blocking(start.hosts, db.intents[id].hosts) == {} {
      GrantKeepsLease(db, now, env, id, k);
    } else {
      PreemptKeepsLease(start, db, log, now, env, id, x, k);
    }
  }

  lemma GrantKeepsLease(db: Db, now: int, env: Env, id: nat, k: string)
    requires id in db.intents && k in db.hosts && db.hosts[k].state.Reserved?
    ensures var db' := AfterGrant(db, now, env, id); k in db'.hosts && db'.hosts[k] == db.hosts[k]
  {
    var wanted := SortedHostSet(db.intents[id].hosts);
    forall h | h in Keys(wanted) && Grantable(db.hosts, wanted) ensures IsAvailable(db.hosts, h) {
      var i :| 0 <= i < |wanted| && Lower(wanted[i]) == h;
      assert IsAvailable(db.hosts, Lower(wanted[i]));
    }
  }

  lemma PreemptKeepsLease(start: Db, db: Db, log: seq<PassEvent>, now: int, env: Env, id: nat, x: nat, k: string)
    requires InPass(start, db, log, env) && Took(log, x) && k in db.hosts && db.hosts[k].owner == Some(x)
    requires id in db.intents ==> Blocking(start.hosts, db.intents[id].hosts) != {}
    ensures var db' := AfterTurn(db, start.hosts, now, env, id); k in db'.hosts && db'.hosts[k] == db.hosts[k]
  {
    if id in db.intents { PreemptLoosens(db, start.hosts, env, id, SortedHostSet(db.intents[id].hosts)); }
  }

  lemma TurnSetsLease(db: Db, snapshot: Hosts, now: int, env: Env, id: nat, x: nat, k: string)
    requires ConsistentDb(db) && x in db.intents && k in Keys(db.intents[x].hosts) && Took(TurnLog(db, snapshot, env, id), x)
    ensures var db', secs := AfterTurn(db, snapshot, now, env, id), db.intents[x].requestedSecs;
            k in db'.hosts && db'.hosts[k] == Host(Reserved, Some(x), Some(if secs <= 1 then now + 1 else now + secs))
  {
    if Blocking(snapshot, db.intents[id].hosts) != {} {
      BlockedTakesNothing(db, snapshot, env, id, x);
    } else {
      assert x == id;
      GrantKeeps(db.hosts, db.intents, id, LeaseEnd(db.intents[id], now));
    }
  }

  // ----- Prework and later passes

  /** Main result on prework: in one pass the prework of an intent goes further exactly if the pass granted the
      intent and the first thing left to do got done. A grant is made only to an intent that was pending and
      owned nothing; without one, cursor and plan stay and the state can only become that of a release. */
  lemma PreworkOnlyWithGrant(start: Db, now: int, env: Env, queue: seq<nat>, x: nat)
    requires ConsistentDb(start) && IsQueue(queue, start.intents) && x in start.intents
    ensures x in Walk(start, now, env, queue).intents
    ensures var row, row', log := start.intents[x], Walk(start, now, env, queue).intents[x], WalkLog(start, now, env, queue);
            && (GrantedTo(x) in log ==>
                  row.state.Pending? && Owned(start.hosts, x) == {} && row' == AfterGranted(row, env.prework(x)))
            && (GrantedTo(x) !in log ==> OnlyReleased(row, row'))
            && (Advanced(row, row') <==> GrantedTo(x) in log && FirstGetsDone(row, env.prework(x)))
  {
    WalkInPass(start, now, env, queue);
    var row, log := start.intents[x], WalkLog(start, now, env, queue);
    assert RowInPass(start, Walk(start, now, env, queue), log, env, x);
    if GrantedTo(x) in log {
      assert EntryOf(GrantedTo(x)) == x;
      assert x in PendingIds(start.intents);
      PreworkExact(row, env.prework(x));
      assert Took(log, x);
    }
  }

  ghost predicate AdvancesIn(start: Db, now: int, env: Env, queue: seq<nat>, id: nat) {
    id in start.intents && id in Walk(start, now, env, queue).intents
    && Advanced(start.intents[id], Walk(start, now, env, queue).intents[id])
  }

  /** When prework can go on at all: for a given state when a pass reads its queue, some course of the pass takes it
      further if and only if the intent is pending and its whole set is available. An intent left `granted` by a failed step, and one that already owns its hosts, is never
      resumed. */
  lemma ResumesExactly(start: Db, queue: seq<nat>, id: nat)
    requires ConsistentDb(start) && IsQueue(queue, start.intents) && id in start.intents
    ensures (exists now, env :: AdvancesIn(start, now, env, queue, id))
       <==> start.intents[id].state.Pending? && AllAvailable(start.hosts, start.intents[id].hosts)
  {
    forall now, env | AdvancesIn(start, now, env, queue, id)
      ensures start.intents[id].state.Pending? && AllAvailable(start.hosts, start.intents[id].hosts)
    {
      PreworkOnlyWithGrant(start, now, env, queue, id);
      assert id in PendingIds(start.intents);
      var i :| 0 <= i < |queue| && queue[i] == id;
      GrantsExactly(start, now, env, queue, i);
    }
    if start.intents[id].state.Pending? && AllAvailable(start.hosts, start.intents[id].hosts) {
      var env := GrantOnly(id);
      assert id in PendingIds(start.intents);
      var i :| 0 <= i < |queue| && queue[i] == id;
      OthersTakeNothing(start, 0, queue, id, i);
      GrantsExactly(start, 0, env, queue, i);
      PreworkOnlyWithGrant(start, 0, env, queue, id);
      assert AdvancesIn(start, 0, env, queue, id);
    }
  }

  /** Every grant fails but that of `id`, and everything else goes well. */
  function GrantOnly(id: nat): Env {
    Env(true, _ => true, true, true, (_, _) => true, (_, _) => true, x => if x == id then Ok else Refused,
        _ => PreworkFates(Ok, _ => true, _ => Ok, Ok), (_, _) => ReleaseFates(Ok, _ => true, _ => Ok, Ok, Ok))
  }

  lemma OthersTakeNothing(start: Db, now: int, queue: seq<nat>, id: nat, i: nat)
    requires ConsistentDb(start) && Distinct(queue) && i < |queue| && queue[i] == id
    ensures forall j :: 0 <= j < i ==> !Took(WalkLog(start, now, GrantOnly(id), queue), queue[j])
  {
    var env := GrantOnly(id);
    forall j | 0 <= j < i ensures !Took(WalkLog(start, now, env, queue), queue[j]) {
      var db, x := Walk(start, now, env, queue[..j]), queue[j];
      WalkSplit(start, now, env, queue, j, GrantedTo(x));
      WalkSplit(start, now, env, queue, j, GrantFailed(x, true));
      if x in db.intents && Blocking(start.hosts, db.intents[x].hosts) != {} { BlockedTakesNothing(db, start.hosts, env, x, x); }
    }
  }

  /** A grant whose call ended before it wrote the state leaves the intent pending with its hosts. From then on the
      intent blocks itself, and its own turn releases it exactly if its priority is positive, every read of that
      priority fails and one of the second reads of its row does not. */
  lemma SelfBlockedExactly(start: Db, now: int, env: Env, queue: seq<nat>, id: nat)
    requires ConsistentDb(start) && IsQueue(queue, start.intents) && id in queue && id in start.intents
    requires Owned(start.hosts, id) == Keys(start.intents[id].hosts) != {}
    ensures GrantedTo(id) !in WalkLog(start, now, env, queue)
    ensures (exists k :: Preempted(id, id, k) in WalkLog(start, now, env, queue))
       <==> && start.intents[id].priority > 0
            && (forall k :: k in Keys(start.intents[id].hosts) ==> !env.priorityRead(id, k))
            && (exists k :: k in Keys(start.intents[id].hosts) && env.holderRead(id, k))
  {
    var keys := Keys(start.intents[id].hosts);
    SelfOutranks(start, env, id);
    WalkInPass(start, now, env, queue);
    assert GrantedTo(id) in WalkLog(start, now, env, queue) ==> Took(WalkLog(start, now, env, queue), id);
    forall k ensures Preempted(id, id, k) in WalkLog(start, now, env, queue)
                <==> k in keys && env.holderRead(id, k) && OutranksAsRead(start.intents, start.hosts, env, id)
    {
      PreemptsExactly(start, now, env, queue, id, id, k);
      ChallengesExact(start, env, queue, id, k);
      if k in keys { assert k in Owned(start.hosts, id); }
    }
  }

  lemma SelfOutranks(start: Db, env: Env, id: nat)
    requires ConsistentDb(start) && id in start.intents && Owned(start.hosts, id) == Keys(start.intents[id].hosts) != {}
    ensures Blocking(start.hosts, start.intents[id].hosts) == Keys(start.intents[id].hosts)
    ensures OutranksAsRead(start.intents, start.hosts, env, id)
       <==> start.intents[id].priority > 0 && forall k :: k in Keys(start.intents[id].hosts) ==> !env.priorityRead(id, k)
  {
    var keys, row := Keys(start.intents[id].hosts), start.intents[id];
    forall k | k in keys
      ensures k in Blocking(start.hosts, row.hosts)
      ensures PriorityAsRead(start.intents, start.hosts, env, id, k) == if env.priorityRead(id, k) then row.priority else 0
    {
      assert k in Owned(start.hosts, id);
    }
    assert Blocking(start.hosts, row.hosts) == keys;
    var k :| k in keys;
    assert k in Blocking(start.hosts, row.hosts);
  }

  lemma ReleaseExact(db: Db, id: nat, f: ReleaseFates, x: nat)
    requires ConsistentDb(db)
    ensures var db' := AfterRelease(db, id, f);
            && ConsistentDb(db') && SameRequests(db.intents, db'.intents) && db'.hosts.Keys == db.hosts.Keys
            && Owned(db'.hosts, x) == (if x == id && x in db.intents && f.free.Applies() then {} else Owned(db.hosts, x))
            && (x in db.intents ==> db'.intents[x] == if x == id then AfterRestore(db.intents[x], f) else db.intents[x])
  {
    if id in db.intents {
      var db' := AfterRelease(db, id, f);
      ReleaseKeeps(db.hosts, db.intents, id);
      ConsistentSameRequests(db'.hosts, db.intents, db'.intents);
    }
  }

  /** What the reaping half does: the owner of an expired lease loses its hosts exactly if the write that frees them
      is applied, and nobody else is touched. */
  lemma {:induction false} ReapedExact(db: Db, env: Env, expired: seq<nat>, x: nat)
    requires ConsistentDb(db) && Distinct(expired)
    ensures var db' := Reaped(db, env, expired);
            && ConsistentDb(db') && SameRequests(db.intents, db'.intents) && db'.hosts.Keys == db.hosts.Keys
            && Owned(db'.hosts, x) == (if x in expired && x in db.intents && env.release(x, Expiry).free.Applies() then {} else Owned(db.hosts, x))
            && (x in db.intents ==> db'.intents[x] == if x in expired then AfterRestore(db.intents[x], env.release(x, Expiry)) else db.intents[x])
  {
    if expired != [] {
      var init, id := expired[..|expired| - 1], expired[|expired| - 1];
      var before := Reaped(db, env, init);
      assert expired == init + [id] && id !in init;
      ReapedExact(db, env, init, x);
      ReleaseExact(before, id, env.release(id, Expiry), x);
    }
  }

  /** Every intent owns its whole set or nothing after a pass, whatever failed. */
  lemma PassKeeps(before: Db, after: Db, now: int, env: Env, t: Trace)
    requires ConsistentDb(before) && PassOf(before, after, now, env, t)
    ensures ConsistentDb(after) && SameRequests(before.intents, after.intents)
  {
    if env.expiredQuery {
      var handled := t.expired[..t.handled];
      ReapedExact(before, env, handled, 0);
      if t.ok { WalkInPass(Reaped(before, env, handled), now, env, t.queue); }
    }
  }

  /** An intent that is not pending keeps its prework as it is through a pass. */
  lemma NotPendingNotResumed(before: Db, after: Db, now: int, env: Env, t: Trace, id: nat)
    requires ConsistentDb(before) && PassOf(before, after, now, env, t) && id in before.intents && !before.intents[id].state.Pending?
    ensures id in after.intents && OnlyReleased(before.intents[id], after.intents[id])
  {
    if env.expiredQuery {
      var handled := t.expired[..t.handled];
      ReapedExact(before, env, handled, id);
      if t.ok { PreworkOnlyWithGrant(Reaped(before, env, handled), now, env, t.queue, id); }
    }
  }

  datatype PassRun = PassRun(now: int, env: Env, trace: Trace)

  ghost predicate Passes(states: seq<Db>, runs: seq<PassRun>) {
    |states| == |runs| + 1
    && forall i :: 0 <= i < |runs| ==> PassOf(states[i], states[i + 1], runs[i].now, runs[i].env, runs[i].trace)
  }

  /** Over any number of passes, with failures anywhere, an intent that is not pending never runs another prework
      step and never becomes active: a plan that stopped half-way stays there until the intent is released. */
  lemma {:induction false} NeverResumed(states: seq<Db>, runs: seq<PassRun>, id: nat, n: nat)
    requires Passes(states, runs) && n < |states|
    requires ConsistentDb(states[0]) && id in states[0].intents && !states[0].intents[id].state.Pending?
    ensures ConsistentDb(states[n]) && id in states[n].intents && OnlyReleased(states[0].intents[id], states[n].intents[id])
  {
    if n > 0 {
      var i := n - 1;
      NeverResumed(states, runs, id, i);
      PassKeeps(states[i], states[i + 1], runs[i].now, runs[i].env, runs[i].trace);
      NotPendingNotResumed(states[i], states[i + 1], runs[i].now, runs[i].env, runs[i].trace, id);
    }
  }

  // ----- Who has lost his hosts

  /** Some release of `x` in the pass freed its hosts. */
  ghost predicate Freed(log: seq<PassEvent>, env: Env, x: nat) {
    exists e :: e in log && e.Preempted? && e.holder == x && env.release(x, Preemption(e.challenger, e.host)).free.Applies()
  }

  lemma FreedMore(log: seq<PassEvent>, more: seq<PassEvent>, env: Env, x: nat)
    ensures Freed(log + more, env, x) <==> Freed(log, env, x) || Freed(more, env, x)
  {}

  lemma {:induction false} PreemptFrees(db: Db, snapshot: Hosts, env: Env, id: nat, wanted: seq<string>, x: nat)
    requires ConsistentDb(db)
    ensures Owned(AfterPreempt(db, snapshot, env, id, wanted).hosts, x)
         == if Freed(PreemptLog(db.intents, snapshot, env, id, wanted), env, x) then {} else Owned(db.hosts, x)
  {
    if wanted != [] {
      var init, k := wanted[..|wanted| - 1], Lower(wanted[|wanted| - 1]);
      PreemptFrees(db, snapshot, env, id, init, x);
      PreemptLoosens(db, snapshot, env, id, init);
      if Releasable(db.intents, snapshot, env, id, k) {
        var before, holder := AfterPreempt(db, snapshot, env, id, init), snapshot[k].owner.value;
        var e := Preempted(holder, id, k);
        ReleaseKeeps(before.hosts, before.intents, holder);
        FreedMore(PreemptLog(db.intents, snapshot, env, id, init), [e], env, x);
        assert e in [e];
      }
    }
  }

  lemma TurnFrees(start: Db, db: Db, log: seq<PassEvent>, now: int, env: Env, id: nat, x: nat)
    requires InPass(start, db, log, env) && Owned(start.hosts, x) != {}
    ensures Owned(AfterTurn(db, start.hosts, now, env, id).hosts, x)
         == if Freed(TurnLog(db, start.hosts, env, id), env, x) then {} else Owned(db.hosts, x)
  {
    if id in db.intents {
      if Blocking(start.hosts, db.intents[id].hosts) == {} {
        GrantFreesNobody(start, db, log, now, env, id, x);
      } else {
        BlockedFrees(db, start.hosts, now, env, id, x);
      }
    }
  }

  lemma GrantFreesNobody(start: Db, db: Db, log: seq<PassEvent>, now: int, env: Env, id: nat, x: nat)
    requires InPass(start, db, log, env) && Owned(start.hosts, x) != {} && id in db.intents
    requires Blocking(start.hosts, db.intents[id].hosts) == {}
    ensures Owned(AfterGrant(db, now, env, id).hosts, x) == Owned(db.hosts, x) && !Freed([GrantEvent(db, env, id)], env, x)
  {
    if !env.grant(id).Refused? && Grantable(db.hosts, SortedHostSet(db.intents[id].hosts)) { GrantTakes(start, db, log, now, env, id); }
  }

  lemma BlockedFrees(db: Db, snapshot: Hosts, now: int, env: Env, id: nat, x: nat)
    requires ConsistentDb(db) && id in db.intents && Blocking(snapshot, db.intents[id].hosts) != {}
    ensures Owned(AfterTurn(db, snapshot, now, env, id).hosts, x)
         == if Freed(TurnLog(db, snapshot, env, id), env, x) then {} else Owned(db.hosts, x)
  {
    var wanted := SortedHostSet(db.intents[id].hosts);
    PreemptFrees(db, snapshot, env, id, wanted, x);
    FreedMore(PreemptLog(db.intents, snapshot, env, id, wanted), [Queued(id)], env, x);
    FreedMore([], [Queued(id)], env, x);
  }

  /** Who owns what after a walk: a holder of the snapshot has lost its set exactly if one of its releases in the
      pass freed it, and keeps all of it otherwise; everybody else owns the set the pass took for him, or nothing. */
  lemma {:induction false} OwnersExactly(start: Db, now: int, env: Env, queue: seq<nat>, x: nat)
    requires ConsistentDb(start) && Distinct(queue)
    ensures var owned, log := Owned(Walk(start, now, env, queue).hosts, x), WalkLog(start, now, env, queue);
            owned == if Owned(start.hosts, x) == {} then Taken(start.intents, log, x)
                     else if Freed(log, env, x) then {} else Owned(start.hosts, x)
  {
    WalkInPass(start, now, env, queue);
    if queue != [] && Owned(start.hosts, x) != {} {
      var init, id := queue[..|queue| - 1], queue[|queue| - 1];
      OwnersExactly(start, now, env, init, x);
      WalkInPass(start, now, env, init);
      var db, log := Walk(start, now, env, init), WalkLog(start, now, env, init);
      TurnFrees(start, db, log, now, env, id, x);
      FreedMore(log, TurnLog(db, start.hosts, env, id), env, x);
    }
  }

  // ----- The statements and the pass as methods

  class ArbiterDb {
    var hosts: Hosts
    var intents: Intents

    ghost function Contents(): Db
      reads this
    {
      Db(hosts, intents)
    }

    /** `pg_arbiter_grant_set`: one transaction, host by host, rolled back at the first host that is not
        available. */
    method GrantSet(id: nat, wanted: seq<string>, expires: int) returns (won: bool)
      modifies this`hosts
      ensures won == old(Grantable(hosts, wanted))
      ensures hosts == if won then old(Grant(hosts, id, wanted, expires)) else old(hosts)
    {
      if wanted == [] { return false; }
      var tx := hosts;
      for i := 0 to |wanted|
        invariant hosts == old(hosts)
        invariant forall j :: 0 <= j < i ==> IsAvailable(hosts, Lower(wanted[j]))
        invariant forall j, l :: 0 <= j < l < i ==> Lower(wanted[j]) != Lower(wanted[l])
        invariant tx == Grant(hosts, id, wanted[..i], expires)
      {
        var key := Lower(wanted[i]);
        KeysTake(wanted, i);
        if key !in tx || !tx[key].state.Available? {
          NotGrantable(hosts, id, wanted, i, expires);
          return false;
        }
        assert key !in Keys(wanted[..i]);
        tx := tx[key := Host(Reserved, Some(id), Some(expires))];
      }
      assert wanted[..|wanted|] == wanted;
      hosts := tx;
      won := true;
    }

    /** `pg_arbiter_free_set`. */
    method FreeSet(id: nat)
      modifies this`hosts
      ensures hosts == old(Release(hosts, id))
    {
      hosts := map k | k in hosts :: if hosts[k].owner == Some(id) then Host(Available, None, None) else hosts[k];
    }

    /** `pg_set_work_intent_state`. */
    method SetState(id: nat, state: IntentState, fate: Fate)
      requires id in intents
      modifies this`intents
      ensures intents == old(intents)[id := Written(old(intents)[id], state, fate)]
    {
      if fate.Applies() { intents := intents[id := intents[id].(state := state)]; }
    }

    /** `run_prework` of a granted intent. A step that fails and a cursor that is not saved end it. */
    method RunPrework(id: nat, mode: Mode, f: PreworkFates)
      requires id in intents
      modifies this`intents
      ensures intents == if mode.Actuate? then old(intents)[id := AfterPrework(old(intents)[id], f)] else old(intents)
    {
      var row := intents[id];
      var cursor, n := Start(row.preworkCursor), row.preworkSteps;
      ghost var first := cursor;
      while cursor < n
        invariant first <= cursor && (first < n ==> cursor <= n) && (first >= n ==> cursor == first)
        invariant mode.Actuate? && first < n ==> StopAt(f, first, n) == StopAt(f, cursor, n)
        invariant intents == if mode.Actuate? && cursor > first then old(intents)[id := row.(preworkCursor := cursor)] else old(intents)
        decreases n as int - cursor
      {
        if mode.Actuate? {
          if !f.step(cursor) { return; }
          var saved := f.save(cursor);
          cursor := cursor + 1;
          if saved.Applies() { intents := intents[id := intents[id].(preworkCursor := cursor)]; }
          if !saved.Ok? { return; }
        } else {
          cursor := cursor + 1;
        }
      }
      if mode.Actuate? { SetState(id, Active, f.active); }
    }

    /** `release_intent`: every remaining restore step is attempted, whether or not it succeeds and its cursor is
        saved, and only then is the host set freed. */
    method ReleaseIntent(id: nat, mode: Mode, f: ReleaseFates) returns (tried: seq<nat>)
      requires id in intents
      modifies this
      ensures !mode.Actuate? ==> Contents() == old(Contents()) && tried == []
      ensures mode.Actuate? ==>
        && Contents() == AfterRelease(old(Contents()), id, f)
        && tried == Range(Start(old(intents)[id].restoreCursor), old(intents)[id].restoreSteps)
    {
      tried := [];
      if !mode.Actuate? { return; }
      var row := intents[id];
      SetState(id, Releasing, f.releasing);
      var cursor, n := Start(row.restoreCursor), row.restoreSteps;
      ghost var first, marked := cursor, Written(row, Releasing, f.releasing);
      while cursor < n
        invariant first <= cursor && (first < n ==> cursor <= n) && (first >= n ==> cursor == first)
        invariant hosts == old(hosts)
        invariant intents == old(intents)[id := marked.(restoreCursor := SavedCursor(f.save, first, cursor, row.restoreCursor))]
        invariant tried == Range(first, cursor)
        decreases n as int - cursor
      {
        // The step runs; its outcome does not matter.
        tried := tried + [cursor];
        var ok := f.step(cursor);
        var saved := f.save(cursor);
        cursor := cursor + 1;
        if saved.Applies() { intents := intents[id := intents[id].(restoreCursor := cursor)]; }
      }
      if f.free.Applies() { FreeSet(id); }
      SetState(id, Done, f.done);
    }

    /** The reaping half of a pass; a row that cannot be read ends it. */
    method ReapExpired(mode: Mode, now: int, env: Env) returns (expired: seq<nat>, handled: nat)
      modifies this
      ensures Lists(expired, old(ExpiredOwners(hosts, now))) && ReapedUpTo(env, expired, handled)
      ensures Contents() == if mode.Actuate? then Reaped(old(Contents()), env, expired[..handled]) else old(Contents())
    {
      expired := Listed(ExpiredOwners(hosts, now));
      handled := 0;
      while handled < |expired|
        invariant handled <= |expired| && forall i :: 0 <= i < handled ==> env.expiredRead(expired[i])
        invariant Contents() == if mode.Actuate? then Reaped(old(Contents()), env, expired[..handled]) else old(Contents())
      {
        var id := expired[handled];
        if !env.expiredRead(id) { return; }
        assert expired[..handled + 1][..handled] == expired[..handled];
        if id in intents { var tried := ReleaseIntent(id, mode, env.release(id, Expiry)); }
        handled := handled + 1;
      }
    }

    /** `pg_pending_work_intents`. */
    method ReadPending() returns (queue: seq<nat>)
      ensures IsQueue(queue, intents)
      ensures forall i, j :: 0 <= i < j < |queue| ==>
        && queue[i] in intents && queue[j] in intents && intents[queue[i]].priority >= intents[queue[j]].priority
        && (intents[queue[i]].priority == intents[queue[j]].priority ==> intents[queue[i]].createdAt <= intents[queue[j]].createdAt)
    {
      queue := [];
      var left := PendingIds(intents);
      while left != {}
        invariant left <= PendingIds(intents) && Lists(queue, PendingIds(intents) - left) && InQueueOrder(queue, intents)
        invariant forall i, x :: 0 <= i < |queue| && x in left ==> queue[i] in intents && Precedes(intents[queue[i]], intents[x])
        decreases |left|
      {
        var first := FirstOf(left);
        left := left - {first};
        queue := queue + [first];
      }
      forall i | 0 <= i < |queue| ensures queue[i] in PendingIds(intents) { assert queue[i] in queue; }
    }

    /** The first pending intent of a set in queue order. */
    method FirstOf(ids: set<nat>) returns (first: nat)
      requires ids != {} && ids <= PendingIds(intents)
      ensures first in ids && forall x :: x in ids ==> Precedes(intents[first], intents[x])
    {
      first :| first in ids;
      var left := ids - {first};
      while left != {}
        invariant left <= ids && first in ids
        invariant forall x :: x in ids && x !in left ==> Precedes(intents[first], intents[x])
        decreases |left|
      {
        var x :| x in left;
        if !Precedes(intents[first], intents[x]) { first := x; }
        left := left - {x};
      }
    }

    /** Whether every holder of a blocking host is outranked, as far as the reads tell; the first one that is not
        ends the loop. */
    method CanPreempt(id: nat, wanted: seq<string>, snapshot: Hosts, env: Env) returns (can: bool)
      requires id in intents && wanted == SortedHostSet(intents[id].hosts)
      ensures can == OutranksAsRead(intents, snapshot, env, id)
    {
      SortedHostSetExact(intents[id].hosts);
      for i := 0 to |wanted|
        invariant forall k :: k in Keys(wanted[..i]) && k in Blocking(snapshot, wanted) ==>
          PriorityAsRead(intents, snapshot, env, id, k) < intents[id].priority
      {
        var k := Lower(wanted[i]);
        KeysTake(wanted, i);
        if k in snapshot && !snapshot[k].state.Available? {
          assert k in Blocking(snapshot, intents[id].hosts);
          if intents[id].priority <= PriorityAsRead(intents, snapshot, env, id, k) { return false; }
        }
      }
      assert wanted[..|wanted|] == wanted;
      can := true;
    }

    /** Release the holders of the blocking hosts, in the order of the hosts. */
    method Preempt(id: nat, wanted: seq<string>, snapshot: Hosts, env: Env) returns (log: seq<PassEvent>)
      modifies this
      ensures Contents() == AfterPreempt(old(Contents()), snapshot, env, id, wanted)
      ensures log == PreemptLog(old(intents), snapshot, env, id, wanted)
    {
      log := [];
      for i := 0 to |wanted|
        invariant intents.Keys == old(intents.Keys)
        invariant Contents() == AfterPreempt(old(Contents()), snapshot, env, id, wanted[..i])
        invariant log == PreemptLog(old(intents), snapshot, env, id, wanted[..i])
      {
        var k := Lower(wanted[i]);
        assert wanted[..i + 1][..i] == wanted[..i];
        if k in snapshot && !snapshot[k].state.Available? && snapshot[k].owner.Some? {
          var holder := snapshot[k].owner.value;
          if env.holderRead(id, k) && holder in intents {
            var tried := ReleaseIntent(holder, Actuate, env.release(holder, Preemption(id, k)));
            log := log + [Preempted(holder, id, k)];
          }
        }
      }
      assert wanted[..|wanted|] == wanted;
    }

    /** The grant of an intent that nothing in the snapshot blocks. */
    method TryGrant(id: nat, now: int, env: Env) returns (e: PassEvent)
      requires id in intents
      modifies this
      ensures Contents() == AfterGrant(old(Contents()), now, env, id)
      ensures e == GrantEvent(old(Contents()), env, id)
    {
      var fate := env.grant(id);
      if fate.Refused? { return GrantFailed(id, false); }
      var won := GrantSet(id, SortedHostSet(intents[id].hosts), LeaseEnd(intents[id], now));
      if fate.Lost? { return GrantFailed(id, won); }
      if !won { return Queued(id); }
      SetState(id, Granted, env.prework(id).granted);
      RunPrework(id, Actuate, env.prework(id));
      e := GrantedTo(id);
    }

    /** One entry of the queue. */
    method TryIntent(id: nat, mode: Mode, snapshot: Hosts, now: int, env: Env) returns (log: seq<PassEvent>)
      requires id in intents
      modifies this
      ensures !mode.Actuate? ==> Contents() == old(Contents())
      ensures mode.Actuate? ==>
        && Contents() == AfterTurn(old(Contents()), snapshot, now, env, id)
        && log == TurnLog(old(Contents()), snapshot, env, id)
    {
      log := [];
      var wanted := SortedHostSet(intents[id].hosts);
      if Blocking(snapshot, intents[id].hosts) != {} {
        var can := CanPreempt(id, wanted, snapshot, env);
        if can && mode.Actuate? { log := Preempt(id, wanted, snapshot, env); }
        log := log + [Queued(id)];
      } else if mode.Actuate? {
        var e := TryGrant(id, now, env);
        log := [e];
      }
    }

    /** The walk over the queue. */
    method WalkQueue(mode: Mode, now: int, queue: seq<nat>, env: Env) returns (log: seq<PassEvent>)
      requires Consistent(hosts, intents) && Distinct(queue) && forall i :: 0 <= i < |queue| ==> queue[i] in intents
      modifies this
      ensures !mode.Actuate? ==> Contents() == old(Contents())
      ensures mode.Actuate? ==>
        && Contents() == Walk(old(Contents()), now, env, queue) && log == WalkLog(old(Contents()), now, env, queue)
    {
      log := [];
      var snapshot := hosts;
      for i := 0 to |queue|
        invariant intents.Keys == old(intents.Keys)
        invariant !mode.Actuate? ==> Contents() == old(Contents())
        invariant mode.Actuate? ==>
          Contents() == Walk(old(Contents()), now, env, queue[..i]) && log == WalkLog(old(Contents()), now, env, queue[..i])
      {
        WalkStep(old(Contents()), now, env, queue, i);
        var more := TryIntent(queue[i], mode, snapshot, now, env);
        log := log + more;
      }
      assert queue[..|queue|] == queue;
    }

    /** `arbiter_pass`. Off and dry-run change nothing. An active pass is one the laws above are about, and keeps
        every intent at its whole set or nothing, whichever reads, writes and steps failed. */
    method ArbiterPass(mode: Mode, now: int, env: Env) returns (t: Trace)
      requires Consistent(hosts, intents)
      modifies this
      ensures Consistent(hosts, intents) && SameRequests(old(intents), intents)
      ensures !mode.Actuate? ==> Contents() == old(Contents())
      ensures mode.Actuate? ==> PassOf(old(Contents()), Contents(), now, env, t)
    {
      t := Trace(mode.Off?, [], 0, [], []);
      if mode.Off? || !env.expiredQuery { return; }
      var expired, handled := ReapExpired(mode, now, env);
      ghost var start := Contents();
      ReapedExact(old(Contents()), env, expired[..handled], 0);
      t := Trace(false, expired, handled, [], []);
      if handled < |expired| || !env.pendingQuery || !env.reservedQuery { return; }
      var queue := ReadPending();
      assert forall i :: 0 <= i < |queue| ==> queue[i] in PendingIds(intents);
      var log := WalkQueue(mode, now, queue, env);
      t := Trace(true, expired, handled, queue, log);
      if mode.Actuate? { WalkInPass(start, now, env, queue); }
    }
  }

  lemma WalkStep(start: Db, now: int, env: Env, queue: seq<nat>, i: nat)
    requires ConsistentDb(start) && Distinct(queue) && i < |queue|
    ensures var db := Walk(start, now, env, queue[..i]);
            && Walk(start, now, env, queue[..i + 1]) == AfterTurn(db, start.hosts, now, env, queue[i])
            && WalkLog(start, now, env, queue[..i + 1]) == WalkLog(start, now, env, queue[..i]) + TurnLog(db, start.hosts, env, queue[i])
            && Walk(start, now, env, queue[..i + 1]).intents.Keys == start.intents.Keys
  {
    assert queue[..i + 1][..i] == queue[..i];
    WalkInPass(start, now, env, queue[..i + 1]);
  }

  /** The members of a set in some order. */
  method Listed(all: set<nat>) returns (ids: seq<nat>)
    ensures Lists(ids, all)
  {
    ids := [];
    var left := all;
    while left != {}
      invariant left <= all && Lists(ids, all - left)
      decreases |left|
    {
      var id :| id in left;
      left := left - {id};
      ids := ids + [id];
    }
  }

  lemma KeysTake(wanted: seq<string>, i: nat)
    requires i < |wanted|
    ensures Keys(wanted[..i + 1]) == Keys(wanted[..i]) + {Lower(wanted[i])}
    ensures forall j :: 0 <= j < i ==> Lower(wanted[j]) in Keys(wanted[..i])
  {
    assert wanted[..i + 1] == wanted[..i] + [wanted[i]];
    KeysSnoc(wanted[..i], wanted[i]);
    assert forall j :: 0 <= j < i ==> wanted[..i][j] == wanted[j];
  }

  /** The host at which the transaction fails is missing, taken, or asked for twice. */
  lemma NotGrantable(hosts: Hosts, id: nat, wanted: seq<string>, i: nat, expires: int)
    requires i < |wanted|
    requires var tx := Grant(hosts, id, wanted[..i], expires); !IsAvailable(tx, Lower(wanted[i]))
    ensures !Grantable(hosts, wanted)
  {
    if Lower(wanted[i]) in Keys(wanted[..i]) {
      var j :| 0 <= j < |wanted[..i]| && Lower(wanted[..i][j]) == Lower(wanted[i]);
      assert wanted[..i][j] == wanted[j];
    } else {
      assert !IsAvailable(hosts, Lower(wanted[i]));
    }
  }
}
