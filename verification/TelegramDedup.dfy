/** Throttling of Telegram alerts in crates/ff-agent/src/alert_evaluator.rs: an in-memory check,
    an hourly claim on a shared row, and a release that gives the occurrences back if the send
    fails. Strings stand for their UTF-8 bytes. */
module TelegramDedup {
  import opened Options

  datatype Key = Key(metric: string, node: string)

  /** A row of `operator_notify_dedup`; `lastSent` is `None` for minus infinity. */
  datatype Row = Row(lastSent: Option<int>, suppressed: nat, sendCount: nat)

  const HOUR := 3600

  // ----- The signature

  function Digit(d: nat): char
    requires d < 10
  {
    "0123456789"[d]
  }

  function Decimal(n: nat): (s: string)
    ensures s != []
  {
    if n < 10 then [Digit(n)] else Decimal(n / 10) + [Digit(n % 10)]
  }

  /** `telegram_alert_signature`. */
  function Signature(k: Key): string {
    "alert:" + (Decimal(|k.metric|) + ":" + (k.metric + ":" + (Decimal(|k.node|) + ":" + k.node)))
  }

  lemma DigitExact(a: nat, b: nat)
    requires a < 10 && b < 10
    ensures Digit(a) == Digit(b) ==> a == b
    ensures '0' <= Digit(a) <= '9'
  {}

  lemma {:induction false} DecimalDigits(n: nat)
    ensures ':' !in Decimal(n)
  {
    DigitExact(n % 10, n % 10);
    if n >= 10 { DecimalDigits(n / 10); }
  }

  lemma {:induction false} DecimalInjective(a: nat, b: nat)
    requires Decimal(a) == Decimal(b)
    ensures a == b
  {
    DigitExact(a % 10, b % 10);
    var s, t := Decimal(a), Decimal(b);
    assert s[|s| - 1] == Digit(a % 10) && t[|t| - 1] == Digit(b % 10);
    if a >= 10 && b >= 10 {
      assert s[..|s| - 1] == Decimal(a / 10) && t[..|t| - 1] == Decimal(b / 10);
      DecimalInjective(a / 10, b / 10);
    }
  }

  /** Text up to the first colon. */
  lemma ColonSplit(a: string, x: string, b: string, y: string)
    requires a + ":" + x == b + ":" + y && ':' !in a && ':' !in b
    ensures a == b && x == y
  {
    var s := a + ":" + x;
    assert s[|a|] == ':' && s[|b|] == ':';
    assert forall i :: 0 <= i < |a| ==> s[i] == a[i];
    assert forall i :: 0 <= i < |b| ==> s[i] == b[i];
    assert |a| == |b|;
    assert a == s[..|a|] == b && x == s[|a| + 1..] == y;
  }

  lemma LengthSplit(a: string, x: string, b: string, y: string)
    requires a + x == b + y && |a| == |b|
    ensures a == b && x == y
  {
    assert a == (a + x)[..|a|] && b == (b + y)[..|b|];
    assert x == (a + x)[|a|..] && y == (b + y)[|b|..];
  }

  /** One length-prefixed field. */
  lemma FieldSplit(a: string, x: string, b: string, y: string)
    requires Decimal(|a|) + ":" + (a + x) == Decimal(|b|) + ":" + (b + y)
    ensures a == b && x == y
  {
    DecimalDigits(|a|);
    DecimalDigits(|b|);
    ColonSplit(Decimal(|a|), a + x, Decimal(|b|), b + y);
    DecimalInjective(|a|, |b|);
    LengthSplit(a, x, b, y);
  }

  /** Main result: the length-prefixed signature is injective, so keys never share a row. */
  lemma SignatureInjective(k: Key, l: Key)
    requires Signature(k) == Signature(l)
    ensures k == l
  {
    var kn, ln := Decimal(|k.node|) + ":" + k.node, Decimal(|l.node|) + ":" + l.node;
    LengthSplit("alert:", Decimal(|k.metric|) + ":" + (k.metric + ":" + kn), "alert:", Decimal(|l.metric|) + ":" + (l.metric + ":" + ln));
    assert k.metric + ":" + kn == k.metric + (":" + kn);
    assert l.metric + ":" + ln == l.metric + (":" + ln);
    FieldSplit(k.metric, ":" + kn, l.metric, ":" + ln);
    LengthSplit(":", kn, ":", ln);
    assert k.node + "" == k.node && l.node + "" == l.node;
    FieldSplit(k.node, "", l.node, "");
  }

  // ----- The statements

  type Rows = map<string, Row>

  predicate Due(rows: Rows, sig: string, now: int) {
    sig !in rows || rows[sig].lastSent.None? || rows[sig].lastSent.value <= now - HOUR
  }

  /** Row after `claim_telegram_alert`. */
  function Claimed(rows: Rows, sig: string, now: int): Row {
    if sig !in rows then Row(Some(now), 0, 1)
    else if Due(rows, sig, now) then Row(Some(now), 0, rows[sig].suppressed + 1)
    else Row(rows[sig].lastSent, rows[sig].suppressed + 1, 0)
  }

  /** Row after `release_telegram_alert_claim`. */
  function Given(row: Row, count: nat): Row {
    Row(None, row.suppressed + count, 0)
  }

  class DedupTable {
    var rows: Rows

    /** `claim_telegram_alert`: 0 if this occurrence was collapsed, otherwise the number of
        occurrences the alert stands for. */
    method ClaimTelegramAlert(metric: string, node: string, now: int) returns (sig: string, count: nat)
      modifies this
      ensures sig == Signature(Key(metric, node))
      ensures rows == old(rows)[sig := Claimed(old(rows), sig, now)]
      ensures count == rows[sig].sendCount
      ensures count == if Due(old(rows), sig, now) then (if sig in old(rows) then old(rows)[sig].suppressed else 0) + 1 else 0
    {
      sig := Signature(Key(metric, node));
      if sig !in rows {
        rows := rows[sig := Row(Some(now), 0, 1)];
      } else {
        var row := rows[sig];
        var due := row.lastSent.None? || row.lastSent.value <= now - HOUR;
        rows := rows[sig := Row(
          if due then Some(now) else row.lastSent,
          if due then 0 else row.suppressed + 1,
          if due then row.suppressed + 1 else 0)];
      }
      count := rows[sig].sendCount;
    }

    /** `release_telegram_alert_claim`: the key has its occurrences back and may be claimed at any time; nothing else
        changes. */
    method ReleaseTelegramAlertClaim(sig: string, count: nat)
      modifies this
      ensures rows.Keys == old(rows.Keys) && forall s :: s in rows && s != sig ==> rows[s] == old(rows)[s]
      ensures forall k :: Suppressed(rows, k) == old(Suppressed(rows, k)) + if Signature(k) == sig && sig in rows then count else 0
      ensures sig in rows ==> rows[sig].sendCount == 0 && forall t :: Due(rows, sig, t)
    {
      if sig in rows {
        rows := rows[sig := Row(None, rows[sig].suppressed + count, 0)];
      }
    }

    /** `increment_telegram_alert_repeat`: one more suppressed occurrence; when the key may be claimed stays. */
    method IncrementTelegramAlertRepeat(sig: string)
      modifies this
      ensures rows.Keys == old(rows.Keys) && forall s :: s in rows && s != sig ==> rows[s] == old(rows)[s]
      ensures forall k :: Suppressed(rows, k) == old(Suppressed(rows, k)) + if Signature(k) == sig && sig in rows then 1 else 0
      ensures forall t :: Due(rows, sig, t) <==> old(Due(rows, sig, t))
    {
      if sig in rows {
        rows := rows[sig := rows[sig].(suppressed := rows[sig].suppressed + 1)];
      }
    }
  }

  /** Claiming and giving back is a round trip: the key may be claimed as before, and the one occurrence that
      claimed has been counted. */
  lemma ClaimRoundTrip(rows: Rows, key: Key, now: int, t: int)
    requires Due(rows, Signature(key), now)
    ensures var sig := Signature(key);
            var claimed := Claimed(rows, sig, now);
            var back := rows[sig := claimed][sig := Given(claimed, claimed.sendCount)];
            && !Due(rows[sig := claimed], sig, now) && Due(back, sig, t)
            && Suppressed(rows[sig := claimed], key) == 0 && Suppressed(back, key) == Suppressed(rows, key) + 1
  {}

  // ----- Concurrent senders

  /** Where a `dispatch_alert` call on the telegram channel stands. `process` names the process whose
      in-memory state it consults. */
  datatype Sender =
    | Ready
    | Repeating(key: Key)
    | Claiming(process: nat, key: Key)
    | Sending(process: nat, key: Key, count: nat, claimedAt: int)

  /** `at`: when the message reached Telegram, or was lost. */
  datatype Delivery = Delivery(key: Key, claimedAt: int, count: nat, at: int)

  /** `maxSend`: the longest send. `lostAcks`: whether Telegram may accept a message although the client sees
      its send fail, for instance by its timeout. */
  datatype Limits = Limits(maxSend: nat, lostAcks: bool)

  /** `seen`, `delivered`, `lost` and `arrived` record the whole history: `delivered` what the senders know to be
      delivered, `arrived` what Telegram accepted. */
  datatype World = World(rows: Rows, memory: map<(nat, Key), int>, now: int, senders: seq<Sender>,
                         seen: seq<Key>, delivered: seq<Delivery>, lost: seq<Delivery>, arrived: seq<Delivery>)

  /** `accepted`: whether Telegram accepted the message that the step gives up. */
  datatype Step =
    | Occur(i: nat, process: nat, key: Key)
    | Repeat(i: nat)
    | TryClaim(i: nat)
    | Succeed(i: nat)
    | Fail(i: nat, accepted: bool)
    | Crash(i: nat, accepted: bool)
    | Wait(seconds: nat)

  /** `AlertDeduplicationState::is_duplicate`. */
  predicate IsDuplicate(w: World, process: nat, key: Key) {
    (process, key) in w.memory && w.now - w.memory[(process, key)] < HOUR
  }

  /** An occurrence is only counted if its process sent the key less than an hour ago, and goes on to claim otherwise. */
  lemma OccurExact(l: Limits, w: World, i: nat, process: nat, key: Key)
    requires i < |w.senders| && w.senders[i].Ready?
    ensures var s := Apply(l, w, Occur(i, process, key)).senders[i];
            && (s == Repeating(key) <==> (process, key) in w.memory && w.now < w.memory[(process, key)] + 3600)
            && (s == Claiming(process, key) <==> (process, key) in w.memory ==> w.now >= w.memory[(process, key)] + 3600)
  {}

  /** A claim is granted if the key has never been sent, or its claim was given back, or is an hour old. */
  lemma DueExact(rows: Rows, sig: string, now: int)
    ensures Claimed(rows, sig, now).sendCount > 0
       <==> sig !in rows || rows[sig].lastSent == None || now >= rows[sig].lastSent.value + 3600
    ensures Claimed(rows, sig, now).sendCount > 0 ==>
      Claimed(rows, sig, now) == Row(Some(now), 0, 1 + if sig in rows then rows[sig].suppressed else 0)
    ensures Claimed(rows, sig, now).sendCount == 0 ==>
      sig in rows && Claimed(rows, sig, now) == Row(rows[sig].lastSent, rows[sig].suppressed + 1, 0)
  {}

  /** Time passes only as long as no send takes longer than `maxSend`. */
  ghost predicate Enabled(l: Limits, w: World, s: Step) {
    match s
    case Wait(seconds) =>
      forall i :: 0 <= i < |w.senders| && w.senders[i].Sending? ==> w.now + seconds - w.senders[i].claimedAt <= l.maxSend
    case Occur(i, _, _) => i < |w.senders| && w.senders[i].Ready?
    case Repeat(i) => i < |w.senders| && w.senders[i].Repeating?
    case TryClaim(i) => i < |w.senders| && w.senders[i].Claiming?
    case Succeed(i) => i < |w.senders| && w.senders[i].Sending?
    case Fail(i, accepted) => i < |w.senders| && w.senders[i].Sending? && (accepted ==> l.lostAcks)
    case Crash(i, accepted) => i < |w.senders| && (accepted ==> w.senders[i].Sending?)
  }

  /** Occurrences a sender carries. */
  function Carried(s: Sender): nat {
    match s
    case Ready => 0
    case Repeating(_) => 1
    case Claiming(_, _) => 1
    case Sending(_, _, count, _) => count
  }

  function MessageOf(s: Sender, now: int): Delivery
    requires s.Sending?
  {
    Delivery(s.key, s.claimedAt, s.count, now)
  }

  /** What Telegram accepts in a step. */
  function Arriving(w: World, s: Step): seq<Delivery> {
    if (s.Succeed? || (s.Fail? && s.accepted) || (s.Crash? && s.accepted)) && s.i < |w.senders| && w.senders[s.i].Sending?
    then [MessageOf(w.senders[s.i], w.now)] else []
  }

  function Apply(l: Limits, w: World, s: Step): World
    requires Enabled(l, w, s)
  {
    Moved(l, w, s).(arrived := w.arrived + Arriving(w, s))
  }

  function Moved(l: Limits, w: World, s: Step): World
    requires Enabled(l, w, s)
  {
    match s
    case Wait(seconds) => w.(now := w.now + seconds)
    case Occur(i, process, key) =>
      w.(senders := w.senders[i := if IsDuplicate(w, process, key) then Repeating(key) else Claiming(process, key)],
         seen := w.seen + [key])
    case Repeat(i) =>
      var sig := Signature(w.senders[i].key);
      w.(senders := w.senders[i := Ready],
         rows := if sig in w.rows then w.rows[sig := w.rows[sig].(suppressed := w.rows[sig].suppressed + 1)] else w.rows)
    case TryClaim(i) =>
      var Claiming(process, key) := w.senders[i];
      var row := Claimed(w.rows, Signature(key), w.now);
      w.(rows := w.rows[Signature(key) := row],
         senders := w.senders[i := if row.sendCount == 0 then Ready else Sending(process, key, row.sendCount, w.now)])
    case Succeed(i) =>
      var Sending(process, key, count, claimedAt) := w.senders[i];
      w.(senders := w.senders[i := Ready], memory := w.memory[(process, key) := w.now],
         delivered := w.delivered + [MessageOf(w.senders[i], w.now)])
    case Fail(i, _) =>
      var Sending(process, key, count, claimedAt) := w.senders[i];
      var sig := Signature(key);
      w.(senders := w.senders[i := Ready],
         rows := if sig in w.rows then w.rows[sig := Given(w.rows[sig], count)] else w.rows)
    case Crash(i, _) =>
      if w.senders[i].Ready? then w
      else w.(senders := w.senders[i := Ready], lost := w.lost + [Delivery(w.senders[i].key, w.now, Carried(w.senders[i]), w.now)])
  }

  ghost predicate Init(w: World) {
    && w.rows == map[] && w.memory == map[]
    && (forall i :: 0 <= i < |w.senders| ==> w.senders[i].Ready?)
    && w.seen == [] && w.delivered == [] && w.lost == [] && w.arrived == []
  }

  ghost predicate Run(l: Limits, w: World, steps: seq<Step>)
    decreases |steps|
  {
    steps == [] || (Enabled(l, w, steps[0]) && Run(l, Apply(l, w, steps[0]), steps[1..]))
  }

  ghost function After(l: Limits, w: World, steps: seq<Step>): World
    requires Run(l, w, steps)
    decreases |steps|
  {
    if steps == [] then w else After(l, Apply(l, w, steps[0]), steps[1..])
  }

  // ----- At most one send in flight, and messages an hour apart

  ghost predicate OneInFlight(w: World) {
    forall i, j :: 0 <= i < j < |w.senders| && w.senders[i].Sending? && w.senders[j].Sending? ==> w.senders[i].key != w.senders[j].key
  }

  ghost predicate Spaced(ds: seq<Delivery>) {
    forall a, b :: 0 <= a < b < |ds| && ds[a].key == ds[b].key ==> ds[a].claimedAt + HOUR <= ds[b].claimedAt
  }

  ghost predicate Safe(w: World) {
    OneInFlight(w) && Spaced(w.delivered)
  }

  /** The claim of a sender is the one its row shows, and it is young. */
  ghost predicate Owns(maxSend: nat, w: World, s: Sender)
    requires s.Sending?
  {
    && Signature(s.key) in w.rows && w.rows[Signature(s.key)].lastSent == Some(s.claimedAt)
    && s.claimedAt <= w.now <= s.claimedAt + maxSend
  }

  /** A message still blocks its row, or is an hour old. */
  ghost predicate Blocks(w: World, d: Delivery) {
    || d.claimedAt + HOUR <= w.now
    || (Signature(d.key) in w.rows && w.rows[Signature(d.key)].lastSent.Some? && d.claimedAt <= w.rows[Signature(d.key)].lastSent.value)
  }

  ghost predicate SendersOk(l: Limits, w: World) {
    OneInFlight(w) && forall i :: 0 <= i < |w.senders| && w.senders[i].Sending? ==> Owns(l.maxSend, w, w.senders[i])
  }

  /** The messages are spaced, and whoever is sending claimed an hour after them. */
  ghost predicate MessagesOk(w: World, ds: seq<Delivery>) {
    && Spaced(ds) && (forall a :: 0 <= a < |ds| ==> Blocks(w, ds[a]))
    && (forall i, a :: 0 <= i < |w.senders| && w.senders[i].Sending? && 0 <= a < |ds| && ds[a].key == w.senders[i].key
                       ==> ds[a].claimedAt + HOUR <= w.senders[i].claimedAt)
  }

  /** A message arrives while its sender is at work. */
  ghost predicate Prompt(l: Limits, ds: seq<Delivery>) {
    forall a :: 0 <= a < |ds| ==> ds[a].claimedAt <= ds[a].at <= ds[a].claimedAt + l.maxSend
  }

  ghost predicate Inv(l: Limits, w: World) {
    SendersOk(l, w) && Prompt(l, w.arrived) && MessagesOk(w, w.delivered) && (!l.lostAcks ==> MessagesOk(w, w.arrived))
  }

  lemma StaysPrompt(l: Limits, w: World, s: Step)
    requires SendersOk(l, w) && Prompt(l, w.arrived) && Enabled(l, w, s)
    ensures Prompt(l, Apply(l, w, s).arrived)
  {
    if Arriving(w, s) != [] { assert Owns(l.maxSend, w, w.senders[s.i]); }
  }

  lemma OtherSendersOk(l: Limits, w: World, s: Step)
    requires SendersOk(l, w) && Enabled(l, w, s) && !s.TryClaim? && !s.Fail?
    ensures SendersOk(l, Apply(l, w, s))
  {
    var w' := Apply(l, w, s);
    forall j | 0 <= j < |w'.senders| && w'.senders[j].Sending? ensures Owns(l.maxSend, w', w'.senders[j]) {
      assert Owns(l.maxSend, w, w.senders[j]);
    }
  }

  lemma RowSendersOk(l: Limits, w: World, s: Step)
    requires l.maxSend < HOUR && SendersOk(l, w) && Enabled(l, w, s) && (s.TryClaim? || s.Fail?)
    ensures SendersOk(l, Apply(l, w, s))
  {
    var w', key := Apply(l, w, s), w.senders[s.i].key;
    forall k | Signature(k) == Signature(key) ensures k == key { SignatureInjective(k, key); }
    forall j | 0 <= j < |w'.senders| && w'.senders[j].Sending? && j != s.i ensures Owns(l.maxSend, w', w'.senders[j]) {
      assert Owns(l.maxSend, w, w.senders[j]);
      assert s.Fail? ==> w.senders[j].key != key;
    }
  }

  lemma ClaimMessagesOk(l: Limits, w: World, s: Step, ds: seq<Delivery>)
    requires SendersOk(l, w) && MessagesOk(w, ds) && Enabled(l, w, s) && s.TryClaim?
    ensures MessagesOk(Apply(l, w, s), ds)
  {
    var w', key := Apply(l, w, s), w.senders[s.i].key;
    forall k | Signature(k) == Signature(key) ensures k == key { SignatureInjective(k, key); }
    forall a | 0 <= a < |ds|
      ensures Blocks(w', ds[a]) && (ds[a].key == key && w'.senders[s.i].Sending? ==> ds[a].claimedAt + HOUR <= w.now)
    {
      assert Blocks(w, ds[a]);
    }
  }

  lemma FailMessagesOk(l: Limits, w: World, s: Step, ds: seq<Delivery>)
    requires SendersOk(l, w) && MessagesOk(w, ds) && Enabled(l, w, s) && s.Fail?
    ensures MessagesOk(Apply(l, w, s), ds)
  {
    var w', key := Apply(l, w, s), w.senders[s.i].key;
    forall k | Signature(k) == Signature(key) ensures k == key { SignatureInjective(k, key); }
    assert Owns(l.maxSend, w, w.senders[s.i]);
    forall a | 0 <= a < |ds| ensures Blocks(w', ds[a]) { assert Blocks(w, ds[a]); }
  }

  lemma OtherMessagesOk(l: Limits, w: World, s: Step, ds: seq<Delivery>)
    requires MessagesOk(w, ds) && Enabled(l, w, s) && !s.TryClaim? && !s.Fail?
    ensures MessagesOk(Apply(l, w, s), ds)
  {
    var w' := Apply(l, w, s);
    forall a | 0 <= a < |ds| ensures Blocks(w', ds[a]) { assert Blocks(w, ds[a]); }
  }

  lemma MessagesStayOk(l: Limits, w: World, s: Step, ds: seq<Delivery>)
    requires SendersOk(l, w) && MessagesOk(w, ds) && Enabled(l, w, s)
    ensures MessagesOk(Apply(l, w, s), ds)
  {
    if s.TryClaim? {
      ClaimMessagesOk(l, w, s, ds);
    } else if s.Fail? {
      FailMessagesOk(l, w, s, ds);
    } else {
      OtherMessagesOk(l, w, s, ds);
    }
  }

  /** A message joins the list when its send succeeds, or when its sender crashes: the claim stays. */
  lemma MessageJoins(l: Limits, w: World, s: Step, ds: seq<Delivery>)
    requires SendersOk(l, w) && MessagesOk(w, ds) && Enabled(l, w, s) && (s.Succeed? || s.Crash?) && w.senders[s.i].Sending?
    ensures MessagesOk(Apply(l, w, s), ds + [MessageOf(w.senders[s.i], w.now)])
  {
    var w', sender := Apply(l, w, s), w.senders[s.i];
    var ds' := ds + [MessageOf(sender, w.now)];
    OtherMessagesOk(l, w, s, ds);
    assert Owns(l.maxSend, w, sender);
    forall a | 0 <= a < |ds'| ensures Blocks(w', ds'[a]) {
      if a < |ds| { assert Blocks(w', ds[a]); }
    }
  }

  lemma StepKeeps(l: Limits, w: World, s: Step)
    requires l.maxSend < HOUR && Inv(l, w) && Enabled(l, w, s)
    ensures Inv(l, Apply(l, w, s))
  {
    if s.TryClaim? || s.Fail? { RowSendersOk(l, w, s); } else { OtherSendersOk(l, w, s); }
    StaysPrompt(l, w, s);
    MessagesStayOk(l, w, s, w.delivered);
    if s.Succeed? { MessageJoins(l, w, s, w.delivered); }
    if !l.lostAcks {
      MessagesStayOk(l, w, s, w.arrived);
      if Arriving(w, s) != [] { MessageJoins(l, w, s, w.arrived); } else { assert w.arrived + [] == w.arrived; }
    }
  }

  lemma {:induction false} RunKeeps(l: Limits, w: World, steps: seq<Step>)
    requires l.maxSend < HOUR && Inv(l, w) && Run(l, w, steps)
    ensures Inv(l, After(l, w, steps))
    decreases |steps|
  {
    if steps != [] {
      StepKeeps(l, w, steps[0]);
      RunKeeps(l, Apply(l, w, steps[0]), steps[1..]);
    }
  }

  lemma {:induction false} RunOn(l: Limits, w: World, steps: seq<Step>, more: seq<Step>)
    requires Run(l, w, steps) && Run(l, After(l, w, steps), more)
    ensures Run(l, w, steps + more) && After(l, w, steps + more) == After(l, After(l, w, steps), more)
    decreases |steps|
  {
    if steps == [] {
      assert steps + more == more;
    } else {
      RunOn(l, Apply(l, w, steps[0]), steps[1..], more);
      assert (steps + more)[1..] == steps[1..] + more;
    }
  }

  ghost predicate Reaches(l: Limits, w: World, w': World) {
    exists steps :: Run(l, w, steps) && After(l, w, steps) == w'
  }

  lemma ReachesSelf(l: Limits, w: World)
    ensures Reaches(l, w, w)
  {
    assert Run(l, w, []) && After(l, w, []) == w;
  }

  lemma ReachesNext(l: Limits, w: World, w': World, s: Step)
    requires Reaches(l, w, w') && Enabled(l, w', s)
    ensures Reaches(l, w, Apply(l, w', s))
  {
    var steps :| Run(l, w, steps) && After(l, w, steps) == w';
    assert [s][1..] == [];
    assert Run(l, Apply(l, w', s), []) && Run(l, w', [s]);
    RunOn(l, w, steps, [s]);
    assert Run(l, w, steps + [s]);
  }

  /** The world after sender `i` of process `p` has claimed `key` for `count` occurrences. */
  function WithClaim(w: World, i: nat, p: nat, key: Key, count: nat): World
    requires i < |w.senders|
  {
    w.(senders := w.senders[i := Sending(p, key, count, w.now)], seen := w.seen + [key],
       rows := w.rows[Signature(key) := Row(Some(w.now), 0, count)])
  }

  lemma ClaimApplied(l: Limits, w: World, i: nat, p: nat, key: Key, count: nat)
    requires i < |w.senders| && w.senders[i] == Claiming(p, key) && Due(w.rows, Signature(key), w.now) && count == Suppressed(w.rows, key) + 1
    ensures Apply(l, w, TryClaim(i))
         == w.(senders := w.senders[i := Sending(p, key, count, w.now)], rows := w.rows[Signature(key) := Row(Some(w.now), 0, count)])
  {
    assert w.arrived + [] == w.arrived;
  }

  /** An occurrence that is due is claimed. */
  lemma ClaimReached(l: Limits, w0: World, w: World, i: nat, p: nat, key: Key, count: nat)
    requires Reaches(l, w0, w) && i < |w.senders| && w.senders[i].Ready? && !IsDuplicate(w, p, key)
    requires Due(w.rows, Signature(key), w.now) && count == Suppressed(w.rows, key) + 1
    ensures Reaches(l, w0, WithClaim(w, i, p, key, count))
  {
    ReachesNext(l, w0, w, Occur(i, p, key));
    var w1 := Apply(l, w, Occur(i, p, key));
    assert w1 == w.(senders := w.senders[i := Claiming(p, key)], seen := w.seen + [key]);
    ReachesNext(l, w0, w1, TryClaim(i));
    ClaimApplied(l, w1, i, p, key, count);
    assert w1.senders[i := Sending(p, key, count, w.now)] == w.senders[i := Sending(p, key, count, w.now)];
  }

  /** `n` idle senders and empty tables. */
  function Fresh(n: nat): World {
    World(map[], map[], 0, seq(n, _ => Ready), [], [], [], [])
  }

  /** One sender has claimed `key` at 0, and nothing else has happened. */
  predicate OneSending(w: World, key: Key, n: nat) {
    && n > 0 && w.senders == seq(n, _ => Ready)[0 := Sending(0, key, 1, 0)] && w.arrived == [] && w.now == 0
    && w.memory == map[] && w.rows == map[Signature(key) := Row(Some(0), 0, 1)]
  }

  lemma FirstClaim(l: Limits, key: Key, n: nat) returns (w: World, w': World)
    requires n > 0
    ensures Init(w) && Reaches(l, w, w') && OneSending(w', key, n)
  {
    w := Fresh(n);
    ReachesSelf(l, w);
    ClaimReached(l, w, w, 0, 0, key, 1);
    w' := WithClaim(w, 0, 0, key, 1);
  }

  /** A send that may take an hour lets a second claim of the same signature in. */
  lemma TooSlow(l: Limits, key: Key) returns (w: World, w': World)
    requires l.maxSend >= HOUR
    ensures Init(w) && Reaches(l, w, w') && BothSending(w', key) && !OneInFlight(w')
  {
    var w1;
    w, w1 := FirstClaim(l, key, 3);
    w' := SecondClaim(l, w, w1, key);
    assert w'.senders[0].Sending? && w'.senders[1].Sending? && w'.senders[0].key == w'.senders[1].key;
  }

  lemma SecondClaim(l: Limits, w: World, w1: World, key: Key) returns (w': World)
    requires l.maxSend >= HOUR && Reaches(l, w, w1) && OneSending(w1, key, 3)
    ensures Reaches(l, w, w') && BothSending(w', key)
  {
    ReachesNext(l, w, w1, Wait(HOUR));
    var w2 := Apply(l, w1, Wait(HOUR));
    assert w2.arrived == [];
    ClaimReached(l, w, w2, 1, 0, key, 1);
    w' := WithClaim(w2, 1, 0, key, 1);
  }

  /** Two senders of one key, the second of which owns the row. */
  predicate BothSending(w: World, key: Key) {
    && w.senders == [Sending(0, key, 1, 0), Sending(0, key, 1, HOUR), Ready] && w.arrived == [] && w.now == HOUR
    && w.memory == map[] && w.rows == map[Signature(key) := Row(Some(HOUR), 0, 1)]
  }

  ghost predicate AlwaysSafe(l: Limits) {
    forall w, steps :: Init(w) && Run(l, w, steps) ==> Safe(After(l, w, steps))
  }

  /** Main result: in every interleaving at most one claim per signature is in flight, and the claim
      times of two messages with the same signature that their senders know to be delivered are at least an hour
      apart, if and only if every send ends in less than an hour. */
  lemma SafeExactly(l: Limits)
    ensures AlwaysSafe(l) <==> l.maxSend < HOUR
  {
    if l.maxSend < HOUR {
      forall w, steps | Init(w) && Run(l, w, steps) ensures Safe(After(l, w, steps)) {
        RunKeeps(l, w, steps);
      }
    } else {
      var w, w' := TooSlow(l, Key("cpu_pct", "vinny"));
      var steps :| Run(l, w, steps) && After(l, w, steps) == w';
      assert !Safe(After(l, w, steps));
    }
  }

  ghost predicate AlwaysApart(l: Limits) {
    forall w, steps :: Init(w) && Run(l, w, steps) ==> Spaced(After(l, w, steps).arrived)
  }

  /** Main result on what reaches Telegram: the claim times of the messages that arrived, also from senders that
      crashed, are an hour apart in every run if and only if every send ends in less than an hour and no accepted message is
      reported as failed. */
  lemma ArrivalsExactly(l: Limits)
    ensures AlwaysApart(l) <==> l.maxSend < HOUR && !l.lostAcks
  {
    if l.maxSend >= HOUR {
      var w, w' := TwoAtOnce(l, Key("cpu_pct", "vinny"));
      var steps :| Run(l, w, steps) && After(l, w, steps) == w';
      assert !Spaced(After(l, w, steps).arrived);
    } else if l.lostAcks {
      var w, w' := AcceptedButFailed(l, Key("cpu_pct", "vinny"));
      var steps :| Run(l, w, steps) && After(l, w, steps) == w';
      assert !Spaced(After(l, w, steps).arrived);
    } else {
      forall w, steps | Init(w) && Run(l, w, steps) ensures Spaced(After(l, w, steps).arrived) {
        RunKeeps(l, w, steps);
      }
    }
  }

  /** Messages of one key arrive at least `gap` apart. */
  ghost predicate Apart(ds: seq<Delivery>, gap: int) {
    forall a, b :: 0 <= a < b < |ds| && ds[a].key == ds[b].key ==> ds[a].at + gap <= ds[b].at
  }

  ghost predicate AlwaysApartBy(l: Limits, gap: int) {
    forall w, steps :: Init(w) && Run(l, w, steps) ==> Apart(After(l, w, steps).arrived, gap)
  }

  /** What the operator sees: messages of one key arrive at least an hour less the longest send apart, and no larger
      gap holds in every run. */
  lemma GapExactly(l: Limits, gap: int)
    requires l.maxSend < HOUR && !l.lostAcks
    ensures AlwaysApartBy(l, gap) <==> gap <= HOUR - l.maxSend
  {
    if gap <= HOUR - l.maxSend {
      forall w, steps | Init(w) && Run(l, w, steps) ensures Apart(After(l, w, steps).arrived, gap) {
        RunKeeps(l, w, steps);
      }
    } else {
      var w, w' := LateThenEarly(l, Key("cpu_pct", "vinny"));
      var steps :| Run(l, w, steps) && After(l, w, steps) == w';
      assert w'.arrived[0].key == w'.arrived[1].key;
      assert !Apart(After(l, w, steps).arrived, gap);
    }
  }

  /** A slow send followed by a fast one of another process. */
  lemma LateThenEarly(l: Limits, key: Key) returns (w: World, w': World)
    requires l.maxSend < HOUR
    ensures Init(w) && Reaches(l, w, w') && w'.arrived == [Delivery(key, 0, 1, l.maxSend), Delivery(key, HOUR, 1, HOUR)]
  {
    var w1;
    w, w1 := FirstClaim(l, key, 2);
    var w2 := LateArrival(l, w, w1, key);
    ClaimReached(l, w, w2, 1, 1, key, 1);
    var w3 := WithClaim(w2, 1, 1, key, 1);
    ReachesNext(l, w, w3, Succeed(1));
    w' := Apply(l, w3, Succeed(1));
  }

  lemma LateArrival(l: Limits, w: World, w1: World, key: Key) returns (w': World)
    requires l.maxSend < HOUR && Reaches(l, w, w1) && OneSending(w1, key, 2)
    ensures Reaches(l, w, w') && w'.senders == [Ready, Ready] && w'.now == HOUR
    ensures w'.arrived == [Delivery(key, 0, 1, l.maxSend)] && w'.memory == map[(0, key) := l.maxSend]
    ensures w'.rows == map[Signature(key) := Row(Some(0), 0, 1)]
  {
    ReachesNext(l, w, w1, Wait(l.maxSend));
    var w2 := Apply(l, w1, Wait(l.maxSend));
    assert w2.arrived == [] && w2.senders == [Sending(0, key, 1, 0), Ready];
    ReachesNext(l, w, w2, Succeed(0));
    var w3 := Apply(l, w2, Succeed(0));
    assert w3.senders == [Ready, Ready];
    ReachesNext(l, w, w3, Wait(HOUR - l.maxSend));
    w' := Apply(l, w3, Wait(HOUR - l.maxSend));
  }

  /** A message that Telegram accepted although its send timed out: the claim is given back, and the next occurrence
      is sent at once. */
  lemma AcceptedButFailed(l: Limits, key: Key) returns (w: World, w': World)
    requires l.lostAcks
    ensures Init(w) && Reaches(l, w, w') && !Spaced(w'.arrived)
  {
    var w1;
    w, w1 := FirstClaim(l, key, 1);
    w' := SentAgain(l, w, w1, key);
  }

  lemma SentAgain(l: Limits, w: World, w1: World, key: Key) returns (w': World)
    requires l.lostAcks && Reaches(l, w, w1) && OneSending(w1, key, 1)
    ensures Reaches(l, w, w') && !Spaced(w'.arrived)
  {
    ReachesNext(l, w, w1, Fail(0, true));
    var w2 := Apply(l, w1, Fail(0, true));
    assert w2.arrived == [Delivery(key, 0, 1, 0)];
    ClaimReached(l, w, w2, 0, 0, key, 2);
    var w3 := WithClaim(w2, 0, 0, key, 2);
    ReachesNext(l, w, w3, Succeed(0));
    w' := Apply(l, w3, Succeed(0));
    assert w'.arrived[0] == Delivery(key, 0, 1, 0) && w'.arrived[1] == Delivery(key, 0, 2, 0);
    assert w'.arrived[0].key == w'.arrived[1].key;
  }

  /** Of two senders of one key the older one fails and opens the row again, and a third sender claims at the same
      time as the second. */
  lemma TwoAtOnce(l: Limits, key: Key) returns (w: World, w': World)
    requires l.maxSend >= HOUR
    ensures Init(w) && Reaches(l, w, w') && !Spaced(w'.arrived)
  {
    var w0;
    w, w0 := TooSlow(l, key);
    var w1 := OlderFails(l, w, w0, key);
    ClaimReached(l, w, w1, 2, 0, key, 2);
    w' := TwoSucceed(l, w, WithClaim(w1, 2, 0, key, 2), key);
  }

  lemma OlderFails(l: Limits, w: World, w0: World, key: Key) returns (w1: World)
    requires Reaches(l, w, w0) && BothSending(w0, key)
    ensures Reaches(l, w, w1) && w1.senders == [Ready, Sending(0, key, 1, HOUR), Ready] && w1.arrived == [] && w1.now == HOUR
    ensures w1.memory == map[] && Suppressed(w1.rows, key) == 1 && Due(w1.rows, Signature(key), HOUR)
  {
    ReachesNext(l, w, w0, Fail(0, false));
    w1 := Apply(l, w0, Fail(0, false));
  }

  lemma TwoSucceed(l: Limits, w: World, w2: World, key: Key) returns (w': World)
    requires Reaches(l, w, w2) && w2.arrived == []
    requires w2.senders == [Ready, Sending(0, key, 1, HOUR), Sending(0, key, 2, HOUR)]
    ensures Reaches(l, w, w') && !Spaced(w'.arrived)
  {
    ReachesNext(l, w, w2, Succeed(1));
    var w3 := Apply(l, w2, Succeed(1));
    ReachesNext(l, w, w3, Succeed(2));
    w' := Apply(l, w3, Succeed(2));
    assert w'.arrived == [Delivery(key, HOUR, 1, w2.now), Delivery(key, HOUR, 2, w2.now)];
    assert w'.arrived[0].key == w'.arrived[1].key;
  }

  // ----- Conservation of occurrences

  function CountSeen(seen: seq<Key>, key: Key): nat {
    if seen == [] then 0 else CountSeen(seen[..|seen| - 1], key) + if seen[|seen| - 1] == key then 1 else 0
  }

  function CountIn(ds: seq<Delivery>, key: Key): nat {
    if ds == [] then 0
    else CountIn(ds[..|ds| - 1], key) + if ds[|ds| - 1].key == key then ds[|ds| - 1].count else 0
  }

  function CarriedFor(s: Sender, key: Key): nat {
    if !s.Ready? && s.key == key then Carried(s) else 0
  }

  function InFlight(senders: seq<Sender>, key: Key): nat {
    if senders == [] then 0 else CarriedFor(senders[0], key) + InFlight(senders[1..], key)
  }

  function Suppressed(rows: Rows, key: Key): nat {
    if Signature(key) in rows then rows[Signature(key)].suppressed else 0
  }

  ghost predicate Conserved(w: World, key: Key) {
    CountSeen(w.seen, key)
    == CountIn(w.delivered, key) + Suppressed(w.rows, key) + InFlight(w.senders, key) + CountIn(w.lost, key)
  }

  /** A key in memory, or being repeated or sent, has a row. */
  ghost predicate RowsExist(w: World) {
    && (forall p, k :: (p, k) in w.memory ==> Signature(k) in w.rows)
    && (forall i :: 0 <= i < |w.senders| && (w.senders[i].Repeating? || w.senders[i].Sending?) ==> Signature(w.senders[i].key) in w.rows)
  }

  lemma {:induction false} InFlightUpdate(senders: seq<Sender>, i: nat, s: Sender, key: Key)
    requires i < |senders|
    ensures InFlight(senders[i := s], key) + CarriedFor(senders[i], key) == InFlight(senders, key) + CarriedFor(s, key)
  {
    if i > 0 {
      InFlightUpdate(senders[1..], i - 1, s, key);
      assert senders[i := s][1..] == senders[1..][i - 1 := s];
    } else {
      assert senders[i := s][1..] == senders[1..];
    }
  }

  lemma CountInStep(ds: seq<Delivery>, d: Delivery, key: Key)
    ensures CountIn(ds + [d], key) == CountIn(ds, key) + if d.key == key then d.count else 0
  {
    assert (ds + [d])[..|ds|] == ds;
  }

  lemma CountSeenStep(seen: seq<Key>, k: Key, key: Key)
    ensures CountSeen(seen + [k], key) == CountSeen(seen, key) + if k == key then 1 else 0
  {
    assert (seen + [k])[..|seen|] == seen;
  }

  /** What a step does to the row of its key, for the key's count. */
  lemma RowStepCounts(l: Limits, w: World, s: Step, key: Key)
    requires Enabled(l, w, s) && RowsExist(w) && (s.Repeat? || s.TryClaim? || s.Fail?)
    ensures var w' := Apply(l, w, s);
            Suppressed(w'.rows, key) + CarriedFor(w'.senders[s.i], key) == Suppressed(w.rows, key) + CarriedFor(w.senders[s.i], key)
  {
    if Signature(w.senders[s.i].key) == Signature(key) { SignatureInjective(w.senders[s.i].key, key); }
  }

  lemma RowStepConserves(l: Limits, w: World, s: Step, key: Key)
    requires Enabled(l, w, s) && RowsExist(w) && Conserved(w, key) && (s.Repeat? || s.TryClaim? || s.Fail?)
    ensures Conserved(Apply(l, w, s), key)
  {
    var w' := Apply(l, w, s);
    RowStepCounts(l, w, s, key);
    assert w'.senders == w.senders[s.i := w'.senders[s.i]];
    InFlightUpdate(w.senders, s.i, w'.senders[s.i], key);
  }

  /** A step that lets go of what a sender carries, for a step that changes no row. */
  lemma SenderStep(l: Limits, w: World, s: Step, key: Key)
    requires Enabled(l, w, s) && (s.Occur? || s.Succeed? || s.Crash?)
    ensures InFlight(Apply(l, w, s).senders, key) + CarriedFor(w.senders[s.i], key)
         == InFlight(w.senders, key) + if s.Occur? && s.key == key then 1 else 0
  {
    var w' := Apply(l, w, s);
    assert w'.senders == w.senders[s.i := w'.senders[s.i]];
    InFlightUpdate(w.senders, s.i, w'.senders[s.i], key);
  }

  lemma OccurConserves(l: Limits, w: World, s: Step, key: Key)
    requires Enabled(l, w, s) && Conserved(w, key) && s.Occur?
    ensures Conserved(Apply(l, w, s), key)
  {
    SenderStep(l, w, s, key);
    CountSeenStep(w.seen, s.key, key);
  }

  lemma SucceedConserves(l: Limits, w: World, s: Step, key: Key)
    requires Enabled(l, w, s) && Conserved(w, key) && s.Succeed?
    ensures Conserved(Apply(l, w, s), key)
  {
    SenderStep(l, w, s, key);
    SucceedCounts(l, w, s, key);
    MovesBalance(w, Apply(l, w, s), key, CarriedFor(w.senders[s.i], key));
  }

  lemma SucceedCounts(l: Limits, w: World, s: Step, key: Key)
    requires Enabled(l, w, s) && s.Succeed?
    ensures var w' := Apply(l, w, s);
            && w'.rows == w.rows && w'.seen == w.seen && w'.lost == w.lost
            && CountIn(w'.delivered, key) == CountIn(w.delivered, key) + CarriedFor(w.senders[s.i], key)
  {
    CountInStep(w.delivered, MessageOf(w.senders[s.i], w.now), key);
  }

  /** What leaves the senders is delivered. */
  lemma MovesBalance(w: World, w': World, key: Key, n: nat)
    requires Conserved(w, key) && w'.rows == w.rows && w'.seen == w.seen && w'.lost == w.lost
    requires CountIn(w'.delivered, key) == CountIn(w.delivered, key) + n && InFlight(w'.senders, key) + n == InFlight(w.senders, key)
    ensures Conserved(w', key)
  {}

  lemma CrashConserves(l: Limits, w: World, s: Step, key: Key)
    requires Enabled(l, w, s) && Conserved(w, key) && s.Crash?
    ensures Conserved(Apply(l, w, s), key)
  {
    SenderStep(l, w, s, key);
    if !w.senders[s.i].Ready? { CountInStep(w.lost, Delivery(w.senders[s.i].key, w.now, Carried(w.senders[s.i]), w.now), key); }
  }

  lemma StepConserves(l: Limits, w: World, s: Step, key: Key)
    requires Enabled(l, w, s) && RowsExist(w) && Conserved(w, key)
    ensures Conserved(Apply(l, w, s), key)
  {
    match s
    case Wait(_) =>
    case Occur(_, _, _) => OccurConserves(l, w, s, key);
    case Succeed(_) => SucceedConserves(l, w, s, key);
    case Crash(_, _) => CrashConserves(l, w, s, key);
    case _ => RowStepConserves(l, w, s, key);
  }

  lemma StepRowsExist(l: Limits, w: World, s: Step)
    requires Enabled(l, w, s) && RowsExist(w)
    ensures RowsExist(Apply(l, w, s))
  {}

  /** Main result: at every moment of every run the occurrences seen for a key are those delivered,
      those suppressed and waiting, those in flight and those a crash lost. Without crashes nothing
      is lost. */
  lemma {:induction false} OccurrencesConserved(l: Limits, w: World, steps: seq<Step>, key: Key)
    requires RowsExist(w) && Conserved(w, key) && Run(l, w, steps)
    ensures Conserved(After(l, w, steps), key)
    ensures (forall k :: 0 <= k < |steps| ==> !steps[k].Crash?) ==> After(l, w, steps).lost == w.lost
    decreases |steps|
  {
    if steps != [] {
      StepConserves(l, w, steps[0], key);
      StepRowsExist(l, w, steps[0]);
      OccurrencesConserved(l, Apply(l, w, steps[0]), steps[1..], key);
    }
  }

  lemma {:induction false} NothingCarried(senders: seq<Sender>, key: Key)
    requires forall i :: 0 <= i < |senders| ==> senders[i].Ready?
    ensures InFlight(senders, key) == 0
  {
    if senders != [] { NothingCarried(senders[1..], key); }
  }

  /** The law from the start: it holds for every run that begins with empty tables. */
  lemma ConservedFromInit(l: Limits, w: World, steps: seq<Step>, key: Key)
    requires Init(w) && Run(l, w, steps)
    ensures Conserved(After(l, w, steps), key)
  {
    NothingCarried(w.senders, key);
    OccurrencesConserved(l, w, steps, key);
  }
}
