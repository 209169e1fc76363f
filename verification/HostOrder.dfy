/** The global lock order of crates/ff-agent/src/arbiter.rs: hosts sorted by lower-cased name, without
    duplicates. Actors that take overlapping sets host by host in this order never wait in a circle. */
module HostOrder {
  import opened Text

  /** The lower-cased names of a list of hosts. */
  function Keys(hosts: seq<string>): set<string> {
    set i | 0 <= i < |hosts| :: Lower(hosts[i])
  }

  /** Put `h` behind everything whose key is not larger. */
  function Insert(sorted: seq<string>, h: string): seq<string> {
    if sorted == [] then [h]
    else if LexLess(Lower(h), Lower(sorted[0])) then [h] + sorted
    else [sorted[0]] + Insert(sorted[1..], h)
  }

  /** The stable sort by lower-cased name. */
  function Sort(hosts: seq<string>): seq<string> {
    if hosts == [] then [] else Insert(Sort(hosts[..|hosts| - 1]), hosts[|hosts| - 1])
  }

  /** `dedup_by_key`: of neighbours with equal keys the first stays. */
  function Dedup(sorted: seq<string>): seq<string> {
    if |sorted| < 2 then sorted
    else
      var init, last := Dedup(sorted[..|sorted| - 1]), sorted[|sorted| - 1];
      if init != [] && Lower(init[|init| - 1]) == Lower(last) then init else init + [last]
  }

  /** `sorted_host_set`. */
  function SortedHostSet(hosts: seq<string>): seq<string> {
    Dedup(Sort(hosts))
  }

  ghost predicate Ascending(hosts: seq<string>) {
    forall i, j :: 0 <= i < j < |hosts| ==> !LexLess(Lower(hosts[j]), Lower(hosts[i]))
  }

  ghost predicate StrictlyAscending(hosts: seq<string>) {
    forall i, j :: 0 <= i < j < |hosts| ==> LexLess(Lower(hosts[i]), Lower(hosts[j]))
  }

  lemma LexChain(a: string, b: string, c: string)
    requires !LexLess(b, a) && !LexLess(c, b)
    ensures !LexLess(c, a)
  {
    LexTotal(a, b);
    LexTotal(b, c);
    LexTotal(a, c);
    if LexLess(a, b) && LexLess(b, c) { LexTransitive(a, b, c); }
  }

  lemma AscendingCons(h: string, rest: seq<string>)
    requires Ascending(rest) && forall y :: y in rest ==> !LexLess(Lower(y), Lower(h))
    ensures Ascending([h] + rest)
  {}

  lemma AscendingTail(sorted: seq<string>)
    requires sorted != [] && Ascending(sorted)
    ensures Ascending(sorted[1..]) && forall y :: y in sorted[1..] ==> !LexLess(Lower(y), Lower(sorted[0]))
  {}

  lemma {:induction false} InsertAscending(sorted: seq<string>, h: string)
    requires Ascending(sorted)
    ensures Ascending(Insert(sorted, h))
    ensures multiset(Insert(sorted, h)) == multiset(sorted) + multiset{h}
  {
    if sorted == [] { return; }
    var head, rest := sorted[0], sorted[1..];
    assert sorted == [head] + rest;
    AscendingTail(sorted);
    LexTotal(Lower(h), Lower(head));
    if LexLess(Lower(h), Lower(head)) {
      forall y | y in sorted ensures !LexLess(Lower(y), Lower(h)) {
        if y != head { LexChain(Lower(h), Lower(head), Lower(y)); }
      }
      AscendingCons(h, sorted);
    } else {
      InsertAscending(rest, h);
      forall y | y in Insert(rest, h) ensures !LexLess(Lower(y), Lower(head)) {
        assert y in multiset(Insert(rest, h));
      }
      AscendingCons(head, Insert(rest, h));
    }
  }

  lemma {:induction false} SortAscending(hosts: seq<string>)
    ensures Ascending(Sort(hosts)) && multiset(Sort(hosts)) == multiset(hosts)
  {
    if hosts != [] {
      var init, last := hosts[..|hosts| - 1], hosts[|hosts| - 1];
      SortAscending(init);
      InsertAscending(Sort(init), last);
      assert hosts == init + [last];
    }
  }

  lemma KeysSnoc(init: seq<string>, last: string)
    ensures Keys(init + [last]) == Keys(init) + {Lower(last)}
  {
    assert (init + [last])[|init|] == last;
    assert forall i :: 0 <= i < |init| ==> (init + [last])[i] == init[i];
  }

  lemma StrictSnoc(init: seq<string>, last: string)
    requires init != [] && StrictlyAscending(init) && LexLess(Lower(init[|init| - 1]), Lower(last))
    ensures StrictlyAscending(init + [last])
  {
    forall i | 0 <= i < |init| ensures LexLess(Lower(init[i]), Lower(last)) {
      if i < |init| - 1 { LexTransitive(Lower(init[i]), Lower(init[|init| - 1]), Lower(last)); }
    }
  }

  lemma {:induction false} DedupStrict(sorted: seq<string>)
    requires Ascending(sorted)
    ensures StrictlyAscending(Dedup(sorted)) && Keys(Dedup(sorted)) == Keys(sorted)
    ensures forall h :: h in Dedup(sorted) ==> h in sorted
    ensures sorted != [] ==> Dedup(sorted) != [] && Lower(Dedup(sorted)[|Dedup(sorted)| - 1]) == Lower(sorted[|sorted| - 1])
  {
    if |sorted| >= 2 {
      var n := |sorted| - 1;
      var init, last := Dedup(sorted[..n]), sorted[n];
      DedupStrict(sorted[..n]);
      assert sorted == sorted[..n] + [last];
      KeysSnoc(sorted[..n], last);
      KeysSnoc(init, last);
      LexTotal(Lower(sorted[n - 1]), Lower(last));
      if Lower(init[|init| - 1]) != Lower(last) { StrictSnoc(init, last); }
    }
  }

  lemma SameElementsSameKeys(a: seq<string>, b: seq<string>)
    requires multiset(a) == multiset(b)
    ensures Keys(a) == Keys(b)
  {
    forall i | 0 <= i < |a| ensures Lower(a[i]) in Keys(b) {
      assert a[i] in multiset(b);
    }
    forall i | 0 <= i < |b| ensures Lower(b[i]) in Keys(a) {
      assert b[i] in multiset(a);
    }
  }

  /** Strictly ascending, the same hosts up to case, and every name taken from the input. */
  lemma SortedHostSetExact(hosts: seq<string>)
    ensures StrictlyAscending(SortedHostSet(hosts)) && Keys(SortedHostSet(hosts)) == Keys(hosts)
    ensures forall h :: h in SortedHostSet(hosts) ==> h in hosts
  {
    SortAscending(hosts);
    DedupStrict(Sort(hosts));
    SameElementsSameKeys(Sort(hosts), hosts);
    forall h | h in Sort(hosts) ensures h in hosts { assert h in multiset(hosts); }
  }

  // ----- No circular wait

  /** An actor that has taken the first `taken` hosts of its set and not released any. */
  datatype Actor = Actor(hosts: seq<string>, taken: nat)

  ghost predicate Holds(a: Actor, key: string) {
    exists i :: 0 <= i < a.taken && i < |a.hosts| && Lower(a.hosts[i]) == key
  }

  /** `a` wants its next host, and `b` holds it. */
  ghost predicate WaitsFor(a: Actor, b: Actor) {
    a.taken < |a.hosts| && Holds(b, Lower(a.hosts[a.taken]))
  }

  /** Everybody in the list waits for the next one, and the last one for the first. */
  ghost predicate WaitCycle(cycle: seq<Actor>) {
    && cycle != []
    && (forall i :: 0 <= i < |cycle| - 1 ==> WaitsFor(cycle[i], cycle[i + 1]))
    && WaitsFor(cycle[|cycle| - 1], cycle[0])
  }

  lemma WaitAscends(a: Actor, b: Actor)
    requires StrictlyAscending(b.hosts) && WaitsFor(a, b) && b.taken < |b.hosts|
    ensures LexLess(Lower(a.hosts[a.taken]), Lower(b.hosts[b.taken]))
  {
    var i :| 0 <= i < b.taken && i < |b.hosts| && Lower(b.hosts[i]) == Lower(a.hosts[a.taken]);
    assert LexLess(Lower(b.hosts[i]), Lower(b.hosts[b.taken]));
  }

  lemma {:induction false} ChainAscends(chain: seq<Actor>, n: nat)
    requires n < |chain|
    requires forall i :: 0 <= i < |chain| ==> StrictlyAscending(chain[i].hosts) && chain[i].taken < |chain[i].hosts|
    requires forall i :: 0 <= i < |chain| - 1 ==> WaitsFor(chain[i], chain[i + 1])
    ensures n > 0 ==> LexLess(Lower(chain[0].hosts[chain[0].taken]), Lower(chain[n].hosts[chain[n].taken]))
  {
    if n > 0 {
      ChainAscends(chain, n - 1);
      WaitAscends(chain[n - 1], chain[n]);
      if n > 1 {
        LexTransitive(Lower(chain[0].hosts[chain[0].taken]), Lower(chain[n - 1].hosts[chain[n - 1].taken]),
                      Lower(chain[n].hosts[chain[n].taken]));
      }
    }
  }

  /** Main result: actors that take their sets in `SortedHostSet` order never form a wait cycle, of any length. */
  lemma NoWaitCycle(cycle: seq<Actor>, wanted: seq<seq<string>>)
    requires |wanted| == |cycle| && forall i :: 0 <= i < |cycle| ==> cycle[i].hosts == SortedHostSet(wanted[i])
    ensures !WaitCycle(cycle)
  {
    forall i | 0 <= i < |cycle| ensures StrictlyAscending(cycle[i].hosts) { SortedHostSetExact(wanted[i]); }
    if WaitCycle(cycle) {
      var last := |cycle| - 1;
      forall i | 0 <= i < |cycle| ensures cycle[i].taken < |cycle[i].hosts| {
        if i < last { assert WaitsFor(cycle[i], cycle[i + 1]); }
      }
      ChainAscends(cycle, last);
      WaitAscends(cycle[last], cycle[0]);
      LexTotal(Lower(cycle[0].hosts[cycle[0].taken]), Lower(cycle[last].hosts[cycle[last].taken]));
      assert false;
    }
  }
}
