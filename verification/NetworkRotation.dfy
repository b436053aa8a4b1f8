/** Which nodes a scrape gets to first. Four workers take jobs in order, a tick may run out of
    time, and a cursor kept by node name moves the start on, so nobody waits forever. */
module NetworkRotation {
  import opened Ordering

  const WORKERS := 4

  function ByName(): (string, string) -> bool {
    (a: string, b: string) => LexLess(a, b)
  }

  lemma ByNameTotal(d: set<string>)
    ensures StrictTotal(ByName(), d)
  {
    var less := ByName();
    forall a, b | a in d && b in d
      ensures (a != b <==> less(a, b) || less(b, a)) && !(less(a, b) && less(b, a))
    {
      LexTrichotomy(a, b);
    }
    forall a, b, c | a in d && b in d && c in d && less(a, b) && less(b, c) ensures less(a, c) {
      LexTransitive(a, b, c);
    }
  }

  /** slices.BinarySearch: the first name not before `next`. */
  function LowerBound(nodes: seq<string>, next: string): (k: nat)
    ensures k <= |nodes| && (forall i :: 0 <= i < k ==> LexLess(nodes[i], next))
    ensures k < |nodes| ==> !LexLess(nodes[k], next)
  {
    if |nodes| > 0 && LexLess(nodes[0], next) then 1 + LowerBound(nodes[1..], next) else 0
  }

  function StartAt(nodes: seq<string>, next: string): (k: nat)
    requires |nodes| > 0
    ensures k < |nodes|
  {
    if LowerBound(nodes, next) == |nodes| then 0 else LowerBound(nodes, next)
  }

  /** The job list of a tick: all nodes by name, from the cursor on and around. */
  function Jobs(nodes: seq<string>, next: string): seq<string> {
    if |nodes| == 0 then [] else nodes[StartAt(nodes, next)..] + nodes[..StartAt(nodes, next)]
  }

  /** The cursor moves on only if the tick still had time when it started. */
  function Moved(nodes: seq<string>, next: string, live: bool): string {
    if |nodes| > 0 && live then nodes[(StartAt(nodes, next) + WORKERS) % |nodes|] else next
  }

  /** What the workers take first. */
  function FirstGroup(jobs: seq<string>): seq<string> {
    if |jobs| <= WORKERS then jobs else jobs[..WORKERS]
  }

  lemma {:induction false} LowerBoundIs(nodes: seq<string>, next: string, k: nat)
    requires k <= |nodes| && (forall i :: 0 <= i < k ==> LexLess(nodes[i], next))
    requires k < |nodes| ==> !LexLess(nodes[k], next)
    ensures LowerBound(nodes, next) == k
    decreases k
  {
    if k > 0 { LowerBoundIs(nodes[1..], next, k - 1); }
  }

  lemma LowerBoundAt(nodes: seq<string>, k: nat)
    requires k < |nodes| && Sorted(ByName(), nodes)
    ensures LowerBound(nodes, nodes[k]) == k
  {
    LexTrichotomy(nodes[k], nodes[k]);
    forall i | 0 <= i < k ensures LexLess(nodes[i], nodes[k]) {
      assert ByName()(nodes[i], nodes[k]);
    }
    LowerBoundIs(nodes, nodes[k], k);
  }

  /** Each listed node is queued once, whatever the cursor and the order of the listing. */
  lemma JobsPermute(listing: seq<string>, next: string)
    ensures multiset(Jobs(SortSeq(ByName(), listing), next)) == multiset(listing)
  {
    var nodes := SortSeq(ByName(), listing);
    SortSeqKeepsAll(ByName(), listing);
    if |nodes| > 0 {
      var k := StartAt(nodes, next);
      assert nodes == nodes[..k] + nodes[k..];
    }
  }

  // ----------------------------------------------------------------- the class

  class NetworkPoller {
    var nextNode: string

    constructor ()
      ensures nextNode == ""
    {
      nextNode := "";
    }

    /** The queueing part of scrapeNodes. */
    method QueueNodes(listing: seq<string>, live: bool) returns (jobs: seq<string>)
      requires |Elements(listing)| == |listing|
      modifies this
      ensures var nodes := SortSeq(ByName(), listing);
        jobs == Jobs(nodes, old(nextNode)) && nextNode == Moved(nodes, old(nextNode), live)
      ensures multiset(jobs) == multiset(listing)
    {
      hide LowerBound, Sorted, SortSeq;
      var nodes := SortSeq(ByName(), listing);
      ByNameTotal(Elements(listing));
      SortSeqOrders(ByName(), listing);
      var start := BinarySearch(nodes, nextNode);
      if start == |nodes| {
        start := 0;
      }
      if |nodes| > 0 && live {
        nextNode := nodes[(start + WORKERS) % |nodes|];
      }
      jobs := Rotate(nodes, start);
      JobsPermute(listing, old(nextNode));
    }
  }

  method BinarySearch(nodes: seq<string>, next: string) returns (k: nat)
    requires Sorted(ByName(), nodes)
    ensures k == LowerBound(nodes, next)
  {
    forall i, j | 0 <= i < j < |nodes| && LexLess(nodes[j], next) ensures LexLess(nodes[i], next) {
      assert ByName()(nodes[i], nodes[j]);
      LexTransitive(nodes[i], nodes[j], next);
    }
    k := SearchFirst(nodes, name => LexLess(name, next));
    LowerBoundIs(nodes, next, k);
  }

  method Rotate(nodes: seq<string>, start: nat) returns (jobs: seq<string>)
    requires start < |nodes| || start == |nodes| == 0
    ensures jobs == nodes[start..] + nodes[..start]
  {
    jobs := [];
    for i := 0 to |nodes|
      invariant jobs == (nodes[start..] + nodes[..start])[..i]
    {
      IndexWraps(start, i, |nodes|);
      jobs := jobs + [nodes[(start + i) % |nodes|]];
    }
  }

  lemma IndexWraps(start: nat, i: nat, n: nat)
    requires start < n && i <= n
    ensures (start + i) % n == if start + i < n then start + i else start + i - n
  {
    if start + i >= n {
      assert (start + i) % n == (start + i - n) % n by { ModMinus(start + i, n); }
      SmallMod(start + i - n, n);
    } else {
      SmallMod(start + i, n);
    }
  }

  lemma SmallMod(x: nat, n: nat)
    requires x < n
    ensures x % n == x
  {
  }

  lemma ModMinus(x: int, n: int)
    requires 0 < n <= x
    ensures x % n == (x - n) % n
  {
    var q, r := (x - n) / n, (x - n) % n;
    assert x == n * (q + 1) + r;
    var d := x / n - (q + 1);
    assert n * d == r - x % n by { assert x == n * (x / n) + x % n; }
    assert d >= 1 ==> n * d >= n;
    assert d <= -1 ==> n * d <= -n;
  }

  // -------------------------------------------------------- starvation freedom

  /** One tick: the nodes in whatever order the API listed them. */
  datatype Tick = Tick(listing: seq<string>, live: bool)

  ghost predicate Lists(t: Tick, d: set<string>) {
    Elements(t.listing) == d && |t.listing| == |d|
  }

  /** The first groups of the ticks that had time to start, from cursor `next` on. */
  function Groups(ticks: seq<Tick>, next: string): seq<seq<string>> {
    if |ticks| == 0 then []
    else
      var nodes := SortSeq(ByName(), ticks[0].listing);
      var rest := Groups(ticks[1..], Moved(nodes, next, ticks[0].live));
      if ticks[0].live then [FirstGroup(Jobs(nodes, next))] + rest else rest
  }

  function LiveCount(ticks: seq<Tick>): nat {
    if |ticks| == 0 then 0 else (if ticks[0].live then 1 else 0) + LiveCount(ticks[1..])
  }

  /** How far along the job list the p-th node is when it starts at `start`. */
  function Distance(p: nat, start: nat, n: nat): int {
    if p >= start then p - start else p - start + n
  }

  lemma InFirstGroup(nodes: seq<string>, next: string, p: nat)
    requires p < |nodes| && Distance(p, StartAt(nodes, next), |nodes|) < WORKERS
    ensures nodes[p] in FirstGroup(Jobs(nodes, next))
  {
    var jobs, d := Jobs(nodes, next), Distance(p, StartAt(nodes, next), |nodes|);
    assert jobs[d] == nodes[p];
    assert FirstGroup(jobs)[d] == nodes[p];
  }

  lemma GetsCloser(nodes: seq<string>, next: string, p: nat)
    requires p < |nodes| && Sorted(ByName(), nodes)
    requires Distance(p, StartAt(nodes, next), |nodes|) >= WORKERS
    ensures var n, s := |nodes|, StartAt(nodes, next);
      Distance(p, StartAt(nodes, Moved(nodes, next, true)), n) == Distance(p, s, n) - WORKERS
  {
    var n, s := |nodes|, StartAt(nodes, next);
    IndexWraps(s, WORKERS, n);
    LowerBoundAt(nodes, (s + WORKERS) % n);
  }

  /** A node is in the first group of one of the live ticks once there are enough of them. */
  lemma {:induction false} Reached(nodes: seq<string>, ticks: seq<Tick>, next: string, p: nat)
    requires p < |nodes| && IsOrder(ByName(), nodes, Elements(nodes))
    requires forall i :: 0 <= i < |ticks| ==> Lists(ticks[i], Elements(nodes))
    requires Distance(p, StartAt(nodes, next), |nodes|) < WORKERS * LiveCount(ticks)
    ensures exists g :: g in Groups(ticks, next) && nodes[p] in g
    decreases |ticks|
  {
    hide StartAt, Jobs, Elements, Lists, FirstGroup;
    var t, less := ticks[0], ByName();
    SameOrder(nodes, t);
    if t.live && Distance(p, StartAt(nodes, next), |nodes|) < WORKERS {
      InFirstGroup(nodes, next, p);
      assert Groups(ticks, next)[0] == FirstGroup(Jobs(nodes, next));
    } else {
      if t.live { GetsCloser(nodes, next, p); }
      var moved := Moved(nodes, next, t.live);
      Reached(nodes, ticks[1..], moved, p);
      var g :| g in Groups(ticks[1..], moved) && nodes[p] in g;
      assert g in Groups(ticks, next);
    }
  }

  lemma SameOrder(nodes: seq<string>, t: Tick)
    requires IsOrder(ByName(), nodes, Elements(nodes)) && Lists(t, Elements(nodes))
    ensures SortSeq(ByName(), t.listing) == nodes
  {
    ByNameTotal(Elements(nodes));
    SortSeqOrders(ByName(), t.listing);
    OrderUnique(ByName(), SortSeq(ByName(), t.listing), nodes, Elements(nodes));
  }

  lemma {:induction false} GroupsAreSmall(ticks: seq<Tick>, next: string)
    ensures forall g :: g in Groups(ticks, next) ==> |g| <= 4
    decreases |ticks|
  {
    if |ticks| > 0 {
      GroupsAreSmall(ticks[1..], Moved(SortSeq(ByName(), ticks[0].listing), next, ticks[0].live));
    }
  }

  /** Starvation freedom: over an unchanged set of nodes, any run with a quarter as many live
      ticks, rounded up, puts every node in some first group, wherever the cursor stood, in
      whatever order the API listed them, and whatever ticks without time came in between. */
  lemma NobodyStarves(d: set<string>, ticks: seq<Tick>, next: string, node: string)
    requires forall i :: 0 <= i < |ticks| ==> Lists(ticks[i], d)
    requires node in d && |d| <= 4 * LiveCount(ticks)
    ensures exists g :: g in Groups(ticks, next) && node in g && |g| <= 4
  {
    GroupsAreSmall(ticks, next);
    assert |d| > 0;
    var nodes := SortSeq(ByName(), ticks[0].listing);
    ByNameTotal(d);
    SortSeqOrders(ByName(), ticks[0].listing);
    OrderSize(ByName(), nodes, d);
    assert node in Elements(nodes);
    var p :| 0 <= p < |nodes| && nodes[p] == node;
    Reached(nodes, ticks, next, p);
  }
}
