/** Counter baselines across ticks, and the rates computed from them. A sample's time is a real
    number of seconds; Go's maps are walked in whatever order they come. */
module NetworkRates {

  /** A pod as cAdvisor names it, on one node. */
  datatype PodKey = PodKey(ns: string, name: string)

  datatype NodePod = NodePod(node: string, pod: PodKey)

  datatype Sample = Sample(rx: int, tx: int, at: real)

  type Samples = map<NodePod, Sample>

  /** What one tick got: nothing when the listing failed; else the listed nodes, the scraped ones
      among them, and the samples of those. */
  datatype Tick = NoListing | Got(listed: set<string>, scraped: set<string>, cur: Samples)

  ghost predicate Proper(t: Tick) {
    t.Got? ==> t.scraped <= t.listed && forall k :: k in t.cur ==> k.node in t.scraped
  }

  // --------------------------------------------------------------- baselines

  predicate Outdated(t: Tick, k: NodePod)
    requires t.Got?
  {
    k.node !in t.listed || k.node in t.scraped
  }

  function Baselines(prev: Samples, t: Tick): Samples {
    match t
    case NoListing => prev
    case Got(_, _, cur) => (map k | k in prev && !Outdated(t, k) :: prev[k]) + cur
  }

  function AfterTicks(ts: seq<Tick>): Samples {
    if |ts| == 0 then map[] else Baselines(AfterTicks(ts[..|ts| - 1]), ts[|ts| - 1])
  }

  /** Tick `i` took the sample that counts for `k`: no later tick scraped its node again, and every
      later listing still has the node. */
  ghost predicate LatestSample(ts: seq<Tick>, k: NodePod, i: nat) {
    && i < |ts| && ts[i].Got? && k in ts[i].cur
    && forall j :: i < j < |ts| && ts[j].Got? ==> k.node in ts[j].listed && k.node !in ts[j].scraped
  }

  lemma LatestStep(ts: seq<Tick>, k: NodePod, i: nat)
    requires |ts| > 0 && Proper(ts[|ts| - 1])
    ensures var (before, t) := (ts[..|ts| - 1], ts[|ts| - 1]);
      LatestSample(ts, k, i) <==>
        if t.Got? && k in t.cur then i == |ts| - 1
        else LatestSample(before, k, i) && (t.Got? ==> k.node in t.listed && k.node !in t.scraped)
  {
    var before := ts[..|ts| - 1];
    assert forall j :: 0 <= j < |before| ==> before[j] == ts[j];
  }

  /** After any run of ticks, a baseline is the sample of the latest scrape of its node, present
      exactly when that scrape reported the pod and the node stayed listed since. */
  lemma {:induction false} BaselineIsLatest(ts: seq<Tick>, k: NodePod)
    requires forall i :: 0 <= i < |ts| ==> Proper(ts[i])
    ensures k in AfterTicks(ts) <==> exists i: nat :: LatestSample(ts, k, i)
    ensures forall i: nat :: LatestSample(ts, k, i) ==> k in AfterTicks(ts) && AfterTicks(ts)[k] == ts[i].cur[k]
    decreases |ts|
  {
    hide LatestSample;
    if |ts| == 0 {
      forall i: nat ensures !LatestSample(ts, k, i) {
        NoTicks(k, i);
      }
    } else {
      var before, t := ts[..|ts| - 1], ts[|ts| - 1];
      BaselineIsLatest(before, k);
      forall i: nat
        ensures LatestSample(ts, k, i) <==>
          if t.Got? && k in t.cur then i == |ts| - 1
          else LatestSample(before, k, i) && (t.Got? ==> !Outdated(t, k))
        ensures LatestSample(before, k, i) ==> i < |before|
      {
        LatestStep(ts, k, i);
        LatestBound(before, k, i);
      }
      if t.Got? && k in t.cur {
        assert LatestSample(ts, k, |ts| - 1);
      } else if i: nat :| LatestSample(before, k, i) {
        assert before[i] == ts[i];
        assert LatestSample(ts, k, i) <==> t.Got? ==> !Outdated(t, k);
      }
    }
  }

  lemma NoTicks(k: NodePod, i: nat)
    ensures !LatestSample([], k, i)
  {
  }

  lemma LatestBound(ts: seq<Tick>, k: NodePod, i: nat)
    ensures LatestSample(ts, k, i) ==> i < |ts|
  {
  }

  // ------------------------------------------------------------------- rates

  /** Counter change over elapsed seconds, whole bytes; a counter that went back rates zero. */
  function ClampRate(cur: int, prev: int, dt: real): int
    requires dt > 0.0
  {
    if cur - prev < 0 then 0 else ((cur - prev) as real / dt).Floor
  }

  function Rate(cur: int, prev: int, dt: real): int {
    if dt > 0.0 then ClampRate(cur, prev, dt) else 0
  }

  function RxOf(cur: Samples, prev: Samples): NodePod -> int {
    (k: NodePod) => if k in cur && k in prev then Rate(cur[k].rx, prev[k].rx, cur[k].at - prev[k].at) else 0
  }

  function TxOf(cur: Samples, prev: Samples): NodePod -> int {
    (k: NodePod) => if k in cur && k in prev then Rate(cur[k].tx, prev[k].tx, cur[k].at - prev[k].at) else 0
  }

  /** A rate is the whole number of bytes a second over the entire interval: at that rate the
      counter would have moved as far as it did, short of one byte a second. */
  lemma RateSpansInterval(cur: int, prev: int, dt: real)
    ensures Rate(cur, prev, dt) >= 0
    ensures dt > 0.0 && cur >= prev ==>
      var moved := Rate(cur, prev, dt) as real * dt; moved <= (cur - prev) as real < moved + dt
    ensures dt <= 0.0 || cur < prev ==> Rate(cur, prev, dt) == 0
  {
    if dt > 0.0 && cur >= prev {
      FloorSpans((cur - prev) as real, dt);
    }
  }

  lemma FloorSpans(d: real, dt: real)
    requires d >= 0.0 && dt > 0.0
    ensures (d / dt).Floor >= 0 && (d / dt).Floor as real * dt <= d < (d / dt).Floor as real * dt + dt
  {
    var q := d / dt;
    var f := q.Floor as real;
    var g := f + 1.0;
    NonNegative(d, dt);
    FloorNonNegative(q);
    assert d == q * dt;
    assert f <= q < g;
    ScaleLess(f, q, dt);
    ScaleLess(q, g, dt);
    assert d < g * dt;
    OneMore(f, dt);
  }

  lemma OneMore(f: real, dt: real)
    ensures (f + 1.0) * dt == f * dt + dt
  {
  }

  lemma FloorNonNegative(q: real)
    requires q >= 0.0
    ensures q.Floor >= 0
  {
  }

  lemma ScaleLess(a: real, b: real, c: real)
    requires c > 0.0
    ensures a <= b ==> a * c <= b * c
    ensures a < b ==> a * c < b * c
  {
  }

  lemma NonNegative(a: real, c: real)
    requires a >= 0.0 && c > 0.0
    ensures a / c >= 0.0
  {
  }

  // -------------------------------------------------------------------- sums

  /** The sum over a set, in whatever order. */
  ghost function Sum(ks: set<NodePod>, f: NodePod -> int): int {
    if ks == {} then 0
    else
      var k :| k in ks;
      f(k) + Sum(ks - {k}, f)
  }

  /** Any element may be taken first. */
  lemma {:induction false} SumPick(ks: set<NodePod>, f: NodePod -> int, k: NodePod)
    requires k in ks
    ensures Sum(ks, f) == f(k) + Sum(ks - {k}, f)
    decreases ks
  {
    var x :| x in ks && Sum(ks, f) == f(x) + Sum(ks - {x}, f);
    if x != k {
      SumPick(ks - {x}, f, k);
      SumPick(ks - {k}, f, x);
      assert ks - {x} - {k} == ks - {k} - {x};
    }
  }

  lemma SumAdd(done: set<NodePod>, f: NodePod -> int, k: NodePod)
    requires k !in done
    ensures Sum(done + {k}, f) == Sum(done, f) + f(k)
  {
    SumPick(done + {k}, f, k);
    assert done + {k} - {k} == done;
  }

  /** The samples of one pod, over all nodes that reported it. */
  ghost function Of(ks: set<NodePod>, p: PodKey): set<NodePod> {
    set k | k in ks && k.pod == p
  }

  datatype PodNet = PodNet(at: real, rx: int, tx: int)

  datatype Total = Total(rx: int, tx: int)

  ghost function Pods(ks: set<NodePod>): set<PodKey> {
    set k | k in ks :: k.pod
  }

  /** A pod's entry: the sums over its samples, dated by the oldest of them. */
  ghost predicate PodOk(cur: Samples, prev: Samples, ks: set<NodePod>, p: PodKey, e: PodNet) {
    && e.rx == Sum(Of(ks, p), RxOf(cur, prev)) && e.tx == Sum(Of(ks, p), TxOf(cur, prev))
    && (exists k :: k in ks && k in cur && k.pod == p && cur[k].at == e.at)
    && (forall k :: k in ks && k in cur && k.pod == p ==> e.at <= cur[k].at)
  }

  ghost predicate RatesOk(cur: Samples, prev: Samples, ks: set<NodePod>, byPod: map<PodKey, PodNet>, total: Total) {
    && byPod.Keys == Pods(ks)
    && total == Total(Sum(ks, RxOf(cur, prev)), Sum(ks, TxOf(cur, prev)))
    && forall p :: p in byPod ==> PodOk(cur, prev, ks, p, byPod[p])
  }

  /** networkRates, in any iteration order. Samples are taken after the zero time. */
  method NetworkRates(cur: Samples, prev: Samples) returns (byPod: map<PodKey, PodNet>, total: Total)
    requires forall k :: k in cur ==> cur[k].at > 0.0
    ensures RatesOk(cur, prev, cur.Keys, byPod, total)
  {
    hide RatesOk;
    byPod, total := map[], Total(0, 0);
    var todo := cur.Keys;
    ghost var done: set<NodePod> := {};
    NothingRated(cur, prev);
    while todo != {}
      invariant todo == cur.Keys - done && done <= cur.Keys && RatesOk(cur, prev, done, byPod, total)
      decreases todo
    {
      var k :| k in todo;
      var rx, tx := RxOf(cur, prev)(k), TxOf(cur, prev)(k);
      var pod := if k.pod in byPod then byPod[k.pod] else PodNet(0.0, 0, 0);
      pod := PodNet(if pod.at == 0.0 || cur[k].at < pod.at then cur[k].at else pod.at, pod.rx + rx, pod.tx + tx);
      RateOne(cur, prev, done, byPod, total, k);
      total := Total(total.rx + rx, total.tx + tx);
      byPod := byPod[k.pod := pod];
      todo, done := todo - {k}, done + {k};
    }
    assert done == cur.Keys;
  }

  lemma NothingRated(cur: Samples, prev: Samples)
    ensures RatesOk(cur, prev, {}, map[], Total(0, 0))
  {
  }

  function Joined(e: PodNet, at: real, rx: int, tx: int): PodNet {
    PodNet(if e.at == 0.0 || at < e.at then at else e.at, e.rx + rx, e.tx + tx)
  }

  lemma OtherPod(cur: Samples, prev: Samples, done: set<NodePod>, p: PodKey, e: PodNet, k: NodePod)
    requires PodOk(cur, prev, done, p, e) && p != k.pod
    ensures PodOk(cur, prev, done + {k}, p, e)
  {
    hide Sum;
    assert Of(done + {k}, p) == Of(done, p);
  }

  lemma SamePod(cur: Samples, prev: Samples, done: set<NodePod>, e: PodNet, k: NodePod)
    requires k in cur && k !in done && cur[k].at > 0.0 && (k.pod in Pods(done) ==> PodOk(cur, prev, done, k.pod, e))
    requires k.pod !in Pods(done) ==> e == PodNet(0.0, 0, 0)
    requires forall x :: x in done && x in cur ==> cur[x].at > 0.0
    ensures PodOk(cur, prev, done + {k}, k.pod, Joined(e, cur[k].at, RxOf(cur, prev)(k), TxOf(cur, prev)(k)))
  {
    hide Sum;
    var rx, tx := RxOf(cur, prev), TxOf(cur, prev);
    assert Of(done + {k}, k.pod) == Of(done, k.pod) + {k};
    SumAdd(Of(done, k.pod), rx, k);
    SumAdd(Of(done, k.pod), tx, k);
    if k.pod !in Pods(done) {
      assert Of(done, k.pod) == {};
      SumNone(rx);
      SumNone(tx);
      assert k in done + {k} && cur[k].at == Joined(e, cur[k].at, rx(k), tx(k)).at;
    } else {
      var x :| x in done && x in cur && x.pod == k.pod && cur[x].at == e.at;
      assert x in done + {k} && k in done + {k};
    }
  }

  lemma SumNone(f: NodePod -> int)
    ensures Sum({}, f) == 0
  {
  }

  lemma RateOne(cur: Samples, prev: Samples, done: set<NodePod>, byPod: map<PodKey, PodNet>, total: Total, k: NodePod)
    requires RatesOk(cur, prev, done, byPod, total) && k in cur && k !in done
    requires forall x :: x in cur ==> cur[x].at > 0.0
    ensures var (rx, tx) := (RxOf(cur, prev)(k), TxOf(cur, prev)(k));
      var e := Joined(if k.pod in byPod then byPod[k.pod] else PodNet(0.0, 0, 0), cur[k].at, rx, tx);
      RatesOk(cur, prev, done + {k}, byPod[k.pod := e], Total(total.rx + rx, total.tx + tx))
  {
    hide PodOk, Sum, RxOf, TxOf;
    SumAdd(done, RxOf(cur, prev), k);
    SumAdd(done, TxOf(cur, prev), k);
    SamePod(cur, prev, done, if k.pod in byPod then byPod[k.pod] else PodNet(0.0, 0, 0), k);
    forall p | p in byPod && p != k.pod ensures PodOk(cur, prev, done + {k}, p, byPod[p]) {
      OtherPod(cur, prev, done, p, byPod[p], k);
    }
    assert Pods(done + {k}) == Pods(done) + {k.pod};
  }

  class NetworkPoller {
    var prev: Samples

    constructor ()
      ensures prev == map[]
    {
      prev := map[];
    }

    /** The end of a tick: forget outdated samples, keep missed nodes' last ones, store the new. */
    method StoreSamples(t: Tick)
      modifies this
      ensures prev == Baselines(old(prev), t)
    {
      if t.NoListing? {
        return;
      }
      ghost var prev0 := prev;
      var todo := prev.Keys;
      while todo != {}
        invariant todo <= prev0.Keys && prev.Keys <= prev0.Keys
        invariant forall k :: k in prev0 ==> (k in prev <==> k in todo || !Outdated(t, k))
        invariant forall k :: k in prev ==> prev[k] == prev0[k]
        decreases todo
      {
        var k :| k in todo;
        if Outdated(t, k) {
          prev := prev - {k};
        }
        todo := todo - {k};
      }
      prev := prev + t.cur;
    }

    /** One tick after its scrape: rates against the baselines as they were, then the baselines. */
    method Tick(t: Tick) returns (byPod: map<PodKey, PodNet>, total: Total)
      requires t.Got? ==> forall k :: k in t.cur ==> t.cur[k].at > 0.0
      modifies this
      ensures prev == Baselines(old(prev), t)
      ensures if t.Got? then RatesOk(t.cur, old(prev), t.cur.Keys, byPod, total) else byPod == map[]
    {
      hide RatesOk;
      byPod, total := map[], Total(0, 0);
      if t.Got? {
        byPod, total := NetworkRates(t.cur, prev);
      }
      StoreSamples(t);
    }
  }

  /** The sum of a set split by pod: the cluster's total is the sum of its pods'. */
  ghost function SumPods(ps: set<PodKey>, ks: set<NodePod>, f: NodePod -> int): int {
    if ps == {} then 0
    else
      var p :| p in ps;
      Sum(Of(ks, p), f) + SumPods(ps - {p}, ks, f)
  }

  lemma {:induction false} SumUnion(a: set<NodePod>, b: set<NodePod>, f: NodePod -> int)
    requires a !! b
    ensures Sum(a + b, f) == Sum(a, f) + Sum(b, f)
    decreases b
  {
    if b == {} {
      assert a + b == a;
    } else {
      var k :| k in b;
      SumUnion(a, b - {k}, f);
      SumPick(b, f, k);
      SumPick(a + b, f, k);
      assert a + b - {k} == a + (b - {k});
    }
  }

  ghost function OfAny(ks: set<NodePod>, ps: set<PodKey>): set<NodePod> {
    set k | k in ks && k.pod in ps
  }

  /** Whatever order the pods are listed in. */
  lemma {:induction false} TotalIsSumOfPods(ps: set<PodKey>, ks: set<NodePod>, f: NodePod -> int)
    ensures SumPods(ps, ks, f) == Sum(OfAny(ks, ps), f)
    decreases ps
  {
    hide Sum;
    if ps == {} {
      assert OfAny(ks, ps) == {};
      SumNone(f);
    } else {
      var p :| p in ps && SumPods(ps, ks, f) == Sum(Of(ks, p), f) + SumPods(ps - {p}, ks, f);
      TotalIsSumOfPods(ps - {p}, ks, f);
      var rest := OfAny(ks, ps - {p});
      SumUnion(Of(ks, p), rest, f);
      assert OfAny(ks, ps) == Of(ks, p) + rest;
    }
  }

  /** The cluster's rate is the sum of the pods' rates. */
  lemma ClusterIsSumOfPods(cur: Samples, prev: Samples, byPod: map<PodKey, PodNet>, total: Total)
    requires RatesOk(cur, prev, cur.Keys, byPod, total)
    ensures total.rx == SumPods(byPod.Keys, cur.Keys, RxOf(cur, prev))
    ensures total.tx == SumPods(byPod.Keys, cur.Keys, TxOf(cur, prev))
  {
    hide Sum, SumPods, PodOk;
    TotalIsSumOfPods(byPod.Keys, cur.Keys, RxOf(cur, prev));
    TotalIsSumOfPods(byPod.Keys, cur.Keys, TxOf(cur, prev));
    assert OfAny(cur.Keys, byPod.Keys) == cur.Keys;
  }

  /** Rates in a run: each spans the whole interval since the latest scrape of its node, and a pod
      that scrape did not report, or whose node left the listing since, starts from zero. */
  lemma RateSinceLatest(ts: seq<Tick>, cur: Samples, k: NodePod)
    requires (forall i :: 0 <= i < |ts| ==> Proper(ts[i])) && k in cur
    ensures forall i: nat :: LatestSample(ts, k, i) ==>
      RxOf(cur, AfterTicks(ts))(k) == Rate(cur[k].rx, ts[i].cur[k].rx, cur[k].at - ts[i].cur[k].at)
      && TxOf(cur, AfterTicks(ts))(k) == Rate(cur[k].tx, ts[i].cur[k].tx, cur[k].at - ts[i].cur[k].at)
    ensures (forall i: nat :: !LatestSample(ts, k, i)) ==>
      RxOf(cur, AfterTicks(ts))(k) == 0 && TxOf(cur, AfterTicks(ts))(k) == 0
  {
    hide Rate, AfterTicks, Proper;
    BaselineIsLatest(ts, k);
  }
}
