/** What the tables show, said of the rows' own fields: which pods a listing has, and for any two of
    them why one is above the other. No comparison function is named here. */
module PodListing {
  import opened Ordering
  import opened PodRows
  import opened PodOrder
  import opened PodTable
  import opened Options

  // ------------------------------------------------------------ tie-breakers

  ghost predicate NamesBelow(a: PodRow, b: PodRow) {
    || StrBelow(a.inf.ns, b.inf.ns)
    || (a.inf.ns == b.inf.ns && StrBelow(a.inf.name, b.inf.name))
    || (a.inf.ns == b.inf.ns && a.inf.name == b.inf.name && StrBelow(a.uid, b.uid))
  }

  ghost predicate TextThenNames(s: string, t: string, a: PodRow, b: PodRow) {
    StrBelow(s, t) || (s == t && NamesBelow(a, b))
  }

  ghost predicate NumberThenNames(m: int, n: int, a: PodRow, b: PodRow) {
    m < n || (m == n && NamesBelow(a, b))
  }

  /** A reading, or -1 when there is none. */
  predicate Shows(has: bool, value: int, shown: int) {
    shown == if has then value else -1
  }

  /** `p` is a row's memory share in per cent, as 64-bit arithmetic has it: of the hundredfold usage
      wrapped to 64 bits, divided towards zero by the limit; -1 without a reading or a limit. */
  ghost predicate Share(r: PodRow, p: int) {
    if !r.metrics.has || r.inf.memLimit <= 0 then p == -1
    else exists w, turns :: Wraps(r.metrics.memBytes * 100, w, turns) && Quotient(w, r.inf.memLimit, p)
  }

  predicate Wraps(x: int, w: int, turns: int) {
    -0x8000_0000_0000_0000 <= w < 0x8000_0000_0000_0000 && x == w + turns * 0x1_0000_0000_0000_0000
  }

  predicate Quotient(w: int, limit: int, p: int) {
    if w >= 0 then p >= 0 && p * limit <= w < (p + 1) * limit
    else p <= 0 && (p - 1) * limit < w <= p * limit
  }

  /** Row `a` stands above row `b` in an ascending listing sorted by `k`. */
  ghost predicate Above(a: PodRow, b: PodRow, k: SortKey) {
    match k
    case SortNamespace => TextThenNames(a.inf.ns, b.inf.ns, a, b)
    case SortName => TextThenNames(a.inf.name, b.inf.name, a, b)
    case SortStatus => TextThenNames(a.inf.phase, b.inf.phase, a, b)
    case SortNode => TextThenNames(a.inf.node, b.inf.node, a, b)
    case SortRestarts => NumberThenNames(a.inf.restarts, b.inf.restarts, a, b)
    case SortAge => NumberThenNames(a.inf.createdAt, b.inf.createdAt, a, b)
    case SortCPU =>
      forall m, n :: Shows(a.metrics.has, a.metrics.cpuMilli, m) && Shows(b.metrics.has, b.metrics.cpuMilli, n) ==>
        NumberThenNames(m, n, a, b)
    case SortMem =>
      forall m, n :: Shows(a.metrics.has, a.metrics.memBytes, m) && Shows(b.metrics.has, b.metrics.memBytes, n) ==>
        NumberThenNames(m, n, a, b)
    case SortMemPct =>
      forall m, n :: Share(a, m) && Share(b, n) ==> NumberThenNames(m, n, a, b)
    case SortNetRX =>
      forall m, n :: Shows(a.net.has, a.net.rx, m) && Shows(b.net.has, b.net.rx, n) ==> NumberThenNames(m, n, a, b)
    case SortNetTX =>
      forall m, n :: Shows(a.net.has, a.net.tx, m) && Shows(b.net.has, b.net.tx, n) ==> NumberThenNames(m, n, a, b)
  }

  // --------------------------------------------------------- the percentage

  lemma SignOf(d: int, n: int)
    requires n > 0 && d * n > 0
    ensures d > 0
  {
  }

  lemma Factor(a: int, b: int, n: int)
    requires n > 0 && a * n < b * n
    ensures a < b
  {
    assert (b - a) * n == b * n - a * n;
    SignOf(b - a, n);
  }

  lemma WrapsOnce(x: int, w: int, turns: int)
    requires Wraps(x, w, turns)
    ensures w == Wrap64(x)
  {
  }

  lemma WrapsSome(x: int)
    ensures Wraps(x, Wrap64(x), (x + 0x8000_0000_0000_0000) / 0x1_0000_0000_0000_0000)
  {
  }

  lemma QuotientUnique(w: int, limit: int, p: int, q: int)
    requires limit > 0 && Quotient(w, limit, p) && Quotient(w, limit, q)
    ensures p == q
  {
    if w >= 0 {
      Factor(p, q + 1, limit);
      Factor(q, p + 1, limit);
    } else {
      Factor(p - 1, q, limit);
      Factor(q - 1, p, limit);
    }
  }

  lemma DivUp(w: int, limit: int)
    requires limit > 0 && w >= 0
    ensures w / limit >= 0 && (w / limit) * limit <= w < (w / limit + 1) * limit
  {
    assert w == limit * (w / limit) + w % limit;
    assert (w / limit + 1) * limit == limit * (w / limit) + limit;
  }

  lemma TruncDivides(w: int, limit: int)
    requires limit > 0
    ensures Quotient(w, limit, TruncDiv(w, limit))
  {
    if w >= 0 {
      DivUp(w, limit);
    } else {
      var q := (-w) / limit;
      DivUp(-w, limit);
      assert (-q) * limit == -(q * limit) && (-q - 1) * limit == -((q + 1) * limit);
    }
  }

  lemma ShareIsOne(r: PodRow, p: int)
    ensures Share(r, p) <==> p == MemPct(r)
  {
    hide Quotient, TruncDiv, Wraps, Wrap64;
    if r.metrics.has && r.inf.memLimit > 0 {
      var x, limit := r.metrics.memBytes * 100, r.inf.memLimit;
      WrapsSome(x);
      TruncDivides(Wrap64(x), limit);
      forall w, t | Wraps(x, w, t) && Quotient(w, limit, p) ensures p == MemPct(r) {
        WrapsOnce(x, w, t);
        QuotientUnique(w, limit, p, TruncDiv(w, limit));
      }
    }
  }

  // ------------------------------------------------------------- the listing

  /** The order of two rows, spelled out, is the comparison the sort used. */
  lemma AboveIsLess(a: PodRow, b: PodRow, k: SortKey)
    ensures LessBy(a, b, k) <==> Above(a, b, k)
  {
    hide LexLess, StrBelow, Share, MemPct;
    LexMeans(a.inf.ns, b.inf.ns);
    LexMeans(a.inf.name, b.inf.name);
    LexMeans(a.uid, b.uid);
    LexMeans(a.inf.phase, b.inf.phase);
    LexMeans(a.inf.node, b.inf.node);
    LexTrichotomy(a.inf.ns, b.inf.ns);
    LexTrichotomy(a.inf.name, b.inf.name);
    LexTrichotomy(a.inf.phase, b.inf.phase);
    LexTrichotomy(a.inf.node, b.inf.node);
    ShareIsOne(a, MemPct(a));
    ShareIsOne(b, MemPct(b));
    forall m, n | Share(a, m) && Share(b, n) ensures m == MemPct(a) && n == MemPct(b) {
      ShareIsOne(a, m);
      ShareIsOne(b, n);
    }
    assert Shows(a.metrics.has, a.metrics.cpuMilli, if a.metrics.has then a.metrics.cpuMilli else -1);
    assert Shows(b.metrics.has, b.metrics.cpuMilli, if b.metrics.has then b.metrics.cpuMilli else -1);
    assert Shows(a.metrics.has, a.metrics.memBytes, if a.metrics.has then a.metrics.memBytes else -1);
    assert Shows(b.metrics.has, b.metrics.memBytes, if b.metrics.has then b.metrics.memBytes else -1);
    assert Shows(a.net.has, a.net.rx, if a.net.has then a.net.rx else -1);
    assert Shows(b.net.has, b.net.rx, if b.net.has then b.net.rx else -1);
    assert Shows(a.net.has, a.net.tx, if a.net.has then a.net.tx else -1);
    assert Shows(b.net.has, b.net.tx, if b.net.has then b.net.tx else -1);
  }

  lemma {:induction false} RunFiled(ops: seq<Op>)
    requires forall i :: 0 <= i < |ops| ==> ProperOp(ops[i])
    ensures WellFiled(AfterAll(ops).pods)
    decreases |ops|
  {
    hide Apply, ProperOp;
    if |ops| > 0 {
      RunFiled(ops[..|ops| - 1]);
      StepFiled(AfterAll(ops[..|ops| - 1]), ops[|ops| - 1]);
    }
  }

  lemma StepFiled(f: Facts, op: Op)
    requires WellFiled(f.pods) && ProperOp(op)
    ensures WellFiled(Apply(f, op).pods)
  {
    hide MetricRow, NetRow;
    if op.MetricsSnapshot? || op.NetworkSweep? {
      forall u | u in f.pods ensures Apply(f, op).pods[u].uid == u {
        SweepsKeepInformerRow(f.pods[u], if op.MetricsSnapshot? then op.byName else map[],
                              if op.NetworkSweep? then op.nets else map[]);
      }
    }
  }

  /** A pod is listed exactly when it is in the picked namespace and its namespace or name contains
      the filter, in lower case. */
  lemma Listed(mt: Matcher, f: Facts, r: Reading, u: Uid)
    requires Agrees(mt, f, ReadTable, r)
    ensures u in r.uids <==>
      && u in f.pods
      && (f.namespace == "" || f.pods[u].inf.ns == f.namespace)
      && (mt.lower(f.filter) == ""
          || mt.contains(mt.lower(f.pods[u].inf.ns), mt.lower(f.filter))
          || mt.contains(mt.lower(f.pods[u].inf.name), mt.lower(f.filter)))
  {
    assert u in r.uids <==> u in Elements(r.uids);
  }

  /** Of two listed pods the upper one has the smaller value in the sorted column, or the larger one
      when descending; equal values are told apart by namespace, then name, then UID. */
  lemma ListedInOrder(mt: Matcher, f: Facts, r: Reading, i: nat, j: nat)
    requires WellFiled(f.pods) && Agrees(mt, f, ReadTable, r) && i < j < |r.uids|
    ensures r.uids[i] in f.pods && r.uids[j] in f.pods && r.uids[i] != r.uids[j]
    ensures var (upper, lower) := (f.pods[r.uids[i]], f.pods[r.uids[j]]);
      if f.desc then Above(lower, upper, f.sortKey) else Above(upper, lower, f.sortKey)
  {
    hide LessBy, Above;
    var a, b := r.uids[i], r.uids[j];
    assert a in Elements(r.uids) && b in Elements(r.uids);
    PodLessAt(f.pods, f.sortKey, f.desc, a, b);
    AboveIsLess(f.pods[a], f.pods[b], f.sortKey);
    AboveIsLess(f.pods[b], f.pods[a], f.sortKey);
    LessByTrichotomy(f.pods[a], f.pods[a], f.sortKey);
  }

  /** The count is the listing's length. */
  lemma CountedIsListed(mt: Matcher, f: Facts, r: Reading, c: Reading)
    requires WellFiled(f.pods) && Agrees(mt, f, ReadTable, r) && Agrees(mt, f, ReadCount, c)
    ensures c.n == |r.uids|
  {
    hide PodLess, LessBy;
    var d := Matching(mt, f.pods, KeyOf(f));
    PodLessStrictTotal(f.pods, f.sortKey, f.desc, d);
    OrderSize(PodLess(f.pods, f.sortKey, f.desc), r.uids, d);
  }

  // ----------------------------------------------------------- the dashboard

  /** Larger value first; equal values by name, then namespace, then UID. */
  ghost predicate Heavier(va: int, vb: int, a: PodRow, b: PodRow) {
    || va > vb
    || (va == vb && StrBelow(a.inf.name, b.inf.name))
    || (va == vb && a.inf.name == b.inf.name && StrBelow(a.inf.ns, b.inf.ns))
    || (va == vb && a.inf.name == b.inf.name && a.inf.ns == b.inf.ns && StrBelow(a.uid, b.uid))
  }

  /** The dashboard ranks the pods with metrics in its namespace: the picked one, else the one the
      watch is restricted to, else all. */
  lemma Ranked(mt: Matcher, f: Facts, r: Reading, u: Uid)
    requires Agrees(mt, f, ReadDashboard, r)
    ensures u in r.cpu <==> u in r.mem
    ensures u in r.cpu <==>
      && u in f.pods && f.pods[u].metrics.has
      && (if f.namespace != "" then f.pods[u].inf.ns == f.namespace
          else f.watchNamespace == "" || f.pods[u].inf.ns == f.watchNamespace)
  {
    assert u in r.cpu <==> u in Elements(r.cpu);
    assert u in r.mem <==> u in Elements(r.mem);
  }

  lemma RankedInOrder(mt: Matcher, f: Facts, r: Reading, i: nat, j: nat)
    requires WellFiled(f.pods) && Agrees(mt, f, ReadDashboard, r)
    ensures i < j < |r.cpu| ==> r.cpu[i] in f.pods && r.cpu[j] in f.pods && r.cpu[i] != r.cpu[j]
    ensures i < j < |r.cpu| ==>
      var (a, b) := (f.pods[r.cpu[i]], f.pods[r.cpu[j]]); Heavier(a.metrics.cpuMilli, b.metrics.cpuMilli, a, b)
    ensures i < j < |r.mem| ==> r.mem[i] in f.pods && r.mem[j] in f.pods && r.mem[i] != r.mem[j]
    ensures i < j < |r.mem| ==>
      var (a, b) := (f.pods[r.mem[i]], f.pods[r.mem[j]]); Heavier(a.metrics.memBytes, b.metrics.memBytes, a, b)
  {
    hide Heavier;
    if i < j < |r.cpu| { HeavierAt(f.pods, Measured(f.pods, Scope(f)), false, r.cpu, i, j); }
    if i < j < |r.mem| { HeavierAt(f.pods, Measured(f.pods, Scope(f)), true, r.mem, i, j); }
  }

  lemma HeavierAt(pods: map<Uid, PodRow>, d: set<Uid>, memory: bool, s: seq<Uid>, i: nat, j: nat)
    requires WellFiled(pods) && d <= pods.Keys && IsOrder(DashLess(pods, memory), s, d) && i < j < |s|
    ensures s[i] in pods && s[j] in pods && s[i] != s[j]
    ensures var (a, b) := (pods[s[i]], pods[s[j]]);
      if memory then Heavier(a.metrics.memBytes, b.metrics.memBytes, a, b)
      else Heavier(a.metrics.cpuMilli, b.metrics.cpuMilli, a, b)
  {
    hide LexLess, StrBelow;
    assert s[i] in Elements(s) && s[j] in Elements(s);
    var a, b := pods[s[i]], pods[s[j]];
    DashLessAt(pods, memory, s[i], s[j]);
    DashTrichotomy(a, a, memory);
    LexMeans(a.inf.ns, b.inf.ns);
    LexMeans(a.inf.name, b.inf.name);
    LexMeans(a.uid, b.uid);
  }

  // -------------------------------------------------------------- the counts

  lemma CountIs(done: set<Uid>, p: Uid -> bool, s: set<Uid>)
    requires forall u :: u in s <==> u in done && p(u)
    ensures CountIf(done, p) == |s|
  {
    assert s == set u | u in done && p(u);
  }

  /** Running, pending and failed pods are those whose phase says so. */
  lemma PhasesCount(mt: Matcher, f: Facts, r: Reading)
    requires Agrees(mt, f, ReadPhases, r)
    ensures r.ph.running == |set u | u in f.pods && f.pods[u].inf.phase == "Running"|
    ensures r.ph.pending == |set u | u in f.pods && f.pods[u].inf.phase == "Pending"|
    ensures r.ph.failed == |set u | u in f.pods && f.pods[u].inf.phase == "Failed"|
  {
    hide CountIf;
    CountIs(f.pods.Keys, InPhase(f.pods, "Running"), set u | u in f.pods && f.pods[u].inf.phase == "Running");
    CountIs(f.pods.Keys, InPhase(f.pods, "Pending"), set u | u in f.pods && f.pods[u].inf.phase == "Pending");
    CountIs(f.pods.Keys, InPhase(f.pods, "Failed"), set u | u in f.pods && f.pods[u].inf.phase == "Failed");
  }

  lemma CountsSay(f: Facts, ns: string)
    ensures CountsAt(f, f.pods.Keys, f.deployments.Keys, f.events.Keys, ns) == NsCount(
      |set u | u in f.pods && f.pods[u].inf.ns == ns|,
      |set u | u in f.deployments && f.deployments[u] == ns|,
      |set u | u in f.events && f.events[u].warning && f.events[u].ns == ns|)
  {
    hide CountIf;
    CountIs(f.pods.Keys, PodIn(f.pods, ns), set u | u in f.pods && f.pods[u].inf.ns == ns);
    CountIs(f.deployments.Keys, DeployIn(f.deployments, ns), set u | u in f.deployments && f.deployments[u] == ns);
    CountIs(f.events.Keys, WarningIn(f.events, ns),
            set u | u in f.events && f.events[u].warning && f.events[u].ns == ns);
  }

  /** A namespace has an entry exactly when it has a pod, a deployment or a warning event, and the
      entry says how many of each. */
  lemma NamespaceCount(mt: Matcher, f: Facts, r: Reading, ns: string)
    requires Agrees(mt, f, ReadNsCounts, r)
    ensures var pods, deploys, warnings :=
        |set u | u in f.pods && f.pods[u].inf.ns == ns|,
        |set u | u in f.deployments && f.deployments[u] == ns|,
        |set u | u in f.events && f.events[u].warning && f.events[u].ns == ns|;
      && (ns in r.counts <==> pods > 0 || deploys > 0 || warnings > 0)
      && (ns in r.counts ==> r.counts[ns] == NsCount(pods, deploys, warnings))
  {
    hide CountsAt;
    CountsSay(f, ns);
    assert CountOf(r.counts, ns) == CountsAt(f, f.pods.Keys, f.deployments.Keys, f.events.Keys, ns);
  }
}
