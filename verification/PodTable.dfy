/** The UI model with its derived caches. `Facts` is the model without any cache; every read
    through a cache must return what a full walk over the facts returns, after any run. */
module PodTable {
  import opened Ordering
  import opened PodRows
  import opened PodOrder
  import opened Options

  // ------------------------------------------------- the model, uncached

  /** Other resources as far as the derived counts read them. */
  datatype Warn = Warn(ns: string, warning: bool)

  datatype Facts = Facts(
    pods: map<Uid, PodRow>,
    deployments: map<Uid, string>,
    events: map<Uid, Warn>,
    filter: string, namespace: string, watchNamespace: string,
    sortKey: SortKey, desc: bool)

  datatype Op =
    | PodChanged(ev: PodEvent, pendingMetric: Option<Metrics>)
    | MetricsSnapshot(byName: map<string, Metrics>)
    | NetworkSweep(nets: map<Uid, Net>)
    | DeployChanged(uid: Uid, deploy: Option<string>)
    | EventChanged(uid: Uid, warn: Option<Warn>)
    | SetFilter(text: string)
    | SetNamespace(ns: string)
    | Synced(watchNamespace: string)
    | CycleSort
    | FlipSort
    | ReadTable | ReadCount | ReadDashboard | ReadPhases | ReadNsCounts

  /** A first informer event may come with a metric that arrived before it. */
  function AfterPodEvent(pods: map<Uid, PodRow>, ev: PodEvent, pending: Option<Metrics>): map<Uid, PodRow> {
    var m := ApplyPodEvent(pods, ev);
    if !ev.deleted && ev.uid !in pods && pending.Some?
    then m[ev.uid := m[ev.uid].(metrics := pending.value.(has := true))] else m
  }

  /** One row in a metrics sweep: matched by namespace/name, cleared when absent. */
  function MetricRow(r: PodRow, byName: map<string, Metrics>): PodRow {
    var k := r.inf.ns + "/" + r.inf.name;
    r.(metrics := if k in byName then byName[k].(has := true) else r.metrics.(has := false))
  }

  function NetRow(r: PodRow, nets: map<Uid, Net>): PodRow {
    if r.uid in nets then r.(net := nets[r.uid]) else r
  }

  /** A sweep touches only what the informer does not own. */
  lemma SweepsKeepInformerRow(r: PodRow, byName: map<string, Metrics>, nets: map<Uid, Net>)
    ensures MetricRow(r, byName).uid == r.uid == NetRow(r, nets).uid
    ensures MetricRow(r, byName).inf == r.inf == NetRow(r, nets).inf
  {
  }

  function Put<T>(m: map<Uid, T>, u: Uid, v: Option<T>): map<Uid, T> {
    match v case None => m - {u} case Some(x) => m[u := x]
  }

  function Apply(f: Facts, op: Op): Facts {
    match op
    case PodChanged(ev, pending) => f.(pods := AfterPodEvent(f.pods, ev, pending))
    case MetricsSnapshot(byName) => f.(pods := map u | u in f.pods :: MetricRow(f.pods[u], byName))
    case NetworkSweep(nets) => f.(pods := map u | u in f.pods :: NetRow(f.pods[u], nets))
    case DeployChanged(u, ns) => f.(deployments := Put(f.deployments, u, ns))
    case EventChanged(u, w) => f.(events := Put(f.events, u, w))
    case SetFilter(text) => f.(filter := text)
    case SetNamespace(ns) => f.(namespace := ns)
    case Synced(ns) => f.(watchNamespace := ns)
    case CycleSort => f.(sortKey := NextKey(f.sortKey))
    case FlipSort => f.(desc := !f.desc)
    case _ => f
  }

  const START := Facts(map[], map[], map[], "", "", "", SortNamespace, false)

  function AfterAll(ops: seq<Op>): Facts
    decreases |ops|
  {
    if |ops| == 0 then START else Apply(AfterAll(ops[..|ops| - 1]), ops[|ops| - 1])
  }

  // ---------------------------------------------- what the reads must say

  function KeyOf(f: Facts): TableKey {
    TableKey(f.filter, f.namespace, f.sortKey, f.desc, |f.pods|)
  }

  /** dashboardNamespace: the picker's namespace, else the one the watch is restricted to. */
  function Scope(f: Facts): string {
    if f.namespace != "" then f.namespace else f.watchNamespace
  }

  function Measured(pods: map<Uid, PodRow>, scope: string): set<Uid> {
    set u | u in pods && pods[u].metrics.has && (scope == "" || pods[u].inf.ns == scope)
  }

  function MeasuredIn(pods: map<Uid, PodRow>, scope: string): Uid -> bool {
    (u: Uid) => u in pods && pods[u].metrics.has && (scope == "" || pods[u].inf.ns == scope)
  }

  ghost predicate DashOrders(pods: map<Uid, PodRow>, scope: string, cpu: seq<Uid>, mem: seq<Uid>) {
    && IsOrder(DashLess(pods, false), cpu, Measured(pods, scope))
    && IsOrder(DashLess(pods, true), mem, Measured(pods, scope))
  }

  /** How many of `done` satisfy `p`. */
  function CountIf(done: set<Uid>, p: Uid -> bool): nat {
    |set u | u in done && p(u)|
  }

  function InPhase(pods: map<Uid, PodRow>, phase: string): Uid -> bool {
    (u: Uid) => u in pods && pods[u].inf.phase == phase
  }

  datatype Phases = Phases(running: nat, pending: nat, failed: nat)

  function PhasesOf(pods: map<Uid, PodRow>, done: set<Uid>): Phases {
    Phases(CountIf(done, InPhase(pods, "Running")), CountIf(done, InPhase(pods, "Pending")),
           CountIf(done, InPhase(pods, "Failed")))
  }

  datatype NsCount = NsCount(pods: nat, deploys: nat, warnings: nat)

  function PodIn(pods: map<Uid, PodRow>, ns: string): Uid -> bool {
    (u: Uid) => u in pods && pods[u].inf.ns == ns
  }

  function DeployIn(ds: map<Uid, string>, ns: string): Uid -> bool {
    (u: Uid) => u in ds && ds[u] == ns
  }

  function WarningIn(es: map<Uid, Warn>, ns: string): Uid -> bool {
    (u: Uid) => u in es && es[u].warning && es[u].ns == ns
  }

  /** The counts of one namespace, walking `p`, `d` and `e`. */
  function CountsAt(f: Facts, p: set<Uid>, d: set<Uid>, e: set<Uid>, ns: string): NsCount {
    NsCount(CountIf(p, PodIn(f.pods, ns)), CountIf(d, DeployIn(f.deployments, ns)),
            CountIf(e, WarningIn(f.events, ns)))
  }

  function CountOf(m: map<string, NsCount>, ns: string): NsCount {
    if ns in m then m[ns] else NsCount(0, 0, 0)
  }

  /** The three increments of the walk. */
  function AddPod(m: map<string, NsCount>, ns: string): map<string, NsCount> {
    var c := CountOf(m, ns); m[ns := c.(pods := c.pods + 1)]
  }

  function AddDeploy(m: map<string, NsCount>, ns: string): map<string, NsCount> {
    var c := CountOf(m, ns); m[ns := c.(deploys := c.deploys + 1)]
  }

  function AddWarning(m: map<string, NsCount>, w: Warn): map<string, NsCount> {
    var c := CountOf(m, w.ns); if w.warning then m[w.ns := c.(warnings := c.warnings + 1)] else m
  }

  /** `m` has every namespace's counts, and an entry exactly for the non-zero ones. */
  ghost predicate IsNsCounts(m: map<string, NsCount>, f: Facts, p: set<Uid>, d: set<Uid>, e: set<Uid>) {
    forall ns ::
      CountOf(m, ns) == CountsAt(f, p, d, e, ns) && (ns in m ==> m[ns] != NsCount(0, 0, 0))
  }

  datatype Reading =
    | Table(uids: seq<Uid>)
    | Count(n: nat)
    | Dashboard(cpu: seq<Uid>, mem: seq<Uid>)
    | PodPhases(ph: Phases)
    | Namespaces(counts: map<string, NsCount>)
    | Nothing

  /** A reading agrees with a full walk over the facts. */
  ghost predicate Agrees(mt: Matcher, f: Facts, op: Op, r: Reading) {
    match op
    case ReadTable => r.Table? && FullOrder(mt, f.pods, KeyOf(f), r.uids)
    case ReadCount => r.Count? && r.n == |Matching(mt, f.pods, KeyOf(f))|
    case ReadDashboard => r.Dashboard? && DashOrders(f.pods, Scope(f), r.cpu, r.mem)
    case ReadPhases => r.PodPhases? && r.ph == PhasesOf(f.pods, f.pods.Keys)
    case ReadNsCounts =>
      r.Namespaces? && IsNsCounts(r.counts, f, f.pods.Keys, f.deployments.Keys, f.events.Keys)
    case _ => r.Nothing?
  }

  // -------------------------------------------------- dashboard order cache

  datatype DashOrder = DashOrder(valid: bool, ns: string, size: nat, cpu: seq<Uid>, mem: seq<Uid>)

  const NO_DASH := DashOrder(false, "", 0, [], [])

  predicate DashChanged(before: PodRow, after: PodRow) {
    IdentityChanged(before, after) || before.metrics != after.metrics
  }

  ghost predicate DashOk(d: DashOrder, pods: map<Uid, PodRow>) {
    d.valid ==> DashOrders(pods, d.ns, d.cpu, d.mem)
  }

  /** A row change the dashboard does not read leaves its cached orders right. */
  lemma ChangeKeepsDash(d: DashOrder, pods: map<Uid, PodRow>, pods': map<Uid, PodRow>, u: Uid)
    requires ChangedAt(pods, pods', u) && DashOk(d, pods)
    requires !DashChanged(RowOf(pods, u), RowOf(pods', u))
    ensures DashOk(d, pods')
  {
    if d.valid {
      assert u in pods <==> u in pods' by { assert RowOf(pods, u).uid == RowOf(pods', u).uid; }
      assert Measured(pods, d.ns) == Measured(pods', d.ns);
      forall a | a in pods ensures !DashChanged(RowOf(pods, a), RowOf(pods', a)) {
        if a != u { assert a in pods'; }
      }
      DashTransfer(pods, pods', false, d.cpu);
      DashTransfer(pods, pods', true, d.mem);
    }
  }

  lemma DashTransfer(pods: map<Uid, PodRow>, pods': map<Uid, PodRow>, memory: bool, s: seq<Uid>)
    requires Sorted(DashLess(pods, memory), s) && Elements(s) <= pods.Keys
    requires forall a :: a in pods ==> !DashChanged(RowOf(pods, a), RowOf(pods', a))
    ensures Sorted(DashLess(pods', memory), s)
  {
    forall i, j | 0 <= i < j < |s| ensures DashLess(pods', memory)(s[i], s[j]) {
      assert s[i] in Elements(s) && s[j] in Elements(s);
      assert DashLess(pods, memory)(s[i], s[j]);
      assert DashLessRows(RowOf(pods, s[i]), RowOf(pods, s[j]), memory);
      assert !DashChanged(RowOf(pods, s[i]), RowOf(pods', s[i]));
      assert !DashChanged(RowOf(pods, s[j]), RowOf(pods', s[j]));
    }
  }

  // ------------------------------------------------------------- counting

  lemma CountStep(done: set<Uid>, p: Uid -> bool, u: Uid)
    requires u !in done
    ensures CountIf(done + {u}, p) == CountIf(done, p) + (if p(u) then 1 else 0)
  {
    var s, t := (set v | v in done && p(v)), (set v | v in done + {u} && p(v));
    assert t == if p(u) then s + {u} else s;
  }

  lemma CountSame(done: set<Uid>, p: Uid -> bool, q: Uid -> bool)
    requires forall u :: u in done ==> p(u) == q(u)
    ensures CountIf(done, p) == CountIf(done, q)
  {
    assert (set u | u in done && p(u)) == (set u | u in done && q(u));
  }

  lemma CountNone(p: Uid -> bool)
    ensures CountIf({}, p) == 0
  {
    assert (set u | u in {} && p(u)) == {};
  }

  function BumpPhase(ph: Phases, phase: string): Phases {
    if phase == "Running" then ph.(running := ph.running + 1)
    else if phase == "Pending" then ph.(pending := ph.pending + 1)
    else if phase == "Failed" then ph.(failed := ph.failed + 1)
    else ph
  }

  /** Counting one more pod adds one to its phase and to no other. */
  lemma PhaseStep(pods: map<Uid, PodRow>, done: set<Uid>, u: Uid)
    requires u in pods && u !in done
    ensures PhasesOf(pods, done + {u}) == BumpPhase(PhasesOf(pods, done), pods[u].inf.phase)
  {
    CountStep(done, InPhase(pods, "Running"), u);
    CountStep(done, InPhase(pods, "Pending"), u);
    CountStep(done, InPhase(pods, "Failed"), u);
  }

  /** Raising the entry of one namespace keeps the table right if only its counts rose. */
  lemma BumpOne(m: map<string, NsCount>, at: string, c: NsCount, f: Facts, p: set<Uid>, d: set<Uid>, e: set<Uid>,
                p': set<Uid>, d': set<Uid>, e': set<Uid>)
    requires IsNsCounts(m, f, p, d, e) && c == CountsAt(f, p', d', e', at) && c != NsCount(0, 0, 0)
    requires forall ns :: ns != at ==> CountsAt(f, p', d', e', ns) == CountsAt(f, p, d, e, ns)
    ensures IsNsCounts(m[at := c], f, p', d', e')
  {
    forall ns
      ensures CountOf(m[at := c], ns) == CountsAt(f, p', d', e', ns)
      ensures ns in m[at := c] ==> m[at := c][ns] != NsCount(0, 0, 0)
    {
      assert CountOf(m, ns) == CountsAt(f, p, d, e, ns);
    }
  }

  lemma CountsKnown(m: map<string, NsCount>, f: Facts, p: set<Uid>, d: set<Uid>, e: set<Uid>, ns: string)
    requires IsNsCounts(m, f, p, d, e)
    ensures CountOf(m, ns) == CountsAt(f, p, d, e, ns)
  {
  }

  lemma BumpPod(m: map<string, NsCount>, f: Facts, p: set<Uid>, u: Uid)
    requires IsNsCounts(m, f, p, {}, {}) && u in f.pods && u !in p
    ensures IsNsCounts(AddPod(m, f.pods[u].inf.ns), f, p + {u}, {}, {})
  {
    hide IsNsCounts, CountIf;
    var at := f.pods[u].inf.ns;
    forall ns | ns != at ensures CountsAt(f, p + {u}, {}, {}, ns) == CountsAt(f, p, {}, {}, ns) {
      CountStep(p, PodIn(f.pods, ns), u);
    }
    CountStep(p, PodIn(f.pods, at), u);
    CountsKnown(m, f, p, {}, {}, at);
    BumpOne(m, at, CountsAt(f, p + {u}, {}, {}, at), f, p, {}, {}, p + {u}, {}, {});
  }

  lemma BumpDeploy(m: map<string, NsCount>, f: Facts, p: set<Uid>, d: set<Uid>, u: Uid)
    requires IsNsCounts(m, f, p, d, {}) && u in f.deployments && u !in d
    ensures IsNsCounts(AddDeploy(m, f.deployments[u]), f, p, d + {u}, {})
  {
    hide IsNsCounts, CountIf;
    var at := f.deployments[u];
    forall ns | ns != at ensures CountsAt(f, p, d + {u}, {}, ns) == CountsAt(f, p, d, {}, ns) {
      CountStep(d, DeployIn(f.deployments, ns), u);
    }
    CountStep(d, DeployIn(f.deployments, at), u);
    CountsKnown(m, f, p, d, {}, at);
    BumpOne(m, at, CountsAt(f, p, d + {u}, {}, at), f, p, d, {}, p, d + {u}, {});
  }

  lemma BumpWarning(m: map<string, NsCount>, f: Facts, p: set<Uid>, d: set<Uid>, e: set<Uid>, u: Uid)
    requires IsNsCounts(m, f, p, d, e) && u in f.events && u !in e
    ensures IsNsCounts(AddWarning(m, f.events[u]), f, p, d, e + {u})
  {
    hide IsNsCounts, CountIf;
    var w := f.events[u];
    forall ns | ns != w.ns || !w.warning ensures CountsAt(f, p, d, e + {u}, ns) == CountsAt(f, p, d, e, ns) {
      CountStep(e, WarningIn(f.events, ns), u);
    }
    CountStep(e, WarningIn(f.events, w.ns), u);
    CountsKnown(m, f, p, d, e, w.ns);
    if w.warning {
      BumpOne(m, w.ns, CountsAt(f, p, d, e + {u}, w.ns), f, p, d, e, p, d, e + {u});
    } else {
      SameCounts(m, f, p, d, e, e + {u});
    }
  }

  lemma SameCounts(m: map<string, NsCount>, f: Facts, p: set<Uid>, d: set<Uid>, e: set<Uid>, e': set<Uid>)
    requires IsNsCounts(m, f, p, d, e)
    requires forall ns :: CountsAt(f, p, d, e', ns) == CountsAt(f, p, d, e, ns)
    ensures IsNsCounts(m, f, p, d, e')
  {
  }

  // ------------------------------------------------------ walks over a map

  /** Collect the keys that pass, in whatever order the map yields them. */
  method Select(keys: set<Uid>, p: Uid -> bool) returns (out: seq<Uid>)
    ensures Elements(out) == (set u | u in keys && p(u)) && |Elements(out)| == |out|
  {
    out := [];
    var todo := keys;
    while todo != {}
      invariant todo <= keys && Elements(out) == (set u | u in keys && u !in todo && p(u))
      invariant |Elements(out)| == |out|
      decreases todo
    {
      var u :| u in todo;
      if p(u) {
        assert Elements(out + [u]) == Elements(out) + {u};
        out := out + [u];
      }
      todo := todo - {u};
    }
  }

  /** countMatching. */
  method CountMatching(keys: set<Uid>, p: Uid -> bool) returns (n: nat)
    ensures n == |set u | u in keys && p(u)|
  {
    n := 0;
    var todo := keys;
    CountNone(p);
    assert keys - keys == {};
    while todo != {}
      invariant todo <= keys && n == CountIf(keys - todo, p)
      decreases todo
    {
      var u :| u in todo;
      CountStep(keys - todo, p, u);
      assert keys - (todo - {u}) == (keys - todo) + {u};
      n := n + if p(u) then 1 else 0;
      todo := todo - {u};
    }
    assert keys - {} == keys;
  }

  // ----------------------------------------- what one row change leaves valid

  ghost predicate NsOk(m: Option<map<string, NsCount>>, f: Facts) {
    m.Some? ==> IsNsCounts(m.value, f, f.pods.Keys, f.deployments.Keys, f.events.Keys)
  }

  ghost predicate RowCachesOk(mt: Matcher, o: TableOrder, d: DashOrder, snap: map<Uid, PodRow>,
                              pods: map<Uid, PodRow>) {
    WellFiled(pods) && OrderOk(mt, o, snap, pods) && CountOk(mt, o, pods) && DashOk(d, pods)
  }

  function DashAfter(d: DashOrder, before: PodRow, after: PodRow): DashOrder {
    if DashChanged(before, after) then NO_DASH else d
  }

  lemma ChangeKeepsRowCaches(mt: Matcher, o: TableOrder, d: DashOrder, snap: map<Uid, PodRow>,
                             pods: map<Uid, PodRow>, pods': map<Uid, PodRow>, u: Uid)
    requires ChangedAt(pods, pods', u) && RowCachesOk(mt, o, d, snap, pods)
    ensures var (b, a) := (RowOf(pods, u), RowOf(pods', u));
      RowCachesOk(mt, Invalidated(o, b, a), DashAfter(d, b, a), snap, pods')
  {
    ChangeKeepsOrder(mt, o, snap, pods, pods', u);
    if !DashChanged(RowOf(pods, u), RowOf(pods', u)) { ChangeKeepsDash(d, pods, pods', u); }
  }

  lemma SameKeys(pods: map<Uid, PodRow>, pods': map<Uid, PodRow>, u: Uid)
    requires ChangedAt(pods, pods', u) && (u in pods <==> u in pods')
    ensures pods.Keys == pods'.Keys
  {
    assert forall v :: v in pods.Keys <==> v in pods'.Keys;
  }

  lemma ChangeKeepsPhases(pods: map<Uid, PodRow>, pods': map<Uid, PodRow>, u: Uid)
    requires ChangedAt(pods, pods', u) && (u in pods <==> u in pods')
    requires RowOf(pods, u).inf.phase == RowOf(pods', u).inf.phase
    ensures PhasesOf(pods, pods.Keys) == PhasesOf(pods', pods'.Keys)
  {
    SameKeys(pods, pods', u);
    CountSame(pods.Keys, InPhase(pods, "Running"), InPhase(pods', "Running"));
    CountSame(pods.Keys, InPhase(pods, "Pending"), InPhase(pods', "Pending"));
    CountSame(pods.Keys, InPhase(pods, "Failed"), InPhase(pods', "Failed"));
  }

  lemma ChangeKeepsNsCounts(m: Option<map<string, NsCount>>, f: Facts, pods': map<Uid, PodRow>, u: Uid)
    requires NsOk(m, f) && ChangedAt(f.pods, pods', u) && (u in f.pods <==> u in pods')
    requires RowOf(f.pods, u).inf.ns == RowOf(pods', u).inf.ns
    ensures NsOk(m, f.(pods := pods'))
  {
    SameKeys(f.pods, pods', u);
    var (d, e) := (f.deployments.Keys, f.events.Keys);
    forall ns ensures CountsAt(f, f.pods.Keys, d, e, ns) == CountsAt(f.(pods := pods'), pods'.Keys, d, e, ns) {
      CountSame(f.pods.Keys, PodIn(f.pods, ns), PodIn(pods', ns));
    }
  }

  /** All derived data but the sizes it was keyed by. */
  datatype Derived = Derived(
    order: TableOrder, dash: DashOrder, phasesValid: bool, phases: Phases,
    nsCounts: Option<map<string, NsCount>>)

  ghost predicate DerivedOk(mt: Matcher, snap: map<Uid, PodRow>, d: Derived, f: Facts) {
    && RowCachesOk(mt, d.order, d.dash, snap, f.pods)
    && (d.phasesValid ==> d.phases == PhasesOf(f.pods, f.pods.Keys))
    && NsOk(d.nsCounts, f)
  }

  /** What updatePod does to the derived data when a row goes from `before` to `after`. */
  function AfterChange(d: Derived, before: PodRow, existed: bool, after: PodRow, remains: bool): Derived {
    Derived(
      Invalidated(d.order, before, after),
      DashAfter(d.dash, before, after),
      d.phasesValid && existed == remains && before.inf.phase == after.inf.phase,
      d.phases,
      if existed != remains || before.inf.ns != after.inf.ns then None else d.nsCounts)
  }

  /** An informer event changes one row; the rest of the table is untouched. */
  lemma EventChangesOne(pods: map<Uid, PodRow>, ev: PodEvent, pending: Option<Metrics>)
    requires WellFiled(pods) && ev.uid != ""
    ensures ChangedAt(pods, AfterPodEvent(pods, ev, pending), ev.uid)
  {
  }

  lemma ChangeKeepsDerived(mt: Matcher, snap: map<Uid, PodRow>, d: Derived, f: Facts,
                           pods': map<Uid, PodRow>, u: Uid)
    requires DerivedOk(mt, snap, d, f) && ChangedAt(f.pods, pods', u)
    ensures var e := AfterChange(d, RowOf(f.pods, u), u in f.pods, RowOf(pods', u), u in pods');
      DerivedOk(mt, snap, e, f.(pods := pods'))
  {
    ChangeKeepsRowCaches(mt, d.order, d.dash, snap, f.pods, pods', u);
    if u in f.pods <==> u in pods' {
      if RowOf(f.pods, u).inf.phase == RowOf(pods', u).inf.phase { ChangeKeepsPhases(f.pods, pods', u); }
      if RowOf(f.pods, u).inf.ns == RowOf(pods', u).inf.ns { ChangeKeepsNsCounts(d.nsCounts, f, pods', u); }
    }
  }

  lemma EventKeepsDerived(mt: Matcher, snap: map<Uid, PodRow>, d: Derived, f: Facts,
                          ev: PodEvent, pending: Option<Metrics>)
    returns (e: Derived, g: Facts)
    requires DerivedOk(mt, snap, d, f) && ev.uid != ""
    ensures g == f.(pods := AfterPodEvent(f.pods, ev, pending)) && DerivedOk(mt, snap, e, g)
    ensures e == AfterChange(d, RowOf(f.pods, ev.uid), ev.uid in f.pods, RowOf(g.pods, ev.uid), ev.uid in g.pods)
  {
    g := f.(pods := AfterPodEvent(f.pods, ev, pending));
    e := AfterChange(d, RowOf(f.pods, ev.uid), ev.uid in f.pods, RowOf(g.pods, ev.uid), ev.uid in g.pods);
    EventChangesOne(f.pods, ev, pending);
    ChangeKeepsDerived(mt, snap, d, f, g.pods, ev.uid);
  }

  /** The empty UID is reserved for the watcher's sync marker; pods have a non-empty one. */
  predicate ProperOp(op: Op) {
    op.PodChanged? ==> op.ev.uid != ""
  }

  /** The derived data depend on the rows alone, not on how they are being viewed. */
  lemma SteeringKeepsDerived(mt: Matcher, snap: map<Uid, PodRow>, d: Derived, f: Facts, g: Facts)
    requires DerivedOk(mt, snap, d, f)
    requires g.pods == f.pods && g.deployments == f.deployments && g.events == f.events
    ensures DerivedOk(mt, snap, d, g)
  {
    forall ns ensures CountsAt(g, g.pods.Keys, g.deployments.Keys, g.events.Keys, ns)
      == CountsAt(f, f.pods.Keys, f.deployments.Keys, f.events.Keys, ns) {
    }
  }

  /** Storing a freshly built order, with the rows it was built from. */
  lemma OrderRebuilt(mt: Matcher, snap: map<Uid, PodRow>, d: Derived, f: Facts, uids: seq<Uid>)
    requires DerivedOk(mt, snap, d, f) && FullOrder(mt, f.pods, KeyOf(f), uids)
    ensures DerivedOk(mt, f.pods, d.(order := TableOrder(KeyOf(f), true, uids, {}, KeyOf(f), true, |uids|)), f)
  {
    var key := KeyOf(f);
    PodLessStrictTotal(f.pods, key.sort, key.desc, Matching(mt, f.pods, key));
    OrderSize(PodLess(f.pods, key.sort, key.desc), uids, Matching(mt, f.pods, key));
  }

  lemma CountRebuilt(mt: Matcher, snap: map<Uid, PodRow>, d: Derived, f: Facts, key: TableKey)
    requires DerivedOk(mt, snap, d, f)
    ensures DerivedOk(mt, snap, d.(order := d.order.(count := |Matching(mt, f.pods, key)|, countKey := key,
                                                     countValid := true)), f)
  {
  }

  /** An order with nothing dirty, built for the key now asked for, is the full recompute. */
  lemma OrderStillGood(mt: Matcher, snap: map<Uid, PodRow>, d: Derived, f: Facts)
    requires DerivedOk(mt, snap, d, f) && d.order.valid && d.order.dirty == {} && d.order.key == KeyOf(f)
    ensures FullOrder(mt, f.pods, KeyOf(f), d.order.uids)
  {
    CleanRows(mt, d.order, snap, f.pods);
    assert Clean(d.order.uids, {}) == Elements(d.order.uids);
  }

  // ----------------------------------------------------------- full walks

  lemma NoPhases(pods: map<Uid, PodRow>)
    ensures PhasesOf(pods, {}) == Phases(0, 0, 0)
  {
    CountNone(InPhase(pods, "Running"));
    CountNone(InPhase(pods, "Pending"));
    CountNone(InPhase(pods, "Failed"));
  }

  method CountPhases(pods: map<Uid, PodRow>) returns (ph: Phases)
    ensures ph == PhasesOf(pods, pods.Keys)
  {
    hide PhasesOf, BumpPhase;
    ph := Phases(0, 0, 0);
    var todo := pods.Keys;
    ghost var done: set<Uid> := {};
    NoPhases(pods);
    while todo != {}
      invariant todo == pods.Keys - done && done <= pods.Keys && ph == PhasesOf(pods, done)
      decreases todo
    {
      var u :| u in todo;
      PhaseStep(pods, done, u);
      ph := BumpPhase(ph, pods[u].inf.phase);
      todo, done := todo - {u}, done + {u};
    }
    assert done == pods.Keys;
  }

  /** One walk each over pods, deployments and warning events. */
  method CollectNsCounts(f: Facts) returns (m: map<string, NsCount>)
    ensures IsNsCounts(m, f, f.pods.Keys, f.deployments.Keys, f.events.Keys)
  {
    m := CollectPods(f);
    m := CollectDeploys(f, m);
    m := CollectWarnings(f, m);
  }

  lemma NothingCounted(f: Facts)
    ensures IsNsCounts(map[], f, {}, {}, {})
  {
    forall ns ensures CountsAt(f, {}, {}, {}, ns) == NsCount(0, 0, 0) {
      CountNone(PodIn(f.pods, ns));
      CountNone(DeployIn(f.deployments, ns));
      CountNone(WarningIn(f.events, ns));
    }
  }

  method CollectPods(f: Facts) returns (m: map<string, NsCount>)
    ensures IsNsCounts(m, f, f.pods.Keys, {}, {})
  {
    hide IsNsCounts, AddPod;
    m := map[];
    NothingCounted(f);
    var todo := f.pods.Keys;
    ghost var done: set<Uid> := {};
    while todo != {}
      invariant todo !! done && done + todo == f.pods.Keys && IsNsCounts(m, f, done, {}, {})
      decreases todo
    {
      var u :| u in todo;
      BumpPod(m, f, done, u);
      m := AddPod(m, f.pods[u].inf.ns);
      todo, done := todo - {u}, done + {u};
    }
    assert done == f.pods.Keys;
  }

  method CollectDeploys(f: Facts, m0: map<string, NsCount>) returns (m: map<string, NsCount>)
    requires IsNsCounts(m0, f, f.pods.Keys, {}, {})
    ensures IsNsCounts(m, f, f.pods.Keys, f.deployments.Keys, {})
  {
    hide IsNsCounts, AddDeploy;
    m := m0;
    var todo := f.deployments.Keys;
    ghost var done: set<Uid> := {};
    while todo != {}
      invariant todo !! done && done + todo == f.deployments.Keys && IsNsCounts(m, f, f.pods.Keys, done, {})
      decreases todo
    {
      var u :| u in todo;
      BumpDeploy(m, f, f.pods.Keys, done, u);
      m := AddDeploy(m, f.deployments[u]);
      todo, done := todo - {u}, done + {u};
    }
    assert done == f.deployments.Keys;
  }

  method CollectWarnings(f: Facts, m0: map<string, NsCount>) returns (m: map<string, NsCount>)
    requires IsNsCounts(m0, f, f.pods.Keys, f.deployments.Keys, {})
    ensures IsNsCounts(m, f, f.pods.Keys, f.deployments.Keys, f.events.Keys)
  {
    hide IsNsCounts, AddWarning;
    m := m0;
    var todo := f.events.Keys;
    ghost var done: set<Uid> := {};
    while todo != {}
      invariant todo !! done && done + todo == f.events.Keys
      invariant IsNsCounts(m, f, f.pods.Keys, f.deployments.Keys, done)
      decreases todo
    {
      var u :| u in todo;
      BumpWarning(m, f, f.pods.Keys, f.deployments.Keys, done, u);
      m := AddWarning(m, f.events[u]);
      todo, done := todo - {u}, done + {u};
    }
    assert done == f.events.Keys;
  }
}
