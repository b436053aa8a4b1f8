/** The model object: rows and caches mutated message by message, reads through the caches. */
module PodTableCache {
  import opened Ordering
  import opened PodRows
  import opened PodOrder
  import opened PodTable
  import opened Options

  class Model {
    const mt: Matcher
    // rows and the state of the pickers
    var pods: map<Uid, PodRow>
    var deployments: map<Uid, string>
    var events: map<Uid, Warn>
    var filter: string
    var namespace: string
    var watchNamespace: string
    var sortKey: SortKey
    var desc: bool
    // derived data
    var order: TableOrder
    var dash: DashOrder
    var phasesValid: bool
    var phaseSize: nat
    var phases: Phases
    var nsCounts: Option<map<string, NsCount>>
    var nsSizes: (nat, nat, nat)
    // the rows the cached order was last built from
    ghost var snap: map<Uid, PodRow>

    function Now(): Facts
      reads this
    {
      Facts(pods, deployments, events, filter, namespace, watchNamespace, sortKey, desc)
    }

    function Cached(): Derived
      reads this
    {
      Derived(order, dash, phasesValid, phases, nsCounts)
    }

    ghost predicate Valid()
      reads this
    {
      && mt.lower("") == ""
      && DerivedOk(mt, snap, Cached(), Now())
    }

    lemma Unfold()
      requires Valid()
      ensures WellFiled(pods) && OrderOk(mt, order, snap, pods) && CountOk(mt, order, pods)
    {
    }

    constructor (mt: Matcher)
      requires mt.lower("") == ""
      ensures Valid() && Now() == START && this.mt == mt
    {
      this.mt := mt;
      pods, deployments, events := map[], map[], map[];
      filter, namespace, watchNamespace, sortKey, desc := "", "", "", SortNamespace, false;
      order, dash, phasesValid, nsCounts := NO_ORDER, NO_DASH, false, None;
      phaseSize, phases, nsSizes, snap := 0, Phases(0, 0, 0), (0, 0, 0), map[];
    }

    /** invalidatePodOrder: mark only what the cached orders could notice. */
    method InvalidatePodOrder(before: PodRow, after: PodRow)
      modifies this`order, this`dash
      ensures order == Invalidated(old(order), before, after)
      ensures dash == DashAfter(old(dash), before, after)
    {
      if DashChanged(before, after) {
        dash := NO_DASH;
      }
      if IdentityChanged(before, after) {
        order := order.(countValid := false);
      }
      if order.valid {
        var key := order.key.sort;
        if IdentityChanged(before, after) || LessBy(before, after, key) || LessBy(after, before, key) {
          order := order.(dirty := order.dirty + ({before.uid, after.uid} - {""}));
        }
      }
    }

    /** A sweep's in-place edit of one row, with its invalidation. */
    method ReplaceRow(u: Uid, row: PodRow)
      requires Valid() && u in pods && row.uid == u && row.inf == pods[u].inf
      modifies this`pods, this`order, this`dash
      ensures Valid() && pods == old(pods)[u := row]
    {
      ghost var f, d, pods' := Now(), Cached(), pods[u := row];
      ChangeKeepsDerived(mt, snap, d, f, pods', u);
      var before := pods[u];
      pods := pods[u := row];
      InvalidatePodOrder(before, row);
      assert Cached() == AfterChange(d, before, true, row, true) && Now() == f.(pods := pods');
    }

    /** applyPodEvent, and the metric that was waiting for a new pod's row. */
    method StoreEvent(ev: PodEvent, pending: Option<Metrics>)
      modifies this`pods
      ensures Now() == old(Now()).(pods := AfterPodEvent(old(pods), ev, pending))
    {
      var existed := ev.uid in pods;
      pods := ApplyPodEvent(pods, ev);
      if ev.uid in pods && !existed && pending.Some? {
        pods := pods[ev.uid := pods[ev.uid].(metrics := pending.value.(has := true))];
      }
    }

    method InvalidateCounts(before: PodRow, existed: bool, after: PodRow, remains: bool)
      modifies this`phasesValid, this`nsCounts
      ensures phasesValid == (old(phasesValid) && existed == remains && before.inf.phase == after.inf.phase)
      ensures nsCounts == if existed != remains || before.inf.ns != after.inf.ns then None else old(nsCounts)
    {
      if existed != remains || before.inf.phase != after.inf.phase {
        phasesValid := false;
      }
      if existed != remains || before.inf.ns != after.inf.ns {
        nsCounts := None;
      }
    }

    /** updatePod, step by step. */
    method StoreAndInvalidate(ev: PodEvent, pending: Option<Metrics>)
      modifies this`pods, this`order, this`dash, this`phasesValid, this`nsCounts
      ensures Now() == old(Now()).(pods := AfterPodEvent(old(pods), ev, pending))
      ensures Cached() == AfterChange(old(Cached()), old(RowOf(pods, ev.uid)), ev.uid in old(pods),
                                      RowOf(pods, ev.uid), ev.uid in pods)
    {
      var before, existed := RowOf(pods, ev.uid), ev.uid in pods;
      StoreEvent(ev, pending);
      var after, remains := RowOf(pods, ev.uid), ev.uid in pods;
      InvalidatePodOrder(before, after);
      InvalidateCounts(before, existed, after, remains);
    }

    method UpdatePod(ev: PodEvent, pending: Option<Metrics>)
      requires Valid() && ev.uid != ""
      modifies this`pods, this`order, this`dash, this`phasesValid, this`nsCounts
      ensures Valid() && Now() == Apply(old(Now()), PodChanged(ev, pending))
    {
      ghost var e, g := EventKeepsDerived(mt, snap, Cached(), Now(), ev, pending);
      StoreAndInvalidate(ev, pending);
      assert Cached() == e && Now() == g;
    }

    method ApplyMetrics(byName: map<string, Metrics>)
      requires Valid()
      modifies this`pods, this`order, this`dash
      ensures Valid() && Now() == Apply(old(Now()), MetricsSnapshot(byName))
    {
      hide DerivedOk, MetricRow, NetRow;
      ghost var pods0 := pods;
      var todo := pods.Keys;
      while todo != {}
        invariant Valid() && todo <= pods0.Keys == pods.Keys
        invariant forall u :: u in pods ==> pods[u] == if u in todo then pods0[u] else MetricRow(pods0[u], byName)
        decreases todo
      {
        var u :| u in todo;
        Unfold();
        SweepsKeepInformerRow(pods[u], byName, map[]);
        ReplaceRow(u, MetricRow(pods[u], byName));
        todo := todo - {u};
      }
      assert pods == map u | u in pods0 :: MetricRow(pods0[u], byName);
    }

    method ApplyNetwork(nets: map<Uid, Net>)
      requires Valid()
      modifies this`pods, this`order, this`dash
      ensures Valid() && Now() == Apply(old(Now()), NetworkSweep(nets))
    {
      hide DerivedOk, MetricRow, NetRow;
      ghost var pods0 := pods;
      var todo := pods.Keys;
      while todo != {}
        invariant Valid() && todo <= pods0.Keys == pods.Keys
        invariant forall u :: u in pods ==> pods[u] == if u in todo then pods0[u] else NetRow(pods0[u], nets)
        decreases todo
      {
        var u :| u in todo;
        Unfold();
        SweepsKeepInformerRow(pods[u], map[], nets);
        ReplaceRow(u, NetRow(pods[u], nets));
        todo := todo - {u};
      }
      assert pods == map u | u in pods0 :: NetRow(pods0[u], nets);
    }

    // -------------------------------------------------------------- reads

    method TableUids() returns (uids: seq<Uid>)
      requires Valid()
      modifies this`order, this`snap
      ensures Valid() && FullOrder(mt, pods, KeyOf(Now()), uids)
    {
      hide DerivedOk, FullOrder;
      var key := KeyOf(Now());
      Unfold();
      if !order.valid || order.key != key || order.dirty != {} {
        if order.valid && order.key.(size := key.size) == key && order.dirty != {} {
          uids := MergePodOrder(key);
        } else {
          uids := BuildOrder(key);
        }
        OrderRebuilt(mt, snap, Cached(), Now(), uids);
        order := TableOrder(key, true, uids, {}, key, true, |uids|);
        snap := pods;
      } else {
        OrderStillGood(mt, snap, Cached(), Now());
        uids := order.uids;
      }
    }

    /** The full filter-and-sort. */
    method BuildOrder(key: TableKey) returns (uids: seq<Uid>)
      requires WellFiled(pods)
      ensures FullOrder(mt, pods, key, uids)
    {
      var less := PodLess(pods, key.sort, key.desc);
      var out := Select(pods.Keys, ShownIn(mt, pods, key));
      assert Elements(out) == Matching(mt, pods, key);
      PodLessStrictTotal(pods, key.sort, key.desc, Elements(out));
      SortSeqOrders(less, out);
      uids := SortSeq(less, out);
    }

    /** Sort only the dirty rows and merge them into the unchanged order. */
    method MergePodOrder(key: TableKey) returns (uids: seq<Uid>)
      requires WellFiled(pods) && OrderOk(mt, order, snap, pods) && order.valid
      requires order.key.(size := key.size) == key
      ensures FullOrder(mt, pods, key, uids)
    {
      hide OrderOk, WellFiled, Mergeable, StrictTotal, PodLess, Clean, Sorted;
      var less := PodLess(pods, key.sort, key.desc);
      ghost var d := Matching(mt, pods, key);
      var changed := Select(order.dirty, ShownIn(mt, pods, key));
      assert Elements(changed) == d * order.dirty;
      PodLessStrictTotal(pods, key.sort, key.desc, d);
      PodLessStrictTotal(pods, key.sort, key.desc, d * order.dirty);
      SortSeqOrders(less, changed);
      changed := SortSeq(less, changed);
      CleanRows(mt, order, snap, pods);
      SizeIsNoMatter(mt, pods, order.key, key);
      MergeInputs(less, order.uids, order.dirty, changed, d);
      uids := MergeClean(less, order.uids, order.dirty, changed, d);
    }

    method TableCount() returns (n: nat)
      requires Valid()
      modifies this`order
      ensures Valid() && n == |Matching(mt, pods, KeyOf(Now()))|
    {
      hide DerivedOk;
      Unfold();
      var key := KeyOf(Now());
      if key.filter == "" && key.ns == "" {
        assert Matching(mt, pods, key) == pods.Keys;
        return key.size;
      }
      if !order.countValid || order.countKey != key {
        var count := CountMatching(pods.Keys, ShownIn(mt, pods, key));
        assert Matching(mt, pods, key) == set u | u in pods.Keys && ShownIn(mt, pods, key)(u);
        CountRebuilt(mt, snap, Cached(), Now(), key);
        order := order.(count := count, countKey := key, countValid := true);
      }
      return order.count;
    }

    method DashboardPodOrder() returns (cpu: seq<Uid>, mem: seq<Uid>)
      requires Valid()
      modifies this`dash
      ensures Valid() && DashOrders(pods, Scope(Now()), cpu, mem)
    {
      var scope := Scope(Now());
      if dash.valid && dash.ns == scope && dash.size == |pods| {
        return dash.cpu, dash.mem;
      }
      var rows := Select(pods.Keys, MeasuredIn(pods, scope));
      assert Elements(rows) == Measured(pods, scope);
      DashLessStrictTotal(pods, false, Elements(rows));
      DashLessStrictTotal(pods, true, Elements(rows));
      SortSeqOrders(DashLess(pods, false), rows);
      SortSeqOrders(DashLess(pods, true), rows);
      cpu, mem := SortSeq(DashLess(pods, false), rows), SortSeq(DashLess(pods, true), rows);
      dash := DashOrder(true, scope, |pods|, cpu, mem);
    }

    method PodPhaseCounts() returns (ph: Phases)
      requires Valid()
      modifies this`phases, this`phasesValid, this`phaseSize
      ensures Valid() && ph == PhasesOf(pods, pods.Keys)
    {
      if !phasesValid || phaseSize != |pods| {
        phases := CountPhases(pods);
        phasesValid, phaseSize := true, |pods|;
      }
      return phases;
    }

    method NamespaceCounts() returns (m: map<string, NsCount>)
      requires Valid()
      modifies this`nsCounts, this`nsSizes
      ensures Valid() && IsNsCounts(m, Now(), pods.Keys, deployments.Keys, events.Keys)
    {
      hide IsNsCounts;
      var sizes := (|pods|, |deployments|, |events|);
      if nsCounts.None? || nsSizes != sizes {
        m := CollectNsCounts(Now());
        nsCounts, nsSizes := Some(m), sizes;
      }
      return nsCounts.value;
    }

    // ---------------------------------------------------- other messages

    method ApplyDeploy(uid: Uid, deploy: Option<string>)
      requires Valid()
      modifies this`deployments, this`nsCounts
      ensures Valid() && Now() == Apply(old(Now()), DeployChanged(uid, deploy))
    {
      deployments := Put(deployments, uid, deploy);
      nsCounts := None;
    }

    method ApplyEvent(uid: Uid, warn: Option<Warn>)
      requires Valid()
      modifies this`events, this`nsCounts
      ensures Valid() && Now() == Apply(old(Now()), EventChanged(uid, warn))
    {
      events := Put(events, uid, warn);
      nsCounts := None;
    }

    /** Filter, pickers and sort state only move the key the next read compares against. */
    method Steer(op: Op)
      requires Valid() && (op.SetFilter? || op.SetNamespace? || op.Synced? || op.CycleSort? || op.FlipSort?)
      modifies this`filter, this`namespace, this`watchNamespace, this`sortKey, this`desc
      ensures Valid() && Now() == Apply(old(Now()), op)
    {
      hide DerivedOk;
      ghost var f := Now();
      match op {
        case SetFilter(text) => filter := text;
        case SetNamespace(ns) => namespace := ns;
        case Synced(ns) => watchNamespace := ns;
        case CycleSort => sortKey := NextKey(sortKey);
        case FlipSort => desc := !desc;
      }
      SteeringKeepsDerived(mt, snap, Cached(), f, Now());
    }

    method Read(op: Op) returns (r: Reading)
      requires Valid()
      requires op.ReadTable? || op.ReadCount? || op.ReadDashboard? || op.ReadPhases? || op.ReadNsCounts?
      modifies this`order, this`snap, this`dash, this`phases, this`phasesValid, this`phaseSize,
               this`nsCounts, this`nsSizes
      ensures Valid() && Now() == old(Now()) && Agrees(mt, Now(), op, r)
    {
      hide DerivedOk, FullOrder, Matching, DashOrders, PhasesOf, IsNsCounts;
      match op {
        case ReadTable => var uids := TableUids(); r := Table(uids);
        case ReadCount => var n := TableCount(); r := Count(n);
        case ReadDashboard => var cpu, mem := DashboardPodOrder(); r := Dashboard(cpu, mem);
        case ReadPhases => var ph := PodPhaseCounts(); r := PodPhases(ph);
        case ReadNsCounts => var m := NamespaceCounts(); r := Namespaces(m);
      }
    }

    method Step(op: Op) returns (r: Reading)
      requires Valid() && ProperOp(op)
      modifies this
      ensures Valid() && Now() == Apply(old(Now()), op) && Agrees(mt, Now(), op, r)
    {
      hide DerivedOk, FullOrder, Matching, DashOrders, PhasesOf, IsNsCounts;
      r := Nothing;
      match op {
        case PodChanged(ev, pending) => UpdatePod(ev, pending);
        case MetricsSnapshot(byName) => ApplyMetrics(byName);
        case NetworkSweep(nets) => ApplyNetwork(nets);
        case DeployChanged(uid, deploy) => ApplyDeploy(uid, deploy);
        case EventChanged(uid, warn) => ApplyEvent(uid, warn);
        case SetFilter(_) => Steer(op);
        case SetNamespace(_) => Steer(op);
        case Synced(_) => Steer(op);
        case CycleSort => Steer(op);
        case FlipSort => Steer(op);
        case _ => r := Read(op);
      }
    }
  }

  /** Any run of messages, steering and reads: every read through the caches returns what a
      full recompute over the rows at that point would. */
  method Replay(mt: Matcher, ops: seq<Op>) returns (log: seq<Reading>)
    requires mt.lower("") == "" && forall i :: 0 <= i < |ops| ==> ProperOp(ops[i])
    ensures |log| == |ops|
    ensures forall i :: 0 <= i < |ops| ==> Agrees(mt, AfterAll(ops[..i + 1]), ops[i], log[i])
  {
    hide Agrees, DerivedOk, Apply, ProperOp, Model.Valid, Model.Now;
    var m := new Model(mt);
    log := [];
    for i := 0 to |ops|
      invariant m.Valid() && m.mt == mt && fresh(m)
      invariant m.Now() == AfterAll(ops[..i]) && |log| == i
      invariant forall j :: 0 <= j < i ==> Agrees(mt, AfterAll(ops[..j + 1]), ops[j], log[j])
    {
      assert ops[..i + 1][..i] == ops[..i];
      var r := m.Step(ops[i]);
      log := log + [r];
    }
  }
}
