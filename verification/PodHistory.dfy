/** The uncached model after a run, read off the messages themselves: what the latest one of each
    kind said, and which messages may write which fields of a row. */
module PodHistory {
  import opened PodRows
  import opened PodTable
  import opened Options

  /** What the latest message that `says` something said. */
  ghost function Latest<T>(ops: seq<Op>, says: Op -> Option<T>): Option<T> {
    if |ops| == 0 then None
    else if says(ops[|ops| - 1]).Some? then says(ops[|ops| - 1])
    else Latest(ops[..|ops| - 1], says)
  }

  ghost function Or(v: Option<string>): string {
    if v.Some? then v.value else ""
  }

  ghost function Times(ops: seq<Op>, kind: Op -> bool): nat {
    if |ops| == 0 then 0 else Times(ops[..|ops| - 1], kind) + if kind(ops[|ops| - 1]) then 1 else 0
  }

  const COLUMNS := [
    SortNamespace, SortName, SortStatus, SortRestarts, SortAge, SortCPU, SortMem, SortMemPct, SortNetRX, SortNetTX,
    SortNode]

  /** The column after `n` steps through them, around and around. */
  function Column(n: nat): SortKey {
    COLUMNS[n % 11]
  }

  function FilterSet(op: Op): Option<string> { if op.SetFilter? then Some(op.text) else None }

  function NamespacePicked(op: Op): Option<string> { if op.SetNamespace? then Some(op.ns) else None }

  function ScopeSynced(op: Op): Option<string> { if op.Synced? then Some(op.watchNamespace) else None }

  predicate Cycles(op: Op) { op.CycleSort? }

  predicate Flips(op: Op) { op.FlipSort? }

  /** A table is shown as it was last steered: the latest filter, picker and watch scope; the sort
      column as many columns on as it was cycled, back to the first after the last; descending after
      an odd number of flips. */
  lemma {:induction false} LastSteered(ops: seq<Op>)
    ensures var f := AfterAll(ops);
      && f.filter == Or(Latest(ops, FilterSet))
      && f.namespace == Or(Latest(ops, NamespacePicked))
      && f.watchNamespace == Or(Latest(ops, ScopeSynced))
      && f.sortKey == Column(Times(ops, Cycles))
      && (f.desc <==> Times(ops, Flips) % 2 == 1)
    decreases |ops|
  {
    hide Apply, Column, FilterSet, NamespacePicked, ScopeSynced, Cycles, Flips;
    FirstColumn();
    if |ops| > 0 {
      var rest, op := ops[..|ops| - 1], ops[|ops| - 1];
      LastSteered(rest);
      Steers(AfterAll(rest), op);
      NextColumn(Times(rest, Cycles));
    }
  }

  lemma Steers(f: Facts, op: Op)
    ensures var g := Apply(f, op);
      && g.filter == (if FilterSet(op).Some? then FilterSet(op).value else f.filter)
      && g.namespace == (if NamespacePicked(op).Some? then NamespacePicked(op).value else f.namespace)
      && g.watchNamespace == (if ScopeSynced(op).Some? then ScopeSynced(op).value else f.watchNamespace)
      && g.sortKey == (if Cycles(op) then NextKey(f.sortKey) else f.sortKey)
      && g.desc == (if Flips(op) then !f.desc else f.desc)
  {
    hide AfterPodEvent, MetricRow, NetRow, Put, NextKey;
  }

  lemma FirstColumn()
    ensures Column(0) == SortNamespace
  {
  }

  lemma NextColumn(n: nat)
    ensures NextKey(Column(n)) == Column(n + 1)
  {
    assert (n + 1) % 11 == if n % 11 == 10 then 0 else n % 11 + 1;
  }

  function DeploySaid(u: Uid): Op -> Option<Option<string>> {
    (op: Op) => if op.DeployChanged? && op.uid == u then Some(op.deploy) else None
  }

  function EventSaid(u: Uid): Op -> Option<Option<Warn>> {
    (op: Op) => if op.EventChanged? && op.uid == u then Some(op.warn) else None
  }

  /** What a table holds under `u`. */
  function Held<T>(m: map<Uid, T>, u: Uid): Option<T> {
    if u in m then Some(m[u]) else None
  }

  function Flat<T>(v: Option<Option<T>>): Option<T> {
    if v.Some? then v.value else None
  }

  /** The other tables hold, for each UID, what the latest message about it said. */
  lemma {:induction false} LastStored(ops: seq<Op>, u: Uid)
    ensures Held(AfterAll(ops).deployments, u) == Flat(Latest(ops, DeploySaid(u)))
    ensures Held(AfterAll(ops).events, u) == Flat(Latest(ops, EventSaid(u)))
    decreases |ops|
  {
    hide Apply, Held, DeploySaid, EventSaid;
    if |ops| == 0 {
      NothingHeld(u);
    } else {
      LastStored(ops[..|ops| - 1], u);
      Stores(AfterAll(ops[..|ops| - 1]), ops[|ops| - 1], u);
    }
  }

  lemma NothingHeld(u: Uid)
    ensures Held(START.deployments, u) == None && Held(START.events, u) == None
  {
  }

  lemma Stores(f: Facts, op: Op, u: Uid)
    ensures Held(Apply(f, op).deployments, u)
      == if DeploySaid(u)(op).Some? then DeploySaid(u)(op).value else Held(f.deployments, u)
    ensures Held(Apply(f, op).events, u)
      == if EventSaid(u)(op).Some? then EventSaid(u)(op).value else Held(f.events, u)
  {
    hide AfterPodEvent, MetricRow, NetRow, NextKey;
  }

  /** Who writes a row: a snapshot gives every pod it names, by namespace and name, its metrics and
      takes the reading from the others; a network sweep writes the rates of the pods it has; a pod's
      first event starts it without readings, save a metric found waiting; nothing else writes
      metrics or rates, and only a pod event adds or removes a row. */
  lemma RowWriters(f: Facts, op: Op, u: Uid)
    requires WellFiled(f.pods)
    ensures var pods := Apply(f, op).pods;
      && (u in pods <==> if op.PodChanged? && op.ev.uid == u then !op.ev.deleted else u in f.pods)
      && (u in pods && u in f.pods ==>
            var (before, after) := (f.pods[u], pods[u]);
            var name := before.inf.ns + "/" + before.inf.name;
            && after.metrics ==
              (if op.MetricsSnapshot? && name in op.byName
               then Metrics(true, op.byName[name].cpuMilli, op.byName[name].memBytes)
               else if op.MetricsSnapshot? then Metrics(false, before.metrics.cpuMilli, before.metrics.memBytes)
               else before.metrics)
            && after.net == (if op.NetworkSweep? && u in op.nets then op.nets[u] else before.net))
      && (u in pods && u !in f.pods ==>
            && !pods[u].net.has
            && (pods[u].metrics.has <==> op.pendingMetric.Some?)
            && (op.pendingMetric.Some? ==>
                  && pods[u].metrics.cpuMilli == op.pendingMetric.value.cpuMilli
                  && pods[u].metrics.memBytes == op.pendingMetric.value.memBytes))
  {
    hide Put;
  }
}
