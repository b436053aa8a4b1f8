/** Pod rows, who owns which of their fields, and the orders the tables show them in. */
module PodRows {
  import opened Ordering

  type Uid = string

  /** Fields written by the informer; `detail` stands for the ones no order or count reads. */
  datatype Informer = Informer(
    ns: string, name: string, phase: string, restarts: int, node: string,
    createdAt: int, memLimit: int, detail: int)

  /** Fields written by metrics snapshots, and by network snapshots. */
  datatype Metrics = Metrics(has: bool, cpuMilli: int, memBytes: int)
  datatype Net = Net(has: bool, rx: int, tx: int, at: int)

  datatype PodRow = PodRow(uid: Uid, inf: Informer, metrics: Metrics, net: Net)

  /** The zero row a map lookup yields for an absent UID. */
  const ZERO_ROW := PodRow("", Informer("", "", "", 0, "", 0, 0, 0), Metrics(false, 0, 0), Net(false, 0, 0, 0))

  datatype PodEvent = PodEvent(uid: Uid, inf: Informer, deleted: bool)

  function RowOf(pods: map<Uid, PodRow>, uid: Uid): PodRow {
    if uid in pods then pods[uid] else ZERO_ROW
  }

  /** applyPodEvent: a deletion removes the row, anything else rewrites only informer fields. */
  function ApplyPodEvent(pods: map<Uid, PodRow>, ev: PodEvent): map<Uid, PodRow> {
    if ev.deleted then pods - {ev.uid}
    else pods[ev.uid := RowOf(pods, ev.uid).(uid := ev.uid, inf := ev.inf)]
  }

  /** Every row is filed under its own, non-empty UID. */
  predicate WellFiled(pods: map<Uid, PodRow>) {
    forall u :: u in pods ==> u != "" && pods[u].uid == u
  }

  // ------------------------------------------------------------- ordering

  datatype SortKey =
    | SortNamespace | SortName | SortStatus | SortRestarts | SortAge | SortCPU | SortMem
    | SortMemPct | SortNetRX | SortNetTX | SortNode

  /** The keys in column order; `s` cycles through them. */
  function NextKey(k: SortKey): SortKey {
    match k
    case SortNamespace => SortName
    case SortName => SortStatus
    case SortStatus => SortRestarts
    case SortRestarts => SortAge
    case SortAge => SortCPU
    case SortCPU => SortMem
    case SortMem => SortMemPct
    case SortMemPct => SortNetRX
    case SortNetRX => SortNetTX
    case SortNetTX => SortNode
    case SortNode => SortNamespace
  }

  /** 64-bit two's complement wrap-around, and division that truncates towards zero. */
  function Wrap64(x: int): int {
    (x + 0x8000_0000_0000_0000) % 0x1_0000_0000_0000_0000 - 0x8000_0000_0000_0000
  }

  function TruncDiv(x: int, y: int): int
    requires y > 0
  {
    if x >= 0 then x / y else -((-x) / y)
  }

  function MemPct(r: PodRow): int {
    if !r.metrics.has || r.inf.memLimit <= 0 then -1
    else TruncDiv(Wrap64(r.metrics.memBytes * 100), r.inf.memLimit)
  }

  /** What a row shows in the sorted column: a text, or a number with -1 for "no reading". */
  datatype Cell = Text(s: string) | Number(n: int)

  function SortCell(r: PodRow, k: SortKey): Cell {
    match k
    case SortNamespace => Text(r.inf.ns)
    case SortName => Text(r.inf.name)
    case SortStatus => Text(r.inf.phase)
    case SortRestarts => Number(r.inf.restarts)
    case SortAge => Number(r.inf.createdAt)
    case SortCPU => Number(if r.metrics.has then r.metrics.cpuMilli else -1)
    case SortMem => Number(if r.metrics.has then r.metrics.memBytes else -1)
    case SortMemPct => Number(MemPct(r))
    case SortNetRX => Number(if r.net.has then r.net.rx else -1)
    case SortNetTX => Number(if r.net.has then r.net.tx else -1)
    case SortNode => Text(r.inf.node)
  }

  predicate CellLess(a: Cell, b: Cell) {
    match (a, b)
    case (Text(s), Text(t)) => LexLess(s, t)
    case (Number(m), Number(n)) => m < n
    case (Number(_), Text(_)) => true
    case (Text(_), Number(_)) => false
  }

  /** lessBy: the sorted column, then namespace, name and UID as tie-breakers. */
  predicate LessBy(a: PodRow, b: PodRow, k: SortKey) {
    if SortCell(a, k) != SortCell(b, k) then CellLess(SortCell(a, k), SortCell(b, k))
    else if a.inf.ns != b.inf.ns then LexLess(a.inf.ns, b.inf.ns)
    else if a.inf.name != b.inf.name then LexLess(a.inf.name, b.inf.name)
    else LexLess(a.uid, b.uid)
  }

  /** Everything LessBy looks at. */
  predicate SameRank(a: PodRow, b: PodRow, k: SortKey) {
    SortCell(a, k) == SortCell(b, k) && a.inf.ns == b.inf.ns && a.inf.name == b.inf.name && a.uid == b.uid
  }

  lemma CellTrichotomy(a: Cell, b: Cell)
    ensures a != b <==> CellLess(a, b) || CellLess(b, a)
    ensures !(CellLess(a, b) && CellLess(b, a))
  {
    if a.Text? && b.Text? { LexTrichotomy(a.s, b.s); }
  }

  lemma CellTransitive(a: Cell, b: Cell, c: Cell)
    requires CellLess(a, b) && CellLess(b, c)
    ensures CellLess(a, c)
  {
    if a.Text? && b.Text? && c.Text? { LexTransitive(a.s, b.s, c.s); }
  }

  /** Two rows compare as equal exactly when nothing the order reads tells them apart. */
  lemma LessByTrichotomy(a: PodRow, b: PodRow, k: SortKey)
    ensures !SameRank(a, b, k) <==> LessBy(a, b, k) || LessBy(b, a, k)
    ensures !(LessBy(a, b, k) && LessBy(b, a, k))
  {
    CellTrichotomy(SortCell(a, k), SortCell(b, k));
    LexTrichotomy(a.inf.ns, b.inf.ns);
    LexTrichotomy(a.inf.name, b.inf.name);
    LexTrichotomy(a.uid, b.uid);
  }

  lemma LessByTransitive(a: PodRow, b: PodRow, c: PodRow, k: SortKey)
    requires LessBy(a, b, k) && LessBy(b, c, k)
    ensures LessBy(a, c, k)
  {
    var x, y, z := SortCell(a, k), SortCell(b, k), SortCell(c, k);
    CellTrichotomy(x, y);
    CellTrichotomy(y, z);
    if x != y && y != z { CellTransitive(x, y, z); CellTrichotomy(x, z); }
    if x == y == z {
      LexTrichotomy(a.inf.ns, b.inf.ns);
      LexTrichotomy(b.inf.ns, c.inf.ns);
      if a.inf.ns != b.inf.ns && b.inf.ns != c.inf.ns {
        LexTransitive(a.inf.ns, b.inf.ns, c.inf.ns);
        LexTrichotomy(a.inf.ns, c.inf.ns);
      }
      if a.inf.ns == b.inf.ns == c.inf.ns {
        LexTrichotomy(a.inf.name, b.inf.name);
        LexTrichotomy(b.inf.name, c.inf.name);
        if a.inf.name != b.inf.name && b.inf.name != c.inf.name {
          LexTransitive(a.inf.name, b.inf.name, c.inf.name);
          LexTrichotomy(a.inf.name, c.inf.name);
        }
        if a.inf.name == b.inf.name == c.inf.name { LexTransitive(a.uid, b.uid, c.uid); }
      }
    }
  }

  /** lessPodUID, with the direction applied by swapping the operands. */
  function PodLess(pods: map<Uid, PodRow>, k: SortKey, desc: bool): (Uid, Uid) -> bool {
    (a: Uid, b: Uid) =>
      if desc then LessBy(RowOf(pods, b), RowOf(pods, a), k) else LessBy(RowOf(pods, a), RowOf(pods, b), k)
  }

  lemma PodLessAt(pods: map<Uid, PodRow>, k: SortKey, desc: bool, a: Uid, b: Uid)
    requires a in pods && b in pods
    ensures PodLess(pods, k, desc)(a, b) == if desc then LessBy(pods[b], pods[a], k) else LessBy(pods[a], pods[b], k)
  {
    hide LessBy;
    assert RowOf(pods, a) == pods[a] && RowOf(pods, b) == pods[b];
  }

  /** The pod order is total, in both directions: no two pods tie. */
  lemma PodLessStrictTotal(pods: map<Uid, PodRow>, k: SortKey, desc: bool, d: set<Uid>)
    requires WellFiled(pods) && d <= pods.Keys
    ensures StrictTotal(PodLess(pods, k, desc), d)
  {
    hide LessBy;
    var less := PodLess(pods, k, desc);
    forall a, b | a in d && b in d
      ensures less(a, b) == if desc then LessBy(pods[b], pods[a], k) else LessBy(pods[a], pods[b], k)
    {
      PodLessAt(pods, k, desc, a, b);
    }
    forall a, b | a in d && b in d
      ensures a != b <==> less(a, b) || less(b, a)
      ensures !(less(a, b) && less(b, a))
    {
      assert a in pods && b in pods && pods[a].uid == a && pods[b].uid == b;
      LessByTrichotomy(pods[a], pods[b], k);
      assert SameRank(pods[a], pods[b], k) <==> a == b;
    }
    forall a, b, c | a in d && b in d && c in d && less(a, b) && less(b, c) ensures less(a, c) {
      if desc {
        LessByTransitive(pods[c], pods[b], pods[a], k);
      } else {
        LessByTransitive(pods[a], pods[b], pods[c], k);
      }
    }
  }

  /** Rows that rank the same are interchangeable in every comparison. */
  lemma SameRankCompares(a: PodRow, a': PodRow, b: PodRow, b': PodRow, k: SortKey)
    requires SameRank(a, a', k) && SameRank(b, b', k)
    ensures LessBy(a, b, k) == LessBy(a', b', k)
  {
  }

  // ------------------------------------------------- the dashboard's order

  /** compare of dashboardPodOrder: larger value first, then name, namespace and UID. */
  predicate DashLessRows(a: PodRow, b: PodRow, memory: bool) {
    var va := if memory then a.metrics.memBytes else a.metrics.cpuMilli;
    var vb := if memory then b.metrics.memBytes else b.metrics.cpuMilli;
    if va != vb then va > vb
    else if a.inf.name != b.inf.name then LexLess(a.inf.name, b.inf.name)
    else if a.inf.ns != b.inf.ns then LexLess(a.inf.ns, b.inf.ns)
    else LexLess(a.uid, b.uid)
  }

  function DashLess(pods: map<Uid, PodRow>, memory: bool): (Uid, Uid) -> bool {
    (a: Uid, b: Uid) => DashLessRows(RowOf(pods, a), RowOf(pods, b), memory)
  }

  lemma DashTransitive(a: PodRow, b: PodRow, c: PodRow, memory: bool)
    requires DashLessRows(a, b, memory) && DashLessRows(b, c, memory)
    ensures DashLessRows(a, c, memory)
  {
    LexTrichotomy(a.inf.name, b.inf.name);
    LexTrichotomy(b.inf.name, c.inf.name);
    LexTrichotomy(a.inf.ns, b.inf.ns);
    LexTrichotomy(b.inf.ns, c.inf.ns);
    if LexLess(a.inf.name, b.inf.name) && LexLess(b.inf.name, c.inf.name) {
      LexTransitive(a.inf.name, b.inf.name, c.inf.name);
      LexTrichotomy(a.inf.name, c.inf.name);
    }
    if LexLess(a.inf.ns, b.inf.ns) && LexLess(b.inf.ns, c.inf.ns) {
      LexTransitive(a.inf.ns, b.inf.ns, c.inf.ns);
      LexTrichotomy(a.inf.ns, c.inf.ns);
    }
    if LexLess(a.uid, b.uid) && LexLess(b.uid, c.uid) { LexTransitive(a.uid, b.uid, c.uid); }
  }

  lemma DashTrichotomy(a: PodRow, b: PodRow, memory: bool)
    ensures a.uid != b.uid ==> DashLessRows(a, b, memory) || DashLessRows(b, a, memory)
    ensures !(DashLessRows(a, b, memory) && DashLessRows(b, a, memory))
  {
    LexTrichotomy(a.inf.name, b.inf.name);
    LexTrichotomy(a.inf.ns, b.inf.ns);
    LexTrichotomy(a.uid, b.uid);
  }

  lemma DashLessAt(pods: map<Uid, PodRow>, memory: bool, a: Uid, b: Uid)
    requires a in pods && b in pods
    ensures DashLess(pods, memory)(a, b) == DashLessRows(pods[a], pods[b], memory)
  {
    hide DashLessRows;
    assert RowOf(pods, a) == pods[a] && RowOf(pods, b) == pods[b];
  }

  lemma DashLessStrictTotal(pods: map<Uid, PodRow>, memory: bool, d: set<Uid>)
    requires WellFiled(pods) && d <= pods.Keys
    ensures StrictTotal(DashLess(pods, memory), d)
  {
    hide DashLess, DashLessRows;
    var less := DashLess(pods, memory);
    forall a, b | a in d && b in d ensures less(a, b) == DashLessRows(pods[a], pods[b], memory) {
      DashLessAt(pods, memory, a, b);
    }
    forall a, b | a in d && b in d
      ensures a != b <==> less(a, b) || less(b, a)
      ensures !(less(a, b) && less(b, a))
    {
      assert pods[a].uid == a && pods[b].uid == b;
      DashTrichotomy(pods[a], pods[b], memory);
    }
    forall a, b, c | a in d && b in d && c in d && less(a, b) && less(b, c) ensures less(a, c) {
      DashTransitive(pods[a], pods[b], pods[c], memory);
    }
  }
}
