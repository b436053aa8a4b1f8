/** Network readings go stale by time alone. The UI keeps one deadline instead of scanning every
    row on every tick; this is the scan it must agree with, and the class that keeps the deadline.
    Times are integer seconds, the zero time is 0. */
module NetworkExpiry {
  import opened Options

  type Uid = string

  const MAX_AGE := 45

  predicate Fresh(at: int, now: int) {
    at != 0 && now - at < MAX_AGE
  }

  /** A pod row as far as the network columns go; `key` is its namespace/name. */
  datatype Row = Row(key: string, rx: int, tx: int, at: int, has: bool)

  datatype Status = Good | Stale | Unavailable

  datatype Aggregate = Aggregate(rx: int, tx: int, at: int, ok: bool, status: Status)

  /** The model without its deadline. */
  datatype View = View(rows: map<Uid, Row>, agg: Aggregate, snapshotAt: int)

  datatype PodNet = PodNet(key: string, at: int, rx: int, tx: int)

  datatype Snapshot = Snapshot(pods: seq<PodNet>, rx: int, tx: int, at: int, ok: bool, scraped: nat)

  // ----------------------------------------------------------- the full scan

  function ScanRow(r: Row, now: int): Row {
    r.(has := r.has && Fresh(r.at, now))
  }

  function ScanAggregate(a: Aggregate, now: int): Aggregate {
    if a.ok && !Fresh(a.at, now) then a.(ok := false, status := Stale) else a
  }

  /** Every row and the aggregate, looked at again. */
  function Scanned(v: View, now: int): View {
    v.(rows := map u | u in v.rows :: ScanRow(v.rows[u], now), agg := ScanAggregate(v.agg, now))
  }

  // -------------------------------------------------------------- snapshots

  /** A reading without its own time takes the snapshot's. */
  function Dated(p: PodNet, at: int): PodNet {
    if p.at == 0 then p.(at := at) else p
  }

  /** Readings by pod; a later one of the same pod wins. */
  function ByPod(ps: seq<PodNet>, at: int): map<string, PodNet> {
    if |ps| == 0 then map[]
    else ByPod(ps[..|ps| - 1], at)[ps[|ps| - 1].key := Dated(ps[|ps| - 1], at)]
  }

  function OldestAt(ps: seq<PodNet>, at: int): int {
    if |ps| == 0 then at
    else
      var t, p := OldestAt(ps[..|ps| - 1], at), Dated(ps[|ps| - 1], at);
      if p.at < t then p.at else t
  }

  function ReadRow(r: Row, byPod: map<string, PodNet>, now: int): Row {
    if r.key in byPod then
      var p := byPod[r.key];
      Row(r.key, p.rx, p.tx, p.at, Fresh(p.at, now))
    else Row(r.key, 0, 0, 0, false)
  }

  function ReadAggregate(msg: Snapshot, now: int): Aggregate {
    var at := OldestAt(msg.pods, msg.at);
    Aggregate(msg.rx, msg.tx, at, Fresh(at, now),
              if Fresh(at, now) then Good else if at == 0 then Unavailable else Stale)
  }

  predicate OutOfOrder(v: View, msg: Snapshot) {
    msg.at != 0 && msg.at < v.snapshotAt
  }

  function Snapped(v: View, msg: Snapshot, now: int): View {
    if OutOfOrder(v, msg) then v
    else
      var v1 := v.(snapshotAt := if msg.at != 0 then msg.at else v.snapshotAt);
      if !msg.ok && msg.scraped == 0 then
        v1.(rows := map u | u in v.rows :: v.rows[u].(has := false),
            agg := v.agg.(ok := false, status := Unavailable))
      else
        v1.(rows := map u | u in v.rows :: ReadRow(v.rows[u], ByPod(msg.pods, msg.at), now),
            agg := ReadAggregate(msg, now))
  }

  // ------------------------------------------------------------- other steps

  /** An informer event names or removes a pod; a row that stays keeps its readings. */
  function Filed(v: View, u: Uid, key: Option<string>): View {
    v.(rows :=
      match key
      case None => v.rows - {u}
      case Some(k) => v.rows[u := if u in v.rows then v.rows[u].(key := k) else Row(k, 0, 0, 0, false)])
  }

  const EMPTY := View(map[], Aggregate(0, 0, 0, false, Unavailable), 0)

  // ------------------------------------------------------------ the deadline

  predicate CoversAt(at: int, deadline: int) {
    at != 0 && deadline != 0 && deadline <= at + MAX_AGE
  }

  ghost predicate CoversRows(rows: map<Uid, Row>, deadline: int) {
    forall u :: u in rows && rows[u].has ==> CoversAt(rows[u].at, deadline)
  }

  /** The deadline is at or before the expiry of everything still marked fresh. */
  ghost predicate Covers(v: View, deadline: int) {
    CoversRows(v.rows, deadline) && (v.agg.ok ==> CoversAt(v.agg.at, deadline))
  }

  function Due(at: int, deadline: int): int {
    if deadline == 0 || at + MAX_AGE < deadline then at + MAX_AGE else deadline
  }

  /** Scheduling covers the new reading and keeps covering all others, unless the reading expires
      at the very instant that stands for "no deadline". */
  lemma DueCovers(at: int, deadline: int)
    requires at != 0
    ensures CoversAt(at, Due(at, deadline)) <==> at != -MAX_AGE || deadline < 0
    ensures (forall other :: CoversAt(other, deadline) ==> CoversAt(other, Due(at, deadline)))
      <==> at != -MAX_AGE || deadline <= 0
  {
    if at == -MAX_AGE && deadline > 0 {
      assert CoversAt(deadline, deadline) && !CoversAt(deadline, Due(at, deadline));
    }
  }

  /** Before the deadline a scan would change nothing. */
  lemma NothingDue(v: View, deadline: int, now: int)
    requires Covers(v, deadline) && (deadline == 0 || now < deadline)
    ensures Scanned(v, now) == v
  {
    forall u | u in v.rows ensures ScanRow(v.rows[u], now) == v.rows[u] {
    }
    assert (map u | u in v.rows :: ScanRow(v.rows[u], now)) == v.rows;
  }

  /** Every reading marked fresh can be scheduled. */
  ghost predicate Schedulable(v: View) {
    && (forall u :: u in v.rows && v.rows[u].has ==> v.rows[u].at != 0 && v.rows[u].at > -MAX_AGE)
    && (v.agg.ok ==> v.agg.at != 0 && v.agg.at > -MAX_AGE)
  }

  /** A clock at or after the zero time is all it takes for every fresh reading to have a deadline
      that does not read as "none"; an earlier clock lets one through that has not. */
  lemma FreshCanBeScheduled(now: int)
    ensures (forall at, deadline :: Fresh(at, now) && deadline >= 0 ==> CoversAt(at, Due(at, deadline))) <==> now >= 0
  {
    if now < 0 {
      assert Fresh(-MAX_AGE, now) && !CoversAt(-MAX_AGE, Due(-MAX_AGE, 0));
    }
  }

  lemma StaysSchedulable(v: View, msg: Snapshot, now: int)
    requires Schedulable(v)
    ensures now >= 0 ==> Schedulable(Snapped(v, msg, now))
    ensures Schedulable(Scanned(v, now))
  {
  }

  // ------------------------------------------------------ what is displayed

  /** The last reading of a pod in a snapshot. */
  ghost predicate IsLast(ps: seq<PodNet>, key: string, i: nat) {
    i < |ps| && ps[i].key == key && forall j :: i < j < |ps| ==> ps[j].key != key
  }

  /** A reading that carries no time is as old as its snapshot. */
  ghost predicate TakenAt(p: PodNet, snapshotAt: int, at: int) {
    at == if p.at != 0 then p.at else snapshotAt
  }

  lemma {:induction false} ByPodIsLast(ps: seq<PodNet>, at: int, key: string)
    ensures key in ByPod(ps, at) <==> exists i: nat :: IsLast(ps, key, i)
    ensures forall i: nat :: IsLast(ps, key, i) ==> ByPod(ps, at)[key] == Dated(ps[i], at)
    decreases |ps|
  {
    if |ps| > 0 {
      var n := |ps| - 1;
      ByPodIsLast(ps[..n], at, key);
      if ps[n].key == key {
        assert IsLast(ps, key, n);
      } else {
        assert forall i: nat :: IsLast(ps, key, i) <==> IsLast(ps[..n], key, i);
      }
    }
  }

  /** A snapshot that came in order and reached a node shows each pod its own last reading, fresh if
      it is less than 45 seconds old; a pod without one is shown none. One that reached no node only
      takes the flags away; one that came out of order changes nothing. */
  lemma SnapshotShows(v: View, msg: Snapshot, now: int, u: Uid)
    requires u in v.rows
    ensures var t := Snapped(v, msg, now);
      && t.rows.Keys == v.rows.Keys && t.rows[u].key == v.rows[u].key
      && (msg.at != 0 && msg.at < v.snapshotAt ==> t == v)
      && !(msg.at != 0 && msg.at < v.snapshotAt) ==>
           var (r, r') := (v.rows[u], t.rows[u]);
           && t.snapshotAt == (if msg.at == 0 then v.snapshotAt else msg.at)
           && if !msg.ok && msg.scraped == 0 then
                r' == Row(r.key, r.rx, r.tx, r.at, false)
              else
                && ((forall i: nat :: !IsLast(msg.pods, r.key, i)) ==> r' == Row(r.key, 0, 0, 0, false))
                && forall i: nat, at :: IsLast(msg.pods, r.key, i) && TakenAt(msg.pods[i], msg.at, at) ==>
                     r' == Row(r.key, msg.pods[i].rx, msg.pods[i].tx, at, at != 0 && now - at < 45)
  {
    hide ByPod, IsLast;
    ByPodIsLast(msg.pods, msg.at, v.rows[u].key);
  }

  lemma {:induction false} OldestIs(ps: seq<PodNet>, at: int)
    ensures OldestAt(ps, at) <= at
    ensures forall i, t :: 0 <= i < |ps| && TakenAt(ps[i], at, t) ==> OldestAt(ps, at) <= t
    ensures OldestAt(ps, at) == at || exists i :: 0 <= i < |ps| && TakenAt(ps[i], at, OldestAt(ps, at))
    decreases |ps|
  {
    if |ps| > 0 {
      var n := |ps| - 1;
      OldestIs(ps[..n], at);
      if OldestAt(ps, at) == OldestAt(ps[..n], at) != at {
        var i :| 0 <= i < n && TakenAt(ps[..n][i], at, OldestAt(ps, at));
        assert TakenAt(ps[i], at, OldestAt(ps, at));
      } else if OldestAt(ps, at) != at {
        assert TakenAt(ps[n], at, OldestAt(ps, at));
      }
    }
  }

  /** The totals are the snapshot's, as old as its oldest reading, good exactly while that is less than
      45 seconds old. */
  lemma TotalsShow(v: View, msg: Snapshot, now: int)
    requires !(msg.at != 0 && msg.at < v.snapshotAt)
    ensures var a := Snapped(v, msg, now).agg;
      if !msg.ok && msg.scraped == 0 then a == Aggregate(v.agg.rx, v.agg.tx, v.agg.at, false, Unavailable)
      else
        && a.rx == msg.rx && a.tx == msg.tx
        && a.at <= msg.at && (forall i, t :: 0 <= i < |msg.pods| && TakenAt(msg.pods[i], msg.at, t) ==> a.at <= t)
        && (a.at == msg.at || exists i :: 0 <= i < |msg.pods| && TakenAt(msg.pods[i], msg.at, a.at))
        && (a.ok <==> a.at != 0 && now - a.at < 45)
        && a.status == (if a.ok then Good else if a.at == 0 then Unavailable else Stale)
  {
    hide OldestAt, ByPod;
    OldestIs(msg.pods, msg.at);
  }

  /** A tick takes the flag from every reading that is 45 seconds old by then, and changes nothing
      else: no reading shown as fresh is older. */
  lemma TickShows(v: View, now: int, u: Uid)
    requires u in v.rows
    ensures var (r, r') := (v.rows[u], Scanned(v, now).rows[u]);
      && r' == Row(r.key, r.rx, r.tx, r.at, r.has && r.at != 0 && now - r.at < 45)
    ensures var (a, a') := (v.agg, Scanned(v, now).agg);
      && a'.rx == a.rx && a'.tx == a.tx && a'.at == a.at
      && (a'.ok <==> a.ok && a.at != 0 && now - a.at < 45)
      && a'.status == (if a.ok && !a'.ok then Stale else a.status)
    ensures Scanned(v, now).rows.Keys == v.rows.Keys && Scanned(v, now).snapshotAt == v.snapshotAt
  {
  }

  /** A pod event removes a row, renames one without touching its reading, or adds one without any. */
  lemma PodShows(v: View, u: Uid, key: Option<string>, other: Uid)
    ensures var t := Filed(v, u, key);
      && t.agg == v.agg && t.snapshotAt == v.snapshotAt
      && (u in t.rows <==> key.Some?)
      && (key.Some? && u in v.rows ==>
            t.rows[u] == Row(key.value, v.rows[u].rx, v.rows[u].tx, v.rows[u].at, v.rows[u].has))
      && (key.Some? && u !in v.rows ==> t.rows[u].key == key.value && !t.rows[u].has)
      && (other != u ==>
            (other in t.rows <==> other in v.rows) && (other in v.rows ==> t.rows[other] == v.rows[other]))
  {
  }

  // --------------------------------------------------------------- the class

  class NetworkModel {
    var rows: map<Uid, Row>
    var agg: Aggregate
    var snapshotAt: int
    var expiresAt: int

    function Value(): View
      reads this
    {
      View(rows, agg, snapshotAt)
    }

    constructor ()
      ensures Value() == EMPTY && Covers(Value(), expiresAt)
    {
      rows, agg, snapshotAt, expiresAt := map[], Aggregate(0, 0, 0, false, Unavailable), 0, 0;
    }

    method ScheduleExpiry(at: int)
      modifies this`expiresAt
      ensures expiresAt == Due(at, old(expiresAt))
    {
      var due := at + MAX_AGE;
      if expiresAt == 0 || due < expiresAt {
        expiresAt := due;
      }
    }

    method SetRow(u: Uid, row: Row)
      requires u in rows && (row.has ==> row.at != 0 && row.at > -MAX_AGE)
      modifies this`rows, this`expiresAt
      ensures rows == old(rows)[u := row]
      ensures row.has ==> CoversAt(row.at, expiresAt)
      ensures forall other :: CoversAt(other, old(expiresAt)) ==> CoversAt(other, expiresAt)
    {
      DueCovers(if row.at == 0 then 1 else row.at, expiresAt);
      if row.has {
        ScheduleExpiry(row.at);
      }
      rows := rows[u := row];
    }

    method ClearRows()
      modifies this`rows
      ensures rows == map u | u in old(rows) :: old(rows)[u].(has := false)
    {
      ghost var rows0 := rows;
      var todo := rows.Keys;
      while todo != {}
        invariant todo <= rows0.Keys == rows.Keys
        invariant forall u :: u in rows ==> rows[u] == if u in todo then rows0[u] else rows0[u].(has := false)
        decreases todo
      {
        var u :| u in todo;
        rows := rows[u := rows[u].(has := false)];
        todo := todo - {u};
      }
    }

    method ReadRows(byPod: map<string, PodNet>, now: int)
      requires expiresAt == 0 && now >= 0
      modifies this`rows, this`expiresAt
      ensures rows == map u | u in old(rows) :: ReadRow(old(rows)[u], byPod, now)
      ensures CoversRows(rows, expiresAt)
    {
      ghost var rows0 := rows;
      var todo := rows.Keys;
      while todo != {}
        invariant todo <= rows0.Keys == rows.Keys
        invariant forall u :: u in rows ==> rows[u] == if u in todo then rows0[u] else ReadRow(rows0[u], byPod, now)
        invariant forall u :: u in rows && u !in todo && rows[u].has ==> CoversAt(rows[u].at, expiresAt)
        decreases todo
      {
        var u :| u in todo;
        SetRow(u, ReadRow(rows[u], byPod, now));
        todo := todo - {u};
      }
    }

    method ScanRows(now: int)
      requires forall u :: u in rows && rows[u].has ==> rows[u].at != 0 && rows[u].at > -MAX_AGE
      modifies this`rows, this`expiresAt
      ensures rows == map u | u in old(rows) :: ScanRow(old(rows)[u], now)
      ensures CoversRows(rows, expiresAt)
      ensures forall other :: CoversAt(other, old(expiresAt)) ==> CoversAt(other, expiresAt)
    {
      ghost var rows0 := rows;
      var todo := rows.Keys;
      while todo != {}
        invariant todo <= rows0.Keys == rows.Keys
        invariant forall u :: u in rows ==> rows[u] == if u in todo then rows0[u] else ScanRow(rows0[u], now)
        invariant forall u :: u in rows && u !in todo && rows[u].has ==> CoversAt(rows[u].at, expiresAt)
        invariant forall other :: CoversAt(other, old(expiresAt)) ==> CoversAt(other, expiresAt)
        decreases todo
      {
        var u :| u in todo;
        if rows[u].has {
          SetRow(u, ScanRow(rows[u], now));
        }
        todo := todo - {u};
      }
    }

    method ApplySnapshot(msg: Snapshot, now: int)
      requires Covers(Value(), expiresAt) && now >= 0
      modifies this
      ensures Value() == Snapped(old(Value()), msg, now) && Covers(Value(), expiresAt)
    {
      hide ByPod, OldestAt;
      if msg.at != 0 && msg.at < snapshotAt {
        return;
      }
      if msg.at != 0 {
        snapshotAt := msg.at;
      }
      expiresAt := 0;
      if !msg.ok && msg.scraped == 0 {
        agg := agg.(ok := false, status := Unavailable);
        ClearRows();
        return;
      }
      var byPod, oldest := IndexReadings(msg.pods, msg.at);
      ReadRows(byPod, now);
      ReadTotals(msg, oldest, now);
    }

    method ReadTotals(msg: Snapshot, oldest: int, now: int)
      requires oldest == OldestAt(msg.pods, msg.at) && CoversRows(rows, expiresAt) && now >= 0
      modifies this`agg, this`expiresAt
      ensures agg == ReadAggregate(msg, now) && Covers(Value(), expiresAt)
    {
      hide OldestAt;
      var status := if oldest == 0 then Unavailable else Stale;
      agg := Aggregate(msg.rx, msg.tx, oldest, Fresh(oldest, now), status);
      if agg.ok {
        agg := agg.(status := Good);
        DueCovers(oldest, expiresAt);
        ScheduleExpiry(oldest);
      }
    }

    /** The tick: nothing before the deadline, a scan and a new deadline at it. */
    method Expire(now: int)
      requires Schedulable(Value()) && Covers(Value(), expiresAt)
      modifies this
      ensures Value() == Scanned(old(Value()), now) && Covers(Value(), expiresAt)
    {
      if expiresAt == 0 || now < expiresAt {
        NothingDue(Value(), expiresAt, now);
        return;
      }
      expiresAt := 0;
      if agg.ok {
        if Fresh(agg.at, now) {
          DueCovers(agg.at, expiresAt);
          ScheduleExpiry(agg.at);
        } else {
          agg := agg.(ok := false, status := Stale);
        }
      }
      ScanRows(now);
    }

    method FilePod(u: Uid, key: Option<string>)
      requires Covers(Value(), expiresAt)
      modifies this`rows
      ensures Value() == Filed(old(Value()), u, key) && Covers(Value(), expiresAt)
    {
      match key {
        case None => rows := rows - {u};
        case Some(k) => rows := rows[u := if u in rows then rows[u].(key := k) else Row(k, 0, 0, 0, false)];
      }
    }
  }

  method IndexReadings(ps: seq<PodNet>, at: int) returns (byPod: map<string, PodNet>, oldest: int)
    ensures byPod == ByPod(ps, at) && oldest == OldestAt(ps, at)
  {
    byPod, oldest := map[], at;
    for i := 0 to |ps|
      invariant byPod == ByPod(ps[..i], at) && oldest == OldestAt(ps[..i], at)
    {
      assert ps[..i + 1][..i] == ps[..i];
      var pod := Dated(ps[i], at);
      byPod := byPod[pod.key := pod];
      if pod.at < oldest {
        oldest := pod.at;
      }
    }
    assert ps[..|ps|] == ps;
  }

  // ------------------------------------------------------------- whole runs

  datatype Op = Arrive(msg: Snapshot, now: int) | Tick(now: int) | Pod(u: Uid, key: Option<string>)

  /** The same run with a full scan at every tick. */
  function Eager(ops: seq<Op>): View {
    if |ops| == 0 then EMPTY
    else
      var v := Eager(ops[..|ops| - 1]);
      match ops[|ops| - 1]
      case Arrive(msg, now) => Snapped(v, msg, now)
      case Tick(now) => Scanned(v, now)
      case Pod(u, key) => Filed(v, u, key)
  }

  /** Over any run of snapshots (partial, failed or out of order, with readings of any date), pod
      events and ticks, under a clock not before the zero time when a snapshot arrives, every flag,
      reading and status is what a full scan at every tick would have left. */
  method Lazily(ops: seq<Op>) returns (views: seq<View>)
    requires forall i :: 0 <= i < |ops| && ops[i].Arrive? ==> ops[i].now >= 0
    ensures |views| == |ops| && forall i :: 0 <= i < |ops| ==> views[i] == Eager(ops[..i + 1])
  {
    hide Snapped, Scanned, Filed, Covers, Schedulable;
    var m := new NetworkModel();
    views := [];
    EmptySchedulable();
    for i := 0 to |ops|
      invariant fresh(m) && m.Value() == Eager(ops[..i]) && Schedulable(m.Value()) && Covers(m.Value(), m.expiresAt)
      invariant |views| == i && forall k :: 0 <= k < i ==> views[k] == Eager(ops[..k + 1])
    {
      assert ops[..i + 1][..i] == ops[..i];
      KeepsSchedulable(m.Value(), ops[i]);
      match ops[i] {
        case Arrive(msg, now) => m.ApplySnapshot(msg, now);
        case Tick(now) => m.Expire(now);
        case Pod(u, key) => m.FilePod(u, key);
      }
      views := views + [m.Value()];
    }
  }

  lemma EmptySchedulable()
    ensures Schedulable(EMPTY)
  {
  }

  lemma KeepsSchedulable(v: View, op: Op)
    requires Schedulable(v) && (op.Arrive? ==> op.now >= 0)
    ensures match op
      case Arrive(msg, now) => Schedulable(Snapped(v, msg, now))
      case Tick(now) => Schedulable(Scanned(v, now))
      case Pod(u, key) => Schedulable(Filed(v, u, key))
  {
    if op.Arrive? { StaysSchedulable(v, op.msg, op.now); }
  }
}
