/** The cached pod table as values: when a cached order is still good, what a row change
    marks dirty, and why merging the dirty rows back gives the full recompute. */
module PodOrder {
  import opened Ordering
  import opened PodRows

  /** Case folding and substring search, left uninterpreted. */
  datatype Matcher = Matcher(lower: string -> string, contains: (string, string) -> bool)

  /** matchesNames: the namespace picker, then a case-insensitive filter on both names. */
  predicate MatchesNames(mt: Matcher, ns: string, name: string, namespace: string, needle: string) {
    && (namespace == "" || ns == namespace)
    && (needle == "" || mt.contains(mt.lower(ns), needle) || mt.contains(mt.lower(name), needle))
  }

  datatype TableKey = TableKey(filter: string, ns: string, sort: SortKey, desc: bool, size: nat)

  datatype TableOrder = TableOrder(
    key: TableKey, valid: bool, uids: seq<Uid>, dirty: set<Uid>,
    countKey: TableKey, countValid: bool, count: nat)

  const NO_KEY := TableKey("", "", SortNamespace, false, 0)
  const NO_ORDER := TableOrder(NO_KEY, false, [], {}, NO_KEY, false, 0)

  predicate Shown(mt: Matcher, r: PodRow, key: TableKey) {
    MatchesNames(mt, r.inf.ns, r.inf.name, key.ns, mt.lower(key.filter))
  }

  /** The UIDs a table with this key lists. */
  function Matching(mt: Matcher, pods: map<Uid, PodRow>, key: TableKey): set<Uid> {
    set u | u in pods && Shown(mt, pods[u], key)
  }

  function ShownIn(mt: Matcher, pods: map<Uid, PodRow>, key: TableKey): Uid -> bool {
    (u: Uid) => u in pods && Shown(mt, pods[u], key)
  }

  /** `uids` is the full filter-and-sort of `pods`. */
  ghost predicate FullOrder(mt: Matcher, pods: map<Uid, PodRow>, key: TableKey, uids: seq<Uid>) {
    IsOrder(PodLess(pods, key.sort, key.desc), uids, Matching(mt, pods, key))
  }

  /** Two full recomputes of the same table are the same list. */
  lemma FullOrderUnique(mt: Matcher, pods: map<Uid, PodRow>, key: TableKey, s: seq<Uid>, t: seq<Uid>)
    requires WellFiled(pods) && FullOrder(mt, pods, key, s) && FullOrder(mt, pods, key, t)
    ensures s == t
  {
    var d := Matching(mt, pods, key);
    PodLessStrictTotal(pods, key.sort, key.desc, d);
    OrderUnique(PodLess(pods, key.sort, key.desc), s, t, d);
  }

  // --------------------------------------------------------- invalidation

  predicate IdentityChanged(before: PodRow, after: PodRow) {
    before.uid != after.uid || before.inf.ns != after.inf.ns || before.inf.name != after.inf.name
  }

  /** The order entry after invalidatePodOrder. */
  function Invalidated(o: TableOrder, before: PodRow, after: PodRow): TableOrder {
    var o1 := if IdentityChanged(before, after) then o.(countValid := false) else o;
    if o.valid && (IdentityChanged(before, after)
                   || LessBy(before, after, o.key.sort) || LessBy(after, before, o.key.sort))
    then o1.(dirty := o.dirty + ({before.uid, after.uid} - {""}))
    else o1
  }

  /** A change the cached order cannot notice, in neither the identity nor the sorted column, costs
      nothing: the order stays as it is, with no row to merge. */
  lemma QuietChange(o: TableOrder, before: PodRow, after: PodRow)
    requires SameRank(before, after, o.key.sort)
    ensures Invalidated(o, before, after) == o
  {
    LessByTrichotomy(before, after, o.key.sort);
  }

  /** The cached order is right for `snap`, the rows at its last rebuild, and every row that
      has since come, gone or moved in the cached sort column is marked dirty. */
  ghost predicate OrderOk(mt: Matcher, o: TableOrder, snap: map<Uid, PodRow>, pods: map<Uid, PodRow>) {
    o.valid ==>
      && WellFiled(snap) && o.key.size == |snap| && FullOrder(mt, snap, o.key, o.uids)
      && forall u :: u !in o.dirty ==>
           (u in snap <==> u in pods) && (u in snap && u in pods ==> SameRank(snap[u], pods[u], o.key.sort))
  }

  ghost predicate CountOk(mt: Matcher, o: TableOrder, pods: map<Uid, PodRow>) {
    o.countValid ==> o.count == |Matching(mt, pods, o.countKey)|
  }

  /** `pods'` differs from `pods` at most in the row of `u`. */
  ghost predicate ChangedAt(pods: map<Uid, PodRow>, pods': map<Uid, PodRow>, u: Uid) {
    && u != "" && WellFiled(pods) && WellFiled(pods')
    && forall v :: v != u ==> (v in pods <==> v in pods') && (v in pods && v in pods' ==> pods[v] == pods'[v])
  }

  /** One row change, followed by its invalidation, keeps the cached order and count usable. */
  lemma ChangeKeepsOrder(mt: Matcher, o: TableOrder, snap: map<Uid, PodRow>,
                         pods: map<Uid, PodRow>, pods': map<Uid, PodRow>, u: Uid)
    requires ChangedAt(pods, pods', u) && OrderOk(mt, o, snap, pods) && CountOk(mt, o, pods)
    ensures OrderOk(mt, Invalidated(o, RowOf(pods, u), RowOf(pods', u)), snap, pods')
    ensures CountOk(mt, Invalidated(o, RowOf(pods, u), RowOf(pods', u)), pods')
  {
    var before, after := RowOf(pods, u), RowOf(pods', u);
    if o.valid {
      LessByTrichotomy(before, after, o.key.sort);
    }
    if !IdentityChanged(before, after) {
      assert Matching(mt, pods, o.countKey) == Matching(mt, pods', o.countKey);
    }
  }

  // ---------------------------------------------------------------- merge

  ghost function Clean(uids: seq<Uid>, dirty: set<Uid>): set<Uid> {
    set u | u in uids && u !in dirty
  }

  /** Rows that are not dirty kept their membership and their relative order. */
  lemma CleanRows(mt: Matcher, o: TableOrder, snap: map<Uid, PodRow>, pods: map<Uid, PodRow>)
    requires o.valid && OrderOk(mt, o, snap, pods) && WellFiled(pods)
    ensures Clean(o.uids, o.dirty) == Matching(mt, pods, o.key) - o.dirty
    ensures forall i, j :: 0 <= i < j < |o.uids| && o.uids[i] !in o.dirty && o.uids[j] !in o.dirty ==>
      PodLess(pods, o.key.sort, o.key.desc)(o.uids[i], o.uids[j])
  {
    assert forall u :: u in o.uids <==> u in Elements(o.uids);
    forall u ensures u in Clean(o.uids, o.dirty) <==> u in Matching(mt, pods, o.key) - o.dirty {
      assert u in o.uids <==> u in Matching(mt, snap, o.key);
    }
    forall i, j | 0 <= i < j < |o.uids| && o.uids[i] !in o.dirty && o.uids[j] !in o.dirty
      ensures PodLess(pods, o.key.sort, o.key.desc)(o.uids[i], o.uids[j])
    {
      var a, b := o.uids[i], o.uids[j];
      assert a in Elements(o.uids) && b in Elements(o.uids);
      assert PodLess(snap, o.key.sort, o.key.desc)(a, b);
      SameRankCompares(snap[a], pods[a], snap[b], pods[b], o.key.sort);
      SameRankCompares(snap[b], pods[b], snap[a], pods[a], o.key.sort);
    }
  }

  /** What the merge may assume of its two inputs. */
  ghost predicate Mergeable(less: (Uid, Uid) -> bool, uids: seq<Uid>, dirty: set<Uid>, changed: seq<Uid>,
                            d: set<Uid>) {
    && StrictTotal(less, d) && Sorted(less, changed)
    && (forall l :: 0 <= l < |changed| ==> changed[l] in d && changed[l] in dirty)
    && (forall l :: 0 <= l < |uids| && uids[l] !in dirty ==> uids[l] in d)
    && (forall i, j :: 0 <= i < j < |uids| && uids[i] !in dirty && uids[j] !in dirty ==> less(uids[i], uids[j]))
  }

  /** `out` merges uids[..i] without dirty entries with changed[..j], all below what is left. */
  ghost predicate Merged(less: (Uid, Uid) -> bool, uids: seq<Uid>, dirty: set<Uid>, changed: seq<Uid>,
                         out: seq<Uid>, i: nat, j: nat) {
    && i <= |uids| && j <= |changed|
    && Sorted(less, out)
    && (forall x :: x in out <==> (x !in dirty && x in uids[..i]) || x in changed[..j])
    && (forall m, l :: 0 <= m < |out| && j <= l < |changed| ==> less(out[m], changed[l]))
    && (forall m, l :: 0 <= m < |out| && i <= l < |uids| && uids[l] !in dirty ==> less(out[m], uids[l]))
  }

  /** The row count in a key only says when the cache is stale; it filters nothing. */
  lemma SizeIsNoMatter(mt: Matcher, pods: map<Uid, PodRow>, k: TableKey, key: TableKey)
    requires k.(size := key.size) == key
    ensures Matching(mt, pods, k) == Matching(mt, pods, key)
  {
  }

  lemma MergeInputs(less: (Uid, Uid) -> bool, uids: seq<Uid>, dirty: set<Uid>, changed: seq<Uid>, d: set<Uid>)
    requires StrictTotal(less, d) && IsOrder(less, changed, d * dirty) && Clean(uids, dirty) == d - dirty
    requires forall i, j :: 0 <= i < j < |uids| && uids[i] !in dirty && uids[j] !in dirty ==>
      less(uids[i], uids[j])
    ensures Mergeable(less, uids, dirty, changed, d)
  {
    forall l | 0 <= l < |changed| ensures changed[l] in d && changed[l] in dirty {
      assert changed[l] in Elements(changed);
    }
    forall l | 0 <= l < |uids| && uids[l] !in dirty ensures uids[l] in d {
      assert uids[l] in Clean(uids, dirty);
    }
  }

  lemma SkipDirty(less: (Uid, Uid) -> bool, uids: seq<Uid>, dirty: set<Uid>, changed: seq<Uid>, d: set<Uid>,
                  out: seq<Uid>, i: nat, j: nat)
    requires Mergeable(less, uids, dirty, changed, d) && Merged(less, uids, dirty, changed, out, i, j)
    requires i < |uids| && uids[i] in dirty
    ensures Merged(less, uids, dirty, changed, out, i + 1, j)
  {
    assert uids[..i + 1] == uids[..i] + [uids[i]];
  }

  lemma TakeChanged(less: (Uid, Uid) -> bool, uids: seq<Uid>, dirty: set<Uid>, changed: seq<Uid>, d: set<Uid>,
                    out: seq<Uid>, i: nat, j: nat)
    requires Mergeable(less, uids, dirty, changed, d) && Merged(less, uids, dirty, changed, out, i, j)
    requires j < |changed| && (i < |uids| ==> uids[i] !in dirty && less(changed[j], uids[i]))
    ensures Merged(less, uids, dirty, changed, out + [changed[j]], i, j + 1)
  {
    assert changed[..j + 1] == changed[..j] + [changed[j]];
    forall l | i <= l < |uids| && uids[l] !in dirty ensures less(changed[j], uids[l]) {
      if l > i { assert less(uids[i], uids[l]); }
    }
  }

  lemma TakeClean(less: (Uid, Uid) -> bool, uids: seq<Uid>, dirty: set<Uid>, changed: seq<Uid>, d: set<Uid>,
                  out: seq<Uid>, i: nat, j: nat)
    requires Mergeable(less, uids, dirty, changed, d) && Merged(less, uids, dirty, changed, out, i, j)
    requires i < |uids| && uids[i] !in dirty && (j < |changed| ==> !less(changed[j], uids[i]))
    ensures Merged(less, uids, dirty, changed, out + [uids[i]], i + 1, j)
  {
    assert uids[..i + 1] == uids[..i] + [uids[i]];
    forall l | j <= l < |changed| ensures less(uids[i], changed[l]) {
      assert less(uids[i], changed[j]);
      if l > j { assert less(changed[j], changed[l]); }
    }
  }

  /** The two-pointer merge of mergePodOrder: the old list minus its dirty entries, and the
      sorted list of changed ones. */
  method MergeClean(less: (Uid, Uid) -> bool, uids: seq<Uid>, dirty: set<Uid>, changed: seq<Uid>,
                    ghost d: set<Uid>)
    returns (out: seq<Uid>)
    requires Mergeable(less, uids, dirty, changed, d)
    ensures Sorted(less, out) && Elements(out) == Clean(uids, dirty) + Elements(changed)
  {
    out := [];
    var j := 0;
    for i := 0 to |uids|
      invariant Merged(less, uids, dirty, changed, out, i, j)
    {
      var uid := uids[i];
      if uid in dirty {
        SkipDirty(less, uids, dirty, changed, d, out, i, j);
        continue;
      }
      while j < |changed| && less(changed[j], uid)
        invariant Merged(less, uids, dirty, changed, out, i, j)
      {
        TakeChanged(less, uids, dirty, changed, d, out, i, j);
        out := out + [changed[j]];
        j := j + 1;
      }
      TakeClean(less, uids, dirty, changed, d, out, i, j);
      out := out + [uid];
    }
    assert uids[..|uids|] == uids && changed == changed[..j] + changed[j..];
    out := out + changed[j..];
  }
}
