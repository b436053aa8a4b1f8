/** Fitting table columns into a pane: drop the most expendable until the minimum widths fit, then
    deal the leftover cells one at a time, round-robin in display order. */
module Columns {

  datatype Column = Column(min: int, max: int, prio: int)

  const GAP := 2

  predicate Proper(cols: seq<Column>) {
    forall i :: 0 <= i < |cols| ==> 0 < cols[i].min <= cols[i].max
  }

  function Sum(ws: seq<int>): int {
    if |ws| == 0 then 0 else Sum(ws[..|ws| - 1]) + ws[|ws| - 1]
  }

  /** Visible columns. */
  function Count(ws: seq<int>): nat {
    if |ws| == 0 then 0 else Count(ws[..|ws| - 1]) + if ws[|ws| - 1] > 0 then 1 else 0
  }

  /** Widths of the visible columns and the gaps between them. */
  function Total(ws: seq<int>): int {
    Sum(ws) + if Count(ws) > 1 then GAP * (Count(ws) - 1) else 0
  }

  lemma {:induction false} Changed(ws: seq<int>, i: nat, w: int)
    requires i < |ws|
    ensures Sum(ws[i := w]) == Sum(ws) - ws[i] + w
    ensures Count(ws[i := w]) == Count(ws) - (if ws[i] > 0 then 1 else 0) + (if w > 0 then 1 else 0)
    decreases |ws|
  {
    var n := |ws| - 1;
    if i == n {
      assert ws[i := w][..n] == ws[..n];
    } else {
      Changed(ws[..n], i, w);
      assert ws[i := w][..n] == ws[..n][i := w];
    }
  }

  // ---------------------------------------------------------------- dropping

  /** Which of two columns goes first: the higher priority number, then the earlier column. */
  predicate GoesFirst(cols: seq<Column>, i: nat, j: nat)
    requires i < |cols| && j < |cols|
  {
    cols[i].prio > cols[j].prio || (cols[i].prio == cols[j].prio && i < j)
  }

  /** Every column is gone or at its minimum. */
  ghost predicate AtMin(cols: seq<Column>, ws: seq<int>) {
    |ws| == |cols| && forall i :: 0 <= i < |cols| ==> ws[i] == 0 || ws[i] == cols[i].min
  }

  /** What was dropped is a prefix of the dropping order; columns at priority 0 are not in it. */
  ghost predicate Prefix(cols: seq<Column>, ws: seq<int>)
    requires |ws| == |cols|
  {
    && (forall i :: 0 <= i < |cols| && ws[i] == 0 ==> cols[i].prio > 0)
    && (forall i, j :: 0 <= i < |cols| && 0 <= j < |cols| && ws[i] == 0 && ws[j] != 0 && cols[j].prio > 0 ==>
          GoesFirst(cols, i, j))
  }

  /** `d` is the last column that was dropped. */
  ghost predicate LastDropped(cols: seq<Column>, ws: seq<int>, d: nat)
    requires |ws| == |cols|
  {
    d < |cols| && ws[d] == 0
    && forall i :: 0 <= i < |cols| && ws[i] == 0 && i != d ==> GoesFirst(cols, i, d)
  }

  /** No shorter prefix would do. */
  ghost predicate Shortest(cols: seq<Column>, ws: seq<int>, avail: int)
    requires |ws| == |cols|
  {
    forall d: nat :: LastDropped(cols, ws, d) ==> Total(ws[d := cols[d].min]) > avail
  }

  /** The columns kept: the shortest prefix of the dropping order is gone, unless even dropping
      every expendable column is not enough. */
  ghost predicate Kept(cols: seq<Column>, ws: seq<int>, avail: int) {
    && AtMin(cols, ws) && Prefix(cols, ws) && Shortest(cols, ws, avail)
    && (Total(ws) <= avail || forall i :: 0 <= i < |cols| && ws[i] != 0 ==> cols[i].prio <= 0)
  }

  /** A column dropped after all others is the last one. */
  lemma OnlyLast(cols: seq<Column>, ws: seq<int>, d: nat, e: nat)
    requires |ws| == |cols| && Prefix(cols, ws) && d < |cols| && ws[d] != 0 && cols[d].prio > 0
    ensures e != d ==> !LastDropped(cols, ws[d := 0], e)
  {
    if e != d && e < |cols| && ws[e] == 0 {
      assert GoesFirst(cols, e, d) && ws[d := 0][d] == 0;
    }
  }

  lemma DropOne(cols: seq<Column>, ws: seq<int>, d: nat, avail: int)
    requires Proper(cols) && AtMin(cols, ws) && Prefix(cols, ws) && d < |cols| && ws[d] > 0 && cols[d].prio > 0
    requires Total(ws) > avail
    requires forall i :: 0 <= i < |cols| && ws[i] != 0 && i != d && cols[i].prio > 0 ==> GoesFirst(cols, d, i)
    ensures AtMin(cols, ws[d := 0]) && Prefix(cols, ws[d := 0]) && Shortest(cols, ws[d := 0], avail)
  {
    var vs := ws[d := 0];
    forall e: nat | LastDropped(cols, vs, e) ensures Total(vs[e := cols[e].min]) > avail {
      OnlyLast(cols, ws, d, e);
      assert vs[d := cols[d].min] == ws;
    }
  }

  /** The column that goes next, or -1. */
  method NextDrop(cols: seq<Column>, widths: array<int>) returns (drop: int)
    requires Proper(cols) && AtMin(cols, widths[..])
    ensures -1 <= drop < |cols|
    ensures drop < 0 ==> forall i :: 0 <= i < |cols| && widths[i] != 0 ==> cols[i].prio <= 0
    ensures drop >= 0 ==> widths[drop] > 0 && cols[drop].prio > 0
    ensures drop >= 0 ==>
      forall i :: 0 <= i < |cols| && widths[i] != 0 && i != drop && cols[i].prio > 0 ==> GoesFirst(cols, drop, i)
  {
    assert forall i :: 0 <= i < |cols| ==> widths[i] == widths[..][i];
    drop := -1;
    var dropPrio := 0;
    for i := 0 to |cols|
      invariant -1 <= drop < i && dropPrio == (if drop < 0 then 0 else cols[drop].prio)
      invariant drop < 0 ==> forall k :: 0 <= k < i && widths[k] != 0 ==> cols[k].prio <= 0
      invariant drop >= 0 ==> widths[drop] > 0 && cols[drop].prio > 0
      invariant drop >= 0 ==>
        forall k :: 0 <= k < i && widths[k] != 0 && k != drop && cols[k].prio > 0 ==> GoesFirst(cols, drop, k)
    {
      if widths[i] > 0 && cols[i].prio > dropPrio {
        drop, dropPrio := i, cols[i].prio;
      }
    }
  }

  /** The drop loop. */
  method DropColumns(cols: seq<Column>, widths: array<int>, avail: int)
    requires Proper(cols) && widths.Length == |cols| && widths[..] == Mins(cols)
    modifies widths
    ensures Kept(cols, widths[..], avail)
  {
    hide Total, AtMin, Prefix, Shortest, Proper;
    NothingDropped(cols, avail);
    while Total(widths[..]) > avail
      invariant AtMin(cols, widths[..]) && Prefix(cols, widths[..]) && Shortest(cols, widths[..], avail)
      decreases Count(widths[..])
    {
      var drop := NextDrop(cols, widths);
      if drop < 0 {
        break;
      }
      ghost var was := widths[..];
      DropOne(cols, was, drop, avail);
      Changed(was, drop, 0);
      widths[drop] := 0;
      assert widths[..] == was[drop := 0];
    }
  }

  function Mins(cols: seq<Column>): seq<int> {
    seq(|cols|, i requires 0 <= i < |cols| => cols[i].min)
  }

  lemma NothingDropped(cols: seq<Column>, avail: int)
    requires Proper(cols)
    ensures AtMin(cols, Mins(cols)) && Prefix(cols, Mins(cols)) && Shortest(cols, Mins(cols), avail)
  {
  }

  // ----------------------------------------------------------------- growing

  function Min(a: int, b: int): int { if a < b then a else b }

  /** The width of one column after `r` cells were dealt to it, as far as it takes them. */
  function Grown(c: Column, base: int, r: int): int {
    if base == 0 then 0 else Min(c.max, c.min + r)
  }

  /** Round `r` of the deal has reached column `at`. */
  ghost predicate Dealt(cols: seq<Column>, base: seq<int>, ws: seq<int>, r: nat, at: nat)
    requires |base| == |cols|
  {
    |ws| == |cols| && at <= |cols|
    && forall i :: 0 <= i < |cols| ==> ws[i] == Grown(cols[i], base[i], if i < at then r + 1 else r)
  }

  ghost predicate AllAtMax(cols: seq<Column>, ws: seq<int>) {
    |ws| == |cols| && forall i :: 0 <= i < |cols| && ws[i] > 0 ==> ws[i] == cols[i].max
  }

  /** One more cell for column `at`, if it still takes one. */
  lemma DealOne(cols: seq<Column>, base: seq<int>, ws: seq<int>, r: nat, at: nat)
    requires Proper(cols) && AtMin(cols, base) && Dealt(cols, base, ws, r, at) && at < |cols|
    ensures ws[at] > 0 && ws[at] < cols[at].max ==>
      Dealt(cols, base, ws[at := ws[at] + 1], r, at + 1) && Total(ws[at := ws[at] + 1]) == Total(ws) + 1
    ensures !(ws[at] > 0 && ws[at] < cols[at].max) ==> Dealt(cols, base, ws, r, at + 1)
  {
    Changed(ws, at, ws[at] + 1);
    assert base[at] == 0 || base[at] == cols[at].min;
  }

  /** One round of the deal. */
  method DealRound(cols: seq<Column>, ghost base: seq<int>, widths: array<int>, leftover0: int, ghost r: nat)
    returns (leftover: int, grew: bool, ghost at: nat)
    requires Proper(cols) && AtMin(cols, base) && widths.Length == |cols| && leftover0 > 0
    requires Dealt(cols, base, widths[..], r, 0)
    modifies widths
    ensures Dealt(cols, base, widths[..], r, at)
    ensures 0 <= leftover <= leftover0 && Total(widths[..]) + leftover == old(Total(widths[..])) + leftover0
    ensures leftover > 0 ==> at == |cols|
    ensures grew <==> leftover < leftover0
    ensures leftover > 0 && !grew ==> AllAtMax(cols, widths[..])
  {
    hide Total, Dealt;
    leftover, grew, at := leftover0, false, 0;
    ghost var total := Total(widths[..]);
    for i := 0 to |cols|
      invariant Dealt(cols, base, widths[..], r, i) && at == i
      invariant 0 <= leftover <= leftover0 && Total(widths[..]) + leftover == total + leftover0
      invariant grew <==> leftover < leftover0
      invariant !grew ==> forall k :: 0 <= k < i && widths[k] > 0 ==> widths[k] >= cols[k].max
    {
      if leftover == 0 {
        return;
      }
      ghost var ws := widths[..];
      DealOne(cols, base, ws, r, i);
      if widths[i] > 0 && widths[i] < cols[i].max {
        widths[i] := widths[i] + 1;
        assert widths[..] == ws[i := ws[i] + 1];
        leftover := leftover - 1;
        grew := true;
      }
      at := i + 1;
    }
    WithinMax(cols, base, widths[..], r, |cols|);
  }

  lemma WithinMax(cols: seq<Column>, base: seq<int>, ws: seq<int>, r: nat, at: nat)
    requires Proper(cols) && AtMin(cols, base) && Dealt(cols, base, ws, r, at)
    ensures forall i :: 0 <= i < |cols| ==> ws[i] == 0 || cols[i].min <= ws[i] <= cols[i].max
    ensures forall i :: 0 <= i < |cols| ==> (ws[i] == 0 <==> base[i] == 0)
  {
  }

  /** A finished round is the start of the next. */
  lemma NextRound(cols: seq<Column>, base: seq<int>, ws: seq<int>, r: nat)
    requires |base| == |cols| && Dealt(cols, base, ws, r, |cols|)
    ensures Dealt(cols, base, ws, r + 1, 0)
  {
  }

  /** The grow loop: the deal goes on until the cells or the columns' room run out. */
  method GrowColumns(cols: seq<Column>, ghost base: seq<int>, widths: array<int>, avail: int)
    returns (ghost r: nat, ghost at: nat)
    requires Proper(cols) && AtMin(cols, base) && widths.Length == |cols| && widths[..] == base
    modifies widths
    ensures Dealt(cols, base, widths[..], r, at)
    ensures Total(base) >= avail ==> widths[..] == base
    ensures Total(base) <= avail ==>
      Total(widths[..]) == avail || (Total(widths[..]) < avail && AllAtMax(cols, widths[..]))
  {
    hide Total, Dealt, AtMin, AllAtMax;
    var leftover := avail - Total(widths[..]);
    r, at := 0, 0;
    DealStarts(cols, base);
    while leftover > 0
      invariant Dealt(cols, base, widths[..], r, at) && leftover == avail - Total(widths[..])
      invariant leftover > 0 ==> at == 0
      invariant Total(base) >= avail ==> widths[..] == base && leftover <= 0
      invariant Total(base) <= avail ==> leftover >= 0
      decreases leftover
    {
      var grew;
      leftover, grew, at := DealRound(cols, base, widths, leftover, r);
      if leftover > 0 {
        NextRound(cols, base, widths[..], r);
        r, at := r + 1, 0;
      }
      if !grew {
        break;
      }
    }
  }

  lemma DealStarts(cols: seq<Column>, base: seq<int>)
    requires Proper(cols) && AtMin(cols, base)
    ensures Dealt(cols, base, base, 0, 0)
  {
  }

  // -------------------------------------------------------------- the result

  /** The widths before growth: what was kept, at its minimum. */
  function Base(cols: seq<Column>, ws: seq<int>): seq<int>
    requires |ws| == |cols|
  {
    seq(|cols|, i requires 0 <= i < |cols| => if ws[i] == 0 then 0 else cols[i].min)
  }

  method FitColumns(cols: seq<Column>, avail: int) returns (widths: seq<int>)
    requires Proper(cols)
    // each column is gone or within its bounds
    ensures |widths| == |cols|
    ensures forall i :: 0 <= i < |cols| ==> widths[i] == 0 || cols[i].min <= widths[i] <= cols[i].max
    // the shortest prefix of the dropping order is gone
    ensures Kept(cols, Base(cols, widths), avail)
    // the pane is filled exactly, or nobody has room left; if the minima do not fit, nobody grew
    ensures Total(Base(cols, widths)) <= avail ==>
      Total(widths) == avail || (Total(widths) < avail && AllAtMax(cols, widths))
    ensures Total(Base(cols, widths)) >= avail ==> widths == Base(cols, widths)
    // cells were dealt in turn
    ensures exists r: nat, at: nat :: Dealt(cols, Base(cols, widths), widths, r, at)
  {
    hide Total, Shortest, Prefix;
    var ws := new int[|cols|](i requires 0 <= i < |cols| => cols[i].min);
    assert ws[..] == Mins(cols);
    DropColumns(cols, ws, avail);
    ghost var base := ws[..];
    ghost var r, at := GrowColumns(cols, base, ws, avail);
    WithinMax(cols, base, ws[..], r, at);
    widths := ws[..];
    assert Base(cols, widths) == base;
  }

  /** Fairness of the deal: a column that could still grow is at most one cell behind any other,
      and behind only those dealt to before it. */
  lemma DealIsFair(cols: seq<Column>, base: seq<int>, ws: seq<int>, r: nat, at: nat, i: nat, j: nat)
    requires Proper(cols) && AtMin(cols, base) && Dealt(cols, base, ws, r, at)
    requires i < |cols| && j < |cols| && 0 < ws[i] < cols[i].max && ws[j] > 0
    ensures ws[j] - cols[j].min <= ws[i] - cols[i].min + if j < i then 1 else 0
  {
  }

  // --------------------------------------------------------------- rendering

  /** A line of cells: those that show something, the gap between any two. */
  function Joined(cells: seq<string>): string {
    if |cells| == 0 then ""
    else
      var line, c := Joined(cells[..|cells| - 1]), cells[|cells| - 1];
      if c == "" then line else if line == "" then c else line + "  " + c
  }

  /** joinCells. */
  method JoinCells(cells: seq<string>) returns (line: string)
    ensures line == Joined(cells)
  {
    line := "";
    for i := 0 to |cells|
      invariant line == Joined(cells[..i])
    {
      assert cells[..i + 1][..i] == cells[..i];
      if cells[i] == "" {
        continue;
      }
      if |line| > 0 {
        line := line + seq(GAP, _ => ' ');
      }
      line := line + cells[i];
    }
    assert cells[..|cells|] == cells;
  }

  /** Cells padded to these widths. */
  ghost predicate Padded(cells: seq<string>, ws: seq<int>) {
    |cells| == |ws| && forall i :: 0 <= i < |ws| ==> |cells[i]| == ws[i]
  }

  /** Where column `k` starts on a line. */
  function Offset(ws: seq<int>, k: nat): int
    requires k < |ws|
  {
    Total(ws[..k]) + if Count(ws[..k]) > 0 then 2 else 0
  }

  lemma {:induction false} LineFills(cells: seq<string>, ws: seq<int>)
    requires Padded(cells, ws)
    ensures |Joined(cells)| == Total(ws) && (Count(ws) == 0 <==> Joined(cells) == "") && Sum(ws) >= 0
    ensures Count(ws) == 0 ==> Sum(ws) == 0
    decreases |ws|
  {
    if |ws| > 0 {
      LineFills(cells[..|ws| - 1], ws[..|ws| - 1]);
    }
  }

  lemma LineGrows(cells: seq<string>)
    requires |cells| > 0
    ensures Joined(cells[..|cells| - 1]) <= Joined(cells)
  {
  }

  /** `c` stands at `at` on the line. */
  ghost predicate Stands(line: string, c: string, at: int) {
    0 <= at <= at + |c| <= |line| && line[at..at + |c|] == c
  }

  lemma LastStands(cells: seq<string>, ws: seq<int>)
    requires Padded(cells, ws) && |ws| > 0 && ws[|ws| - 1] > 0
    ensures Stands(Joined(cells), cells[|ws| - 1], Offset(ws, |ws| - 1))
  {
    hide Total, Sum, Count;
    LineFills(cells[..|ws| - 1], ws[..|ws| - 1]);
  }

  /** The widths fitted are the line's length, and every visible column starts at the same place on
      every line, whatever its cells say: what FitColumns fits into the pane is what is drawn. */
  lemma {:induction false} LinesAlign(cells: seq<string>, ws: seq<int>, k: nat)
    requires Padded(cells, ws) && k < |ws|
    ensures |Joined(cells)| == Total(ws)
    ensures ws[k] > 0 ==> Stands(Joined(cells), cells[k], Offset(ws, k))
    decreases |ws|
  {
    hide Total, Joined, Count, Sum;
    var n := |ws| - 1;
    LineFills(cells, ws);
    if k < n {
      LinesAlign(cells[..n], ws[..n], k);
      LineGrows(cells);
      assert ws[..n][..k] == ws[..k] && cells[..n][k] == cells[k];
    } else if ws[k] > 0 {
      LastStands(cells, ws);
    }
  }
}
