/** The log viewer's buffer: bounded lines with head eviction, search matches kept by sequence
    number and updated incrementally, and a viewport anchored from the tail. Case folding and
    substring search stay uninterpreted. */
module LogBuffer {
  import opened Utf8
  import Sanitizer

  type Text = seq<Byte>

  datatype Matcher = Matcher(lower: Text -> Text, contains: (Text, Text) -> bool)

  /** logsState; `base` is the sequence number of lines[0]. */
  datatype Logs = Logs(
    lines: seq<Text>, base: nat, cap: nat, scroll: int, follow: bool,
    term: Text, matches: seq<int>, idx: int, needle: Text, next: int)

  predicate Hit(mt: Matcher, line: Text, needle: Text) {
    needle != [] && mt.contains(mt.lower(line), needle)
  }

  /** A full scan: the sequence numbers of the lines that match, in order. */
  function Scan(mt: Matcher, lines: seq<Text>, base: nat, needle: Text): seq<int>
    decreases |lines|
  {
    if |lines| == 0 then []
    else
      var hits := Scan(mt, lines[..|lines| - 1], base, needle);
      if Hit(mt, lines[|lines| - 1], needle) then hits + [base + |lines| - 1] else hits
  }

  function Max(a: int, b: int): int { if a < b then b else a }

  function ClampScrollTo(want: int, lineCount: nat, bodyHeight: int): int {
    if want < 0 then 0
    else
      var max := Max(0, lineCount - Max(1, bodyHeight));
      if want > max then max else want
  }

  /** sort.SearchInts: how many entries of an ascending list lie below `x`. */
  function Below(ms: seq<int>, x: int): (k: nat)
    ensures k <= |ms| && (forall i :: 0 <= i < k ==> ms[i] < x) && (k < |ms| ==> ms[k] >= x)
    decreases |ms|
  {
    if |ms| > 0 && ms[0] < x then 1 + Below(ms[1..], x) else 0
  }

  // ------------------------------------------------- what the buffer keeps

  ghost predicate Ascending(ms: seq<int>) {
    forall i, j :: 0 <= i < j < |ms| ==> ms[i] < ms[j]
  }

  /** Matches are a full rescan of what is retained, the cursor is on one of them, at least one
      line is in view, and every retained line is safe to print. */
  ghost predicate Valid(mt: Matcher, s: Logs) {
    && s.needle == mt.lower(s.term) && s.next == s.base + |s.lines|
    && s.matches == Scan(mt, s.lines, s.base, s.needle)
    && 0 <= s.idx && (s.idx == 0 || s.idx < |s.matches|)
    && 0 <= s.scroll <= Max(0, |s.lines| - 1) && (s.follow ==> s.scroll == 0)
    && |s.lines| <= s.cap
    && forall i :: 0 <= i < |s.lines| ==> Sanitizer.Clean(s.lines[i])
  }

  function Opened(cap: nat): Logs {
    Logs([], 0, cap, 0, true, [], [], 0, [], 0)
  }

  lemma {:induction false} ScanBounds(mt: Matcher, lines: seq<Text>, base: nat, needle: Text)
    ensures Ascending(Scan(mt, lines, base, needle))
    ensures forall i :: 0 <= i < |Scan(mt, lines, base, needle)| ==>
      base <= Scan(mt, lines, base, needle)[i] < base + |lines|
    decreases |lines|
  {
    if |lines| > 0 { ScanBounds(mt, lines[..|lines| - 1], base, needle); }
  }

  lemma {:induction false} ScanJoin(mt: Matcher, a: seq<Text>, b: seq<Text>, base: nat, needle: Text)
    ensures Scan(mt, a + b, base, needle) == Scan(mt, a, base, needle) + Scan(mt, b, base + |a|, needle)
    decreases |b|
  {
    if |b| == 0 {
      assert a + b == a;
    } else {
      ScanJoin(mt, a, b[..|b| - 1], base, needle);
      assert (a + b)[..|a + b| - 1] == a + b[..|b| - 1];
    }
  }

  lemma BelowUnique(ms: seq<int>, x: int, k: nat)
    requires Ascending(ms) && k <= |ms| && (forall i :: 0 <= i < k ==> ms[i] < x) && (k < |ms| ==> ms[k] >= x)
    ensures Below(ms, x) == k
  {
  }

  // ------------------------------------------------------ applying a batch

  function Sanitized(batch: seq<Text>): seq<Text> {
    seq(|batch|, i requires 0 <= i < |batch| => Sanitizer.Slow(batch[i]))
  }

  /** How many lines fall off the head. */
  function Dropped(n: nat, cap: nat): (d: nat)
    ensures d <= n
  {
    if n > cap then n - cap else 0
  }

  /** The sequence number of the current match. */
  function Current(s: Logs): int
    requires 0 <= s.idx < |s.matches|
  {
    s.matches[s.idx]
  }

  /** Where the cursor belongs among `ms`: on the match it was on, or on the first one left. */
  function CursorAfter(s: Logs, ms: seq<int>, base: nat): int {
    if 0 <= s.idx < |s.matches| && Current(s) >= base then Below(ms, Current(s)) else 0
  }

  /** A batch, stated without the incremental bookkeeping: keep the newest lines, rescan them all,
      keep the cursor on its match, and move the viewport's offset with the tail. */
  function After(mt: Matcher, s: Logs, batch: seq<Text>): Logs {
    if |batch| == 0 then s
    else
      var grown := s.lines + Sanitized(batch);
      var d := Dropped(|grown|, s.cap);
      var lines, base := grown[d..], s.base + d;
      var ms := Scan(mt, lines, base, s.needle);
      s.(lines := lines, base := base, matches := ms, idx := CursorAfter(s, ms, base), next := base + |lines|,
         scroll := if s.follow then s.scroll else ClampScrollTo(s.scroll + |batch|, |lines|, 1))
  }

  /** Dropping lines from the head drops the matches below the new base, and nothing else. */
  lemma ScanDrop(mt: Matcher, lines: seq<Text>, base: nat, d: nat, needle: Text)
    requires d <= |lines|
    ensures var ms := Scan(mt, lines, base, needle);
      Scan(mt, lines[d..], base + d, needle) == ms[Below(ms, base + d)..]
  {
    hide Scan, Below;
    var gone, kept := lines[..d], lines[d..];
    assert lines == gone + kept;
    ScanJoin(mt, gone, kept, base, needle);
    ScanBounds(mt, gone, base, needle);
    ScanBounds(mt, kept, base + d, needle);
    ScanBounds(mt, lines, base, needle);
    BelowUnique(Scan(mt, lines, base, needle), base + d, |Scan(mt, gone, base, needle)|);
  }

  /** Old matches that survive are still the first ones; the new ones come after them. */
  lemma Survivors(mt: Matcher, lines: seq<Text>, added: seq<Text>, base: nat, d: nat, needle: Text)
    returns (more: seq<int>)
    requires d <= |lines| + |added|
    ensures var ms := Scan(mt, lines, base, needle);
      Scan(mt, (lines + added)[d..], base + d, needle) == ms[Below(ms, base + d)..] + more
    ensures forall i :: 0 <= i < |more| ==> more[i] >= base + |lines| && more[i] >= base + d
  {
    hide Scan, Below;
    var ms := Scan(mt, lines, base, needle);
    ScanBounds(mt, lines, base, needle);
    if d <= |lines| {
      assert (lines + added)[d..] == lines[d..] + added;
      ScanDrop(mt, lines, base, d, needle);
      ScanJoin(mt, lines[d..], added, base + d, needle);
      more := Scan(mt, added, base + |lines|, needle);
      ScanBounds(mt, added, base + |lines|, needle);
    } else {
      BelowUnique(ms, base + d, |ms|);
      more := Scan(mt, (lines + added)[d..], base + d, needle);
      ScanBounds(mt, (lines + added)[d..], base + d, needle);
    }
  }

  /** A cursor on an ascending list, after its first `e` entries left and others were appended. */
  lemma CursorMoves(ms: seq<int>, idx: nat, e: nat, more: seq<int>, base: int)
    requires e <= |ms| && idx < |ms| && Ascending(ms[e..] + more) && Ascending(ms)
    requires e == Below(ms, base)
    ensures ms[idx] >= base ==> idx >= e && (ms[e..] + more)[idx - e] == ms[idx]
    ensures ms[idx] >= base ==> Below(ms[e..] + more, ms[idx]) == idx - e
    ensures ms[idx] < base ==> idx < e
  {
    hide Below;
    var ns := ms[e..] + more;
    if ms[idx] >= base {
      assert ns[idx - e] == ms[idx];
      BelowUnique(ns, ms[idx], idx - e);
    }
  }

  /** The part of Valid that concerns the search. */
  ghost predicate Searched(mt: Matcher, s: Logs) {
    && s.matches == Scan(mt, s.lines, s.base, s.needle)
    && 0 <= s.idx && (s.idx == 0 || s.idx < |s.matches|)
  }

  /** The current match stays current until its line is evicted; then the oldest one left is. */
  lemma AfterCursor(mt: Matcher, s: Logs, batch: seq<Text>)
    requires Searched(mt, s) && |batch| > 0
    ensures Searched(mt, After(mt, s, batch))
    ensures var t := After(mt, s, batch);
      && (|s.matches| > 0 && Current(s) >= t.base ==> t.idx < |t.matches| && Current(t) == Current(s))
      && (|s.matches| > 0 && Current(s) < t.base ==> t.idx == 0)
      && t.idx == Max(0, s.idx - Below(s.matches, t.base))
  {
    hide Scan, Below, Sanitized, Dropped, ClampScrollTo;
    var t := After(mt, s, batch);
    var more := Survivors(mt, s.lines, Sanitized(batch), s.base, t.base - s.base, s.needle);
    ScanBounds(mt, t.lines, t.base, s.needle);
    ScanBounds(mt, s.lines, s.base, s.needle);
    if |s.matches| > 0 {
      CursorMoves(s.matches, s.idx, Below(s.matches, t.base), more, t.base);
    }
  }

  lemma AfterValid(mt: Matcher, s: Logs, batch: seq<Text>)
    requires Valid(mt, s)
    ensures Valid(mt, After(mt, s, batch))
  {
    hide Scan, Below, CursorAfter, Sanitizer.Clean;
    if |batch| > 0 {
      var t := After(mt, s, batch);
      AfterCursor(mt, s, batch);
      var grown := s.lines + Sanitized(batch);
      forall i | 0 <= i < |t.lines| ensures Sanitizer.Clean(t.lines[i]) {
        var k := i + Dropped(|grown|, s.cap);
        assert t.lines[i] == grown[k];
        if k >= |s.lines| { Sanitizer.SanitizedIsClean(batch[k - |s.lines|]); }
      }
    }
  }

  // ------------------------------------------------------ batch invariance

  lemma ClampTwice(scroll: int, a: nat, b: nat, n: nat, cap: nat)
    requires 0 <= scroll && a > 0 && b > 0
    ensures var n1 := n + a - Dropped(n + a, cap);
      var n2 := n1 + b - Dropped(n1 + b, cap);
      && n2 == n + a + b - Dropped(n + a + b, cap)
      && ClampScrollTo(ClampScrollTo(scroll + a, n1, 1) + b, n2, 1) == ClampScrollTo(scroll + a + b, n2, 1)
  {
  }

  lemma KeepTwice(lines: seq<Text>, a: seq<Text>, b: seq<Text>, cap: nat)
    ensures var g1 := lines + a;
      var d1 := Dropped(|g1|, cap);
      var g2 := g1[d1..] + b;
      var d2 := Dropped(|g2|, cap);
      var g := lines + (a + b);
      Dropped(|g|, cap) == d1 + d2 && g[d1 + d2..] == g2[d2..]
  {
    var g1 := lines + a;
    var d1 := Dropped(|g1|, cap);
    assert lines + (a + b) == g1 + b && (g1 + b)[d1..] == g1[d1..] + b;
  }

  lemma SanitizedJoin(a: seq<Text>, b: seq<Text>)
    ensures Sanitized(a + b) == Sanitized(a) + Sanitized(b)
  {
  }

  /** Two moves of the cursor are one: a match that was evicted leaves it on the oldest one. */
  lemma CursorTwice(mt: Matcher, s: Logs, a: seq<Text>, b: seq<Text>)
    requires Searched(mt, s) && |a| > 0 && |b| > 0
    ensures var (t, u) := (After(mt, s, a), After(mt, After(mt, s, a), b));
      CursorAfter(t, u.matches, u.base) == CursorAfter(s, u.matches, u.base)
  {
    hide Scan, Below, Sanitized, Dropped, ClampScrollTo;
    var t := After(mt, s, a);
    var u := After(mt, t, b);
    AfterCursor(mt, s, a);
    AfterCursor(mt, t, b);
    ScanBounds(mt, u.lines, u.base, u.needle);
    ScanBounds(mt, t.lines, t.base, t.needle);
    if |s.matches| > 0 && Current(s) < t.base && |t.matches| > 0 && Current(t) >= u.base {
      // the cursor sits on the oldest match left, and that one is still the oldest
      BelowUnique(u.matches, Current(t), u.idx);
      BelowUnique(t.matches, u.base, 0);
    }
  }

  /** Two batches one after the other leave what one batch of all the lines leaves. */
  lemma BatchInvariance(mt: Matcher, s: Logs, a: seq<Text>, b: seq<Text>)
    requires Valid(mt, s)
    ensures After(mt, After(mt, s, a), b) == After(mt, s, a + b)
  {
    hide Scan, Below, Sanitized, Dropped, ClampScrollTo, CursorAfter, Valid;
    if |a| == 0 {
      assert a + b == b;
    } else if |b| == 0 {
      assert a + b == a;
    } else {
      ValidParts(mt, s);
      CursorTwice(mt, s, a, b);
      SanitizedJoin(a, b);
      KeepTwice(s.lines, Sanitized(a), Sanitized(b), s.cap);
      ClampTwice(s.scroll, |a|, |b|, |s.lines|, s.cap);
      SanitizedSize(a);
      SanitizedSize(b);
      var t, v := After(mt, s, a), After(mt, s, a + b);
      var u := After(mt, t, b);
      assert v.lines == u.lines && v.base == u.base;
      assert v.idx == u.idx;
      assert v.scroll == u.scroll;
    }
  }

  lemma SanitizedSize(a: seq<Text>)
    ensures |Sanitized(a)| == |a|
  {
  }

  lemma ValidParts(mt: Matcher, s: Logs)
    requires Valid(mt, s)
    ensures Searched(mt, s) && s.scroll >= 0
  {
  }

  function Flatten(bs: seq<seq<Text>>): seq<Text> {
    if |bs| == 0 then [] else Flatten(bs[..|bs| - 1]) + bs[|bs| - 1]
  }

  function AfterAll(mt: Matcher, s: Logs, bs: seq<seq<Text>>): Logs {
    if |bs| == 0 then s else After(mt, AfterAll(mt, s, bs[..|bs| - 1]), bs[|bs| - 1])
  }

  /** However a list of lines is cut into batches, the buffer ends up the same. */
  lemma {:induction false} AnySplit(mt: Matcher, s: Logs, bs: seq<seq<Text>>)
    requires Valid(mt, s)
    ensures AfterAll(mt, s, bs) == After(mt, s, Flatten(bs))
    decreases |bs|
  {
    if |bs| > 0 {
      AnySplit(mt, s, bs[..|bs| - 1]);
      BatchInvariance(mt, s, Flatten(bs[..|bs| - 1]), bs[|bs| - 1]);
    }
  }

  // ------------------------------------------------------------ the anchor

  /** The sequence number just past the last visible line. */
  function End(s: Logs): int {
    s.base + |s.lines| - s.scroll
  }

  /** While paused the view does not move: its end stays put until eviction reaches it, and then
      it shows the oldest line. While following, it stays at the tail. */
  lemma AnchorHolds(mt: Matcher, s: Logs, batch: seq<Text>)
    requires Valid(mt, s) && |batch| > 0 && s.cap > 0
    ensures var t := After(mt, s, batch);
      End(t) == if s.follow then t.base + |t.lines| else Max(End(s), t.base + 1)
  {
    hide Scan, Below, CursorAfter, Sanitizer.Clean;
  }

  // --------------------------------------------------- search and scrolling

  /** An edited search term: a new scan from the oldest line, the cursor on the first match. */
  function Retermed(mt: Matcher, s: Logs, term: Text): Logs {
    var needle := mt.lower(term);
    if needle == s.needle then s.(term := term)
    else s.(term := term, needle := needle, matches := Scan(mt, s.lines, s.base, needle), idx := 0)
  }

  /** Go's remainder, with the sign of the dividend. */
  function Rem(a: int, n: nat): int
    requires n > 0
  {
    if a >= 0 then a % n else -((-a) % n)
  }

  /** The cursor moves around the match list, in either direction. */
  function Wrapped(idx: int, delta: int, n: nat): int
    requires n > 0
  {
    Rem(Rem(idx + delta, n) + n, n)
  }

  lemma MultipleIsFar(d: int, n: int)
    requires n > 0
    ensures d >= 1 ==> d * n >= n
    ensures d <= -1 ==> d * n <= -n
  {
  }

  lemma ModUnique(a: int, n: nat, q: int, r: int)
    requires n > 0 && a == q * n + r && 0 <= r < n
    ensures a % n == r
  {
    var d := q - a / n;
    assert d * n == a % n - r by { assert a == n * (a / n) + a % n; }
    MultipleIsFar(d, n);
  }

  lemma RemIsMod(a: int, n: nat)
    requires n > 0
    ensures Rem(Rem(a, n) + n, n) == a % n
  {
    var r := a % n;
    if a >= 0 {
      ModUnique(r + n, n, 1, r);
    } else {
      var k := (-a) % n;
      var q := (-a) / n;
      assert -a == n * q + k;
      if k == 0 {
        assert a == (-q) * n + 0;
        ModUnique(a, n, -q, 0);
        ModUnique(n, n, 1, 0);
      } else {
        assert a == (-q - 1) * n + (n - k);
        ModUnique(a, n, -q - 1, n - k);
        ModUnique(n - k, n, 0, n - k);
      }
    }
  }

  /** The cursor always lands on a match; one step forward and one back cancel out. */
  lemma WrapsAround(idx: int, delta: int, n: nat)
    requires n > 0
    ensures Wrapped(idx, delta, n) == (idx + delta) % n
    ensures 0 <= idx < n ==> Wrapped(idx, 1, n) == (if idx == n - 1 then 0 else idx + 1)
    ensures 0 <= idx < n ==> Wrapped(idx, -1, n) == (if idx == 0 then n - 1 else idx - 1)
  {
    hide Rem;
    RemIsMod(idx + delta, n);
    RemIsMod(idx + 1, n);
    RemIsMod(idx - 1, n);
    if 0 <= idx < n {
      if idx == n - 1 { ModUnique(n, n, 1, 0); } else { ModUnique(idx + 1, n, 0, idx + 1); }
      if idx == 0 { ModUnique(-1, n, -1, n - 1); } else { ModUnique(idx - 1, n, 0, idx - 1); }
    }
  }

  const OVERHEAD := 8

  /** The viewer's approximate height in lines. */
  function ApproxBody(height: int): int {
    Max(1, height - OVERHEAD)
  }

  /** scrollLogsToMatch: centre a line, by sequence number, and stop following. */
  function Centred(s: Logs, line: int, height: int): Logs {
    var want := |s.lines| - (line - s.base + ApproxBody(height) / 2);
    s.(scroll := ClampScrollTo(want, |s.lines|, height - OVERHEAD), follow := false)
  }

  /** stepLogsMatch. */
  function Stepped(s: Logs, delta: int, height: int): Logs {
    if |s.matches| == 0 then s
    else
      var i := Wrapped(s.idx, delta, |s.matches|);
      if 0 <= i < |s.matches| then Centred(s.(idx := i), s.matches[i], height) else s
  }

  /** Enter in the search prompt: the first match, if there is one. */
  function Entered(s: Logs, height: int): Logs {
    if |s.matches| == 0 then s else Centred(s.(idx := 0), s.matches[0], height)
  }

  /** The keys that pause where the view is, and those that go back to the tail. */
  function Following(s: Logs, on: bool): Logs {
    if on then s.(follow := true, scroll := 0) else s.(follow := false)
  }

  /** scrollLogsBy. */
  function Scrolled(s: Logs, delta: int, bodyHeight: int): Logs {
    var scroll := ClampScrollTo(s.scroll + delta, |s.lines|, bodyHeight);
    s.(scroll := scroll, follow := scroll == 0)
  }

  /** The lines a viewport of this height shows: the last `body` before its end. */
  predicate InView(s: Logs, body: int, line: int) {
    Max(s.base, End(s) - body) <= line < End(s)
  }

  /** Stepping brings the match into view, except in a viewport of one line: there the line
      before it shows, unless the match is the oldest line. */
  lemma StepShowsMatch(mt: Matcher, s: Logs, delta: int, height: int)
    requires Valid(mt, s) && |s.matches| > 0
    ensures var t, want := Stepped(s, delta, height), s.matches[(s.idx + delta) % |s.matches|];
      && t.matches == s.matches && t.idx == (s.idx + delta) % |s.matches| && !t.follow
      && (InView(t, ApproxBody(height), want) <==> height > 9 || want == s.base)
  {
    hide Scan, Wrapped, Sanitizer.Clean;
    WrapsAround(s.idx, delta, |s.matches|);
    ScanBounds(mt, s.lines, s.base, s.needle);
    assert 0 <= (s.idx + delta) % |s.matches| < |s.matches|;
  }

  /** The failing side is real: two matching lines, a terminal nine rows high, one step down; the
      match is line 1, and the one line in view is line 0. */
  lemma OneLineViewMissesMatch()
    ensures var a: Text := [0x61];
      var mt := Matcher((t: Text) => t, (t: Text, u: Text) => true);
      var s := Logs([a, a], 0, 2, 0, false, a, [0, 1], 0, a, 2);
      var t := Stepped(s, 1, 9);
      Valid(mt, s) && t.matches == [0, 1] && t.idx == 1 && !InView(t, ApproxBody(9), 1) && InView(t, ApproxBody(9), 0)
  {
    var a: Text := [0x61];
    var mt := Matcher((t: Text) => t, (t: Text, u: Text) => true);
    Sanitizer.SpellOne(Sanitizer.Ascii(0x61));
    assert Sanitizer.AllProper([Sanitizer.Ascii(0x61)]) && Sanitizer.Clean(a);
    var ls := [a, a];
    assert ls[..1] == [a] && [a][..0] == [];
    assert Scan(mt, [a], 0, a) == [0];
    assert Scan(mt, ls, 0, a) == [0, 1];
    WrapsAround(0, 1, 2);
  }

  /** Enter shows the first match under the same condition. */
  lemma EnterShowsFirst(mt: Matcher, s: Logs, height: int)
    requires Valid(mt, s) && |s.matches| > 0
    ensures var t := Entered(s, height);
      && t.matches == s.matches && Current(t) == s.matches[0] && !t.follow
      && (InView(t, ApproxBody(height), s.matches[0]) <==> height > 9 || s.matches[0] == s.base)
  {
    hide Scan, Sanitizer.Clean;
    ScanBounds(mt, s.lines, s.base, s.needle);
  }

  // ------------------------------------------------------------- whole runs

  datatype Op =
    | Batch(lines: seq<Text>)
    | Term(term: Text)
    | StepBy(delta: int, height: int)
    | ScrollBy(delta: int, bodyHeight: int)
    | Enter(height: int)
    | Follow(on: bool)

  function Next(mt: Matcher, s: Logs, op: Op): Logs {
    match op
    case Batch(lines) => After(mt, s, lines)
    case Term(term) => Retermed(mt, s, term)
    case StepBy(delta, height) => Stepped(s, delta, height)
    case ScrollBy(delta, body) => Scrolled(s, delta, body)
    case Enter(height) => Entered(s, height)
    case Follow(on) => Following(s, on)
  }

  function Run(mt: Matcher, s: Logs, ops: seq<Op>): Logs {
    if |ops| == 0 then s else Next(mt, Run(mt, s, ops[..|ops| - 1]), ops[|ops| - 1])
  }

  lemma NextValid(mt: Matcher, s: Logs, op: Op)
    requires Valid(mt, s)
    ensures Valid(mt, Next(mt, s, op))
  {
    hide Scan, After, Sanitizer.Clean, Wrapped;
    match op {
      case Batch(lines) => AfterValid(mt, s, lines);
      case StepBy(_, _) =>
      case Term(_) =>
      case ScrollBy(_, _) =>
      case Enter(_) =>
      case Follow(_) =>
    }
  }

  /** Whatever arrives and whatever the user does: matches are a full rescan, the cursor is on
      one of them, a line is in view, and nothing unsafe is in the buffer. */
  lemma {:induction false} RunValid(mt: Matcher, cap: nat, ops: seq<Op>)
    requires mt.lower([]) == []
    ensures Valid(mt, Run(mt, Opened(cap), ops))
    decreases |ops|
  {
    if |ops| > 0 {
      RunValid(mt, cap, ops[..|ops| - 1]);
      NextValid(mt, Run(mt, Opened(cap), ops[..|ops| - 1]), ops[|ops| - 1]);
    }
  }
}
