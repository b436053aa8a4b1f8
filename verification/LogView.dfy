/** The log viewer's state as the program keeps it: fields updated line by line and match by
    match, each method proved to leave what LogBuffer states without the bookkeeping. */
module LogView {
  import opened Utf8
  import opened LogBuffer
  import opened Ordering
  import Sanitizer

  /** Binary search for the first entry not below `x`. */
  method SearchInts(ms: seq<int>, x: int) returns (k: nat)
    requires Ascending(ms)
    ensures k == Below(ms, x)
  {
    k := SearchFirst(ms, m => m < x);
    BelowUnique(ms, x, k);
  }

  /** Only the lines from `searchNext` on need looking at. */
  lemma ScanTail(mt: Matcher, lines: seq<Text>, added: seq<Text>, base: nat, d: nat, needle: Text)
    requires d <= |lines| + |added|
    ensures var (kept, b) := ((lines + added)[d..], base + d);
      var start := Max(base + |lines|, b);
      var ms := Scan(mt, lines, base, needle);
      && b <= start <= b + |kept|
      && Scan(mt, kept, b, needle) == ms[Below(ms, b)..] + Scan(mt, kept[start - b..], start, needle)
  {
    hide Scan, Below;
    var ms := Scan(mt, lines, base, needle);
    if d <= |lines| {
      assert (lines + added)[d..] == lines[d..] + added;
      assert (lines[d..] + added)[|lines| - d..] == added;
      ScanDrop(mt, lines, base, d, needle);
      ScanJoin(mt, lines[d..], added, base + d, needle);
    } else {
      ScanBounds(mt, lines, base, needle);
      BelowUnique(ms, base + d, |ms|);
      assert (lines + added)[d..][0..] == (lines + added)[d..];
    }
  }

  /** The state before some lines were appended and the head trimmed, as the search still has it. */
  ghost predicate Behind(mt: Matcher, before: Logs, added: seq<Text>, d: nat, now: Logs) {
    && Searched(mt, before) && before.next == before.base + |before.lines|
    && d <= |before.lines| + |added|
    && now.lines == (before.lines + added)[d..] && now.base == before.base + d
    && now.matches == before.matches && now.idx == before.idx
    && now.needle == before.needle && now.next == before.next
  }

  class LogsState {
    const mt: Matcher
    var lines: seq<Text>
    var base: nat
    var cap: nat
    var scroll: int
    var follow: bool
    var term: Text
    var matches: seq<int>
    var idx: int
    var needle: Text
    var next: int

    function Value(): Logs
      reads this
    {
      Logs(lines, base, cap, scroll, follow, term, matches, idx, needle, next)
    }

    constructor (mt: Matcher, cap: nat)
      ensures this.mt == mt && Value() == Opened(cap)
    {
      this.mt, this.cap := mt, cap;
      lines, base, scroll, follow, term, matches, idx, needle, next := [], 0, 0, true, [], [], 0, [], 0;
    }

    /** recomputeLogsMatches: a new term starts over; otherwise evicted matches expire and only
        lines not searched yet are. */
    method RecomputeMatches(ghost before: Logs, ghost added: seq<Text>, ghost d: nat)
      requires Behind(mt, before, added, d, Value())
      modifies this`matches, this`idx, this`next, this`needle
      ensures needle == mt.lower(term) && matches == Scan(mt, lines, base, needle) && next == base + |lines|
      ensures idx == if needle == before.needle then CursorAfter(before, matches, base) else 0
    {
      hide Scan, Below, Hit, CursorAfter, Ascending, Behind;
      var n := mt.lower(term);
      Resumes(mt, before, added, d, Value());
      if n != needle {
        matches, idx, next, needle := [], 0, base, n;
        NothingSearched(mt, lines, base);
      }
      if n == [] {
        NoCursor(mt, before, lines, base);
        matches, idx, next := [], 0, base + |lines|;
        return;
      }
      SearchNew();
    }

    /** applyLogLines: append, evict from the head, move the paused viewport, search. */
    method ApplyLogLines(batch: seq<Text>)
      requires Valid(mt, Value())
      modifies this`lines, this`base, this`scroll, this`matches, this`idx, this`next, this`needle
      ensures Value() == After(mt, old(Value()), batch)
    {
      hide Scan, Below, CursorAfter, Sanitized, Hit, Searched, Sanitizer.Clean, ClampScrollTo;
      if |batch| == 0 {
        return;
      }
      ghost var before, added := Value(), Sanitized(batch);
      ValidBehind(mt, before, batch);
      AppendAll(batch);
      ghost var d := Dropped(|lines|, cap);
      if |lines| > cap {
        var dropped := |lines| - cap;
        lines := lines[dropped..];
        base := base + dropped;
      }
      if !follow {
        scroll := ClampScrollTo(scroll + |batch|, |lines|, 1);
      }
      RecomputeMatches(before, added, d);
    }

    method AppendAll(batch: seq<Text>)
      modifies this`lines
      ensures lines == old(lines) + Sanitized(batch)
    {
      hide Sanitizer.Clean, Sanitizer.Slow;
      ghost var lines0 := lines;
      for i := 0 to |batch|
        invariant lines == lines0 + Sanitized(batch)[..i]
      {
        var line := Sanitizer.SanitizeLogLine(batch[i]);
        lines := lines + [line];
      }
    }

    /** An edit of the search prompt. */
    method EditTerm(t: Text)
      requires Valid(mt, Value())
      modifies this`term, this`matches, this`idx, this`next, this`needle
      ensures Value() == Retermed(mt, old(Value()), t)
    {
      hide Scan, Below, CursorAfter, Searched, Sanitizer.Clean;
      ghost var before := Value();
      ValidBehind(mt, before, []);
      assert (lines + [])[0..] == lines;
      term := t;
      RecomputeMatches(before, [], 0);
      CursorUnmoved(mt, before);
    }

    method ScrollLogsToMatch(line: int, height: int)
      modifies this`scroll, this`follow
      ensures Value() == Centred(old(Value()), line, height)
    {
      var row := line - base;
      var approxBody := height - OVERHEAD;
      if approxBody < 1 {
        approxBody := 1;
      }
      var want := |lines| - (row + approxBody / 2);
      scroll := ClampScrollTo(want, |lines|, height - OVERHEAD);
      follow := false;
    }

    method StepLogsMatch(delta: int, height: int)
      modifies this`idx, this`scroll, this`follow
      ensures Value() == Stepped(old(Value()), delta, height)
    {
      hide Wrapped, Centred;
      if |matches| == 0 {
        return;
      }
      var n := |matches|;
      WrapsAround(idx, delta, n);
      idx := Wrapped(idx, delta, n);
      ScrollLogsToMatch(matches[idx], height);
    }

    /** Enter: rescan what a changed term left, and go to the first match. */
    method EnterSearch(height: int)
      requires Valid(mt, Value())
      modifies this`matches, this`next, this`needle, this`idx, this`scroll, this`follow
      ensures Value() == Entered(old(Value()), height)
    {
      hide Scan, Below, CursorAfter, Searched, Sanitizer.Clean, Centred;
      ghost var before := Value();
      ValidBehind(mt, before, []);
      assert (lines + [])[0..] == lines;
      RecomputeMatches(before, [], 0);
      CursorUnmoved(mt, before);
      if |matches| > 0 {
        idx := 0;
        ScrollLogsToMatch(matches[0], height);
      }
    }

    method SetFollow(on: bool)
      modifies this`scroll, this`follow
      ensures Value() == Following(old(Value()), on)
    {
      follow := on;
      if on {
        scroll := 0;
      }
    }

    method ScrollLogsBy(delta: int, bodyHeight: int)
      modifies this`scroll, this`follow
      ensures Value() == Scrolled(old(Value()), delta, bodyHeight)
    {
      scroll := ClampScrollTo(scroll + delta, |lines|, bodyHeight);
      follow := scroll == 0;
    }

    /** Expires evicted matches and appends those of the lines not searched yet. */
    method SearchNew()
      requires Ascending(matches) && base <= Max(next, base) <= base + |lines|
      requires Scan(mt, lines, base, needle) ==
        matches[Below(matches, base)..] + Scan(mt, lines[Max(next, base) - base..], Max(next, base), needle)
      modifies this`matches, this`idx, this`next
      ensures matches == Scan(mt, lines, base, needle) && next == base + |lines|
      ensures idx == Max(0, old(idx) - Below(old(matches), base))
    {
      hide Scan, Below, Ascending;
      var end := base + |lines|;
      var expired := SearchInts(matches, base);
      matches := matches[expired..];
      idx := Max(0, idx - expired);
      var start := Max(next, base);
      var more := SearchFrom(start);
      matches := matches + more;
      next := end;
    }

    method SearchFrom(start: nat) returns (ms: seq<int>)
      requires base <= start <= base + |lines|
      ensures ms == Scan(mt, lines[start - base..], start, needle)
    {
      ms := [];
      var rest := lines[start - base..];
      for i := 0 to |rest|
        invariant ms == Scan(mt, rest[..i], start, needle)
      {
        assert rest[..i + 1][..i] == rest[..i];
        if Hit(mt, rest[i], needle) {
          ms := ms + [start + i];
        }
      }
      assert rest[..|rest|] == rest;
    }
  }

  lemma ValidBehind(mt: Matcher, s: Logs, batch: seq<Text>)
    requires Valid(mt, s)
    ensures Searched(mt, s) && s.next == s.base + |s.lines| && s.needle == mt.lower(s.term)
  {
  }

  lemma CursorUnmoved(mt: Matcher, s: Logs)
    requires Searched(mt, s)
    ensures s.matches == Scan(mt, s.lines, s.base, s.needle)
    ensures CursorAfter(s, s.matches, s.base) == s.idx
  {
    hide Scan, Below;
    ScanBounds(mt, s.lines, s.base, s.needle);
    if |s.matches| > 0 { BelowUnique(s.matches, Current(s), s.idx); }
  }

  /** An empty needle matches nothing, so there is no cursor to keep. */
  lemma {:induction false} EmptyNeedle(mt: Matcher, lines: seq<Text>, base: nat)
    ensures Scan(mt, lines, base, []) == []
    decreases |lines|
  {
    if |lines| > 0 { EmptyNeedle(mt, lines[..|lines| - 1], base); }
  }

  lemma NoCursor(mt: Matcher, before: Logs, lines: seq<Text>, base: nat)
    ensures Scan(mt, lines, base, []) == []
    ensures before.needle == [] && Searched(mt, before) ==> CursorAfter(before, [], base) == 0
  {
    EmptyNeedle(mt, lines, base);
    EmptyNeedle(mt, before.lines, before.base);
  }

  lemma NothingSearched(mt: Matcher, lines: seq<Text>, base: nat)
    ensures lines[base - base..] == lines && Below([], base) == 0 && Ascending([])
  {
  }

  /** Dropping the expired matches moves the index with the list. */
  lemma CursorStays(mt: Matcher, before: Logs, added: seq<Text>, d: nat, needle: Text)
    requires Searched(mt, before) && d <= |before.lines| + |added| && needle == before.needle
    ensures var (kept, b) := ((before.lines + added)[d..], before.base + d);
      Max(0, before.idx - Below(before.matches, b)) == CursorAfter(before, Scan(mt, kept, b, needle), b)
  {
    hide Scan, Below;
    var kept, b := (before.lines + added)[d..], before.base + d;
    var more := Survivors(mt, before.lines, added, before.base, d, needle);
    ScanBounds(mt, kept, b, needle);
    ScanBounds(mt, before.lines, before.base, needle);
    if |before.matches| > 0 {
      CursorMoves(before.matches, before.idx, Below(before.matches, b), more, b);
    }
  }

  /** With the term unchanged, the search resumes where it stopped. */
  lemma Resumes(mt: Matcher, before: Logs, added: seq<Text>, d: nat, now: Logs)
    requires Behind(mt, before, added, d, now)
    ensures before.needle == now.needle && Searched(mt, before)
    ensures Ascending(now.matches) && now.base <= Max(now.next, now.base) <= now.base + |now.lines|
    ensures Scan(mt, now.lines, now.base, now.needle) == now.matches[Below(now.matches, now.base)..]
      + Scan(mt, now.lines[Max(now.next, now.base) - now.base..], Max(now.next, now.base), now.needle)
    ensures Max(0, now.idx - Below(now.matches, now.base))
      == CursorAfter(before, Scan(mt, now.lines, now.base, now.needle), now.base)
  {
    hide Scan, Below, CursorAfter, Ascending;
    ScanTail(mt, before.lines, added, before.base, d, before.needle);
    CursorStays(mt, before, added, d, before.needle);
    ScanBounds(mt, before.lines, before.base, before.needle);
  }

  /** The viewer through any run: the object does what the pure state machine does, so after
      every operation its matches are a full rescan of what it retained. */
  method View(mt: Matcher, cap: nat, ops: seq<Op>) returns (s: Logs)
    requires mt.lower([]) == []
    ensures s == Run(mt, Opened(cap), ops) && Valid(mt, s)
  {
    hide Valid, After, Retermed, Stepped, Scrolled, Entered, Following;
    var v := new LogsState(mt, cap);
    for i := 0 to |ops|
      invariant v.mt == mt && v.Value() == Run(mt, Opened(cap), ops[..i])
    {
      assert ops[..i + 1][..i] == ops[..i];
      RunValid(mt, cap, ops[..i]);
      match ops[i] {
        case Batch(lines) => v.ApplyLogLines(lines);
        case Term(term) => v.EditTerm(term);
        case StepBy(delta, height) => v.StepLogsMatch(delta, height);
        case ScrollBy(delta, body) => v.ScrollLogsBy(delta, body);
        case Enter(height) => v.EnterSearch(height);
        case Follow(on) => v.SetFollow(on);
      }
    }
    assert ops[..|ops|] == ops;
    RunValid(mt, cap, ops);
    s := v.Value();
  }
}
