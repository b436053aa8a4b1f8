/** What the log viewer retains, finds and shows, said of the lines that arrived: how many are kept
    and which, which of them match, and which a viewport covers. */
module LogRetention {
  import opened LogBuffer
  import Sanitizer

  /** `kept` are the newest `cap` of `all`, or all of them. */
  ghost predicate Newest(kept: seq<Text>, all: seq<Text>, cap: nat) {
    && |kept| == (if |all| <= cap then |all| else cap)
    && forall i :: 0 <= i < |kept| ==> kept[i] == all[|all| - |kept| + i]
  }

  /** Every line of a batch, sanitized, behind the lines there were. */
  ghost predicate Appends(all: seq<Text>, lines: seq<Text>, batch: seq<Text>) {
    && |all| == |lines| + |batch|
    && (forall i :: 0 <= i < |lines| ==> all[i] == lines[i])
    && forall i :: 0 <= i < |batch| ==> all[|lines| + i] == Sanitizer.Slow(batch[i])
  }

  /** A batch evicts the oldest lines over capacity and no other, and counts them. */
  lemma BatchRetains(mt: Matcher, s: Logs, batch: seq<Text>) returns (all: seq<Text>)
    requires |s.lines| <= s.cap
    ensures var t := After(mt, s, batch);
      && Appends(all, s.lines, batch) && Newest(t.lines, all, s.cap)
      && t.base + |t.lines| == s.base + |all|
      && t.cap == s.cap && t.follow == s.follow && t.term == s.term && t.needle == s.needle
  {
    hide Scan, CursorAfter, ClampScrollTo, Sanitizer.Slow;
    all := s.lines + Sanitized(batch);
  }

  /** Every line that arrived in a run, sanitized, in order. */
  ghost function Arrived(ops: seq<Op>): seq<Text> {
    if |ops| == 0 then []
    else
      var v, op := Arrived(ops[..|ops| - 1]), ops[|ops| - 1];
      if op.Batch? then v + seq(|op.lines|, i requires 0 <= i < |op.lines| => Sanitizer.Slow(op.lines[i])) else v
  }

  lemma NewestGrows(kept: seq<Text>, all: seq<Text>, more: seq<Text>, cap: nat, again: seq<Text>)
    requires Newest(kept, all, cap) && Newest(again, kept + more, cap)
    ensures Newest(again, all + more, cap)
  {
  }

  lemma OthersKeepLines(mt: Matcher, s: Logs, op: Op)
    requires !op.Batch?
    ensures Next(mt, s, op).lines == s.lines && Next(mt, s, op).base == s.base && Next(mt, s, op).cap == s.cap
  {
    hide Scan, Wrapped, ClampScrollTo;
  }

  /** Whatever else the user does, the buffer holds the newest lines that arrived, as many as fit,
      and its base counts those evicted: a line keeps its number for as long as it is held. */
  lemma {:induction false} HoldsNewest(mt: Matcher, cap: nat, ops: seq<Op>)
    ensures var s := Run(mt, Opened(cap), ops);
      && s.cap == cap && Newest(s.lines, Arrived(ops), cap)
      && s.base + |s.lines| == |Arrived(ops)|
      && forall i :: 0 <= i < |s.lines| ==> s.lines[i] == Arrived(ops)[s.base + i]
    decreases |ops|
  {
    hide Next;
    if |ops| > 0 {
      var before, op := ops[..|ops| - 1], ops[|ops| - 1];
      HoldsNewest(mt, cap, before);
      var s := Run(mt, Opened(cap), before);
      if op.Batch? {
        BatchHolds(mt, s, Arrived(before), op.lines);
      } else {
        OthersKeepLines(mt, s, op);
      }
    }
  }

  lemma BatchHolds(mt: Matcher, s: Logs, arrived: seq<Text>, batch: seq<Text>)
    requires Newest(s.lines, arrived, s.cap) && s.base + |s.lines| == |arrived|
    ensures var t := Next(mt, s, Batch(batch));
      var more := arrived + seq(|batch|, i requires 0 <= i < |batch| => Sanitizer.Slow(batch[i]));
      t.cap == s.cap && Newest(t.lines, more, s.cap) && t.base + |t.lines| == |more|
  {
    hide After, Sanitizer.Slow;
    var more := seq(|batch|, i requires 0 <= i < |batch| => Sanitizer.Slow(batch[i]));
    var all := BatchRetains(mt, s, batch);
    assert all == s.lines + more;
    NewestGrows(s.lines, arrived, more, s.cap, After(mt, s, batch).lines);
  }

  // ------------------------------------------------------------ what matches

  /** A number is among the matches exactly when it is a retained line's, the search is not empty
      and that line, in lower case, contains it; the matches are in line order, each once. */
  lemma {:induction false} MatchesAre(mt: Matcher, lines: seq<Text>, base: nat, needle: Text, n: int)
    ensures n in Scan(mt, lines, base, needle) <==>
      base <= n < base + |lines| && needle != [] && mt.contains(mt.lower(lines[n - base]), needle)
    ensures Ascending(Scan(mt, lines, base, needle))
    decreases |lines|
  {
    ScanBounds(mt, lines, base, needle);
    if |lines| > 0 {
      var k := |lines| - 1;
      MatchesAre(mt, lines[..k], base, needle, n);
      ScanBounds(mt, lines[..k], base, needle);
    }
  }

  /** After any run the matches are those of the search term as it was last edited. */
  lemma RunMatches(mt: Matcher, cap: nat, ops: seq<Op>, n: int)
    requires mt.lower([]) == []
    ensures var s := Run(mt, Opened(cap), ops);
      n in s.matches <==>
        && s.base <= n < |Arrived(ops)| && mt.lower(TermOf(ops)) != []
        && mt.contains(mt.lower(Arrived(ops)[n]), mt.lower(TermOf(ops)))
  {
    hide Run, Arrived, Scan, TermOf;
    RunValid(mt, cap, ops);
    var s := Run(mt, Opened(cap), ops);
    HoldsNewest(mt, cap, ops);
    LastTerm(mt, cap, ops);
    MatchesAre(mt, s.lines, s.base, s.needle, n);
    assert s.base <= n < s.base + |s.lines| ==> s.lines[n - s.base] == Arrived(ops)[s.base + (n - s.base)];
  }

  ghost function TermOf(ops: seq<Op>): Text {
    if |ops| == 0 then []
    else if ops[|ops| - 1].Term? then ops[|ops| - 1].term
    else TermOf(ops[..|ops| - 1])
  }

  lemma {:induction false} LastTerm(mt: Matcher, cap: nat, ops: seq<Op>)
    ensures Run(mt, Opened(cap), ops).term == TermOf(ops)
    decreases |ops|
  {
    hide Next;
    if |ops| > 0 {
      LastTerm(mt, cap, ops[..|ops| - 1]);
      TermStep(mt, Run(mt, Opened(cap), ops[..|ops| - 1]), ops[|ops| - 1]);
    }
  }

  lemma TermStep(mt: Matcher, s: Logs, op: Op)
    ensures Next(mt, s, op).term == if op.Term? then op.term else s.term
  {
    hide Scan, Wrapped, ClampScrollTo, CursorAfter, Sanitized, Dropped;
  }

  // ------------------------------------------------------------ what is shown

  /** Scrolling moves the view by what is asked for, up to the oldest or the newest line, never past
      a full page; back at the tail the view follows again. */
  lemma ScrollStops(mt: Matcher, s: Logs, delta: int, bodyHeight: int)
    requires Valid(mt, s) && |s.lines| > 0
    ensures var t, body, newest := Scrolled(s, delta, bodyHeight), Max(1, bodyHeight), s.base + |s.lines| - 1;
      && (t.follow <==> InView(t, body, newest))
      && (End(s) - delta < s.base + body ==> InView(t, body, s.base))
      && (End(s) - delta > newest ==> InView(t, body, newest))
      && (s.base + body <= End(s) - delta <= newest ==> End(t) == End(s) - delta)
      && End(t) >= Max(0, if s.base + body < newest + 1 then s.base + body else newest + 1)
  {
    hide Scan, Sanitizer.Clean;
  }

  /** A match gone to sits in the middle of a view eight rows lower than the terminal, unless that
      would go past the newest line or the oldest full page: then the view stops there. */
  lemma MatchCentred(mt: Matcher, s: Logs, line: int, height: int)
    requires Valid(mt, s) && s.base <= line < s.base + |s.lines|
    ensures var t, body, end := Centred(s, line, height), Max(1, height - 8), s.base + |s.lines|;
      var (middle, page) := (line + body / 2, if s.base + body < end then s.base + body else end);
      && !t.follow && t.idx == s.idx && t.matches == s.matches
      && End(t) == if middle < page then page else if middle > end then end else middle
  {
    hide Scan, Sanitizer.Clean;
  }

  /** The other keys: an edit of the term moves nothing but the search, to the first match if it is a
      new one; pausing leaves the view where it is, and following shows the newest line. */
  lemma KeysDo(mt: Matcher, s: Logs, term: Text, on: bool)
    requires Valid(mt, s)
    ensures var t := Retermed(mt, s, term);
      && t.scroll == s.scroll && t.follow == s.follow && End(t) == End(s) && t.term == term
      && (mt.lower(term) == mt.lower(s.term) ==> t.matches == s.matches && t.idx == s.idx)
      && (mt.lower(term) != mt.lower(s.term) ==> t.idx == 0)
    ensures var t := Following(s, on);
      && t.follow == on && t.matches == s.matches && t.idx == s.idx
      && (on ==> End(t) == t.base + |t.lines|) && (!on ==> End(t) == End(s))
  {
    hide Scan, Sanitizer.Clean;
  }
}
