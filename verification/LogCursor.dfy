/** Resuming a log stream: reconnects replay from a whole second back, and the cursor removes
    the overlap by counting occurrences at its latest timestamp. Time is an integer, with the
    zero time at 0. */
module LogCursor {

  /** A line that carries a timestamp; `text` is the whole line, prefix included. */
  datatype LogRec = LogRec(at: int, text: string)

  /** `seen` and `overlap` are the two occurrence-count maps; `started` says seen is not nil. */
  datatype Cursor = Cursor(at: int, started: bool, seen: multiset<string>, overlap: multiset<string>)

  const FRESH := Cursor(0, false, multiset{}, multiset{})

  function Begin(c: Cursor): Cursor {
    c.(overlap := c.seen)
  }

  function Accept(c: Cursor, r: LogRec): (Cursor, bool) {
    if r.at < c.at then (c, false)
    else
      var c1 := if !c.started || r.at > c.at then Cursor(r.at, true, multiset{}, multiset{}) else c;
      if c1.overlap[r.text] > 0 then (c1.(overlap := c1.overlap - multiset{r.text}), false)
      else (c1.(seen := c1.seen + multiset{r.text}), true)
  }

  /** A cursor and the lines it has let through. */
  datatype Taken = Taken(cursor: Cursor, lines: seq<LogRec>)

  function Take(k: Taken, r: LogRec): Taken {
    var (c, ok) := Accept(k.cursor, r);
    Taken(c, if ok then k.lines + [r] else k.lines)
  }

  /** Lines read one by one. */
  function Feed(k: Taken, rs: seq<LogRec>): Taken
    decreases |rs|
  {
    if |rs| == 0 then k else Take(Feed(k, rs[..|rs| - 1]), rs[|rs| - 1])
  }

  /** The object the stream goroutine mutates. */
  class LogCursorState {
    var at: int
    var started: bool
    var seen: multiset<string>
    var overlap: multiset<string>

    function Value(): Cursor
      reads this
    {
      Cursor(at, started, seen, overlap)
    }

    constructor ()
      ensures Value() == FRESH
    {
      at, started, seen, overlap := 0, false, multiset{}, multiset{};
    }

    method BeginStream()
      modifies this
      ensures Value() == Begin(old(Value()))
    {
      overlap := seen;
    }

    method AcceptLine(t: int, line: string) returns (ok: bool)
      modifies this
      ensures (Value(), ok) == Accept(old(Value()), LogRec(t, line))
    {
      if t < at {
        return false;
      }
      if !started || t > at {
        at, started := t, true;
        seen, overlap := multiset{}, multiset{};
      }
      if overlap[line] > 0 {
        overlap := overlap - multiset{line};
        return false;
      }
      seen := seen + multiset{line};
      return true;
    }
  }

  // --------------------------------------------------------------- the log

  ghost predicate Chronological(log: seq<LogRec>) {
    forall i, j :: 0 <= i <= j < |log| ==> log[i].at <= log[j].at
  }

  /** Lines stamped before the zero time are invisible to a cursor that starts there. */
  function Visible(rs: seq<LogRec>): seq<LogRec> {
    if |rs| == 0 then []
    else
      var v, r := Visible(rs[..|rs| - 1]), rs[|rs| - 1];
      if r.at >= 0 then v + [r] else v
  }

  /** Occurrences at one timestamp. */
  ghost function TextsAt(rs: seq<LogRec>, t: int): multiset<string> {
    if |rs| == 0 then multiset{}
    else
      var m, r := TextsAt(rs[..|rs| - 1], t), rs[|rs| - 1];
      if r.at == t then m + multiset{r.text} else m
  }

  /** The cursor has taken in exactly log[..m]. */
  ghost predicate InStep(log: seq<LogRec>, c: Cursor, m: nat) {
    && m <= |log|
    && (c.started <==> m > 0 && log[m - 1].at >= 0)
    && c.at == (if c.started then log[m - 1].at else 0)
    && c.seen == TextsAt(log[..m], c.at)
  }

  /** While replaying, `overlap` is what of log[..m] is still to come after log[..i]. */
  ghost predicate Replaying(log: seq<LogRec>, c: Cursor, m: nat, i: nat) {
    && InStep(log, c, m) && i <= m
    && TextsAt(log[..i], c.at) + c.overlap == TextsAt(log[..m], c.at)
  }

  /** A resume point no later than the first line at the cursor's timestamp: nothing is skipped. */
  ghost predicate ResumesAt(log: seq<LogRec>, t: int, s: nat) {
    s <= |log| && forall j :: 0 <= j < s ==> log[j].at < t
  }

  lemma TakeSnoc<T>(s: seq<T>, i: nat)
    requires i < |s|
    ensures s[..i + 1] == s[..i] + [s[i]] && s[..i + 1][..i] == s[..i]
  {
  }

  lemma {:induction false} TextsGrow(log: seq<LogRec>, i: nat, m: nat, t: int)
    requires i <= m <= |log|
    ensures TextsAt(log[..i], t) <= TextsAt(log[..m], t)
    decreases m - i
  {
    if i < m {
      TextsGrow(log, i, m - 1, t);
      TakeSnoc(log, m - 1);
    }
  }

  /** No line of a prefix carries `t`. */
  lemma {:induction false} NoTexts(log: seq<LogRec>, m: nat, t: int)
    requires m <= |log| && forall j :: 0 <= j < m ==> log[j].at != t
    ensures TextsAt(log[..m], t) == multiset{}
    decreases m
  {
    if m > 0 {
      TakeSnoc(log, m - 1);
      NoTexts(log, m - 1, t);
    }
  }

  /** A replayed line is always swallowed. */
  lemma ReplayLine(log: seq<LogRec>, c: Cursor, m: nat, i: nat)
    requires Chronological(log) && Replaying(log, c, m, i) && i < m
    ensures !Accept(c, log[i]).1 && Replaying(log, Accept(c, log[i]).0, m, i + 1)
  {
    var r := log[i];
    assert r.at <= log[m - 1].at;
    TakeSnoc(log, i);
    if r.at == c.at {
      TextsGrow(log, i + 1, m, c.at);
      assert TextsAt(log[..i + 1], c.at) == TextsAt(log[..i], c.at) + multiset{r.text};
      assert c.overlap == TextsAt(log[..m], c.at) - TextsAt(log[..i], c.at);
      assert TextsAt(log[..m], c.at)[r.text] >= TextsAt(log[..i + 1], c.at)[r.text];
    }
  }

  /** Between streams and beyond the replay: nothing left to swallow. */
  ghost predicate Caught(log: seq<LogRec>, c: Cursor, m: nat) {
    InStep(log, c, m) && c.overlap == multiset{}
  }

  /** A new line is let through, unless it predates the zero time. */
  lemma FreshLine(log: seq<LogRec>, c: Cursor, m: nat)
    requires Chronological(log) && Caught(log, c, m) && m < |log|
    ensures Accept(c, log[m]).1 <==> log[m].at >= 0
    ensures Caught(log, Accept(c, log[m]).0, m + 1)
  {
    var r := log[m];
    TakeSnoc(log, m);
    assert m > 0 ==> log[m - 1].at <= r.at;
    if r.at < 0 {
      NoTexts(log, m + 1, 0);
    } else if !c.started || r.at > c.at {
      forall j | 0 <= j < m ensures log[j].at != r.at {
        assert log[j].at <= log[m - 1].at;
      }
      NoTexts(log, m, r.at);
    }
  }

  lemma FeedSnoc(k: Taken, log: seq<LogRec>, s: nat, i: nat)
    requires s <= i < |log|
    ensures Feed(k, log[s..i + 1]) == Take(Feed(k, log[s..i]), log[i])
  {
    assert log[s..i + 1][..i - s] == log[s..i] && log[s..i + 1][i - s] == log[i];
  }

  lemma ReplayTaken(log: seq<LogRec>, k: Taken, m: nat, i: nat)
    requires Chronological(log) && Replaying(log, k.cursor, m, i) && i < m
    ensures Take(k, log[i]).lines == k.lines && Replaying(log, Take(k, log[i]).cursor, m, i + 1)
  {
    ReplayLine(log, k.cursor, m, i);
  }

  lemma FreshTaken(log: seq<LogRec>, k: Taken, m: nat)
    requires Chronological(log) && Caught(log, k.cursor, m) && m < |log|
    ensures Take(k, log[m]).lines == if log[m].at >= 0 then k.lines + [log[m]] else k.lines
    ensures Caught(log, Take(k, log[m]).cursor, m + 1)
  {
    FreshLine(log, k.cursor, m);
  }

  /** A stream that never gets past what was already delivered adds nothing. */
  lemma {:induction false} ReplayOnly(log: seq<LogRec>, k: Taken, m: nat, s: nat, i: nat)
    requires m <= |log| && Chronological(log) && Replaying(log, k.cursor, m, s) && s <= i <= m
    ensures Feed(k, log[s..i]).lines == k.lines && Replaying(log, Feed(k, log[s..i]).cursor, m, i)
    decreases i
  {
    hide Replaying, Take;
    if i == s {
      assert log[s..i] == [];
    } else {
      ReplayOnly(log, k, m, s, i - 1);
      FeedSnoc(k, log, s, i - 1);
      ReplayTaken(log, Feed(k, log[s..i - 1]), m, i - 1);
    }
  }

  /** Past the replay, a stream is delivered line for line. */
  lemma {:induction false} FreshPart(log: seq<LogRec>, k: Taken, s: nat, e: nat)
    requires Chronological(log) && s <= e <= |log| && Caught(log, k.cursor, s)
    ensures Feed(k, log[s..e]).lines == k.lines + Visible(log[s..e])
    ensures Caught(log, Feed(k, log[s..e]).cursor, e)
    decreases e
  {
    hide Caught, Take;
    if e == s {
      assert log[s..e] == [];
    } else {
      FreshPart(log, k, s, e - 1);
      FeedSnoc(k, log, s, e - 1);
      FreshTaken(log, Feed(k, log[s..e - 1]), e - 1);
      assert log[s..e][..e - 1 - s] == log[s..e - 1];
    }
  }

  lemma {:induction false} FeedJoin(k: Taken, log: seq<LogRec>, s: nat, m: nat, e: nat)
    requires s <= m <= e <= |log|
    ensures Feed(k, log[s..e]) == Feed(Feed(k, log[s..m]), log[m..e])
    decreases e
  {
    hide Take;
    if e == m {
      assert log[m..e] == [];
    } else {
      FeedJoin(k, log, s, m, e - 1);
      FeedSnoc(k, log, s, e - 1);
      FeedSnoc(Feed(k, log[s..m]), log, m, e - 1);
    }
  }

  function Max(a: nat, b: nat): nat { if a < b then b else a }

  /** The start of a stream within what was delivered: everything there is owed again. */
  lemma StreamStarts(log: seq<LogRec>, c: Cursor, m: nat, s: nat)
    requires InStep(log, c, m) && ResumesAt(log, c.at, s) && s <= m
    ensures Replaying(log, Begin(c), m, s)
  {
    NoTexts(log, s, c.at);
  }

  /** A stream that starts beyond what was delivered skips only lines nobody may see. */
  lemma StreamSkips(log: seq<LogRec>, c: Cursor, m: nat, s: nat)
    requires InStep(log, c, m) && ResumesAt(log, c.at, s) && m <= s
    ensures m < s ==> Caught(log, Begin(c), s) && forall j :: 0 <= j < s ==> log[j].at < 0
  {
    if m < s {
      assert !c.started;
      NoTexts(log, m, 0);
      NoTexts(log, s, 0);
    }
  }

  /** One stream: exactly the lines beyond what was delivered before. */
  lemma StreamDelivers(log: seq<LogRec>, k: Taken, m: nat, s: nat, e: nat)
    requires Chronological(log) && InStep(log, k.cursor, m) && ResumesAt(log, k.cursor.at, s) && s <= e <= |log|
    ensures var after := Feed(k.(cursor := Begin(k.cursor)), log[s..e]);
      after.lines == k.lines + Visible(log[m..Max(m, e)]) && InStep(log, after.cursor, Max(m, e))
  {
    var b := k.(cursor := Begin(k.cursor));
    if s <= m {
      StreamStarts(log, k.cursor, m, s);
      ReplayOnly(log, b, m, s, if e <= m then e else m);
      if e <= m {
        assert log[m..m] == [];
      } else {
        FeedJoin(b, log, s, m, e);
        FreshPart(log, Feed(b, log[s..m]), m, e);
      }
    } else {
      StreamSkips(log, k.cursor, m, s);
      FreshPart(log, b, s, e);
      InvisiblePart(log, m, s, e);
    }
  }

  lemma {:induction false} InvisiblePart(log: seq<LogRec>, m: nat, s: nat, e: nat)
    requires m <= s <= e <= |log| && forall j :: 0 <= j < s ==> log[j].at < 0
    ensures Visible(log[m..e]) == Visible(log[s..e])
    decreases e
  {
    if e == s {
      if m < s {
        InvisiblePart(log, m, s - 1, s - 1);
        assert log[m..s][..s - 1 - m] == log[m..s - 1] && log[s - 1..s - 1] == log[s..s] == [];
      }
    } else {
      InvisiblePart(log, m, s, e - 1);
      assert log[m..e][..e - 1 - m] == log[m..e - 1] && log[s..e][..e - 1 - s] == log[s..e - 1];
    }
  }

  // ------------------------------------------------------- over reconnects

  /** A stream delivers log[s..e). */
  datatype Stream = Stream(s: nat, e: nat)

  /** The cursor and everything let through after a list of streams. */
  function Session(log: seq<LogRec>, streams: seq<Stream>): Taken
    requires forall i :: 0 <= i < |streams| ==> streams[i].s <= streams[i].e <= |log|
    decreases |streams|
  {
    if |streams| == 0 then Taken(FRESH, [])
    else
      var st := streams[|streams| - 1];
      var k := Session(log, streams[..|streams| - 1]);
      Feed(k.(cursor := Begin(k.cursor)), log[st.s..st.e])
  }

  /** How far the streams reach. */
  function Reach(streams: seq<Stream>): nat {
    if |streams| == 0 then 0 else Max(Reach(streams[..|streams| - 1]), streams[|streams| - 1].e)
  }

  /** Every stream resumes no later than the cursor of the streams before it. */
  ghost predicate Resumes(log: seq<LogRec>, streams: seq<Stream>)
    decreases |streams|
  {
    && (forall i :: 0 <= i < |streams| ==> streams[i].s <= streams[i].e <= |log|)
    && (|streams| > 0 ==>
          && Resumes(log, streams[..|streams| - 1])
          && ResumesAt(log, Session(log, streams[..|streams| - 1]).cursor.at, streams[|streams| - 1].s))
  }

  lemma {:induction false} SessionDelivers(log: seq<LogRec>, streams: seq<Stream>)
    requires Chronological(log) && Resumes(log, streams)
    ensures Reach(streams) <= |log|
    ensures Session(log, streams).lines == Visible(log[..Reach(streams)])
    ensures InStep(log, Session(log, streams).cursor, Reach(streams))
    decreases |streams|
  {
    if |streams| == 0 {
      assert log[..0] == [];
    } else {
      var before, st := streams[..|streams| - 1], streams[|streams| - 1];
      SessionDelivers(log, before);
      var m, e := Reach(before), Reach(streams);
      StreamDelivers(log, Session(log, before), m, st.s, st.e);
      VisibleJoin(log, m, e);
    }
  }

  lemma {:induction false} VisibleJoin(log: seq<LogRec>, m: nat, e: nat)
    requires m <= e <= |log|
    ensures Visible(log[..e]) == Visible(log[..m]) + Visible(log[m..e])
    decreases e
  {
    if e == m {
      assert log[m..e] == [];
    } else {
      VisibleJoin(log, m, e - 1);
      TakeSnoc(log, e - 1);
      assert log[m..e][..e - 1 - m] == log[m..e - 1];
    }
  }

  lemma {:induction false} VisibleAll(rs: seq<LogRec>)
    ensures Visible(rs) == rs <==> forall i :: 0 <= i < |rs| ==> rs[i].at >= 0
    ensures |Visible(rs)| <= |rs|
    decreases |rs|
  {
    if |rs| > 0 {
      VisibleAll(rs[..|rs| - 1]);
      assert rs == rs[..|rs| - 1] + [rs[|rs| - 1]];
    }
  }

  /** Exactly once: over any number of reconnects, with replays, identical lines at one
      timestamp and streams that stop early, the accepted lines are the log up to the furthest
      point reached, each once and in order, if and only if no line there predates time zero. */
  lemma ExactlyOnce(log: seq<LogRec>, streams: seq<Stream>)
    requires Chronological(log) && Resumes(log, streams)
    ensures Reach(streams) <= |log|
    ensures Session(log, streams).lines == log[..Reach(streams)] <==>
      forall i :: 0 <= i < Reach(streams) ==> log[i].at >= 0
  {
    hide Session, Visible, InStep, Reach;
    SessionDelivers(log, streams);
    VisibleAll(log[..Reach(streams)]);
  }

  /** The failing side is real: a line stamped before the zero time is never shown. */
  lemma PrehistoricLineIsLost()
    ensures var log := [LogRec(-1, "a")];
      Chronological(log) && Resumes(log, [Stream(0, 1)]) && Session(log, [Stream(0, 1)]).lines == []
  {
    var log, one := [LogRec(-1, "a")], [Stream(0, 1)];
    assert one[..0] == [];
    assert log[0..1] == log && log[..0] == [];
    var k := Taken(FRESH, []);
    assert log[..0] == [] && Feed(k, log) == Take(Feed(k, log[..0]), log[0]);
  }
}
