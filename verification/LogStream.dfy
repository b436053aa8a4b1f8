/** runStream as turns of its loop: read a stream, decide, reopen from the cursor; give up after
    five reopens in a row that brought nothing new. `body` is what was offered to the viewer; the
    network, the pod status and cancellation are inputs. */
module LogStream {
  import opened LogCursor
  import opened Options

  const MAX_CONSECUTIVE_FAILURES := 5

  /** A line with or without a parseable timestamp. */
  datatype RawLine = Stamped(rec: LogRec) | Plain(text: string)

  /** What one stream yields until its scanner stops, how far into the log that reaches, and
      whether it stopped without an error. */
  datatype Read = Read(lines: seq<RawLine>, upto: nat, clean: bool)

  datatype Opened = Opened(read: Read) | Transient | Refused(cause: string)

  datatype Msg = Line(raw: RawLine) | Reconnecting | Fatal | Eos

  datatype End = Cancelled | Complete | GaveUp | Denied

  /** The world around the goroutine: `open(k, t)` answers the k-th reopen from time t,
      `complete(k)` the k-th status check, `stopScan(k)` says after how many lines of the k-th
      scan the parent is found cancelled, `stopSleep(k)` whether it ends the k-th back-off. */
  datatype World = World(
    open: (nat, int) -> Opened, complete: nat -> bool,
    stopScan: nat -> Option<nat>, stopSleep: nat -> bool)

  function Stamps(ls: seq<RawLine>): seq<LogRec> {
    if |ls| == 0 then []
    else
      var v, l := Stamps(ls[..|ls| - 1]), ls[|ls| - 1];
      if l.Stamped? then v + [l.rec] else v
  }

  /** The stamped lines among what was offered. */
  function Offered(out: seq<Msg>): seq<LogRec> {
    if |out| == 0 then []
    else
      var v, l := Offered(out[..|out| - 1]), out[|out| - 1];
      if l.Line? && l.raw.Stamped? then v + [l.raw.rec] else v
  }

  function Reconnects(out: seq<Msg>): nat {
    if |out| == 0 then 0
    else Reconnects(out[..|out| - 1]) + if out[|out| - 1].Reconnecting? then 1 else 0
  }

  /** Neither the end nor an error has been announced. */
  predicate Live(out: seq<Msg>) {
    forall i :: 0 <= i < |out| ==> out[i].Line? || out[i].Reconnecting?
  }

  /** What the goroutine sends on its way out; when cancelled, nobody need receive it. */
  function Closing(end: End): seq<Msg> {
    match end
    case Cancelled => []
    case Complete => [Eos]
    case _ => [Fatal, Eos]
  }

  /** A server that resumes from time `t` serves log[s..upto), no line at or after `t` skipped. */
  ghost predicate Serves(log: seq<LogRec>, t: int, r: Read, s: nat) {
    s <= r.upto <= |log| && ResumesAt(log, t, s) && Stamps(r.lines) == log[s..r.upto]
  }

  ghost predicate Honest(log: seq<LogRec>, w: World) {
    forall k, t :: w.open(k, t).Opened? ==> exists s: nat :: Serves(log, t, w.open(k, t).read, s)
  }

  lemma StampsSnoc(ls: seq<RawLine>, i: nat)
    requires i < |ls|
    ensures Stamps(ls[..i + 1]) == if ls[i].Stamped? then Stamps(ls[..i]) + [ls[i].rec] else Stamps(ls[..i])
  {
    assert ls[..i + 1][..i] == ls[..i];
  }

  lemma OfferedSnoc(out: seq<Msg>, l: Msg)
    ensures Offered(out + [l]) == if l.Line? && l.raw.Stamped? then Offered(out) + [l.raw.rec] else Offered(out)
    ensures Reconnects(out + [l]) == Reconnects(out) + if l.Reconnecting? then 1 else 0
    ensures Live(out + [l]) <==> Live(out) && (l.Line? || l.Reconnecting?)
  {
    assert (out + [l])[..|out|] == out;
    assert (out + [l])[|out|] == l;
    if Live(out + [l]) {
      assert forall i :: 0 <= i < |out| ==> (out + [l])[i] == out[i];
    }
  }

  /** A stream cut short serves a shorter stretch of the log. */
  lemma {:induction false} StampsPrefix(ls: seq<RawLine>, n: nat)
    requires n <= |ls|
    ensures |Stamps(ls[..n])| <= |Stamps(ls)| && Stamps(ls[..n]) == Stamps(ls)[..|Stamps(ls[..n])|]
    decreases |ls| - n
  {
    if n == |ls| {
      assert ls[..n] == ls;
    } else {
      StampsPrefix(ls, n + 1);
      StampsSnoc(ls, n);
    }
  }

  function Cut(r: Read, n: nat, upto: nat): Read
    requires n <= |r.lines|
  {
    r.(lines := r.lines[..n], upto := upto)
  }

  lemma ServesPrefix(log: seq<LogRec>, t: int, r: Read, s: nat, n: nat)
    requires Serves(log, t, r, s) && n <= |r.lines|
    ensures Serves(log, t, Cut(r, n, s + |Stamps(r.lines[..n])|), s)
    ensures s + |Stamps(r.lines[..n])| <= r.upto
    ensures n == |r.lines| ==> s + |Stamps(r.lines[..n])| == r.upto
  {
    StampsPrefix(r.lines, n);
    assert log[s..r.upto][..|Stamps(r.lines[..n])|] == log[s..s + |Stamps(r.lines[..n])|];
    assert n == |r.lines| ==> r.lines[..n] == r.lines;
  }

  // -------------------------------------------------------------- the machine

  /** The cursor and what was offered so far. */
  datatype Tape = Tape(cursor: Cursor, body: seq<Msg>)

  /** The scan loop's body: a stamped line must pass the cursor, any other line goes through. */
  function Offer(k: Tape, l: RawLine): Tape {
    match l
    case Plain(_) => k.(body := k.body + [Line(l)])
    case Stamped(r) =>
      var (c, ok) := Accept(k.cursor, r);
      Tape(c, if ok then k.body + [Line(l)] else k.body)
  }

  function OfferAll(k: Tape, ls: seq<RawLine>): Tape {
    if |ls| == 0 then k else Offer(OfferAll(k, ls[..|ls| - 1]), ls[|ls| - 1])
  }

  /** How many lines of a stream are read before it ends or is cancelled. */
  function ReadCount(r: Read, stop: Option<nat>): (n: nat)
    ensures n <= |r.lines|
  {
    if stop.Some? && stop.value < |r.lines| then stop.value else |r.lines|
  }

  /** beginStream and the scan; a reopen that failed leaves nothing to read. */
  function ReadTape(k: Tape, stream: Option<Read>, stop: Option<nat>): Tape {
    var b := k.(cursor := Begin(k.cursor));
    if stream.None? then b else OfferAll(b, stream.value.lines[..ReadCount(stream.value, stop)])
  }

  /** `asked` are the times the reopens asked to resume from. */
  datatype Loop = Loop(
    stream: Option<Read>, finishing: bool, consec: nat, tape: Tape,
    opens: nat, asked: seq<int>, checks: nat, news: nat, end: Option<End>)

  function Start(first: Read): Loop {
    Loop(Some(first), false, 0, Tape(FRESH, []), 0, [], 0, 0, None)
  }

  /** The turn once the stream is read: completion, the failure count, and the reopen. */
  function Decide(w: World, l: Loop, gotLine: bool): Loop {
    var clean := l.stream.Some? && l.stream.value.clean;
    if clean && l.finishing then l.(end := Some(Complete))
    else
      var finishing := if clean then w.complete(l.checks) else l.finishing;
      var consec := if gotLine || (clean && finishing) then 0 else l.consec;
      var l1 := l.(finishing := finishing, checks := if clean then l.checks + 1 else l.checks,
                   news := if gotLine then l.news + 1 else l.news, consec := consec + 1);
      if consec + 1 > MAX_CONSECUTIVE_FAILURES then l1.(end := Some(GaveUp)) else Reopen(w, l1)
  }

  function Reopen(w: World, l: Loop): Loop {
    var l1 := l.(tape := l.tape.(body := l.tape.body + [Reconnecting]));
    if w.stopSleep(l.opens) then l1.(end := Some(Cancelled))
    else
      var l2 := l1.(opens := l.opens + 1, asked := l.asked + [l.tape.cursor.at]);
      match w.open(l.opens, l.tape.cursor.at)
      case Refused(_) => l2.(end := Some(Denied))
      case Transient => l2.(stream := None)
      case Opened(read) => l2.(stream := Some(read))
  }

  /** One turn of the loop. */
  function Turn(w: World, l: Loop): Loop {
    var k := ReadTape(l.tape, l.stream, w.stopScan(l.opens));
    var l1 := l.(tape := k);
    if w.stopScan(l.opens).Some? then l1.(end := Some(Cancelled))
    else Decide(w, l1, |Offered(k.body)| > |Offered(l.tape.body)|)
  }

  function Turns(w: World, l: Loop, n: nat): Loop {
    if n == 0 then l
    else
      var m := Turns(w, l, n - 1);
      if m.end.Some? then m else Turn(w, m)
  }

  // ---------------------------------------------------------- what a turn keeps

  /** Exactly log[..m] was offered, once, and the cursor stands at its end. */
  ghost predicate Delivered(log: seq<LogRec>, k: Tape, m: nat) {
    InStep(log, k.cursor, m) && Offered(k.body) == Visible(log[..m]) && Live(k.body)
  }

  /** Reading lines is feeding the cursor their stamps; nothing but lines is offered. */
  lemma {:induction false} OfferFeeds(k: Tape, ls: seq<RawLine>)
    requires Live(k.body)
    ensures var r := OfferAll(k, ls);
      && Taken(r.cursor, Offered(r.body)) == Feed(Taken(k.cursor, Offered(k.body)), Stamps(ls))
      && k.body <= r.body && Live(r.body) && Reconnects(r.body) == Reconnects(k.body)
    decreases |ls|
  {
    hide Accept, Offered, Reconnects, Live, Stamps, Feed;
    NoStamps(Taken(k.cursor, Offered(k.body)));
    if |ls| > 0 {
      var n := |ls| - 1;
      OfferFeeds(k, ls[..n]);
      OfferOne(OfferAll(k, ls[..n]), ls[n]);
      StampsSnoc(ls, n);
      assert ls[..n + 1] == ls;
      FeedOne(Taken(k.cursor, Offered(k.body)), Stamps(ls[..n]));
    }
  }

  lemma NoStamps(k: Taken)
    ensures Stamps([]) == [] && Feed(k, []) == k
  {
  }

  lemma OfferOne(k: Tape, l: RawLine)
    requires Live(k.body)
    ensures var r := Offer(k, l);
      && Taken(r.cursor, Offered(r.body))
        == (if l.Stamped? then Take(Taken(k.cursor, Offered(k.body)), l.rec) else Taken(k.cursor, Offered(k.body)))
      && k.body <= r.body && Live(r.body) && Reconnects(r.body) == Reconnects(k.body)
  {
    hide Accept;
    OfferedSnoc(k.body, Line(l));
  }

  lemma FeedOne(k: Taken, rs: seq<LogRec>)
    ensures forall r :: Feed(k, rs + [r]) == Take(Feed(k, rs), r)
  {
    forall r ensures Feed(k, rs + [r]) == Take(Feed(k, rs), r) {
      assert (rs + [r])[..|rs|] == rs;
    }
  }

  /** Reading a stretch of the log moves the delivered prefix to the furthest point reached. */
  lemma ReadDelivers(log: seq<LogRec>, k: Tape, m: nat, r: Read, s: nat)
    requires Chronological(log) && Delivered(log, k, m) && Serves(log, k.cursor.at, r, s)
    ensures var t := OfferAll(k.(cursor := Begin(k.cursor)), r.lines);
      && Delivered(log, t, Max(m, r.upto)) && k.body <= t.body && Reconnects(t.body) == Reconnects(k.body)
  {
    hide Feed, InStep, Visible, Accept, OfferAll, Offered, Reconnects;
    OfferFeeds(k.(cursor := Begin(k.cursor)), r.lines);
    StreamDelivers(log, Taken(k.cursor, Offered(k.body)), m, s, r.upto);
    VisibleJoin(log, m, Max(m, r.upto));
  }

  lemma DeliveredBounds(log: seq<LogRec>, k: Tape, m: nat)
    requires Delivered(log, k, m)
    ensures m <= |log| && |Offered(k.body)| <= m && Delivered(log, k.(cursor := Begin(k.cursor)), m)
  {
    VisibleAll(log[..m]);
  }

  /** One turn's read, whether or not there is a stream, and however far it gets. */
  lemma TapeDelivers(log: seq<LogRec>, k: Tape, m0: nat, stream: Option<Read>, stop: Option<nat>) returns (m: nat)
    requires Chronological(log) && Delivered(log, k, m0)
    requires stream.Some? ==> exists s: nat :: Serves(log, k.cursor.at, stream.value, s)
    ensures var t := ReadTape(k, stream, stop);
      && Delivered(log, t, m) && k.body <= t.body && Reconnects(t.body) == Reconnects(k.body)
      && Offered(k.body) <= Offered(t.body) && |Offered(t.body)| <= |log|
    ensures m0 <= m <= Max(m0, UptoOf(stream)) && (stop.None? ==> m == Max(m0, UptoOf(stream)))
  {
    hide Delivered, Serves, Offered, Reconnects, OfferAll, Begin;
    DeliveredBounds(log, k, m0);
    m := m0;
    if stream.Some? {
      var r := stream.value;
      var s: nat :| Serves(log, k.cursor.at, r, s);
      var n := ReadCount(r, stop);
      var cut := Cut(r, n, s + |Stamps(r.lines[..n])|);
      ServesPrefix(log, k.cursor.at, r, s, n);
      ReadDelivers(log, k, m0, cut, s);
      m := Max(m0, cut.upto);
    }
    DeliveredBounds(log, ReadTape(k, stream, stop), m);
    OfferedPrefix(k.body, ReadTape(k, stream, stop).body);
  }

  /** The last `n` reopens brought no new stamped line. */
  ghost predicate Idle(out: seq<Msg>, n: nat) {
    exists cut: nat :: IdleFrom(out, cut, n)
  }

  ghost predicate IdleFrom(out: seq<Msg>, cut: nat, n: nat) {
    && cut <= |out|
    && Reconnects(out) == Reconnects(out[..cut]) + n && Offered(out) == Offered(out[..cut])
  }

  /** The attempts so far: every new line, and learning that the pod is done, buys five more. */
  ghost predicate Budget(opens: nat, news: nat, finishing: bool, consec: nat) {
    consec <= MAX_CONSECUTIVE_FAILURES && opens <= 5 * (news + if finishing then 1 else 0) + consec
  }

  lemma IdleAtEnd(out: seq<Msg>)
    ensures IdleFrom(out, |out|, 0)
  {
    assert out[..|out|] == out;
  }

  lemma IdleGrows(out0: seq<Msg>, out: seq<Msg>, cut: nat, n: nat)
    requires IdleFrom(out0, cut, n) && out0 <= out
    requires Offered(out) == Offered(out0) && Reconnects(out) >= Reconnects(out0)
    ensures IdleFrom(out, cut, n + (Reconnects(out) - Reconnects(out0)))
  {
    assert out[..cut] == out0[..cut];
  }

  lemma {:induction false} OfferedPrefix(out0: seq<Msg>, out: seq<Msg>)
    requires out0 <= out
    ensures Offered(out0) <= Offered(out)
    decreases |out|
  {
    if out0 != out {
      OfferedPrefix(out0, out[..|out| - 1]);
    }
  }

  /** One more message to the viewer that carries no line. */
  lemma Announce(log: seq<LogRec>, k: Tape, m: nat)
    requires Delivered(log, k, m)
    ensures Delivered(log, k.(body := k.body + [Reconnecting]), m)
    ensures Offered(k.body + [Reconnecting]) == Offered(k.body)
    ensures Reconnects(k.body + [Reconnecting]) == Reconnects(k.body) + 1
  {
    OfferedSnoc(k.body, Reconnecting);
  }

  function UptoOf(stream: Option<Read>): nat {
    if stream.Some? then stream.value.upto else 0
  }

  /** The stream a script yields after these reopens: the first one, or what the last reopen got. */
  function Latest(w: World, first: Read, asked: seq<int>): Option<Read> {
    if |asked| == 0 then Some(first)
    else
      match w.open(|asked| - 1, asked[|asked| - 1])
      case Opened(read) => Some(read)
      case _ => None
  }

  /** How far into the log the streams of these reopens reach, with and without the latest. */
  function Furthest(w: World, first: Read, asked: seq<int>): nat
    decreases |asked|, 1
  {
    Max(Earlier(w, first, asked), UptoOf(Latest(w, first, asked)))
  }

  function Earlier(w: World, first: Read, asked: seq<int>): nat
    decreases |asked|, 0
  {
    if |asked| == 0 then 0 else Furthest(w, first, asked[..|asked| - 1])
  }

  /** The time to resume from once log[..m] is delivered. */
  function Since(log: seq<LogRec>, m: nat): int {
    if 0 < m <= |log| && log[m - 1].at >= 0 then log[m - 1].at else 0
  }

  /** Every reopen asked for the time of the last line the streams before it reached. */
  ghost predicate Resumed(log: seq<LogRec>, w: World, first: Read, asked: seq<int>) {
    forall k :: 0 <= k < |asked| ==> asked[k] == Since(log, Furthest(w, first, asked[..k]))
  }

  lemma ResumedSnoc(log: seq<LogRec>, w: World, first: Read, asked: seq<int>, t: int)
    requires Resumed(log, w, first, asked) && t == Since(log, Furthest(w, first, asked))
    ensures Resumed(log, w, first, asked + [t]) && Earlier(w, first, asked + [t]) == Furthest(w, first, asked)
  {
    hide Furthest, Since;
    var more := asked + [t];
    assert more[..|asked|] == asked;
    forall k | 0 <= k < |more| ensures more[k] == Since(log, Furthest(w, first, more[..k])) {
      if k < |asked| { assert more[..k] == asked[..k]; }
    }
  }

  /** Everything the loop keeps; `m` and `cut` say how far the log is delivered and where the idle
      stretch began. */
  ghost predicate Kept(log: seq<LogRec>, w: World, first: Read, l: Loop, m: nat, cut: nat) {
    && Delivered(log, l.tape, m) && l.news <= |Offered(l.tape.body)| <= |log|
    && (l.finishing ==> l.checks > 0 && w.complete(l.checks - 1))
    && |l.asked| == l.opens && Resumed(log, w, first, l.asked)
    && match l.end
       case None =>
         && Reconnects(l.tape.body) == l.opens && Budget(l.opens, l.news, l.finishing, l.consec)
         && IdleFrom(l.tape.body, cut, l.consec)
         && m == Earlier(w, first, l.asked) && l.stream == Latest(w, first, l.asked)
         && (l.stream.Some? ==> exists s: nat :: Serves(log, l.tape.cursor.at, l.stream.value, s))
       case Some(end) =>
         && l.opens <= 5 * (l.news + 2)
         && (Reconnects(l.tape.body) == l.opens || (end.Cancelled? && Reconnects(l.tape.body) == l.opens + 1))
         && Reached(w, first, l, end, m)
         && (end.GaveUp? ==> Idle(l.tape.body, MAX_CONSECUTIVE_FAILURES))
         && (end.Complete? ==> l.finishing && Latest(w, first, l.asked).Some? && Latest(w, first, l.asked).value.clean)
  }

  /** At the end, everything the streams reached is delivered, except what a stream that was being
      read when the parent was cancelled still had. */
  ghost predicate Reached(w: World, first: Read, l: Loop, end: End, m: nat) {
    && Earlier(w, first, l.asked) <= m <= Furthest(w, first, l.asked)
    && (!end.Cancelled? || w.stopScan(l.opens).None? ==> m == Furthest(w, first, l.asked))
  }

  /** What is left to do: lines not delivered yet, learning of the pod's completion, and retries. */
  function Measure(log: seq<LogRec>, l: Loop): int {
    6 * (|log| - |Offered(l.tape.body)| + if l.finishing then 0 else 1) + MAX_CONSECUTIVE_FAILURES - l.consec
  }

  /** A turn of the loop that has read its stream and not been cancelled. */
  ghost predicate HasRead(log: seq<LogRec>, w: World, first: Read, l: Loop, m: nat, cut: nat, gotLine: bool) {
    && l.end.None? && Delivered(log, l.tape, m) && |Offered(l.tape.body)| <= |log|
    && l.news + (if gotLine then 1 else 0) <= |Offered(l.tape.body)|
    && (l.finishing ==> l.checks > 0 && w.complete(l.checks - 1))
    && Reconnects(l.tape.body) == l.opens && Budget(l.opens, l.news, l.finishing, l.consec)
    && (gotLine || IdleFrom(l.tape.body, cut, l.consec))
    && HasReached(log, w, first, l, m)
  }

  ghost predicate HasReached(log: seq<LogRec>, w: World, first: Read, l: Loop, m: nat) {
    && |l.asked| == l.opens && Resumed(log, w, first, l.asked) && w.stopScan(l.opens).None?
    && m == Furthest(w, first, l.asked) && l.stream == Latest(w, first, l.asked)
  }

  lemma EarlierIsLess(w: World, first: Read, asked: seq<int>)
    ensures Earlier(w, first, asked) <= Furthest(w, first, asked)
  {
  }

  lemma SinceDelivered(log: seq<LogRec>, k: Tape, m: nat)
    requires Delivered(log, k, m)
    ensures k.cursor.at == Since(log, m)
  {
  }

  lemma ReopenKeeps(log: seq<LogRec>, w: World, first: Read, l: Loop, m: nat, cut: nat)
    requires Honest(log, w) && Delivered(log, l.tape, m) && l.news <= |Offered(l.tape.body)| <= |log|
    requires l.end.None? && (l.finishing ==> l.checks > 0 && w.complete(l.checks - 1))
    requires HasReached(log, w, first, l, m)
    requires Reconnects(l.tape.body) == l.opens && l.consec > 0 && IdleFrom(l.tape.body, cut, l.consec - 1)
    requires Budget(l.opens, l.news, l.finishing, l.consec - 1) && l.consec <= MAX_CONSECUTIVE_FAILURES
    ensures Kept(log, w, first, Reopen(w, l), m, cut) && Measure(log, Reopen(w, l)) == Measure(log, l)
  {
    hide Delivered, Serves, Offered, Reconnects, IdleFrom, Idle, Resumed, Since, Earlier;
    Announce(log, l.tape, m);
    SinceDelivered(log, l.tape, m);
    ResumedSnoc(log, w, first, l.asked, l.tape.cursor.at);
    EarlierIsLess(w, first, l.asked);
    IdleGrows(l.tape.body, l.tape.body + [Reconnecting], cut, l.consec - 1);
  }

  lemma DecideKeeps(log: seq<LogRec>, w: World, first: Read, l: Loop, m: nat, cut0: nat, gotLine: bool)
    returns (cut: nat)
    requires Honest(log, w) && HasRead(log, w, first, l, m, cut0, gotLine)
    ensures Kept(log, w, first, Decide(w, l, gotLine), m, cut)
    ensures Decide(w, l, gotLine).end.None? ==>
      Measure(log, Decide(w, l, gotLine)) < Measure(log, l) + if gotLine then 6 else 0
  {
    hide Delivered, Serves, Offered, Reconnects, IdleFrom, Idle, Honest, Reopen, Resumed, Furthest, Earlier, Latest;
    EarlierIsLess(w, first, l.asked);
    var clean := l.stream.Some? && l.stream.value.clean;
    cut := cut0;
    if clean && l.finishing {
      return;
    }
    var finishing := if clean then w.complete(l.checks) else l.finishing;
    var consec := if gotLine || (clean && finishing) then 0 else l.consec;
    var l1 := l.(finishing := finishing, checks := if clean then l.checks + 1 else l.checks,
                 news := if gotLine then l.news + 1 else l.news, consec := consec + 1);
    if consec == 0 {
      cut := |l.tape.body|;
      IdleAtEnd(l.tape.body);
    }
    if consec + 1 > MAX_CONSECUTIVE_FAILURES {
      IdleHere(l.tape.body, cut, MAX_CONSECUTIVE_FAILURES);
    } else {
      ReopenKeeps(log, w, first, l1, m, cut);
    }
  }

  lemma IdleHere(out: seq<Msg>, cut: nat, n: nat)
    requires IdleFrom(out, cut, n)
    ensures Idle(out, n)
  {
  }

  lemma TurnKeeps(log: seq<LogRec>, w: World, first: Read, l: Loop, m0: nat, cut0: nat) returns (m: nat, cut: nat)
    requires Chronological(log) && Honest(log, w) && Kept(log, w, first, l, m0, cut0) && l.end.None?
    ensures Kept(log, w, first, Turn(w, l), m, cut)
    ensures Turn(w, l).end.None? ==> Measure(log, Turn(w, l)) < Measure(log, l)
  {
    hide Delivered, Serves, Offered, Reconnects, IdleFrom, Idle, Honest, ReadTape, Decide, Resumed, Earlier, Latest;
    m := TapeDelivers(log, l.tape, m0, l.stream, w.stopScan(l.opens));
    cut := cut0;
    var k := ReadTape(l.tape, l.stream, w.stopScan(l.opens));
    if w.stopScan(l.opens).None? {
      var gotLine := |Offered(k.body)| > |Offered(l.tape.body)|;
      if !gotLine { IdleGrows(l.tape.body, k.body, cut, l.consec); }
      cut := DecideKeeps(log, w, first, l.(tape := k), m, cut, gotLine);
    }
  }

  /** Any number of turns. */
  lemma {:induction false} TurnsKeep(log: seq<LogRec>, w: World, first: Read, n: nat) returns (m: nat, cut: nat)
    requires Chronological(log) && Honest(log, w) && Serves(log, 0, first, 0)
    ensures Kept(log, w, first, Turns(w, Start(first), n), m, cut)
    ensures Turns(w, Start(first), n).end.None? ==>
      Measure(log, Turns(w, Start(first), n)) + n <= Measure(log, Start(first))
    decreases n
  {
    hide Kept, Turn, Serves, Honest, Measure;
    if n == 0 {
      m, cut := 0, 0;
      StartKept(log, w, first);
    } else {
      m, cut := TurnsKeep(log, w, first, n - 1);
      if Turns(w, Start(first), n - 1).end.None? {
        m, cut := TurnKeeps(log, w, first, Turns(w, Start(first), n - 1), m, cut);
      }
    }
  }

  lemma StartKept(log: seq<LogRec>, w: World, first: Read)
    requires Serves(log, 0, first, 0)
    ensures Kept(log, w, first, Start(first), 0, 0)
  {
    assert log[..0] == [];
  }

  /** A number of turns that is always enough. */
  function Enough(log: seq<LogRec>): nat {
    6 * |log| + 12
  }

  /** runStream ends, whatever honest server, pod status and cancellation it meets. What was offered
      is the log up to the furthest point any stream reached, each line once and in order; only a
      stream cancelled while it was read may fall short of its own end. Every reopen asked for the
      time of the last line reached. There are at most five reopens for each stream that brought a
      new line, and ten more; giving up takes five in a row without a new line; ending well takes a
      confirmed completion and a clean read of the latest stream. */
  lemma StreamEnds(log: seq<LogRec>, w: World, first: Read) returns (m: nat)
    requires Chronological(log) && Honest(log, w) && Serves(log, 0, first, 0)
    ensures var l := Turns(w, Start(first), Enough(log));
      && m <= |log| && Offered(l.tape.body) == Visible(log[..m]) && Live(l.tape.body)
      && l.end.Some? && Reached(w, first, l, l.end.value, m)
      && |l.asked| == l.opens && Resumed(log, w, first, l.asked)
      && l.opens <= 5 * (l.news + 2) && l.news <= |Offered(l.tape.body)|
      && (Reconnects(l.tape.body) == l.opens || (l.end == Some(Cancelled) && Reconnects(l.tape.body) == l.opens + 1))
      && (l.end == Some(GaveUp) ==> Idle(l.tape.body, 5))
      && (l.end == Some(Complete) ==>
            && l.checks > 0 && w.complete(l.checks - 1)
            && Latest(w, first, l.asked).Some? && Latest(w, first, l.asked).value.clean)
  {
    hide Turns, Idle, Serves, Honest, Visible, Live, Resumed, Reached, Latest;
    var cut;
    m, cut := TurnsKeep(log, w, first, Enough(log));
    MeasureBounds(log, w, first, Turns(w, Start(first), Enough(log)), m, cut);
  }

  lemma MeasureBounds(log: seq<LogRec>, w: World, first: Read, l: Loop, m: nat, cut: nat)
    requires Kept(log, w, first, l, m, cut)
    ensures Measure(log, Start(first)) < Enough(log) && (l.end.None? ==> Measure(log, l) >= 0)
  {
    assert Offered(Start(first).tape.body) == [];
  }

  /** Once ended, further turns change nothing: the outcome does not depend on how many are asked for. */
  lemma {:induction false} EndsOnce(w: World, l: Loop, n: nat, k: nat)
    requires Turns(w, l, n).end.Some?
    ensures Turns(w, l, n + k) == Turns(w, l, n)
    decreases k
  {
    hide Turn;
    if k > 0 { EndsOnce(w, l, n, k - 1); }
  }
}
