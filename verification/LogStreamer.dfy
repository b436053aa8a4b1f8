/** The goroutine of runStream as it is written: a cursor object, a scan loop inside the reconnect
    loop, and the messages it sends. It takes exactly the turns of LogStream. */
module LogStreamer {
  import opened LogCursor
  import opened LogStream
  import opened LogStreamEnds
  import opened Options

  /** The scan loop over one stream. */
  method Scan(cursor: LogCursorState, r: Read, stop: Option<nat>, out0: seq<Msg>)
    returns (out: seq<Msg>, gotLine: bool)
    modifies cursor
    ensures Tape(cursor.Value(), out) == OfferAll(Tape(old(cursor.Value()), out0), r.lines[..ReadCount(r, stop)])
    ensures gotLine <==> |Offered(out)| > |Offered(out0)|
  {
    hide Accept, Offered;
    out, gotLine := out0, false;
    ghost var k0 := Tape(cursor.Value(), out0);
    for i := 0 to |r.lines|
      invariant i <= ReadCount(r, stop) && Tape(cursor.Value(), out) == OfferAll(k0, r.lines[..i])
      invariant |Offered(out)| >= |Offered(out0)| && (gotLine <==> |Offered(out)| > |Offered(out0)|)
    {
      if stop.Some? && stop.value <= i {
        return;
      }
      assert r.lines[..i + 1][..i] == r.lines[..i];
      var l := r.lines[i];
      OfferedSnoc(out, Line(l));
      if l.Stamped? {
        var ok := cursor.AcceptLine(l.rec.at, l.rec.text);
        if !ok {
          continue;
        }
        gotLine := true;
      }
      out := out + [Line(l)];
    }
  }

  /** beginStream, and the scan if there is a stream. */
  method ReadIfOpen(cursor: LogCursorState, stream: Option<Read>, stop: Option<nat>, out0: seq<Msg>)
    returns (out: seq<Msg>, gotLine: bool)
    modifies cursor
    ensures Tape(cursor.Value(), out) == ReadTape(Tape(old(cursor.Value()), out0), stream, stop)
    ensures gotLine <==> |Offered(out)| > |Offered(out0)|
  {
    hide OfferAll, Offered;
    cursor.BeginStream();
    out, gotLine := out0, false;
    if stream.Some? {
      out, gotLine := Scan(cursor, stream.value, stop, out0);
    }
  }

  /** The n-th turn is not the last: there is a next one, and the end is near. */
  lemma NextTurn(log: seq<LogRec>, w: World, first: Read, n: nat)
    requires Chronological(log) && Honest(log, w) && Serves(log, 0, first, 0)
    requires Turns(w, Start(first), n).end.None?
    ensures n < Enough(log) && Turns(w, Start(first), n + 1) == Turn(w, Turns(w, Start(first), n))
  {
    hide Kept, Measure, Turn, Honest, Serves;
    var l := Turns(w, Start(first), n);
    var m, cut := TurnsKeep(log, w, first, n);
    MeasureBounds(log, w, first, l, m, cut);
  }

  /** The part of a turn after the read, up to the failure count. */
  method CountFailure(w: World, clean: bool, finishing0: bool, consec0: nat, checks0: nat, gotLine: bool)
    returns (finishing: bool, consec: nat, checks: nat)
    requires !(clean && finishing0)
    ensures finishing == (if clean then w.complete(checks0) else finishing0)
    ensures checks == (if clean then checks0 + 1 else checks0)
    ensures consec == (if gotLine || (clean && finishing) then 0 else consec0) + 1
  {
    finishing, consec, checks := finishing0, consec0, checks0;
    if clean {
      finishing := w.complete(checks);
      checks := checks + 1;
      if finishing {
        consec := 0;
      }
    }
    if gotLine {
      consec := 0;
    }
    consec := consec + 1;
  }

  /** How the viewer learns of the end: the end marker comes last and once, and an error once at
      most, directly before it; when cancelled there is neither. */
  ghost predicate Concludes(out: seq<Msg>, end: End) {
    && (!end.Cancelled? ==> |out| > 0 && out[|out| - 1].Eos?)
    && (end.GaveUp? || end.Denied? ==> |out| > 1 && out[|out| - 2].Fatal?)
    && (forall i :: 0 <= i < |out| && out[i].Eos? ==> i == |out| - 1 && !end.Cancelled?)
    && (forall i :: 0 <= i < |out| && out[i].Fatal? ==> i == |out| - 2 && (end.GaveUp? || end.Denied?))
  }

  lemma ClosingMarks(body: seq<Msg>, end: End)
    requires Live(body)
    ensures Concludes(body + Closing(end), end)
  {
  }

  /** What is sent on the way out concludes what was offered, and adds no line to it. */
  lemma ClosingConcludes(body: seq<Msg>, end: End)
    requires Live(body)
    ensures Concludes(body + Closing(end), end)
    ensures |Closing(end)| == if end.Cancelled? then 0 else if end.Complete? then 1 else 2
    ensures Offered(body + Closing(end)) == Offered(body)
    ensures UntimedOffered(body + Closing(end)) == UntimedOffered(body)
  {
    hide Concludes, Live, Reconnects, Offered, UntimedOffered;
    ClosingMarks(body, end);
    OfferedSnoc(body, Eos);
    OfferedSnoc(body, Fatal);
    OfferedSnoc(body + [Fatal], Eos);
    UntimedOfferedSnoc(body, Eos);
    UntimedOfferedSnoc(body, Fatal);
    UntimedOfferedSnoc(body + [Fatal], Eos);
    assert body + [Fatal, Eos] == body + [Fatal] + [Eos];
    assert body + [] == body;
  }

  /** The turn that ended the run is where any larger number of turns stays. */
  lemma LastTurn(log: seq<LogRec>, w: World, first: Read, n: nat)
    requires Chronological(log) && Honest(log, w) && Serves(log, 0, first, 0)
    requires n <= Enough(log) && Turns(w, Start(first), n).end.Some?
    ensures Turns(w, Start(first), Enough(log)) == Turns(w, Start(first), n)
    ensures Live(Turns(w, Start(first), n).tape.body)
  {
    hide Turns, Honest, Serves, Live, Visible, Reached, Resumed, Reconnects, Idle, Latest, Offered;
    EndsOnce(w, Start(first), n, Enough(log) - n);
    var m := StreamEnds(log, w, first);
  }

  /** The reconnect loop of runStream, up to what it has to say on its way out. */
  method ReconnectLoop(ghost log: seq<LogRec>, first: Read, w: World)
    returns (body: seq<Msg>, end: End, ghost n: nat)
    requires Chronological(log) && Honest(log, w) && Serves(log, 0, first, 0)
    ensures n <= Enough(log) && Turns(w, Start(first), n).end == Some(end)
    ensures body == Turns(w, Start(first), n).tape.body
  {
    hide ReadTape, Offered, Honest, Serves, Turns, Chronological, Enough;
    var cursor := new LogCursorState();
    body, n := [], 0;
    var stream, finishing, consec := Some(first), false, 0;
    var opens, checks := 0, 0;
    ghost var news, asked: seq<int> := 0, [];
    NoTurns(w, first);
    while true
      invariant fresh(cursor) && n <= Enough(log)
      invariant Loop(stream, finishing, consec, Tape(cursor.Value(), body), opens, asked, checks, news, None)
        == Turns(w, Start(first), n)
      decreases Enough(log) - n
    {
      NextTurn(log, w, first, n);
      n := n + 1;
      var gotLine;
      body, gotLine := ReadIfOpen(cursor, stream, w.stopScan(opens), body);
      if w.stopScan(opens).Some? {
        end := Cancelled;
        break;
      }
      var clean := stream.Some? && stream.value.clean;
      if clean && finishing {
        end := Complete;
        break;
      }
      finishing, consec, checks := CountFailure(w, clean, finishing, consec, checks, gotLine);
      news := if gotLine then news + 1 else news;
      if consec > MAX_CONSECUTIVE_FAILURES {
        end := GaveUp;
        break;
      }
      body := body + [Reconnecting];
      if w.stopSleep(opens) {
        end := Cancelled;
        break;
      }
      var answer := w.open(opens, cursor.at);
      opens, asked := opens + 1, asked + [cursor.at];
      if answer.Refused? {
        end := Denied;
        break;
      }
      stream := if answer.Opened? then Some(answer.read) else None;
    }
  }

  /** runStream: the loop, then the error if there was one, and the end marker unless nobody listens. */
  method RunStream(ghost log: seq<LogRec>, first: Read, w: World) returns (out: seq<Msg>, end: End, ghost l: Loop)
    requires Chronological(log) && Honest(log, w) && Serves(log, 0, first, 0)
    ensures l == Turns(w, Start(first), Enough(log)) && l.end == Some(end)
    ensures Concludes(out, end)
    ensures Offered(out) == Offered(l.tape.body) && UntimedOffered(out) == UntimedOffered(l.tape.body)
    ensures l.tape.body <= out && Live(l.tape.body)
    ensures |out| == |l.tape.body| + if end.Cancelled? then 0 else if end.Complete? then 1 else 2
  {
    hide Offered, UntimedOffered, Honest, Serves, Turns, Live, Chronological, Concludes, Closing, Enough;
    var body;
    ghost var n;
    body, end, n := ReconnectLoop(log, first, w);
    l := Turns(w, Start(first), n);
    LastTurn(log, w, first, n);
    ClosingConcludes(body, end);
    out := body + Closing(end);
  }

  lemma NoTurns(w: World, first: Read)
    ensures Turns(w, Start(first), 0) == Start(first)
  {
  }
}
