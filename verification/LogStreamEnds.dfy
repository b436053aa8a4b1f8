/** Why a stream ends: what the world answered up to that point, and which untimed lines went
    through. Every statement speaks of the streams opened, the status checks and the cancellation
    themselves, not of the loop that asked for them. */
module LogStreamEnds {
  import opened LogStream
  import opened Options

  /** How often one of the streams these reopens yielded was read to its end without an error. */
  function CleanReads(w: World, first: Read, asked: seq<int>): nat
    decreases |asked|, 1
  {
    var stream := Latest(w, first, asked);
    CleanEarlier(w, first, asked) + if stream.Some? && stream.value.clean then 1 else 0
  }

  function CleanEarlier(w: World, first: Read, asked: seq<int>): nat
    decreases |asked|, 0
  {
    if |asked| == 0 then 0 else CleanReads(w, first, asked[..|asked| - 1])
  }

  /** The lines without a timestamp, among what a stream yields and among what was offered. */
  function Untimed(ls: seq<RawLine>): seq<string> {
    if |ls| == 0 then []
    else
      var v, l := Untimed(ls[..|ls| - 1]), ls[|ls| - 1];
      if l.Plain? then v + [l.text] else v
  }

  function UntimedOffered(out: seq<Msg>): seq<string> {
    if |out| == 0 then []
    else
      var v, l := UntimedOffered(out[..|out| - 1]), out[|out| - 1];
      if l.Line? && l.raw.Plain? then v + [l.raw.text] else v
  }

  function LinesOf(stream: Option<Read>): seq<RawLine> {
    if stream.Some? then stream.value.lines else []
  }

  /** The untimed lines of all these streams, and of all but the latest. */
  function UntimedRead(w: World, first: Read, asked: seq<int>): seq<string>
    decreases |asked|, 1
  {
    UntimedEarlier(w, first, asked) + Untimed(LinesOf(Latest(w, first, asked)))
  }

  function UntimedEarlier(w: World, first: Read, asked: seq<int>): seq<string>
    decreases |asked|, 0
  {
    if |asked| == 0 then [] else UntimedRead(w, first, asked[..|asked| - 1])
  }

  /** Before its `opens`-th scan the loop met no cancellation, no refusal but a last one, and no
      confirmed completion but at the latest check. */
  ghost predicate Undisturbed(w: World, l: Loop) {
    && |l.asked| == l.opens
    && (forall k :: 0 <= k < l.opens ==> w.stopScan(k).None? && !w.stopSleep(k))
    && (forall k :: 0 <= k < l.opens && w.open(k, l.asked[k]).Refused? ==>
          l.end == Some(Denied) && k == l.opens - 1)
    && (forall j :: 0 <= j < l.checks && w.complete(j) ==> j == l.checks - 1)
  }

  /** The latest of these streams was read up to its end: one status check for each clean read. */
  ghost predicate ReadThrough(w: World, first: Read, l: Loop) {
    && l.checks == CleanReads(w, first, l.asked)
    && UntimedOffered(l.tape.body) == UntimedRead(w, first, l.asked)
  }

  /** What the world had answered when the loop ended the way it did. */
  ghost predicate Caused(w: World, first: Read, l: Loop)
    requires |l.asked| == l.opens
  {
    match l.end
    case None =>
      && l.stream == Latest(w, first, l.asked) && l.checks == CleanEarlier(w, first, l.asked)
      && UntimedOffered(l.tape.body) == UntimedEarlier(w, first, l.asked)
      && (l.finishing <==> l.checks > 0 && w.complete(l.checks - 1))
    case Some(Cancelled) =>
      if w.stopScan(l.opens).Some? then
        var read := LinesOf(Latest(w, first, l.asked));
        var n := w.stopScan(l.opens).value;
        && l.checks == CleanEarlier(w, first, l.asked)
        && UntimedOffered(l.tape.body)
          == UntimedEarlier(w, first, l.asked) + Untimed(if n < |read| then read[..n] else read)
      else
        w.stopSleep(l.opens) && ReadThrough(w, first, l)
    case Some(Complete) =>
      && w.stopScan(l.opens).None? && l.checks > 0 && w.complete(l.checks - 1)
      && CleanReads(w, first, l.asked) == l.checks + 1
      && UntimedOffered(l.tape.body) == UntimedRead(w, first, l.asked)
    case Some(GaveUp) =>
      w.stopScan(l.opens).None? && ReadThrough(w, first, l)
    case Some(Denied) =>
      && l.opens > 0 && w.open(l.opens - 1, l.asked[l.opens - 1]).Refused?
      && ReadThrough(w, first, l)
  }

  // ------------------------------------------------------------ untimed lines

  lemma UntimedOfferedSnoc(out: seq<Msg>, l: Msg)
    ensures UntimedOffered(out + [l])
      == if l.Line? && l.raw.Plain? then UntimedOffered(out) + [l.raw.text] else UntimedOffered(out)
  {
    assert (out + [l])[..|out|] == out;
  }

  /** The cursor judges stamped lines only: every other line goes through. */
  lemma {:induction false} UntimedGoThrough(k: Tape, ls: seq<RawLine>)
    ensures UntimedOffered(OfferAll(k, ls).body) == UntimedOffered(k.body) + Untimed(ls)
    decreases |ls|
  {
    if |ls| > 0 {
      var n := |ls| - 1;
      UntimedGoThrough(k, ls[..n]);
      UntimedOfferedSnoc(OfferAll(k, ls[..n]).body, Line(ls[n]));
    }
  }

  /** A turn's read, up to where the stream ends or is cancelled. */
  lemma UntimedOfTurn(k: Tape, stream: Option<Read>, stop: Option<nat>)
    ensures var read := LinesOf(stream);
      UntimedOffered(ReadTape(k, stream, stop).body) == UntimedOffered(k.body)
        + Untimed(if stop.Some? && stop.value < |read| then read[..stop.value] else read)
  {
    hide OfferAll;
    if stream.Some? {
      var r := stream.value;
      UntimedGoThrough(k.(cursor := LogCursor.Begin(k.cursor)), r.lines[..ReadCount(r, stop)]);
      assert r.lines[..|r.lines|] == r.lines;
    }
  }

  // -------------------------------------------------------------- the turns

  lemma AskedSnoc(w: World, first: Read, asked: seq<int>, t: int)
    ensures CleanEarlier(w, first, asked + [t]) == CleanReads(w, first, asked)
    ensures UntimedEarlier(w, first, asked + [t]) == UntimedRead(w, first, asked)
    ensures Latest(w, first, asked + [t]).None? ==>
      && CleanReads(w, first, asked + [t]) == CleanReads(w, first, asked)
      && UntimedRead(w, first, asked + [t]) == UntimedRead(w, first, asked)
  {
    assert (asked + [t])[..|asked|] == asked;
  }

  lemma ReopenCaused(w: World, first: Read, l: Loop)
    requires Undisturbed(w, l) && l.end.None? && w.stopScan(l.opens).None? && ReadThrough(w, first, l)
    requires l.finishing <==> l.checks > 0 && w.complete(l.checks - 1)
    ensures Undisturbed(w, Reopen(w, l)) && Caused(w, first, Reopen(w, l))
  {
    hide CleanReads, CleanEarlier, UntimedRead, UntimedEarlier, UntimedOffered;
    UntimedOfferedSnoc(l.tape.body, Reconnecting);
    AskedSnoc(w, first, l.asked, l.tape.cursor.at);
  }

  lemma TurnCaused(w: World, first: Read, l: Loop)
    requires Undisturbed(w, l) && l.end.None? && Caused(w, first, l)
    ensures Undisturbed(w, Turn(w, l)) && Caused(w, first, Turn(w, l))
  {
    hide CleanEarlier, UntimedEarlier, UntimedOffered, Untimed, Reopen, ReadTape, Latest;
    UntimedOfTurn(l.tape, l.stream, w.stopScan(l.opens));
    var k := ReadTape(l.tape, l.stream, w.stopScan(l.opens));
    var gotLine := |Offered(k.body)| > |Offered(l.tape.body)|;
    var clean := l.stream.Some? && l.stream.value.clean;
    if w.stopScan(l.opens).None? && !(clean && l.finishing) {
      var finishing := if clean then w.complete(l.checks) else l.finishing;
      var consec := if gotLine || (clean && finishing) then 0 else l.consec;
      var l1 := l.(tape := k, finishing := finishing, checks := if clean then l.checks + 1 else l.checks,
                   news := if gotLine then l.news + 1 else l.news, consec := consec + 1);
      if consec + 1 <= MAX_CONSECUTIVE_FAILURES {
        ReopenCaused(w, first, l1);
      }
    }
  }

  /** Every end has its cause, and no cause is passed over. A cancellation, a refused reopen and a
      clean read after a confirmed completion each end the run there and then; the pod's status is
      asked for once for each other clean read. Every untimed line of every stream is offered in
      order, up to where a cancelled scan stopped. */
  lemma {:induction false} EndsForCause(w: World, first: Read, n: nat)
    ensures Undisturbed(w, Turns(w, Start(first), n)) && Caused(w, first, Turns(w, Start(first), n))
    decreases n
  {
    hide Turn, Undisturbed, Caused;
    if n == 0 {
      StartsQuiet(w, first);
    } else {
      EndsForCause(w, first, n - 1);
      if Turns(w, Start(first), n - 1).end.None? {
        TurnCaused(w, first, Turns(w, Start(first), n - 1));
      }
    }
  }

  lemma StartsQuiet(w: World, first: Read)
    ensures Undisturbed(w, Start(first)) && Caused(w, first, Start(first))
  {
  }
}
