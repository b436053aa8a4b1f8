/** What sanitizing does to a line, said of the line itself: a line is a string of pieces, and each
    piece is shown as it is, shown as four spaces, or dropped. Where a piece ends is a matter of its
    own bytes and of those behind it; nothing here says how the pieces are found. */
module SanitizerGrammar {
  import opened Utf8
  import opened Sanitizer
  import opened Options

  datatype Piece =
    | Text(b: Byte)                                            // printable ASCII
    | Scalar(r: int)                                           // any other well-formed UTF-8
    | Stray(b: Byte)                                           // a byte no well-formed UTF-8 starts with
    | Control(b: Byte)                                         // C0 or DEL
    | Csi(body: seq<Byte>, final: Option<Byte>)                // ESC [ body final
    | Str(intro: Byte, payload: seq<Byte>, close: seq<Byte>)   // OSC, DCS, SOS, PM and APC
    | Short(inter: seq<Byte>, last: Option<Byte>)              // ESC inter last

  function OptionBytes(b: Option<Byte>): seq<Byte> {
    if b.Some? then [b.value] else []
  }

  /** The bytes of a piece. */
  function Spelled(p: Piece): seq<Byte>
  {
    match p
    case Text(b) => [b]
    case Scalar(r) => if IsScalar(r) then Encode(r) else []
    case Stray(b) => [b]
    case Control(b) => [b]
    case Csi(body, final) => [0x1b, 0x5b] + body + OptionBytes(final)
    case Str(intro, payload, close) => [0x1b, intro] + payload + close
    case Short(inter, last) => [0x1b] + inter + OptionBytes(last)
  }

  predicate AllIn(s: seq<Byte>, lo: int, hi: int) {
    forall k :: 0 <= k < |s| ==> lo <= s[k] <= hi
  }

  /** After ESC: OSC, DCS, SOS, PM or APC. */
  predicate Introduces(b: Byte) {
    b == 0x5d || b == 0x50 || b == 0x58 || b == 0x5e || b == 0x5f
  }

  /** The payload holds nothing that ends it: ESC, CAN, SUB, the one-byte ST, and BEL in an OSC. */
  predicate PayloadOf(intro: Byte, s: seq<Byte>) {
    forall k :: 0 <= k < |s| ==>
      s[k] != 0x1b && s[k] != 0x18 && s[k] != 0x1a && s[k] != 0x9c && (intro == 0x5d ==> s[k] != 0x07)
  }

  /** A string is closed by ST in its three spellings, by CAN, by SUB, and an OSC by BEL; otherwise
      by the end of the line or, without consuming it, by an ESC that starts another sequence. */
  predicate Closes(intro: Byte, close: seq<Byte>, rest: seq<Byte>) {
    || close == [0x1b, 0x5c] || close == [0x9c] || close == [0xc2, 0x9c]
    || close == [0x18] || close == [0x1a] || (intro == 0x5d && close == [0x07])
    || (close == [] && (rest == [] || (rest[0] == 0x1b && !([0x1b, 0x5c] <= rest))))
  }

  /** `p` is a piece when `rest` follows it. */
  ghost predicate Fits(p: Piece, rest: seq<Byte>) {
    match p
    case Text(b) => 0x20 <= b <= 0x7e
    case Scalar(r) => IsScalar(r) && r >= 0x80
    case Stray(b) => b >= 0x80 && forall r | IsScalar(r) :: !(Encode(r) <= [b] + rest)
    case Control(b) => (b < 0x20 && b != 0x1b) || b == 0x7f
    case Csi(body, final) =>
      && AllIn(body, 0x20, 0x3f)
      && (final.Some? ==> 0x40 <= final.value <= 0x7e)
      && (final.None? ==> rest == [] || rest[0] < 0x20 || rest[0] > 0x7e)
    case Str(intro, payload, close) =>
      && Introduces(intro) && PayloadOf(intro, payload) && Closes(intro, close, rest)
    case Short(inter, last) =>
      && AllIn(inter, 0x20, 0x2f)
      && (last.None? ==> rest == [])
      && (last.Some? ==>
            && !(0x20 <= last.value <= 0x2f)
            && (inter == [] ==> last.value != 0x5b && !Introduces(last.value)))
  }

  predicate IsSgr(body: seq<Byte>, final: Option<Byte>) {
    final == Some(0x6d)
    && forall k :: 0 <= k < |body| ==> 0x30 <= body[k] <= 0x39 || body[k] == 0x3a || body[k] == 0x3b
  }

  /** What the viewer gets of a piece. */
  function Shown(p: Piece): seq<Byte>
  {
    match p
    case Text(b) => [b]
    case Scalar(r) => if r >= 0xa0 then Spelled(p) else []
    case Control(b) => if b == 0x09 then [0x20, 0x20, 0x20, 0x20] else []
    case Csi(body, final) => if IsSgr(body, final) then Spelled(p) else []
    case _ => []
  }

  // ------------------------------------------------- every piece is one turn

  lemma WellFormedStart(s: seq<Byte>)
    requires |s| > 0
    ensures Malformed(DecodeRune(s)) || exists r :: IsScalar(r) && Encode(r) <= s
  {
    if !Malformed(DecodeRune(s)) { EncodeDecode(s); }
  }

  lemma StrayTurn(b: Byte, rest: seq<Byte>)
    requires Fits(Stray(b), rest)
    ensures TurnOf([b] + rest) == Turn(1, [])
  {
    WellFormedStart([b] + rest);
  }

  lemma ScalarTurn(r: int, rest: seq<Byte>)
    requires Fits(Scalar(r), rest)
    ensures TurnOf(Encode(r) + rest) == Turn(|Encode(r)|, Shown(Scalar(r)))
  {
    DecodeEncode(r, rest);
    LeadBytes(r);
    assert (Encode(r) + rest)[..|Encode(r)|] == Encode(r);
  }

  lemma CsiTurn(body: seq<Byte>, final: Option<Byte>, rest: seq<Byte>)
    requires Fits(Csi(body, final), rest)
    ensures TurnOf(Spelled(Csi(body, final)) + rest) == Turn(|Spelled(Csi(body, final))|, Shown(Csi(body, final)))
  {
    var head := Spelled(Csi(body, final));
    var s, j := head + rest, |body| + 2;
    assert s[..|head|] == head;
    assert forall m :: 2 <= m < j ==> s[m] == body[m - 2];
    assert final.Some? ==> s[j] == final.value;
    assert final.None? && j < |s| ==> s[j] == rest[0];
    SkipIsFirst(s, 2, IsCsiBody, j);
    if IsSgr(body, final) {
      SkipIsFirst(s, 2, IsParam, j);
    } else if final == Some(0x6d) {
      var k :| 0 <= k < |body| && !IsParam(body[k]);
      assert !IsParam(s[k + 2]);
    }
  }

  lemma ShortTurn(inter: seq<Byte>, last: Option<Byte>, rest: seq<Byte>)
    requires Fits(Short(inter, last), rest)
    ensures TurnOf(Spelled(Short(inter, last)) + rest) == Turn(|Spelled(Short(inter, last))|, [])
  {
    var s, j := Spelled(Short(inter, last)) + rest, |inter| + 1;
    assert forall m :: 1 <= m < j ==> s[m] == inter[m - 1];
    assert last.Some? ==> s[j] == last.value;
    SkipIsFirst(s, 1, IsIntermediate, j);
  }

  lemma {:induction false} EndsAt(s: seq<Byte>, j: nat, osc: bool, t: nat)
    requires j <= t <= |s| && forall m :: j <= m < t ==> Terminator(s, m, osc).None?
    requires t < |s| ==> Terminator(s, t, osc).Some?
    ensures StringEnd(s, j, osc) == if t < |s| then Terminator(s, t, osc).value else t
    decreases t - j
  {
    if j < t { EndsAt(s, j + 1, osc, t); }
  }

  /** At the closing bytes, wherever they stand. */
  lemma CloseEnds(s: seq<Byte>, t: nat, intro: Byte, close: seq<Byte>, rest: seq<Byte>)
    requires t <= |s| && s[t..] == close + rest && Closes(intro, close, rest)
    ensures t < |s| ==> Terminator(s, t, intro == 0x5d) == Some(t + |close|)
    ensures t == |s| ==> close == []
  {
    assert forall m :: 0 <= m < |close| ==> s[t + m] == close[m];
    assert forall m :: 0 <= m < |rest| ==> s[t + |close| + m] == rest[m];
  }

  /** Inside the payload, unless its last byte and the first one behind it are the two-byte ST. */
  lemma PayloadRuns(s: seq<Byte>, intro: Byte, payload: seq<Byte>, m: nat)
    requires PayloadOf(intro, payload) && 2 <= m < |payload| + 2 <= |s| && s[2..|payload| + 2] == payload
    requires m == |payload| + 1 && s[m] == 0xc2 ==> !At(s, m + 1, 0x9c)
    ensures Terminator(s, m, intro == 0x5d).None?
  {
    assert s[m] == payload[m - 2];
    assert m < |payload| + 1 ==> s[m + 1] == payload[m - 1];
  }

  /** A payload that ends in the first byte of the two-byte ST, closed by its second. */
  lemma SplitSt(s: seq<Byte>, t: nat, intro: Byte, close: seq<Byte>, rest: seq<Byte>)
    requires t < |s| && s[t] == 0xc2 && At(s, t + 1, 0x9c)
    requires s[t + 1..] == close + rest && Closes(intro, close, rest)
    ensures Terminator(s, t, intro == 0x5d) == Some(t + 1 + |close|)
  {
    assert (close + rest)[0] == 0x9c;
  }

  lemma StrEnd(s: seq<Byte>, intro: Byte, payload: seq<Byte>, close: seq<Byte>, rest: seq<Byte>)
    requires |payload| + 2 <= |s| && s[2..|payload| + 2] == payload && s[|payload| + 2..] == close + rest
    requires PayloadOf(intro, payload) && Closes(intro, close, rest)
    ensures StringEnd(s, 2, intro == 0x5d) == |payload| + 2 + |close|
  {
    hide Terminator, PayloadOf, Closes;
    var n, osc := |payload|, intro == 0x5d;
    CloseEnds(s, n + 2, intro, close, rest);
    var t := if n > 0 && s[n + 1] == 0xc2 && At(s, n + 2, 0x9c) then n + 1 else n + 2;
    if t == n + 1 { SplitSt(s, t, intro, close, rest); }
    forall m | 2 <= m < t ensures Terminator(s, m, osc).None? {
      PayloadRuns(s, intro, payload, m);
    }
    EndsAt(s, 2, osc, t);
  }

  lemma StrSlices(p: Piece, rest: seq<Byte>)
    requires p.Str?
    ensures var s, n := Spelled(p) + rest, |p.payload|;
      && |Spelled(p)| == n + 2 + |p.close| <= |s| && s[0] == 0x1b && s[1] == p.intro
      && s[2..n + 2] == p.payload && s[n + 2..] == p.close + rest
  {
    assert Spelled(p) + rest == [0x1b, p.intro] + p.payload + (p.close + rest);
  }

  lemma StrTurn(p: Piece, rest: seq<Byte>)
    requires p.Str? && Fits(p, rest)
    ensures TurnOf(Spelled(p) + rest) == Turn(|Spelled(p)|, [])
  {
    hide Terminator, PayloadOf, Closes, StringEnd, Spelled, SkipWhile, DecodeRune;
    StrSlices(p, rest);
    StrEnd(Spelled(p) + rest, p.intro, p.payload, p.close, rest);
  }

  /** A piece in front of a line is dropped or shown, and the rest of the line is read afresh. */
  lemma PieceIsTurn(p: Piece, rest: seq<Byte>)
    requires Fits(p, rest)
    ensures |Spelled(p)| > 0
    ensures Slow(Spelled(p) + rest) == Shown(p) + Slow(rest)
  {
    hide EscapeOf, DecodeRune, IsSgr, PayloadOf, Closes, AllIn;
    match p {
      case Text(_) =>
      case Control(_) =>
      case Scalar(r) => ScalarTurn(r, rest);
      case Stray(b) => StrayTurn(b, rest);
      case Csi(body, final) => CsiTurn(body, final, rest);
      case Str(_, _, _) => StrTurn(p, rest);
      case Short(inter, last) => ShortTurn(inter, last, rest);
    }
    assert (Spelled(p) + rest)[|Spelled(p)|..] == rest;
  }

  // ------------------------------------------- every line is a string of pieces

  lemma CutAt(s: seq<Byte>, i: nat, j: nat)
    requires i <= j <= |s|
    ensures s == s[..i] + s[i..j] + s[j..]
    ensures j < |s| ==> s == s[..i] + s[i..j] + [s[j]] + s[j + 1..]
  {
  }

  lemma CsiPiece(s: seq<Byte>) returns (p: Piece, rest: seq<Byte>)
    requires |s| > 1 && s[0] == 0x1b && s[1] == 0x5b
    ensures Fits(p, rest) && s == Spelled(p) + rest
  {
    hide Closes, PayloadOf, Introduces, Encode, SkipWhile;
    var j := SkipWhile(s, 2, IsCsiBody);
    CutAt(s, 2, j);
    assert s[..2] == [0x1b, 0x5b];
    var body := s[2..j];
    assert AllIn(body, 0x20, 0x3f) by { BodyIn(s, j); }
    hide AllIn;
    if j < |s| && 0x40 <= s[j] <= 0x7e {
      p, rest := Csi(body, Some(s[j])), s[j + 1..];
      assert Spelled(p) == [0x1b, 0x5b] + body + [s[j]];
    } else {
      p, rest := Csi(body, None), s[j..];
      assert Spelled(p) == [0x1b, 0x5b] + body;
    }
  }

  lemma BodyIn(s: seq<Byte>, j: nat)
    requires 2 <= j <= |s| && forall m :: 2 <= m < j ==> IsCsiBody(s[m])
    ensures AllIn(s[2..j], 0x20, 0x3f)
  {
  }

  lemma PayloadIn(s: seq<Byte>, t: nat, osc: bool)
    requires 2 <= t <= |s| && osc == (s[1] == 0x5d) && forall m :: 2 <= m < t ==> Terminator(s, m, osc).None?
    ensures PayloadOf(s[1], s[2..t])
  {
    forall k | 0 <= k < |s[2..t]|
      ensures s[2..t][k] != 0x1b && s[2..t][k] != 0x18 && s[2..t][k] != 0x1a && s[2..t][k] != 0x9c
      ensures s[1] == 0x5d ==> s[2..t][k] != 0x07
    {
      assert Terminator(s, k + 2, osc).None?;
    }
  }

  lemma ClosesAt(s: seq<Byte>, t: nat, intro: Byte)
    requires t < |s| && Terminator(s, t, intro == 0x5d).Some?
    ensures var k := Terminator(s, t, intro == 0x5d).value; t <= k <= |s| && Closes(intro, s[t..k], s[k..])
  {
  }

  lemma StrPiece(s: seq<Byte>) returns (p: Piece, rest: seq<Byte>)
    requires |s| > 1 && s[0] == 0x1b && Introduces(s[1])
    ensures Fits(p, rest) && s == Spelled(p) + rest
  {
    hide StringEnd, Terminator, PayloadOf, Closes;
    var t := StringSwallows(s, 2, s[1] == 0x5d);
    var k := t;
    PayloadIn(s, t, s[1] == 0x5d);
    if t < |s| {
      k := Terminator(s, t, s[1] == 0x5d).value;
      ClosesAt(s, t, s[1]);
    } else {
      LineEnds(s[1]);
      assert s[t..k] == [] && s[k..] == [];
    }
    p, rest := Str(s[1], s[2..t], s[t..k]), s[k..];
    assert s == [0x1b, s[1]] + s[2..t] + s[t..k] + s[k..];
  }

  lemma LineEnds(intro: Byte)
    ensures Closes(intro, [], [])
  {
  }

  lemma ShortPiece(s: seq<Byte>) returns (p: Piece, rest: seq<Byte>)
    requires |s| > 0 && s[0] == 0x1b && (|s| > 1 ==> s[1] != 0x5b && !Introduces(s[1]))
    ensures Fits(p, rest) && s == Spelled(p) + rest
  {
    var j := SkipWhile(s, 1, IsIntermediate);
    assert s == [0x1b] + s[1..j] + s[j..];
    if j < |s| {
      p, rest := Short(s[1..j], Some(s[j])), s[j + 1..];
      assert s[j..] == [s[j]] + rest;
    } else {
      p, rest := Short(s[1..j], None), [];
    }
  }

  /** Nothing is outside the grammar: every line that is not empty starts with a piece. */
  lemma FirstPiece(s: seq<Byte>) returns (p: Piece, rest: seq<Byte>)
    requires |s| > 0
    ensures Fits(p, rest) && s == Spelled(p) + rest
  {
    hide Terminator, PayloadOf, Closes, AllIn, DecodeRune, Encode;
    var b := s[0];
    if b == 0x1b {
      if |s| > 1 && s[1] == 0x5b {
        p, rest := CsiPiece(s);
      } else if |s| > 1 && Introduces(s[1]) {
        p, rest := StrPiece(s);
      } else {
        p, rest := ShortPiece(s);
      }
    } else if b < 0x80 {
      p, rest := if b < 0x20 || b == 0x7f then Control(b) else Text(b), s[1..];
    } else {
      p, rest := HighPiece(s);
    }
  }

  lemma HighPiece(s: seq<Byte>) returns (p: Piece, rest: seq<Byte>)
    requires |s| > 0 && s[0] >= 0x80
    ensures Fits(p, rest) && s == Spelled(p) + rest
  {
    if r: int :| IsScalar(r) && Encode(r) <= s {
      p, rest := Scalar(r), s[|Encode(r)|..];
    } else {
      p, rest := Stray(s[0]), s[1..];
      assert [s[0]] + rest == s;
    }
  }

  /** `ps` are the pieces of `s`, in order. */
  ghost predicate Parses(ps: seq<Piece>, s: seq<Byte>) {
    if |ps| == 0 then s == []
    else
      var n := |Spelled(ps[0])|;
      Spelled(ps[0]) <= s && Fits(ps[0], s[n..]) && Parses(ps[1..], s[n..])
  }

  function ShownAll(ps: seq<Piece>): seq<Byte> {
    if |ps| == 0 then [] else Shown(ps[0]) + ShownAll(ps[1..])
  }

  lemma {:induction false} EveryLineParses(s: seq<Byte>) returns (ps: seq<Piece>)
    ensures Parses(ps, s)
    decreases |s|
  {
    hide Fits, Spelled;
    ps := [];
    if |s| > 0 {
      var p, rest := FirstPiece(s);
      assert s[|Spelled(p)|..] == rest;
      PieceIsTurn(p, rest);
      var tail := EveryLineParses(rest);
      ps := [p] + tail;
    }
  }

  /** Sanitizing shows a line's pieces: each as it is, as four spaces, or not at all. */
  lemma {:induction false} SlowShowsPieces(s: seq<Byte>, ps: seq<Piece>)
    requires Parses(ps, s)
    ensures Slow(s) == ShownAll(ps)
    decreases |ps|
  {
    hide Fits, Spelled, Shown, TurnOf;
    if |ps| > 0 {
      var n := |Spelled(ps[0])|;
      assert s == Spelled(ps[0]) + s[n..];
      PieceIsTurn(ps[0], s[n..]);
      SlowShowsPieces(s[n..], ps[1..]);
    }
  }

  /** The sanitized line is the one whose pieces are shown, whatever bytes a container writes. */
  lemma SanitizedMeans(s: seq<Byte>, out: seq<Byte>)
    ensures out == Slow(s) <==> exists ps :: Parses(ps, s) && ShownAll(ps) == out
  {
    hide Parses, ShownAll, Slow;
    var ps := EveryLineParses(s);
    SlowShowsPieces(s, ps);
    forall qs | Parses(qs, s) ensures ShownAll(qs) == Slow(s) {
      SlowShowsPieces(s, qs);
    }
  }
}
