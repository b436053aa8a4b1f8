/** Log lines on their way to the terminal: a lexer for ECMA-48 control sequences over UTF-8
    that lets through printable text and complete SGR sequences, and nothing else. */
module Sanitizer {
  import opened Utf8
  import opened Options

  const ESC: Byte := 0x1b

  // ------------------------------------------- the language of clean lines

  /** A clean line is a run of these: a printable ASCII byte, a scalar value beyond the C1
      range, or a colour. */
  datatype Token = Ascii(b: Byte) | Wide(r: int) | Sgr(params: seq<Byte>)

  /** SGR parameters: digits, ';' and ':'. */
  predicate IsParam(b: Byte) {
    0x30 <= b <= 0x39 || b == 0x3b || b == 0x3a
  }

  predicate Proper(t: Token) {
    match t
    case Ascii(b) => 0x20 <= b <= 0x7e
    case Wide(r) => IsScalar(r) && r >= 0xA0
    case Sgr(ps) => forall k :: 0 <= k < |ps| ==> IsParam(ps[k])
  }

  /** `ESC [ params m`. */
  function SgrBytes(ps: seq<Byte>): seq<Byte> {
    [ESC, 0x5b] + ps + [0x6d]
  }

  function Bytes(t: Token): (s: seq<Byte>)
    requires Proper(t)
    ensures |s| > 0
  {
    match t
    case Ascii(b) => [b]
    case Wide(r) => Encode(r)
    case Sgr(ps) => SgrBytes(ps)
  }

  predicate AllProper(ts: seq<Token>) {
    forall k :: 0 <= k < |ts| ==> Proper(ts[k])
  }

  function Spell(ts: seq<Token>): seq<Byte>
    requires AllProper(ts)
  {
    if |ts| == 0 then [] else Bytes(ts[0]) + Spell(ts[1..])
  }

  ghost predicate Clean(s: seq<Byte>) {
    exists ts: seq<Token> :: AllProper(ts) && Spell(ts) == s
  }

  /** Clean and free of escapes. */
  ghost predicate Plain(s: seq<Byte>) {
    exists ts: seq<Token> :: AllProper(ts) && Spell(ts) == s && forall k :: 0 <= k < |ts| ==> !ts[k].Sgr?
  }

  // ------------------------------------------------------ one escape sequence

  /** Parameter and intermediate bytes of a CSI sequence. */
  predicate IsCsiBody(b: Byte) {
    0x20 <= b <= 0x3f
  }

  predicate IsIntermediate(b: Byte) {
    0x20 <= b <= 0x2f
  }

  /** The first position from `j` on whose byte fails `p`. */
  function SkipWhile(s: seq<Byte>, j: nat, p: Byte -> bool): (k: nat)
    requires j <= |s|
    ensures j <= k <= |s|
    ensures forall m :: j <= m < k ==> p(s[m])
    ensures k < |s| ==> !p(s[k])
    decreases |s| - j
  {
    if j < |s| && p(s[j]) then SkipWhile(s, j + 1, p) else j
  }

  predicate At(s: seq<Byte>, j: nat, b: Byte) {
    j < |s| && s[j] == b
  }

  /** Whether a control string ends at byte `j`, and where reading resumes: ST in its three
      spellings, CAN and SUB end any of them, BEL ends OSC only, any other ESC is handed back. */
  function Terminator(s: seq<Byte>, j: nat, osc: bool): Option<nat>
    requires j < |s|
  {
    if s[j] == 0x18 || s[j] == 0x1a || s[j] == 0x9c then Some(j + 1)
    else if osc && s[j] == 0x07 then Some(j + 1)
    else if s[j] == ESC then Some(if At(s, j + 1, 0x5c) then j + 2 else j)
    else if s[j] == 0xc2 && At(s, j + 1, 0x9c) then Some(j + 2)
    else None
  }

  /** Where a control string stops swallowing: at its first terminator. */
  function StringEnd(s: seq<Byte>, j: nat, osc: bool): (k: nat)
    requires j <= |s|
    ensures j <= k <= |s|
    decreases |s| - j
  {
    if j == |s| then j
    else
      match Terminator(s, j, osc)
      case Some(k) => k
      case None => StringEnd(s, j + 1, osc)
  }

  /** The payload holds no terminator, and the string ends at the first or with the line. */
  lemma {:induction false} StringSwallows(s: seq<Byte>, j: nat, osc: bool) returns (t: nat)
    requires j <= |s|
    ensures j <= t <= |s| && forall m :: j <= m < t ==> Terminator(s, m, osc).None?
    ensures t < |s| ==> Terminator(s, t, osc) == Some(StringEnd(s, j, osc))
    ensures t == |s| ==> StringEnd(s, j, osc) == |s|
    decreases |s| - j
  {
    if j == |s| || Terminator(s, j, osc).Some? {
      t := j;
    } else {
      t := StringSwallows(s, j + 1, osc);
    }
  }

  predicate StartsString(b: Byte) {
    b == 0x5d || b == 0x50 || b == 0x58 || b == 0x5e || b == 0x5f
  }

  /** How far an escape reaches, and whether it is written through. */
  datatype Escape = Escape(end: nat, keep: bool)

  /** The escape that a line starts with. */
  function EscapeOf(s: seq<Byte>): (e: Escape)
    requires |s| > 0 && s[0] == ESC
    ensures 1 <= e.end <= |s|
  {
    if |s| == 1 then Escape(1, false)
    else if s[1] == 0x5b then
      var j := SkipWhile(s, 2, IsCsiBody);
      if j == |s| || s[j] < 0x40 || s[j] > 0x7e then Escape(j, false)
      else Escape(j + 1, s[j] == 0x6d && SkipWhile(s, 2, IsParam) == j)
    else if StartsString(s[1]) then Escape(StringEnd(s, 2, s[1] == 0x5d), false)
    else
      var j := SkipWhile(s, 1, IsIntermediate);
      Escape(if j < |s| then j + 1 else j, false)
  }

  lemma {:induction false} SkipIsFirst(s: seq<Byte>, j: nat, p: Byte -> bool, k: nat)
    requires j <= k <= |s| && (forall m :: j <= m < k ==> p(s[m])) && (k < |s| ==> !p(s[k]))
    ensures SkipWhile(s, j, p) == k
    decreases k - j
  {
    if j < k { SkipIsFirst(s, j + 1, p, k); }
  }

  /** A complete SGR is kept whole, whatever follows. */
  lemma SgrIsKept(ps: seq<Byte>, rest: seq<Byte>)
    requires Proper(Sgr(ps))
    ensures EscapeOf(SgrBytes(ps) + rest) == Escape(|ps| + 3, true)
  {
    var s, j := SgrBytes(ps) + rest, |ps| + 2;
    assert forall m :: 2 <= m < j ==> s[m] == ps[m - 2];
    SkipIsFirst(s, 2, IsCsiBody, j);
    SkipIsFirst(s, 2, IsParam, j);
  }

  /** Only a complete SGR is kept. */
  lemma KeptIsSgr(s: seq<Byte>) returns (ps: seq<Byte>)
    requires |s| > 0 && s[0] == ESC && EscapeOf(s).keep
    ensures Proper(Sgr(ps)) && s[..EscapeOf(s).end] == SgrBytes(ps)
  {
    ps := s[2..EscapeOf(s).end - 1];
  }

  // ---------------------------------------------------- the loop, as a fold

  /** One turn of the loop on a non-empty line: bytes consumed, bytes written. */
  datatype Turn = Turn(n: nat, out: seq<Byte>)

  predicate Unprintable(r: Rune) {
    Malformed(r) || r.value <= 0x9f
  }

  function TurnOf(s: seq<Byte>): (t: Turn)
    requires |s| > 0
    ensures 1 <= t.n <= |s|
  {
    var c := s[0];
    if c == ESC then
      var e := EscapeOf(s);
      Turn(e.end, if e.keep then s[..e.end] else [])
    else if c == 0x09 then Turn(1, [0x20, 0x20, 0x20, 0x20])
    else if c < 0x20 || c == 0x7f then Turn(1, [])
    else if c < 0x80 then Turn(1, [c])
    else
      var r := DecodeRune(s);
      Turn(r.size, if Unprintable(r) then [] else s[..r.size])
  }

  function Slow(s: seq<Byte>): seq<Byte>
    decreases |s|
  {
    if |s| == 0 then [] else TurnOf(s).out + Slow(s[TurnOf(s).n..])
  }

  /** What the fast path looks for. */
  function Needs(s: seq<Byte>): bool
    decreases |s|
  {
    if |s| == 0 then false
    else if s[0] < 0x20 || s[0] == 0x7f then true
    else if s[0] < 0x80 then Needs(s[1..])
    else Unprintable(DecodeRune(s)) || Needs(s[DecodeRune(s).size..])
  }

  // ---------------------------------------------------------- the theorems

  lemma {:induction false} SpellJoin(a: seq<Token>, b: seq<Token>)
    requires AllProper(a) && AllProper(b)
    ensures AllProper(a + b) && Spell(a + b) == Spell(a) + Spell(b)
    decreases |a|
  {
    hide Proper, Bytes;
    if |a| == 0 {
      assert a + b == b;
    } else {
      SpellJoin(a[1..], b);
      assert (a + b)[1..] == a[1..] + b;
      assert Bytes(a[0]) + (Spell(a[1..]) + Spell(b)) == Bytes(a[0]) + Spell(a[1..]) + Spell(b);
    }
  }

  lemma SpellOne(t: Token)
    requires Proper(t)
    ensures Spell([t]) == Bytes(t)
  {
    assert [t][1..] == [] && Spell([t][1..]) == [];
  }

  /** What one turn writes is clean. */
  lemma TurnIsClean(s: seq<Byte>) returns (ts: seq<Token>)
    requires |s| > 0
    ensures AllProper(ts) && Spell(ts) == TurnOf(s).out
  {
    var c := s[0];
    ts := [];
    if c == ESC {
      if EscapeOf(s).keep {
        var ps := KeptIsSgr(s);
        ts := [Sgr(ps)];
        SpellOne(Sgr(ps));
      }
    } else if c == 0x09 {
      var sp := Ascii(0x20);
      ts := [sp, sp, sp, sp];
      SpellOne(sp);
      SpellJoin([sp], [sp]);
      SpellJoin([sp, sp], [sp, sp]);
      assert [sp] + [sp] == [sp, sp] && [sp, sp] + [sp, sp] == ts;
    } else if 0x20 <= c < 0x7f {
      ts := [Ascii(c)];
      SpellOne(Ascii(c));
    } else if c >= 0x80 && !Unprintable(DecodeRune(s)) {
      EncodeDecode(s);
      ts := [Wide(DecodeRune(s).value)];
      SpellOne(ts[0]);
    }
  }

  /** Whatever bytes a container writes, what reaches the terminal is a clean line. */
  lemma {:induction false} SanitizedIsClean(s: seq<Byte>)
    ensures Clean(Slow(s))
    decreases |s|
  {
    if |s| == 0 {
      assert AllProper([]) && Spell([]) == [];
    } else {
      var a := TurnIsClean(s);
      SanitizedIsClean(s[TurnOf(s).n..]);
      var b: seq<Token> :| AllProper(b) && Spell(b) == Slow(s[TurnOf(s).n..]);
      SpellJoin(a, b);
    }
  }

  /** One turn on a line that starts with a token copies exactly that token. */
  lemma TurnCopies(t: Token, rest: seq<Byte>)
    requires Proper(t)
    ensures TurnOf(Bytes(t) + rest) == Turn(|Bytes(t)|, Bytes(t))
  {
    var s := Bytes(t) + rest;
    assert s[..|Bytes(t)|] == Bytes(t);
    match t {
      case Ascii(_) =>
      case Wide(r) =>
        DecodeEncode(r, rest);
        LeadBytes(r);
      case Sgr(ps) => SgrIsKept(ps, rest);
    }
  }

  /** A clean line is left exactly as it is. */
  lemma {:induction false} CleanIsKept(ts: seq<Token>)
    requires AllProper(ts)
    ensures Slow(Spell(ts)) == Spell(ts)
    decreases |ts|
  {
    if |ts| > 0 {
      var b, rest := Bytes(ts[0]), Spell(ts[1..]);
      CleanIsKept(ts[1..]);
      TurnCopies(ts[0], rest);
      assert (b + rest)[|b|..] == rest;
    }
  }

  /** Sanitizing changes a line exactly when it is not clean; so twice is the same as once. */
  lemma FixedExactlyWhenClean(s: seq<Byte>)
    ensures Slow(s) == s <==> Clean(s)
    ensures Slow(Slow(s)) == Slow(s)
  {
    SanitizedIsClean(s);
    if Clean(s) {
      var ts: seq<Token> :| AllProper(ts) && Spell(ts) == s;
      CleanIsKept(ts);
    }
    var us: seq<Token> :| AllProper(us) && Spell(us) == Slow(s);
    CleanIsKept(us);
  }

  lemma PlainStart(t: Token, rest: seq<Byte>)
    requires Proper(t) && !t.Sgr? && Plain(rest)
    ensures Plain(Bytes(t) + rest)
  {
    hide Proper, Bytes;
    var ts: seq<Token> :| AllProper(ts) && Spell(ts) == rest && forall k :: 0 <= k < |ts| ==> !ts[k].Sgr?;
    var us := [t] + ts;
    assert us[1..] == ts && AllProper(us);
    assert Spell(us) == Bytes(t) + rest;
  }

  /** The fast path's test: false exactly for printable text without any escape. */
  lemma {:induction false} NeedsNothingIsPlain(s: seq<Byte>)
    requires !Needs(s)
    ensures Plain(s)
    decreases |s|
  {
    hide Plain;
    if |s| == 0 {
      NothingIsPlain();
    } else {
      var t := if s[0] < 0x80 then Ascii(s[0]) else Wide(DecodeRune(s).value);
      if s[0] >= 0x80 { EncodeDecode(s); }
      var n := |Bytes(t)|;
      NeedsNothingIsPlain(s[n..]);
      PlainStart(t, s[n..]);
      assert Bytes(t) == s[..n] && s == s[..n] + s[n..];
    }
  }

  lemma NothingIsPlain()
    ensures Plain([])
  {
    assert AllProper([]) && Spell([]) == [];
  }

  lemma {:induction false} PlainNeedsNothing(ts: seq<Token>)
    requires AllProper(ts) && forall k :: 0 <= k < |ts| ==> !ts[k].Sgr?
    ensures !Needs(Spell(ts))
    decreases |ts|
  {
    if |ts| > 0 {
      var b, rest := Bytes(ts[0]), Spell(ts[1..]);
      PlainNeedsNothing(ts[1..]);
      assert (b + rest)[|b|..] == rest;
      if ts[0].Wide? {
        DecodeEncode(ts[0].r, rest);
        LeadBytes(ts[0].r);
      }
    }
  }

  /** The fast path agrees with the slow loop on every line. */
  lemma FastPathAgrees(s: seq<Byte>)
    ensures Needs(s) <==> !Plain(s)
    ensures !Needs(s) ==> Slow(s) == s
  {
    if !Needs(s) {
      NeedsNothingIsPlain(s);
      var ts: seq<Token> :| AllProper(ts) && Spell(ts) == s && forall k :: 0 <= k < |ts| ==> !ts[k].Sgr?;
      CleanIsKept(ts);
    }
    if Plain(s) {
      var ts: seq<Token> :| AllProper(ts) && Spell(ts) == s && forall k :: 0 <= k < |ts| ==> !ts[k].Sgr?;
      PlainNeedsNothing(ts);
    }
  }

  // ---------------------------------------------------------- the methods

  /** The loop of needsSanitizing. */
  method NeedsSanitizing(s: seq<Byte>) returns (needs: bool)
    ensures needs <==> !Plain(s)
  {
    hide Plain;
    var i := 0;
    FastPathAgrees(s);
    assert s[0..] == s;
    while i < |s|
      invariant 0 <= i <= |s| && Needs(s[i..]) == Needs(s)
    {
      var c := s[i];
      if c < 0x20 || c == 0x7f {
        return true;
      }
      if c < 0x80 {
        assert s[i..][1..] == s[i + 1..];
        i := i + 1;
        continue;
      }
      var r := DecodeRune(s[i..]);
      if Unprintable(r) {
        return true;
      }
      assert s[i..][r.size..] == s[i + r.size..];
      i := i + r.size;
    }
    return false;
  }

  /** copySGR from the escape at `i`: what it writes and where it resumes. */
  method CopySgr(s: seq<Byte>, i: nat) returns (out: seq<Byte>, k: nat)
    requires i < |s| && s[i] == ESC
    ensures i < k <= |s|
    ensures k == i + EscapeOf(s[i..]).end && out == if EscapeOf(s[i..]).keep then s[i..k] else []
  {
    ghost var t := s[i..];
    out := [];
    if i + 1 >= |s| {
      return out, |s|;
    }
    var c := s[i + 1];
    if c == 0x5b {
      var j, sgr := i + 2, true;
      while j < |s| && 0x20 <= s[j] <= 0x3f
        invariant i + 2 <= j <= |s| && forall m :: 2 <= m < j - i ==> IsCsiBody(t[m])
        invariant sgr <==> forall m :: 2 <= m < j - i ==> IsParam(t[m])
      {
        if (s[j] < 0x30 || s[j] > 0x39) && s[j] != 0x3b && s[j] != 0x3a {
          sgr := false;
        }
        j := j + 1;
      }
      SkipIsFirst(t, 2, IsCsiBody, j - i);
      if j >= |s| || s[j] < 0x40 || s[j] > 0x7e {
        return out, j;
      }
      SgrFlag(t, j - i, sgr);
      if sgr && s[j] == 0x6d {
        out := s[i..j + 1];
      }
      return out, j + 1;
    }
    if c == 0x5d || c == 0x50 || c == 0x58 || c == 0x5e || c == 0x5f {
      k := SwallowString(s, i);
      return;
    }
    k := i + 1;
    while k < |s| && 0x20 <= s[k] <= 0x2f
      invariant i + 1 <= k <= |s| && forall m :: 1 <= m < k - i ==> IsIntermediate(t[m])
    {
      k := k + 1;
    }
    SkipIsFirst(t, 1, IsIntermediate, k - i);
    if k < |s| {
      k := k + 1;
    }
  }

  lemma SgrFlag(t: seq<Byte>, j: nat, sgr: bool)
    requires 2 <= j < |t| && !IsParam(t[j])
    requires sgr <==> forall m :: 2 <= m < j ==> IsParam(t[m])
    ensures sgr <==> SkipWhile(t, 2, IsParam) == j
  {
    if sgr { SkipIsFirst(t, 2, IsParam, j); }
  }

  /** The payload loop of copySGR for OSC, DCS, SOS, PM and APC. */
  method SwallowString(s: seq<Byte>, i: nat) returns (k: nat)
    requires i + 1 < |s|
    ensures i + 2 <= k <= |s| && k == i + StringEnd(s[i..], 2, s[i + 1] == 0x5d)
  {
    ghost var t := s[i..];
    var osc := s[i + 1] == 0x5d;
    var j := i + 2;
    while j < |s|
      invariant i + 2 <= j <= |s| && StringEnd(t, j - i, osc) == StringEnd(t, 2, osc)
    {
      var b := s[j];
      if b == 0x18 || b == 0x1a || b == 0x9c {
        return j + 1;
      }
      if osc && b == 0x07 {
        return j + 1;
      }
      if b == ESC {
        if j + 1 < |s| && s[j + 1] == 0x5c {
          return j + 2;
        }
        return j;
      }
      if b == 0xc2 && j + 1 < |s| && s[j + 1] == 0x9c {
        return j + 2;
      }
      j := j + 1;
    }
    return |s|;
  }

  /** sanitizeLogLine. */
  method SanitizeLogLine(s: seq<Byte>) returns (out: seq<Byte>)
    ensures out == Slow(s)
    ensures Clean(out) && (out == s <==> Clean(s))
  {
    hide Clean, Plain;
    SanitizedIsClean(s);
    FixedExactlyWhenClean(s);
    FastPathAgrees(s);
    var needs := NeedsSanitizing(s);
    if !needs {
      return s;
    }
    out := SlowLoop(s);
  }

  /** The switch in the loop body: what is written for the bytes at `i`, and how many they are. */
  method OneTurn(s: seq<Byte>, i: nat) returns (out: seq<Byte>, n: nat)
    requires i < |s|
    ensures Turn(n, out) == TurnOf(s[i..])
  {
    hide EscapeOf, DecodeRune;
    var c := s[i];
    if c == ESC {
      var k;
      out, k := CopySgr(s, i);
      n := k - i;
      assert s[i..][..n] == s[i..k];
    } else if c == 0x09 {
      out, n := [0x20, 0x20, 0x20, 0x20], 1;
    } else if c < 0x20 || c == 0x7f {
      out, n := [], 1;
    } else if c < 0x80 {
      out, n := [c], 1;
    } else {
      var r := DecodeRune(s[i..]);
      n := r.size;
      out := if Unprintable(r) then [] else s[i..i + n];
      assert s[i..][..n] == s[i..i + n];
    }
  }

  method SlowLoop(s: seq<Byte>) returns (b: seq<Byte>)
    ensures b == Slow(s)
  {
    hide TurnOf;
    b := [];
    var i := 0;
    assert s[0..] == s;
    while i < |s|
      invariant 0 <= i <= |s| && b + Slow(s[i..]) == Slow(s)
    {
      var out, n := OneTurn(s, i);
      assert s[i..][n..] == s[i + n..];
      assert b + (out + Slow(s[i + n..])) == (b + out) + Slow(s[i + n..]);
      b := b + out;
      i := i + n;
    }
  }
}
