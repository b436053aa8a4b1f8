/** What a context's label says, spelled out: when a context keeps its raw name, which piece of its
    file's path it gets otherwise, and which number when no piece is left. */
module LabelText {
  import opened ContextLabels

  // ---------------------------------------------------------------- numerals

  /** The number a decimal numeral stands for. */
  function ValueOf(s: string): int {
    if |s| == 0 then 0 else 10 * ValueOf(s[..|s| - 1]) + (s[|s| - 1] as int - '0' as int)
  }

  /** Numbers are written in decimal digits, without leading zeros. */
  lemma {:induction false} DecimalReads(n: nat)
    ensures |Decimal(n)| > 0 && ValueOf(Decimal(n)) == n
    ensures forall i :: 0 <= i < |Decimal(n)| ==> '0' <= Decimal(n)[i] <= '9'
    ensures n > 0 ==> Decimal(n)[0] != '0'
    decreases n
  {
    if n >= 10 {
      DecimalReads(n / 10);
      assert Decimal(n)[..|Decimal(n)| - 1] == Decimal(n / 10);
    } else {
      assert Decimal(n)[..0] == "";
    }
  }

  // ------------------------------------------------------------------ claims

  /** Another context has the same raw name. */
  ghost predicate Clashes(rs: seq<Ref>, i: nat)
    requires i < |rs|
  {
    exists j :: 0 <= j < |rs| && j != i && rs[j].raw == rs[i].raw
  }

  /** A clashing context asks for a label: its raw name and the k-th end of its file's path. */
  ghost predicate Claims(rs: seq<Ref>, tails: Tails, j: nat, k: nat, c: string) {
    j < |rs| && Clashes(rs, j) && k < |tails(rs[j].file)| && c == rs[j].raw + " (" + tails(rs[j].file)[k] + ")"
  }

  /** No context has it as its raw name, and no earlier one as its label. */
  ghost predicate Unused(rs: seq<Ref>, i: nat, c: string)
    requires i < |rs|
  {
    (forall j :: 0 <= j < |rs| ==> rs[j].raw != c) && forall j :: 0 <= j < i ==> rs[j].name != c
  }

  /** Context `i` asks for `c` with its k-th path end, nobody else asks for it, and it is not in use. */
  ghost predicate Gets(rs: seq<Ref>, tails: Tails, i: nat, k: nat, c: string)
    requires i < |rs|
  {
    && Claims(rs, tails, i, k, c) && Unused(rs, i, c)
    && forall j: nat, m: nat :: Claims(rs, tails, j, m, c) ==> j == i && m == k
  }

  lemma {:induction false} CountPositive(rs: seq<Ref>, raw: string)
    ensures RawCount(rs, raw) == 0 <==> forall j :: 0 <= j < |rs| ==> rs[j].raw != raw
    decreases |rs|
  {
    if |rs| > 0 { CountPositive(rs[..|rs| - 1], raw); }
  }

  /** A raw name counted once is nobody else's. */
  lemma {:induction false} CountedOnceIsAlone(rs: seq<Ref>, i: nat)
    requires i < |rs|
    ensures RawCount(rs, rs[i].raw) == 1 <==> !Clashes(rs, i)
    decreases |rs|
  {
    var n := |rs| - 1;
    var rest := rs[..n];
    if i == n {
      CountPositive(rest, rs[n].raw);
    } else {
      CountedOnceIsAlone(rest, i);
      CountPositive(rest, rs[i].raw);
      assert rest[i].raw == rs[i].raw;
    }
  }

  // -------------------------------------------------------- counting claims

  ghost predicate OnceAt(s: seq<string>, c: string, k: nat) {
    k < |s| && s[k] == c && forall m :: 0 <= m < |s| && s[m] == c ==> m == k
  }

  lemma {:induction false} OccursOnce(s: seq<string>, c: string)
    ensures multiset(s)[c] == 1 <==> exists k: nat :: OnceAt(s, c, k)
    decreases |s|
  {
    if |s| > 0 {
      var n := |s| - 1;
      var rest := s[..n];
      assert s == rest + [s[n]];
      OccursOnce(rest, c);
      if s[n] == c {
        if c !in rest { assert OnceAt(s, c, n); }
        if k: nat :| OnceAt(s, c, k) { assert c !in rest; }
      } else {
        assert forall k: nat :: OnceAt(s, c, k) <==> OnceAt(rest, c, k);
      }
    }
  }

  lemma CandidatesAre(rs: seq<Ref>, tails: Tails, j: nat, c: string)
    requires j < |rs|
    ensures forall k: nat :: Claims(rs, tails, j, k, c) <==>
      Clashes(rs, j) && k < |Candidates(rs[j], tails)| && Candidates(rs[j], tails)[k] == c
    ensures |Candidates(rs[j], tails)| == |tails(rs[j].file)|
  {
  }

  /** None of the first `n` contexts claims `c`. */
  ghost predicate NoClaim(rs: seq<Ref>, tails: Tails, n: nat, c: string) {
    forall j: nat, m: nat :: j < n ==> !Claims(rs, tails, j, m, c)
  }

  lemma {:induction false} Unclaimed(rs: seq<Ref>, tails: Tails, n: nat, c: string)
    requires n <= |rs|
    ensures Contested(rs, n, tails)[c] == 0 <==> NoClaim(rs, tails, n, c)
    decreases n
  {
    hide Candidates, RawCount, Claims, Clashes;
    if n > 0 {
      Unclaimed(rs, tails, n - 1, c);
      CountedOnceIsAlone(rs, n - 1);
      CandidatesAre(rs, tails, n - 1, c);
      var cs := Candidates(rs[n - 1], tails);
      if Clashes(rs, n - 1) && c in cs {
        var m: nat :| m < |cs| && cs[m] == c;
        assert Claims(rs, tails, n - 1, m, c);
      }
    }
  }

  /** The claim for `c` is the only one, among the first `n` contexts. */
  ghost predicate OnlyClaim(rs: seq<Ref>, tails: Tails, n: nat, i: nat, k: nat, c: string) {
    && i < n && Claims(rs, tails, i, k, c)
    && forall j: nat, m: nat :: j < n && Claims(rs, tails, j, m, c) ==> j == i && m == k
  }

  /** A claim of the last context is the only one when the context makes it once and no earlier one does. */
  lemma LastClaim(rs: seq<Ref>, tails: Tails, n: nat, k: nat, c: string)
    requires 0 < n <= |rs| && Claims(rs, tails, n - 1, k, c)
    ensures OnlyClaim(rs, tails, n, n - 1, k, c) <==>
      OnceAt(Candidates(rs[n - 1], tails), c, k) && NoClaim(rs, tails, n - 1, c)
  {
    hide Candidates, Claims, Clashes;
    CandidatesAre(rs, tails, n - 1, c);
    var cs := Candidates(rs[n - 1], tails);
    if OnlyClaim(rs, tails, n, n - 1, k, c) {
      forall m: nat | m < |cs| && cs[m] == c ensures m == k {
        assert Claims(rs, tails, n - 1, m, c);
      }
    }
  }

  /** A last context that makes no claim changes nothing, and one that makes one takes it away. */
  lemma EarlierClaim(rs: seq<Ref>, tails: Tails, n: nat, i: nat, k: nat, c: string)
    requires 0 < n <= |rs| && i < n - 1 && Claims(rs, tails, i, k, c)
    ensures OnlyClaim(rs, tails, n, i, k, c) <==>
      OnlyClaim(rs, tails, n - 1, i, k, c) && !(Clashes(rs, n - 1) && c in Candidates(rs[n - 1], tails))
  {
    hide Candidates, Claims, Clashes;
    CandidatesAre(rs, tails, n - 1, c);
    var cs := Candidates(rs[n - 1], tails);
    if Clashes(rs, n - 1) && c in cs {
      var m: nat :| m < |cs| && cs[m] == c;
      assert Claims(rs, tails, n - 1, m, c);
    }
  }

  lemma OnceIsCounted(s: seq<string>, c: string, k: nat)
    requires k < |s| && s[k] == c
    ensures multiset(s)[c] >= 1 && (multiset(s)[c] == 1 <==> OnceAt(s, c, k))
  {
    OccursOnce(s, c);
  }

  /** A label is contested once exactly when one claim is the only one for it. */
  lemma {:induction false} ContestedOnce(rs: seq<Ref>, tails: Tails, n: nat, i: nat, k: nat, c: string)
    requires i < n <= |rs| && Claims(rs, tails, i, k, c)
    ensures Contested(rs, n, tails)[c] >= 1
    ensures Contested(rs, n, tails)[c] == 1 <==> OnlyClaim(rs, tails, n, i, k, c)
    decreases n
  {
    hide Candidates, RawCount, Claims, Clashes, OnceAt, OnlyClaim, NoClaim;
    CountedOnceIsAlone(rs, n - 1);
    CandidatesAre(rs, tails, n - 1, c);
    if i == n - 1 {
      Unclaimed(rs, tails, n - 1, c);
      LastClaim(rs, tails, n, k, c);
      OnceIsCounted(Candidates(rs[n - 1], tails), c, k);
    } else {
      ContestedOnce(rs, tails, n - 1, i, k, c);
      EarlierClaim(rs, tails, n, i, k, c);
    }
  }

  // -------------------------------------------------------------- the labels

  lemma RawsAndNames(rs: seq<Ref>, i: nat, c: string)
    requires i < |rs|
    ensures c !in Raws(rs) + Names(rs, i) <==> Unused(rs, i, c)
  {
  }

  lemma FreeIsGets(rs: seq<Ref>, tails: Tails, i: nat, k: nat, c: string)
    requires i < |rs| && Claims(rs, tails, i, k, c)
    ensures Free(c, Contested(rs, |rs|, tails), Raws(rs) + Names(rs, i)) <==> Gets(rs, tails, i, k, c)
  {
    hide Claims, Unused, Raws, Names, Contested;
    RawsAndNames(rs, i, c);
    ContestedOnce(rs, tails, |rs|, i, k, c);
    ClaimsInRange(rs, tails, c);
  }

  lemma ClaimsInRange(rs: seq<Ref>, tails: Tails, c: string)
    ensures forall j: nat, m: nat :: Claims(rs, tails, j, m, c) ==> j < |rs|
  {
  }

  /** The label with number `n`, for want of a path end. */
  predicate IsNumbered(r: Ref, n: nat, text: string) {
    text == r.raw + " (" + r.file + ") [" + Decimal(n) + "]"
  }

  lemma NumberedReads(r: Ref, n: nat)
    ensures IsNumbered(r, n, Numbered(Labelled(r.raw, r.file), n))
  {
    var d := Decimal(n);
    assert r.raw + " (" + r.file + ")" + (" [" + d + "]") == r.raw + " (" + r.file + ") [" + d + "]";
  }

  /** The label is the first path end to be had. */
  ghost predicate FirstTail(rs: seq<Ref>, tails: Tails, i: nat, k: nat)
    requires i < |rs|
  {
    Gets(rs, tails, i, k, rs[i].name) && forall m: nat, c :: m < k ==> !Gets(rs, tails, i, m, c)
  }

  /** The label is the first unused one among the numbered ones. */
  ghost predicate FirstUnused(rs: seq<Ref>, i: nat, n: nat)
    requires i < |rs|
  {
    && n >= 2 && IsNumbered(rs[i], n, rs[i].name) && Unused(rs, i, rs[i].name)
    && forall k: nat, text :: 2 <= k < n && IsNumbered(rs[i], k, text) ==> !Unused(rs, i, text)
  }

  lemma TailReads(rs: seq<Ref>, tails: Tails, i: nat) returns (k: nat)
    requires i < |rs| && Clashes(rs, i)
    requires FirstChoice(rs[i].name, Candidates(rs[i], tails), Contested(rs, |rs|, tails), Raws(rs) + Names(rs, i))
    ensures FirstTail(rs, tails, i, k)
  {
    hide Gets, Unused, Contested, Raws, Names, Free, Claims, Candidates;
    var cs, contested, taken := Candidates(rs[i], tails), Contested(rs, |rs|, tails), Raws(rs) + Names(rs, i);
    var name := rs[i].name;
    var at: int :| 0 <= at < |cs| && cs[at] == name && Free(name, contested, taken)
      && forall m :: 0 <= m < at ==> !Free(cs[m], contested, taken);
    k := at;
    CandidatesAre(rs, tails, i, name);
    FreeIsGets(rs, tails, i, k, name);
    forall m: nat, c | m < k ensures !Gets(rs, tails, i, m, c) {
      NoGets(rs, tails, i, m, c);
    }
  }

  /** A path end that is not free is not to be had. */
  lemma NoGets(rs: seq<Ref>, tails: Tails, i: nat, m: nat, c: string)
    requires i < |rs|
    requires m < |Candidates(rs[i], tails)| ==>
      !Free(Candidates(rs[i], tails)[m], Contested(rs, |rs|, tails), Raws(rs) + Names(rs, i))
    ensures !Gets(rs, tails, i, m, c)
  {
    hide Contested, Raws, Names, Free, Candidates, Unused;
    CandidatesAre(rs, tails, i, c);
    if Claims(rs, tails, i, m, c) { FreeIsGets(rs, tails, i, m, c); }
  }

  lemma NumberReads(rs: seq<Ref>, i: nat, n: nat)
    requires i < |rs| && FirstNumber(rs[i].name, Labelled(rs[i].raw, rs[i].file), n, Raws(rs) + Names(rs, i))
    ensures FirstUnused(rs, i, n)
  {
    hide Raws, Names, Numbered, Labelled, Unused;
    var base := Labelled(rs[i].raw, rs[i].file);
    NumberedReads(rs[i], n);
    RawsAndNames(rs, i, rs[i].name);
    forall k: nat, text | 2 <= k < n && IsNumbered(rs[i], k, text) ensures !Unused(rs, i, text) {
      NumberedReads(rs[i], k);
      RawsAndNames(rs, i, Numbered(base, k));
    }
  }

  /** A context alone with its raw name is called by it. Any other gets its raw name and, in brackets,
      the first end of its file's path that makes a label nobody else asks for and nobody has; if there
      is none, its file's whole path and the first number from 2 on that makes an unused label. */
  lemma LabelReads(rs: seq<Ref>, tails: Tails, i: nat)
    requires AssignedUpTo(rs, |rs|, tails) && i < |rs|
    ensures !Clashes(rs, i) ==> rs[i].name == rs[i].raw
    ensures Clashes(rs, i) ==>
      || (exists k: nat :: FirstTail(rs, tails, i, k))
      || ((forall m: nat, c :: !Gets(rs, tails, i, m, c)) && exists n: nat :: FirstUnused(rs, i, n))
  {
    hide FirstTail, FirstUnused, FirstChoice, FirstNumber, Free, Gets, Contested, RawCount, Raws, Names, Labelled,
      Candidates, Clashes;
    CountedOnceIsAlone(rs, i);
    if Clashes(rs, i) {
      var r, taken := rs[i], Raws(rs) + Names(rs, i);
      if FirstChoice(r.name, Candidates(r, tails), Contested(rs, |rs|, tails), taken) {
        var k := TailReads(rs, tails, i);
      } else {
        var n: nat :| FirstNumber(r.name, Labelled(r.raw, r.file), n, taken);
        NumberReads(rs, i, n);
        forall m: nat, c ensures !Gets(rs, tails, i, m, c) {
          NoGets(rs, tails, i, m, c);
        }
      }
    }
  }
}
