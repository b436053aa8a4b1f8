/** Labels for kubeconfig contexts. Names that clash across files get a piece of the file's path,
    and as a last resort a number; no two labels may be equal, and the numbering must stop. */
module ContextLabels {

  datatype Ref = Ref(raw: string, file: string, name: string)

  /** pathTails: shorter and longer ends of a path, whatever they are. */
  type Tails = string -> seq<string>

  function Labelled(raw: string, tail: string): string {
    raw + " (" + tail + ")"
  }

  function Candidates(r: Ref, tails: Tails): seq<string> {
    seq(|tails(r.file)|, i requires 0 <= i < |tails(r.file)| => Labelled(r.raw, tails(r.file)[i]))
  }

  function RawCount(rs: seq<Ref>, raw: string): nat {
    if |rs| == 0 then 0
    else RawCount(rs[..|rs| - 1], raw) + if rs[|rs| - 1].raw == raw then 1 else 0
  }

  function Raws(rs: seq<Ref>): set<string> {
    set i | 0 <= i < |rs| :: rs[i].raw
  }

  function Names(rs: seq<Ref>, n: nat): set<string>
    requires n <= |rs|
  {
    set i | 0 <= i < n :: rs[i].name
  }

  /** Every candidate of every clashing context, as often as it occurs. */
  function Contested(rs: seq<Ref>, upto: nat, tails: Tails): multiset<string>
    requires upto <= |rs|
  {
    if upto == 0 then multiset{}
    else
      var m, r := Contested(rs, upto - 1, tails), rs[upto - 1];
      if RawCount(rs, r.raw) == 1 then m else m + multiset(Candidates(r, tails))
  }

  // ------------------------------------------------------------ the numbering

  function Digit(d: nat): char
    requires d < 10
  {
    "0123456789"[d]
  }

  function Decimal(n: nat): string {
    if n < 10 then [Digit(n)] else Decimal(n / 10) + [Digit(n % 10)]
  }

  lemma {:induction false} DecimalInjective(m: nat, n: nat)
    ensures Decimal(m) == Decimal(n) <==> m == n
    decreases m
  {
    var a, b := Decimal(m), Decimal(n);
    if a == b {
      assert a[|a| - 1] == b[|b| - 1];
      DecimalSize(m);
      DecimalSize(n);
      if m >= 10 && n >= 10 {
        assert a[..|a| - 1] == Decimal(m / 10) && b[..|b| - 1] == Decimal(n / 10);
        DecimalInjective(m / 10, n / 10);
      }
    }
  }

  lemma DecimalSize(n: nat)
    ensures if n < 10 then |Decimal(n)| == 1 else |Decimal(n)| > 1
  {
  }

  function Numbered(base: string, n: nat): string {
    base + " [" + Decimal(n) + "]"
  }

  lemma NumberedInjective(base: string, m: nat, n: nat)
    ensures Numbered(base, m) == Numbered(base, n) <==> m == n
  {
    DecimalInjective(m, n);
    var a, b, k := Numbered(base, m), Numbered(base, n), |base| + 2;
    assert a[k..|a| - 1] == Decimal(m) && b[k..|b| - 1] == Decimal(n);
  }

  /** The first free number, from 2 on. The search ends because the labels tried are all different
      and only finitely many are taken. */
  method FirstFree(base: string, used: set<string>) returns (n: nat)
    ensures n >= 2 && Numbered(base, n) !in used
    ensures forall k: nat :: 2 <= k < n ==> Numbered(base, k) in used
  {
    n := 2;
    ghost var untried := used;
    while Numbered(base, n) in used
      invariant n >= 2 && forall k: nat :: 2 <= k < n ==> Numbered(base, k) in used
      invariant untried <= used && forall k: nat :: k >= n && Numbered(base, k) in used ==> Numbered(base, k) in untried
      decreases untried
    {
      forall k: nat | k >= n + 1 ensures Numbered(base, k) != Numbered(base, n) {
        NumberedInjective(base, k, n);
      }
      untried := untried - {Numbered(base, n)};
      n := n + 1;
    }
  }

  // --------------------------------------------------------------- assignment

  /** A candidate is free if no other clashing context claims it and no label in use equals it. */
  ghost predicate Free(c: string, contested: multiset<string>, taken: set<string>) {
    contested[c] == 1 && c !in taken
  }

  /** The first free candidate, if there is one. */
  ghost predicate FirstChoice(name: string, cs: seq<string>, contested: multiset<string>, taken: set<string>) {
    exists k :: 0 <= k < |cs| && cs[k] == name && Free(name, contested, taken)
      && forall m :: 0 <= m < k ==> !Free(cs[m], contested, taken)
  }

  /** The first free number. */
  ghost predicate FirstNumber(name: string, base: string, n: nat, taken: set<string>) {
    n >= 2 && name == Numbered(base, n) && name !in taken && forall k: nat :: 2 <= k < n ==> Numbered(base, k) in taken
  }

  /** The label of a context whose raw name clashes, given the labels before it: the first candidate
      that nobody else has and nobody uses, or, only when there is none, the first free number. */
  ghost predicate Resolved(rs: seq<Ref>, i: nat, tails: Tails)
    requires i < |rs|
  {
    var r, taken := rs[i], Raws(rs) + Names(rs, i);
    var cs, contested := Candidates(r, tails), Contested(rs, |rs|, tails);
    || FirstChoice(r.name, cs, contested, taken)
    || (&& (forall k :: 0 <= k < |cs| ==> !Free(cs[k], contested, taken))
        && exists n: nat :: FirstNumber(r.name, Labelled(r.raw, r.file), n, taken))
  }

  /** The first `n` contexts have their labels. */
  ghost predicate AssignedUpTo(rs: seq<Ref>, n: nat, tails: Tails) {
    && n <= |rs|
    && forall i: nat :: i < n ==>
         if RawCount(rs, rs[i].raw) == 1 then rs[i].name == rs[i].raw else Resolved(rs, i, tails)
  }

  lemma {:induction false} CountedTwice(rs: seq<Ref>, i: nat, j: nat)
    requires i < j < |rs| && rs[i].raw == rs[j].raw
    ensures RawCount(rs, rs[i].raw) >= 2
    decreases |rs|
  {
    if j < |rs| - 1 {
      CountedTwice(rs[..|rs| - 1], i, j);
    } else {
      CountedOnce(rs[..j], i);
    }
  }

  lemma {:induction false} CountedOnce(rs: seq<Ref>, i: nat)
    requires i < |rs|
    ensures RawCount(rs, rs[i].raw) >= 1
    decreases |rs|
  {
    if i < |rs| - 1 { CountedOnce(rs[..|rs| - 1], i); }
  }

  lemma ResolvedIsNew(rs: seq<Ref>, i: nat, tails: Tails)
    requires i < |rs| && Resolved(rs, i, tails)
    ensures rs[i].name !in Raws(rs) + Names(rs, i)
  {
    hide Candidates, Contested, Numbered;
  }

  /** No two labels are equal, a raw name that occurs once is kept as it is, and no label that was
      made up equals any raw name. */
  lemma LabelsAreDistinct(rs: seq<Ref>, tails: Tails)
    requires AssignedUpTo(rs, |rs|, tails)
    ensures forall i, j :: 0 <= i < j < |rs| ==> rs[i].name != rs[j].name
    ensures forall i :: 0 <= i < |rs| ==> if RawCount(rs, rs[i].raw) == 1 then rs[i].name == rs[i].raw
      else rs[i].name !in Raws(rs)
  {
    hide Resolved, RawCount;
    forall i: nat | i < |rs| && RawCount(rs, rs[i].raw) != 1 ensures rs[i].name !in Raws(rs) + Names(rs, i) {
      ResolvedIsNew(rs, i, tails);
    }
    forall i, j | 0 <= i < j < |rs| ensures rs[i].name != rs[j].name {
      if rs[i].raw == rs[j].raw { CountedTwice(rs, i, j); }
      assert rs[i].raw in Raws(rs) && rs[j].raw in Raws(rs);
      assert rs[i].name in Names(rs, j);
    }
  }

  method CountRaws(rs: seq<Ref>) returns (rawCounts: map<string, nat>, used: set<string>)
    ensures used == Raws(rs)
    ensures forall raw :: (if raw in rawCounts then rawCounts[raw] else 0) == RawCount(rs, raw)
  {
    rawCounts, used := map[], {};
    for i := 0 to |rs|
      invariant used == Raws(rs[..i])
      invariant forall raw :: (if raw in rawCounts then rawCounts[raw] else 0) == RawCount(rs[..i], raw)
    {
      assert rs[..i + 1][..i] == rs[..i];
      assert Raws(rs[..i + 1]) == Raws(rs[..i]) + {rs[i].raw};
      var raw := rs[i].raw;
      rawCounts := rawCounts[raw := (if raw in rawCounts then rawCounts[raw] else 0) + 1];
      used := used + {raw};
    }
    assert rs[..|rs|] == rs;
  }

  /** How often each candidate is claimed. */
  method CountCandidates(rs: seq<Ref>, rawCounts: map<string, nat>, tails: Tails)
    returns (candidates: seq<seq<string>>, counts: multiset<string>)
    requires forall raw :: (if raw in rawCounts then rawCounts[raw] else 0) == RawCount(rs, raw)
    ensures |candidates| == |rs| && counts == Contested(rs, |rs|, tails)
    ensures forall i :: 0 <= i < |rs| && RawCount(rs, rs[i].raw) != 1 ==> candidates[i] == Candidates(rs[i], tails)
  {
    hide RawCount, Candidates;
    candidates, counts := [], multiset{};
    for i := 0 to |rs|
      invariant |candidates| == i && counts == Contested(rs, i, tails)
      invariant forall k :: 0 <= k < i && RawCount(rs, rs[k].raw) != 1 ==> candidates[k] == Candidates(rs[k], tails)
    {
      CountedOnce(rs, i);
      if rawCounts[rs[i].raw] == 1 {
        candidates := candidates + [[]];
        continue;
      }
      var names := Candidates(rs[i], tails);
      candidates := candidates + [names];
      counts := counts + multiset(names);
    }
  }

  /** The first candidate nobody else claims and nobody uses, or "". */
  method PickCandidate(candidates: seq<string>, counts: multiset<string>, used: set<string>) returns (name: string)
    requires "" !in candidates
    ensures name != "" ==> FirstChoice(name, candidates, counts, used)
    ensures name == "" ==> forall k :: 0 <= k < |candidates| ==> !Free(candidates[k], counts, used)
  {
    for i := 0 to |candidates|
      invariant forall k :: 0 <= k < i ==> !Free(candidates[k], counts, used)
    {
      if counts[candidates[i]] == 1 && candidates[i] !in used {
        return candidates[i];
      }
    }
    return "";
  }

  /** The same contexts, labels aside. */
  ghost predicate SameRefs(rs: seq<Ref>, ss: seq<Ref>) {
    |rs| == |ss| && forall i :: 0 <= i < |rs| ==> rs[i].raw == ss[i].raw && rs[i].file == ss[i].file
  }

  lemma {:induction false} SameCount(rs: seq<Ref>, ss: seq<Ref>, raw: string)
    requires SameRefs(rs, ss)
    ensures RawCount(rs, raw) == RawCount(ss, raw)
    decreases |rs|
  {
    if |rs| > 0 { SameCount(rs[..|rs| - 1], ss[..|ss| - 1], raw); }
  }

  lemma {:induction false} SameContested(rs: seq<Ref>, ss: seq<Ref>, n: nat, tails: Tails)
    requires SameRefs(rs, ss) && n <= |rs|
    ensures Contested(rs, n, tails) == Contested(ss, n, tails)
    decreases n
  {
    if n > 0 {
      SameContested(rs, ss, n - 1, tails);
      SameCount(rs, ss, rs[n - 1].raw);
      assert Candidates(rs[n - 1], tails) == Candidates(ss[n - 1], tails);
    }
  }

  lemma SameRaws(rs: seq<Ref>, ss: seq<Ref>)
    requires SameRefs(rs, ss)
    ensures Raws(rs) == Raws(ss)
  {
    forall raw ensures raw in Raws(rs) <==> raw in Raws(ss) {
      if raw in Raws(rs) { var i :| 0 <= i < |rs| && rs[i].raw == raw; assert ss[i].raw == raw; }
      if raw in Raws(ss) { var i :| 0 <= i < |ss| && ss[i].raw == raw; assert rs[i].raw == raw; }
    }
  }

  /** Labelling one context leaves the labels before it resolved. */
  lemma ResolvedKept(rs: seq<Ref>, i: nat, name: string, j: nat, tails: Tails)
    requires j < i < |rs| && Resolved(rs, j, tails)
    ensures Resolved(rs[i := rs[i].(name := name)], j, tails)
  {
    hide Candidates, Contested, FirstChoice, FirstNumber, Raws;
    var ss := rs[i := rs[i].(name := name)];
    SameRaws(rs, ss);
    SameContested(rs, ss, |rs|, tails);
    assert Names(rs, j) == Names(ss, j);
  }

  lemma AssignStep(rs: seq<Ref>, i: nat, name: string, tails: Tails)
    requires i < |rs| && AssignedUpTo(rs, i, tails)
    requires var ss := rs[i := rs[i].(name := name)];
      if RawCount(rs, rs[i].raw) == 1 then name == rs[i].raw else Resolved(ss, i, tails)
    ensures AssignedUpTo(rs[i := rs[i].(name := name)], i + 1, tails)
  {
    hide Resolved;
    var ss := rs[i := rs[i].(name := name)];
    forall j: nat | j < i + 1
      ensures if RawCount(ss, ss[j].raw) == 1 then ss[j].name == ss[j].raw else Resolved(ss, j, tails)
    {
      SameCount(rs, ss, rs[j].raw);
      if j < i && RawCount(rs, rs[j].raw) != 1 { ResolvedKept(rs, i, name, j, tails); }
    }
  }

  /** The choice for a clashing context is resolved, whichever way it went. */
  lemma ChosenResolves(rs: seq<Ref>, i: nat, name: string, n: nat, tails: Tails)
    requires i < |rs|
    requires var taken := Raws(rs) + Names(rs, i);
      var cs, contested := Candidates(rs[i], tails), Contested(rs, |rs|, tails);
      || FirstChoice(name, cs, contested, taken)
      || (&& (forall k :: 0 <= k < |cs| ==> !Free(cs[k], contested, taken))
          && FirstNumber(name, Labelled(rs[i].raw, rs[i].file), n, taken))
    ensures Resolved(rs[i := rs[i].(name := name)], i, tails)
  {
    hide Contested, FirstChoice, FirstNumber, Raws, Labelled;
    var ss := rs[i := rs[i].(name := name)];
    SameRaws(rs, ss);
    SameContested(rs, ss, |rs|, tails);
    assert Names(rs, i) == Names(ss, i);
    assert Candidates(rs[i], tails) == Candidates(ss[i], tails);
  }

  lemma CandidatesNotEmpty(r: Ref, tails: Tails)
    ensures "" !in Candidates(r, tails)
  {
  }

  /** One clashing context: pick a candidate, or number it. */
  method Resolve(rs: seq<Ref>, i: nat, candidates: seq<string>, counts: multiset<string>, used: set<string>,
                 tails: Tails)
    returns (name: string)
    requires i < |rs| && candidates == Candidates(rs[i], tails) && counts == Contested(rs, |rs|, tails)
    requires used == Raws(rs) + Names(rs, i)
    ensures Resolved(rs[i := rs[i].(name := name)], i, tails)
  {
    hide Contested, Raws, Names, Candidates, Resolved;
    CandidatesNotEmpty(rs[i], tails);
    name := PickCandidate(candidates, counts, used);
    var n := 2;
    if name == "" {
      var base := Labelled(rs[i].raw, rs[i].file);
      n := FirstFree(base, used);
      name := Numbered(base, n);
    }
    ChosenResolves(rs, i, name, n, tails);
  }

  /** assignContextNames, writing the labels in place. */
  method AssignContextNames(refs: array<Ref>, tails: Tails)
    modifies refs
    ensures SameRefs(refs[..], old(refs[..])) && AssignedUpTo(refs[..], refs.Length, tails)
  {
    hide Contested, Raws, Candidates, Resolved, AssignedUpTo, Names, RawCount;
    ghost var rs0 := refs[..];
    var rawCounts, used := CountRaws(refs[..]);
    var candidates, counts := CountCandidates(refs[..], rawCounts, tails);
    NothingAssigned(refs[..], tails);
    for i := 0 to refs.Length
      invariant SameRefs(refs[..], rs0) && AssignedUpTo(refs[..], i, tails)
      invariant used == Raws(refs[..]) + Names(refs[..], i)
    {
      ghost var rs := refs[..];
      var raw := refs[i].raw;
      SameCount(rs, rs0, raw);
      CountedOnce(rs, i);
      SameContested(rs, rs0, |rs|, tails);
      SameCandidates(rs[i], rs0[i], tails);
      var name := raw;
      if rawCounts[raw] != 1 {
        name := Resolve(refs[..], i, candidates[i], counts, used, tails);
      }
      AssignStep(rs, i, name, tails);
      refs[i] := refs[i].(name := name);
      assert refs[..] == rs[i := rs[i].(name := name)];
      SameRaws(refs[..], rs);
      NamesGrow(rs, i, name);
      used := used + {name};
    }
  }

  lemma NothingAssigned(rs: seq<Ref>, tails: Tails)
    ensures AssignedUpTo(rs, 0, tails) && Names(rs, 0) == {}
  {
  }

  lemma SameCandidates(r: Ref, s: Ref, tails: Tails)
    requires r.raw == s.raw && r.file == s.file
    ensures Candidates(r, tails) == Candidates(s, tails)
  {
  }

  lemma NamesGrow(rs: seq<Ref>, i: nat, name: string)
    requires i < |rs|
    ensures Names(rs[i := rs[i].(name := name)], i + 1) == Names(rs, i) + {name}
  {
    var ss := rs[i := rs[i].(name := name)];
    forall x ensures x in Names(ss, i + 1) <==> x in Names(rs, i) || x == name {
      assert ss[i].name == name;
      if x in Names(rs, i) { var k :| 0 <= k < i && rs[k].name == x; assert ss[k].name == x; }
      if x in Names(ss, i + 1) { var k :| 0 <= k < i + 1 && ss[k].name == x; assert k < i ==> rs[k].name == x; }
    }
  }

  // -------------------------------------------------------------------- New

  datatype Rejection = DuplicateLabel(i: nat) | DuplicateContext(i: nat) | Accepted

  /** New's checks: labels first, then identities. */
  method Register(rs: seq<Ref>) returns (r: Rejection)
    ensures r.Accepted? <==> forall i, j :: 0 <= i < j < |rs| ==>
      rs[i].name != rs[j].name && (rs[i].file, rs[i].raw) != (rs[j].file, rs[j].raw)
  {
    var names, ids := {}, {};
    for i := 0 to |rs|
      invariant forall x :: x in names <==> exists k :: 0 <= k < i && rs[k].name == x
      invariant forall x :: x in ids <==> exists k :: 0 <= k < i && (rs[k].file, rs[k].raw) == x
      invariant forall k, j :: 0 <= k < j < i ==>
        rs[k].name != rs[j].name && (rs[k].file, rs[k].raw) != (rs[j].file, rs[j].raw)
    {
      if rs[i].name in names {
        return DuplicateLabel(i);
      }
      var id := (rs[i].file, rs[i].raw);
      if id in ids {
        return DuplicateContext(i);
      }
      names, ids := names + {rs[i].name}, ids + {id};
    }
    return Accepted;
  }

  /** Discovery: contexts found in files, labelled and registered. Labels are distinct whatever was
      found, so only a context found twice in one file can be turned away. */
  method Discover(found: seq<(string, string)>, tails: Tails) returns (rs: seq<Ref>, r: Rejection)
    ensures |rs| == |found| && forall i :: 0 <= i < |rs| ==> (rs[i].raw, rs[i].file) == found[i]
    ensures forall i, j :: 0 <= i < j < |rs| ==> rs[i].name != rs[j].name
    ensures forall i :: 0 <= i < |rs| ==>
      if RawCount(rs, rs[i].raw) == 1 then rs[i].name == rs[i].raw else Resolved(rs, i, tails)
    ensures r.Accepted? <==> forall i, j :: 0 <= i < j < |found| ==> found[i] != found[j]
  {
    hide Resolved;
    var refs := new Ref[|found|](i requires 0 <= i < |found| => Ref(found[i].0, found[i].1, ""));
    ghost var rs0 := refs[..];
    AssignContextNames(refs, tails);
    rs := refs[..];
    assert forall i :: 0 <= i < |rs| ==> (rs0[i].raw, rs0[i].file) == found[i];
    LabelsAreDistinct(rs, tails);
    r := Register(rs);
    assert forall i :: 0 <= i < |rs| ==> (rs[i].raw, rs[i].file) == found[i];
  }
}
