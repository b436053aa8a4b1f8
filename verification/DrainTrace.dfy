/** What a drain may do, as properties of its trace: preflight of every candidate, then all
    evictions, then polling, then one terminal event that accounts for every pod. */
module DrainTrace {
  import opened Options

  type Key = string

  /** A pod as far as draining looks at it; `owner` is its controller's reference. */
  datatype Pod = Pod(ns: string, name: string, uid: string, mirror: bool, daemonSet: bool, finished: bool,
                     emptyDir: bool, owner: Option<Key>)

  function RefOf(p: Pod): string {
    p.ns + "/" + p.name
  }

  datatype Phase = Starting | Evicting | Accepted | Blocked | Waiting | Evicted | Done | Error

  datatype Event = Event(phase: Phase, pod: string, done: nat, total: nat, err: string, remaining: seq<string>)

  predicate Terminal(e: Event) {
    e.phase.Done? || e.phase.Error?
  }

  /** What a poll says of a pod: gone (or replaced), still there, not to be found out, or nothing
      because the context was done by then. */
  datatype Finding = Gone | Present | Unclear | Late

  /** What a drain does, and what it learns by it: controllers looked up, evictions requested, whether
      a pod's eviction was accepted in the end, pods polled, events received by the forwarder. */
  datatype Act =
    | Verified(key: Key, ok: bool)
    | Asked(i: nat)
    | Concluded(i: nat, accepted: bool)
    | Polled(i: nat, finding: Finding)
    | Emitted(ev: Event)

  type Trace = seq<Act>

  // ------------------------------------------------------------- candidates

  predicate Skipped(p: Pod) {
    p.mirror || p.daemonSet || p.finished
  }

  function Drainable(all: seq<Pod>): seq<Pod> {
    if |all| == 0 then []
    else
      var ps, p := Drainable(all[..|all| - 1]), all[|all| - 1];
      if Skipped(p) then ps else ps + [p]
  }

  /** The trace shows that this pod may be evicted: no local data, and a live controller. */
  ghost predicate Cleared(p: Pod, trace: Trace) {
    !p.emptyDir && p.owner.Some? && Verified(p.owner.value, true) in trace
  }

  // ------------------------------------------------------------ the ordering

  /** Preflight lookups, then evictions, then polls. */
  function Stage(a: Act): nat {
    match a
    case Verified(_, _) => 0
    case Asked(_) => 1
    case Concluded(_, _) => 1
    case Polled(_, _) => 2
    case Emitted(_) => 0
  }

  ghost predicate InStages(trace: Trace) {
    forall i, j :: 0 <= i < j < |trace| && !trace[i].Emitted? && !trace[j].Emitted? ==>
      Stage(trace[i]) <= Stage(trace[j])
  }

  ghost predicate UpTo(trace: Trace, stage: nat) {
    InStages(trace) && forall i :: 0 <= i < |trace| ==> Stage(trace[i]) <= stage
  }

  lemma UpToSnoc(trace: Trace, a: Act, stage: nat)
    requires UpTo(trace, stage) && (a.Emitted? || Stage(a) == stage)
    ensures UpTo(trace + [a], stage)
  {
  }

  // -------------------------------------------------------------- accounting

  /** How many pods are confirmed gone. */
  function Tally(completed: seq<bool>): nat {
    if |completed| == 0 then 0
    else Tally(completed[..|completed| - 1]) + if completed[|completed| - 1] then 1 else 0
  }

  /** finish: the pods not confirmed gone, in list order. */
  function Remaining(pods: seq<Pod>, completed: seq<bool>): seq<string>
    requires |completed| == |pods|
  {
    if |pods| == 0 then []
    else
      var n := |pods| - 1;
      var rest := Remaining(pods[..n], completed[..n]);
      if completed[n] then rest else rest + [RefOf(pods[n])]
  }

  /** Every pod is either counted or listed. */
  lemma {:induction false} AllAccounted(pods: seq<Pod>, completed: seq<bool>)
    requires |completed| == |pods|
    ensures Tally(completed) + |Remaining(pods, completed)| == |pods|
    decreases |pods|
  {
    if |pods| > 0 {
      AllAccounted(pods[..|pods| - 1], completed[..|pods| - 1]);
    }
  }

  lemma {:induction false} TallyMark(completed: seq<bool>, i: nat)
    requires i < |completed| && !completed[i]
    ensures Tally(completed[i := true]) == Tally(completed) + 1
    decreases |completed|
  {
    var n := |completed| - 1;
    if i == n {
      assert completed[i := true][..n] == completed[..n];
    } else {
      TallyMark(completed[..n], i);
      assert completed[i := true][..n] == completed[..n][i := true];
    }
  }

  predicate IsGone(a: Act) {
    a.Polled? && a.finding.Gone?
  }

  /** No pod is confirmed gone twice. */
  ghost predicate GoneOnce(trace: Trace) {
    forall i, j :: 0 <= i < j < |trace| && IsGone(trace[i]) && IsGone(trace[j]) ==> trace[i].i != trace[j].i
  }

  /** Progress events so far: none is terminal, none runs ahead of the count. */
  ghost predicate Reported(trace: Trace, done: nat, total: nat) {
    forall k :: 0 <= k < |trace| && trace[k].Emitted? ==>
      !Terminal(trace[k].ev) && trace[k].ev.done <= done && trace[k].ev.total == total
  }

  /** The count, the flags and the trace agree. */
  ghost predicate Books(pods: seq<Pod>, trace: Trace, done: nat, completed: seq<bool>) {
    && |completed| == |pods| && done == Tally(completed)
    && (forall i: nat :: i < |pods| ==> (completed[i] <==> Polled(i, Gone) in trace))
    && (forall k :: 0 <= k < |trace| && trace[k].Polled? ==> trace[k].i < |pods|)
    && GoneOnce(trace) && Reported(trace, done, |pods|)
  }

  /** Anything but a confirmation leaves the books as they are. */
  lemma BooksSnoc(pods: seq<Pod>, trace: Trace, done: nat, completed: seq<bool>, a: Act)
    requires Books(pods, trace, done, completed)
    requires a.Emitted? ==> !Terminal(a.ev) && a.ev.done <= done && a.ev.total == |pods|
    requires a.Polled? ==> !a.finding.Gone? && a.i < |pods|
    ensures Books(pods, trace + [a], done, completed)
  {
    forall i: nat | i < |pods| ensures Polled(i, Gone) in trace + [a] <==> Polled(i, Gone) in trace {
    }
  }

  /** A confirmation adds one, once. */
  lemma BooksConfirm(pods: seq<Pod>, trace: Trace, done: nat, completed: seq<bool>, i: nat)
    requires Books(pods, trace, done, completed) && i < |pods| && !completed[i]
    ensures Books(pods, trace + [Polled(i, Gone)], done + 1, completed[i := true])
  {
    TallyMark(completed, i);
    var t := trace + [Polled(i, Gone)];
    assert t[|trace|] == Polled(i, Gone);
    forall k: nat | k < |pods| ensures completed[i := true][k] <==> Polled(k, Gone) in t {
      assert Polled(k, Gone) in t <==> Polled(k, Gone) in trace || k == i;
    }
    forall m, n | 0 <= m < n < |t| && IsGone(t[m]) && IsGone(t[n])
      ensures t[m].i != t[n].i
    {
      if n == |trace| { assert t[m] in trace; }
    }
  }

  /** Pods whose eviction was accepted and that are not confirmed gone, in list order. */
  ghost predicate Outstanding(pending: seq<nat>, completed: seq<bool>) {
    && (forall a, b :: 0 <= a < b < |pending| ==> pending[a] < pending[b])
    && (forall a :: 0 <= a < |pending| ==> pending[a] < |completed| && !completed[pending[a]])
  }

  // --------------------------------------------------------- the whole trace

  /** No pod is polled that was not asked to go, and nobody is asked before all are cleared. */
  ghost predicate Justified(pods: seq<Pod>, trace: Trace) {
    && (forall k :: 0 <= k < |trace| && (trace[k].Polled? || trace[k].Concluded?) ==> Asked(trace[k].i) in trace)
    && (forall k :: 0 <= k < |trace| && trace[k].Asked? ==>
          trace[k].i < |pods| && forall p :: p in pods ==> Cleared(p, trace))
  }

  /** Everything a drain keeps while it runs, in or before the given stage. */
  ghost predicate Sound(pods: seq<Pod>, trace: Trace, done: nat, completed: seq<bool>, stage: nat) {
    Books(pods, trace, done, completed) && UpTo(trace, stage) && Justified(pods, trace)
  }

  /** One more act of the current stage, other than a confirmation. */
  lemma SoundSnoc(pods: seq<Pod>, trace: Trace, done: nat, completed: seq<bool>, stage: nat, a: Act)
    requires Sound(pods, trace, done, completed, stage)
    requires a.Emitted? || Stage(a) == stage
    requires a.Emitted? ==> !Terminal(a.ev) && a.ev.done <= done && a.ev.total == |pods|
    requires a.Polled? ==> !a.finding.Gone? && a.i < |pods| && Asked(a.i) in trace
    requires a.Concluded? ==> Asked(a.i) in trace
    requires a.Asked? ==> a.i < |pods| && forall p :: p in pods ==> Cleared(p, trace)
    ensures Sound(pods, trace + [a], done, completed, stage)
  {
    hide Books, UpTo;
    BooksSnoc(pods, trace, done, completed, a);
    UpToSnoc(trace, a, stage);
    JustifiedSnoc(pods, trace, a);
  }

  lemma JustifiedSnoc(pods: seq<Pod>, trace: Trace, a: Act)
    requires Justified(pods, trace)
    requires a.Polled? || a.Concluded? ==> Asked(a.i) in trace
    requires a.Asked? ==> a.i < |pods| && forall p :: p in pods ==> Cleared(p, trace)
    ensures Justified(pods, trace + [a])
  {
  }

  lemma SoundConfirm(pods: seq<Pod>, trace: Trace, done: nat, completed: seq<bool>, i: nat)
    requires Sound(pods, trace, done, completed, 2) && i < |pods| && |completed| == |pods| && !completed[i]
    requires Asked(i) in trace
    ensures Sound(pods, trace + [Polled(i, Gone)], done + 1, completed[i := true], 2)
  {
    hide Books, UpTo;
    BooksConfirm(pods, trace, done, completed, i);
    UpToSnoc(trace, Polled(i, Gone), 2);
    JustifiedSnoc(pods, trace, Polled(i, Gone));
  }

  lemma NextStage(pods: seq<Pod>, trace: Trace, done: nat, completed: seq<bool>, stage: nat)
    requires Sound(pods, trace, done, completed, stage)
    ensures Sound(pods, trace, done, completed, stage + 1)
  {
  }

  /** Why each pod was or was not counted: all were asked to go; a pod whose eviction was accepted is
      confirmed gone, or a check of it failed; for any other its eviction was given up. */
  ghost predicate Explained(pods: seq<Pod>, completed: seq<bool>, trace: Trace)
    requires |completed| == |pods|
  {
    forall i: nat :: i < |pods| ==>
      && Asked(i) in trace
      && if Concluded(i, true) in trace then completed[i] || Polled(i, Unclear) in trace
         else Concluded(i, false) in trace
  }

  /** A finished drain of `pods`: preflight before evictions before polls, and one terminal
      event, last, that accounts for every pod. */
  ghost predicate Closed(pods: seq<Pod>, completed: seq<bool>, trace: Trace) {
    && |trace| > 0 && trace[|trace| - 1].Emitted? && |completed| == |pods|
    && var (before, last) := (trace[..|trace| - 1], trace[|trace| - 1].ev);
      && Terminal(last) && Sound(pods, before, last.done, completed, 2)
      && last.total == |pods| && last.remaining == Remaining(pods, completed)
  }

  /** What a reader of the events can rely on. */
  lemma ClosedAccounts(pods: seq<Pod>, completed: seq<bool>, trace: Trace)
    requires Closed(pods, completed, trace)
    ensures var last := trace[|trace| - 1].ev;
      && last.done + |last.remaining| == last.total == |pods|
      && last.done == Tally(completed) && last.remaining == Remaining(pods, completed)
      && (forall k :: 0 <= k < |trace| - 1 && trace[k].Emitted? ==> !Terminal(trace[k].ev))
      && (forall i: nat :: i < |pods| ==> (completed[i] <==> Polled(i, Gone) in trace))
  {
    AllAccounted(pods, completed);
    var before := trace[..|trace| - 1];
    assert trace == before + [trace[|trace| - 1]];
    forall i: nat | i < |pods| ensures completed[i] <==> Polled(i, Gone) in trace {
      assert Polled(i, Gone) in trace <==> Polled(i, Gone) in before;
    }
  }
}
