/** Node drain as a function of everything outside it: the API's replies, the moment the context is
    done, and which progress events that loses. Time counts requests, waits and sends; from
    `deadline` on the context is done, by the user or by the drain's own timeout, so it can become
    done between any check and what follows it. What DrainTrace asks of a drain is proved of this
    function, for every script. */
module DrainSpec {
  import opened DrainTrace
  import opened Options

  const PDB_MAX_RETRIES := 5

  datatype Reply = Ok | NotFound | TooMany | Failed(err: string)

  datatype Current = Missing | Found(uid: string) | Unknown(err: string)

  /** `setup` is the first failure before the pods are listed, if any; `drops` says whether a
      progress event is lost once the context is done, and `noticed` whether a select that could
      take either branch takes the context's. */
  datatype World = World(
    deadline: nat, drops: nat -> bool, noticed: nat -> bool,
    setup: Option<string>, list: Option<seq<Pod>>,
    verify: (nat, Key) -> bool, evict: (nat, nat) -> Reply, get: (nat, nat) -> Current)

  predicate Cancelled(w: World, t: nat) {
    t >= w.deadline
  }

  /** The clock and the trace. */
  datatype Log = Log(t: nat, trace: Trace)

  function Acted(s: Log, a: Act): Log {
    Log(s.t + 1, s.trace + [a])
  }

  /** What the drain takes note of, at no cost in time. */
  function Noted(s: Log, a: Act): Log {
    s.(trace := s.trace + [a])
  }

  /** A progress event; lost only when the context is done by the time it is sent. */
  function Sent(w: World, s: Log, ev: Event): Log {
    if Cancelled(w, s.t + 1) && w.drops(s.t + 1) then s.(t := s.t + 1) else Acted(s, Emitted(ev))
  }

  predicate Accepts(r: Reply) {
    r.Ok? || r.NotFound?
  }

  predicate SaysGone(c: Current, uid: string) {
    c.Missing? || (c.Found? && c.uid != uid)
  }

  function Progress(phase: Phase, pods: seq<Pod>, i: nat, done: nat, err: string): Event
    requires i < |pods|
  {
    Event(phase, RefOf(pods[i]), done, |pods|, err, [])
  }

  // -------------------------------------------------------------- preflight

  datatype Checked = Checked(s: Log, safe: bool, known: set<Key>)

  /** drainPreflight.check: no local data, and a live controller, looked up once. */
  function Check(w: World, s: Log, p: Pod, known: set<Key>): Checked {
    if p.emptyDir || p.owner.None? then Checked(s, false, known)
    else if p.owner.value in known then Checked(s, true, known)
    else
      var ok := w.verify(s.t, p.owner.value);
      Checked(Acted(s, Verified(p.owner.value, ok)), ok, if ok then known + {p.owner.value} else known)
  }

  datatype Listing = Listing(s: Log, pods: Option<seq<Pod>>)

  function ListFrom(w: World, s: Log, all: seq<Pod>, out: seq<Pod>, known: set<Key>): Listing
    decreases |all|
  {
    if |all| == 0 then Listing(s, Some(out))
    else if Skipped(all[0]) then ListFrom(w, s, all[1..], out, known)
    else
      var c := Check(w, s, all[0], known);
      if c.safe then ListFrom(w, c.s, all[1..], out + [all[0]], c.known) else Listing(c.s, None)
  }

  // --------------------------------------------------------------- eviction

  datatype Eviction = Eviction(s: Log, err: Option<string>)

  /** evictWithRetry from a given attempt on; a wait takes time before it can be cut short. */
  function Evict(w: World, s: Log, i: nat, attempt: nat): Eviction
    decreases PDB_MAX_RETRIES - attempt
  {
    var reply, s1 := w.evict(s.t, i), Acted(s, Asked(i));
    if Accepts(reply) then Eviction(s1, None)
    else if reply.Failed? then Eviction(s1, Some(reply.err))
    else if attempt >= PDB_MAX_RETRIES then Eviction(s1, Some("PDB blocked after 5 retries"))
    else
      var s2 := s1.(t := s1.t + 1);
      if Cancelled(w, s2.t) && w.noticed(s2.t) then Eviction(s2, Some("cancelled")) else Evict(w, s2, i, attempt + 1)
  }

  datatype Requests = Requests(s: Log, pending: seq<nat>, cancelled: bool)

  /** The eviction loop from pod `i` on: all requests go out before anything is polled. */
  function RequestFrom(w: World, s: Log, pods: seq<Pod>, i: nat, pending: seq<nat>): (r: Requests)
    requires i <= |pods| && forall k :: 0 <= k < |pending| ==> pending[k] < |pods|
    ensures forall k :: 0 <= k < |r.pending| ==> r.pending[k] < |pods|
    decreases |pods| - i
  {
    if i == |pods| then Requests(s, pending, false)
    else if Cancelled(w, s.t) then Requests(s, pending, true)
    else
      var e := Evict(w, Sent(w, s, Progress(Evicting, pods, i, 0, "")), i, 0);
      var s1 := Noted(e.s, Concluded(i, e.err.None?));
      if e.err.None? then
        RequestFrom(w, Sent(w, s1, Progress(Accepted, pods, i, 0, "")), pods, i + 1, pending + [i])
      else if Cancelled(w, s1.t) then Requests(s1, pending, true)
      else RequestFrom(w, Sent(w, s1, Progress(Blocked, pods, i, 0, e.err.value)), pods, i + 1, pending)
  }

  // ---------------------------------------------------------------- polling

  datatype Poll = Poll(s: Log, done: nat, completed: seq<bool>, kept: seq<nat>, cancelled: bool)

  predicate InRange(idx: seq<nat>, n: nat) {
    forall k :: 0 <= k < |idx| ==> idx[k] < n
  }

  /** What the poll of a pod at this time says. */
  function FindingAt(w: World, t: nat, pods: seq<Pod>, i: nat): Finding
    requires i < |pods|
  {
    var current := w.get(t, i);
    if Cancelled(w, t + 1) then Late
    else if SaysGone(current, pods[i].uid) then Gone
    else if current.Unknown? then Unclear
    else Present
  }

  function ErrOf(c: Current): string {
    "confirm termination: " + if c.Unknown? then c.err else ""
  }

  /** One pod of a round: gone, unknown, or still there and kept for the next round. */
  function PollOne(w: World, p: Poll, pods: seq<Pod>, i: nat): (q: Poll)
    requires i < |pods| == |p.completed| && InRange(p.kept, |pods|)
    ensures |q.completed| == |pods| && InRange(q.kept, |pods|) && q.s.t > p.s.t
    ensures q.cancelled == (p.cancelled || Cancelled(w, p.s.t + 1))
  {
    var finding := FindingAt(w, p.s.t, pods, i);
    var s1 := Acted(p.s, Polled(i, finding));
    match finding
    case Late => p.(s := s1, cancelled := true)
    case Gone =>
      p.(s := Sent(w, s1, Progress(Evicted, pods, i, p.done + 1, "")),
         done := p.done + 1, completed := p.completed[i := true])
    case Unclear => p.(s := Sent(w, s1, Progress(Blocked, pods, i, p.done, ErrOf(w.get(p.s.t, i)))))
    case Present => p.(s := s1, kept := p.kept + [i])
  }

  /** A round over what is pending. */
  function PollFrom(w: World, p: Poll, pods: seq<Pod>, todo: seq<nat>): (q: Poll)
    requires |p.completed| == |pods| && InRange(todo, |pods|) && InRange(p.kept, |pods|)
    ensures |q.completed| == |pods| && InRange(q.kept, |pods|) && q.s.t >= p.s.t
    ensures |todo| > 0 && !p.cancelled ==> q.s.t > p.s.t && (Cancelled(w, p.s.t) ==> q.cancelled)
    ensures q.cancelled && !p.cancelled ==> Cancelled(w, q.s.t)
    decreases |todo|
  {
    if |todo| == 0 || p.cancelled then p else PollFrom(w, PollOne(w, p, pods, todo[0]), pods, todo[1..])
  }

  /** Rounds until nothing is pending or the context is done. */
  function Await(w: World, p: Poll, pods: seq<Pod>): (q: Poll)
    requires |p.completed| == |pods| && InRange(p.kept, |pods|)
    ensures |q.completed| == |pods|
    decreases if Cancelled(w, p.s.t) then 0 else w.deadline - p.s.t
  {
    if |p.kept| == 0 || p.cancelled then p
    else
      var q := PollFrom(w, p.(kept := []), pods, p.kept);
      if q.cancelled || |q.kept| == 0 then q
      else
        var s1 := q.s.(t := q.s.t + 1);
        if Cancelled(w, s1.t) && w.noticed(s1.t) then q.(s := s1, cancelled := true) else Await(w, q.(s := s1), pods)
  }

  // -------------------------------------------------------------- the whole

  datatype Outcome = Outcome(s: Log, pods: seq<Pod>, completed: seq<bool>)

  /** finish: the terminal event is always delivered. */
  function Finished(s: Log, pods: seq<Pod>, done: nat, completed: seq<bool>, err: Option<string>): Outcome
    requires |completed| == |pods|
  {
    var ev := Event(if err.Some? then Error else Done, "", done, |pods|,
                    if err.Some? then err.value else "", Remaining(pods, completed));
    Outcome(s.(trace := s.trace + [Emitted(ev)]), pods, completed)
  }

  function NoneDone(n: nat): (c: seq<bool>)
    ensures |c| == n && forall i :: 0 <= i < n ==> !c[i]
  {
    seq(n, _ => false)
  }

  function WaitEvent(total: nat): Event {
    Event(Waiting, "", 0, total, "", [])
  }

  /** Evictions, then polling, then the end. */
  function DrainListed(w: World, s: Log, pods: seq<Pod>): Outcome {
    var r := RequestFrom(w, Sent(w, s, Event(Starting, "", 0, |pods|, "", [])), pods, 0, []);
    if r.cancelled then Finished(r.s, pods, 0, NoneDone(|pods|), Some("context done"))
    else
      var s1 := if |r.pending| > 0 then Sent(w, r.s, WaitEvent(|pods|)) else r.s;
      var q := Await(w, Poll(s1, 0, NoneDone(|pods|), r.pending, false), pods);
      Finished(q.s, pods, q.done, q.completed, if q.cancelled then Some("context done") else None)
  }

  function Drained(w: World): Outcome {
    if w.setup.Some? then Finished(Log(0, []), [], 0, [], w.setup)
    else if w.list.None? then Finished(Log(1, []), [], 0, [], Some("preflight refused"))
    else
      var l := ListFrom(w, Log(1, []), w.list.value, [], {});
      if l.pods.None? then Finished(l.s, [], 0, [], Some("preflight refused"))
      else DrainListed(w, l.s, l.pods.value)
  }

  // ------------------------------------------------------------ the theorems

  /** Every controller is confirmed at most once: the memo of drainPreflight works. */
  ghost predicate VerifiedOnce(trace: Trace) {
    forall i, j :: 0 <= i < j < |trace| && trace[i].Verified? && trace[i].ok && trace[j].Verified? ==>
      trace[i].key != trace[j].key
  }

  ghost predicate Lookups(trace: Trace) {
    VerifiedOnce(trace) && forall i :: 0 <= i < |trace| ==> trace[i].Verified?
  }

  ghost predicate Memo(known: set<Key>, trace: Trace) {
    Lookups(trace) && forall k :: k in known <==> Verified(k, true) in trace
  }

  /** Why a pod was refused. */
  ghost predicate Refused(p: Pod, trace: Trace) {
    !Skipped(p) && (p.emptyDir || p.owner.None? || Verified(p.owner.value, false) in trace)
  }

  /** What the trace says of a reply, some reply of the cluster said. */
  ghost predicate Real(w: World, pods: seq<Pod>, a: Act) {
    match a
    case Verified(key, ok) => exists t: nat :: w.verify(t, key) == ok
    case Concluded(i, accepted) => exists t: nat :: Accepts(w.evict(t, i)) == accepted
    case Polled(i, finding) => i < |pods| && exists t: nat :: FindingAt(w, t, pods, i) == finding
    case _ => true
  }

  ghost predicate AllReal(w: World, pods: seq<Pod>, trace: Trace) {
    forall k :: 0 <= k < |trace| ==> Real(w, pods, trace[k])
  }

  /** The lookups so far, with nothing made up. */
  ghost predicate Looked(w: World, known: set<Key>, trace: Trace) {
    Memo(known, trace) && AllReal(w, [], trace)
  }

  lemma CheckSound(w: World, s: Log, p: Pod, known: set<Key>)
    requires Looked(w, known, s.trace) && !Skipped(p)
    ensures var c := Check(w, s, p, known);
      && Looked(w, c.known, c.s.trace) && s.trace <= c.s.trace
      && (if c.safe then Cleared(p, c.s.trace) else Refused(p, c.s.trace))
  {
    var c := Check(w, s, p, known);
    if !p.emptyDir && p.owner.Some? && p.owner.value !in known {
      var a := Verified(p.owner.value, w.verify(s.t, p.owner.value));
      assert c.s.trace[|s.trace|] == a && Real(w, [], a);
      forall k ensures k in c.known <==> Verified(k, true) in c.s.trace {
        assert Verified(k, true) in c.s.trace <==> Verified(k, true) in s.trace || a == Verified(k, true);
      }
    }
  }

  lemma StillCleared(pods: seq<Pod>, trace0: Trace, trace: Trace)
    requires (forall p :: p in pods ==> Cleared(p, trace0)) && trace0 <= trace
    ensures forall p :: p in pods ==> Cleared(p, trace)
  {
    forall p | p in pods ensures Cleared(p, trace) {
      assert Verified(p.owner.value, true) in trace0;
    }
  }

  /** All candidates in list order, each cleared; or a pod that must not be evicted. */
  lemma {:induction false} ListSound(w: World, s: Log, all: seq<Pod>, i: nat, out: seq<Pod>, known: set<Key>)
    requires i <= |all| && Looked(w, known, s.trace) && out == Drainable(all[..i])
    requires forall p :: p in out ==> Cleared(p, s.trace)
    ensures var l := ListFrom(w, s, all[i..], out, known);
      && Lookups(l.s.trace) && AllReal(w, [], l.s.trace)
      && (l.pods.Some? ==> l.pods.value == Drainable(all) && forall p :: p in l.pods.value ==> Cleared(p, l.s.trace))
      && (l.pods.None? ==> exists p :: p in all && Refused(p, l.s.trace))
    decreases |all| - i
  {
    hide Cleared, Refused, Check;
    if i == |all| {
      assert all[..i] == all;
    } else {
      var p := all[i];
      assert all[..i + 1][..i] == all[..i] && all[i..][1..] == all[i + 1..];
      if Skipped(p) {
        ListSound(w, s, all, i + 1, out, known);
      } else {
        var c := Check(w, s, p, known);
        CheckSound(w, s, p, known);
        StillCleared(out, s.trace, c.s.trace);
        if c.safe {
          ListSound(w, c.s, all, i + 1, out + [p], c.known);
        } else {
          assert p in all;
        }
      }
    }
  }

  /** A drain so far: sound, and nothing in its trace made up. */
  ghost predicate Right(w: World, pods: seq<Pod>, trace: Trace, done: nat, completed: seq<bool>, stage: nat) {
    Sound(pods, trace, done, completed, stage) && AllReal(w, pods, trace)
  }

  /** One more act of the current stage, other than a confirmation. */
  lemma RightSnoc(w: World, pods: seq<Pod>, trace: Trace, done: nat, completed: seq<bool>, stage: nat, a: Act)
    requires Right(w, pods, trace, done, completed, stage) && Real(w, pods, a)
    requires a.Emitted? || Stage(a) == stage
    requires a.Emitted? ==> !Terminal(a.ev) && a.ev.done <= done && a.ev.total == |pods|
    requires a.Polled? ==> !a.finding.Gone? && a.i < |pods| && Asked(a.i) in trace
    requires a.Concluded? ==> Asked(a.i) in trace
    requires a.Asked? ==> a.i < |pods| && forall p :: p in pods ==> Cleared(p, trace)
    ensures Right(w, pods, trace + [a], done, completed, stage)
  {
    hide Sound, Real;
    SoundSnoc(pods, trace, done, completed, stage, a);
  }

  lemma SentRight(w: World, s: Log, ev: Event, pods: seq<Pod>, done: nat, completed: seq<bool>, stage: nat)
    requires Right(w, pods, s.trace, done, completed, stage)
    requires !Terminal(ev) && ev.done <= done && ev.total == |pods|
    ensures Right(w, pods, Sent(w, s, ev).trace, done, completed, stage) && s.trace <= Sent(w, s, ev).trace
    ensures Sent(w, s, ev).t == s.t + 1
  {
    hide Right;
    RightSnoc(w, pods, s.trace, done, completed, stage, Emitted(ev));
  }

  lemma {:induction false} EvictRight(w: World, s: Log, i: nat, attempt: nat, pods: seq<Pod>, completed: seq<bool>)
    requires Right(w, pods, s.trace, 0, completed, 1) && i < |pods| && attempt <= PDB_MAX_RETRIES
    requires forall p :: p in pods ==> Cleared(p, s.trace)
    ensures Right(w, pods, Evict(w, s, i, attempt).s.trace, 0, completed, 1)
    decreases PDB_MAX_RETRIES - attempt
  {
    hide Right, Cleared, Cancelled;
    var s1 := Acted(s, Asked(i));
    RightSnoc(w, pods, s.trace, 0, completed, 1, Asked(i));
    if w.evict(s.t, i).TooMany? && attempt < PDB_MAX_RETRIES {
      StillCleared(pods, s.trace, s1.trace);
      EvictRight(w, s1.(t := s1.t + 1), i, attempt + 1, pods, completed);
    }
  }

  /** Ascending times before `end`, the first of them `start`. */
  ghost predicate Times(ts: seq<nat>, start: nat, end: nat) {
    && |ts| > 0 && ts[0] == start && ts[|ts| - 1] < end
    && forall a, b :: 0 <= a < b < |ts| ==> ts[a] < ts[b]
  }

  lemma TimesCons(t: nat, ts: seq<nat>, start: nat, end: nat)
    requires Times(ts, start, end) && t < start
    ensures Times([t] + ts, t, end) && ([t] + ts)[|ts|] == ts[|ts| - 1]
    ensures forall k :: 0 < k < |ts| + 1 ==> ([t] + ts)[k] == ts[k - 1]
  {
  }

  /** Why the requests for a pod stopped, given the times they were made at: all but the last were
      turned down for its disruption budget. It is accepted when the last reply took the request or
      found the pod gone, and fails for the reason that reply gave; it is given up on for the budget
      only after the last attempt or when the context is done. */
  lemma {:induction false} EvictReason(w: World, s: Log, i: nat, attempt: nat) returns (ts: seq<nat>)
    requires attempt <= PDB_MAX_RETRIES
    ensures var e := Evict(w, s, i, attempt);
      && Times(ts, s.t, e.s.t) && |e.s.trace| - |s.trace| == |ts| <= 6 - attempt
      && (forall k :: 0 <= k < |ts| - 1 ==> w.evict(ts[k], i) == TooMany)
      && match w.evict(ts[|ts| - 1], i)
         case Ok => e.err == None
         case NotFound => e.err == None
         case Failed(err) => e.err == Some(err)
         case TooMany => e.err.Some? && (|ts| == 6 - attempt || Cancelled(w, e.s.t))
    decreases PDB_MAX_RETRIES - attempt
  {
    hide Cancelled;
    var s2 := Acted(s, Asked(i)).(t := s.t + 2);
    ts := [s.t];
    if w.evict(s.t, i).TooMany? && attempt < PDB_MAX_RETRIES && !(Cancelled(w, s2.t) && w.noticed(s2.t)) {
      hide Times;
      var rest := EvictReason(w, s2, i, attempt + 1);
      TimesCons(s.t, rest, s2.t, Evict(w, s2, i, attempt + 1).s.t);
      assert |rest| > 0 by { TimesSome(rest, s2.t, Evict(w, s2, i, attempt + 1).s.t); }
      ts := [s.t] + rest;
    }
  }

  lemma TimesSome(ts: seq<nat>, start: nat, end: nat)
    requires Times(ts, start, end)
    ensures |ts| > 0
  {
  }

  /** All requests made for a pod are for that pod. */
  lemma {:induction false} EvictAsks(w: World, s: Log, i: nat, attempt: nat)
    requires attempt <= PDB_MAX_RETRIES
    ensures var e := Evict(w, s, i, attempt);
      s.trace <= e.s.trace && forall k :: |s.trace| <= k < |e.s.trace| ==> e.s.trace[k] == Asked(i)
    decreases PDB_MAX_RETRIES - attempt
  {
    var s2, e := Acted(s, Asked(i)).(t := s.t + 2), Evict(w, s, i, attempt);
    if w.evict(s.t, i).TooMany? && attempt < PDB_MAX_RETRIES && !(Cancelled(w, s2.t) && w.noticed(s2.t)) {
      EvictAsks(w, s2, i, attempt + 1);
      assert e == Evict(w, s2, i, attempt + 1);
    } else {
      assert e.s.trace == s2.trace;
    }
    AsksJoin(s.trace, e.s.trace, i);
  }

  lemma AsksJoin(trace0: Trace, trace: Trace, i: nat)
    requires trace0 + [Asked(i)] <= trace
    requires forall k :: |trace0| + 1 <= k < |trace| ==> trace[k] == Asked(i)
    ensures trace0 <= trace && forall k :: |trace0| <= k < |trace| ==> trace[k] == Asked(i)
  {
    assert trace[|trace0|] == (trace0 + [Asked(i)])[|trace0|];
  }

  /** What waits for termination: accepted, not confirmed gone, in list order. */
  ghost predicate Queued(trace: Trace, pending: seq<nat>, completed: seq<bool>) {
    Outstanding(pending, completed) && forall a :: 0 <= a < |pending| ==> Asked(pending[a]) in trace
  }

  lemma QueuedGrows(trace0: Trace, trace: Trace, pending: seq<nat>, completed: seq<bool>)
    requires Queued(trace0, pending, completed) && trace0 <= trace
    ensures Queued(trace, pending, completed)
  {
  }

  lemma QueuedSnoc(trace: Trace, pending: seq<nat>, completed: seq<bool>, i: nat)
    requires Queued(trace, pending, completed) && i < |completed| && !completed[i] && Asked(i) in trace
    requires forall a :: 0 <= a < |pending| ==> pending[a] < i
    ensures Queued(trace, pending + [i], completed)
  {
  }

  /** Every pod before `i` was asked and an end was put to it; `pending` is those that accepted. */
  ghost predicate Requested(trace: Trace, i: nat, pending: seq<nat>) {
    && (forall j: nat :: j < i ==>
          Asked(j) in trace && (Concluded(j, true) in trace || Concluded(j, false) in trace))
    && (forall j: nat :: Concluded(j, true) in trace <==> j in pending)
  }

  /** What a request adds to a trace: requests for `i`, then the conclusion, and events. */
  ghost predicate Adds(trace0: Trace, trace: Trace, i: nat) {
    && trace0 <= trace
    && forall k :: |trace0| <= k < |trace| ==> trace[k].Emitted? || trace[k] == Asked(i)
  }

  lemma RequestedGrows(trace0: Trace, trace: Trace, i: nat, pending: seq<nat>)
    requires Requested(trace0, i, pending) && Adds(trace0, trace, i)
    ensures Requested(trace, i, pending)
  {
    forall j: nat ensures Concluded(j, true) in trace <==> Concluded(j, true) in trace0 {
      if Concluded(j, true) in trace {
        var k :| 0 <= k < |trace| && trace[k] == Concluded(j, true);
        assert trace0[k] == trace[k];
      }
    }
  }

  lemma RequestedSnoc(trace: Trace, i: nat, pending: seq<nat>, accepted: bool)
    requires Requested(trace, i, pending) && Asked(i) in trace
    ensures Requested(trace + [Concluded(i, accepted)], i + 1, if accepted then pending + [i] else pending)
  {
    var t := trace + [Concluded(i, accepted)];
    assert t[|trace|] == Concluded(i, accepted);
    forall j: nat ensures Concluded(j, true) in t <==> Concluded(j, true) in trace || (accepted && j == i) {
    }
  }

  /** One pod's requests, up to the conclusion. */
  lemma RequestOne(w: World, s: Log, pods: seq<Pod>, i: nat, pending: seq<nat>, completed: seq<bool>)
    requires i < |pods| && Right(w, pods, s.trace, 0, completed, 1) && Queued(s.trace, pending, completed)
    requires Requested(s.trace, i, pending) && forall p :: p in pods ==> Cleared(p, s.trace)
    ensures var e := Evict(w, Sent(w, s, Progress(Evicting, pods, i, 0, "")), i, 0);
      var s1 := Noted(e.s, Concluded(i, e.err.None?));
      && Right(w, pods, s1.trace, 0, completed, 1) && s.trace <= s1.trace && Asked(i) in s1.trace
      && Queued(s1.trace, pending, completed)
      && Requested(s1.trace, i + 1, if e.err.None? then pending + [i] else pending)
      && forall p :: p in pods ==> Cleared(p, s1.trace)
  {
    hide Right, Cleared, Queued, Requested, Evict;
    var ev := Progress(Evicting, pods, i, 0, "");
    var s0 := Sent(w, s, ev);
    SentRight(w, s, ev, pods, 0, completed, 1);
    StillCleared(pods, s.trace, s0.trace);
    var e := Evict(w, s0, i, 0);
    EvictRight(w, s0, i, 0, pods, completed);
    EvictAsks(w, s0, i, 0);
    var times := EvictReason(w, s0, i, 0);
    var last := times[|times| - 1];
    assert e.s.trace[|s0.trace|] == Asked(i);
    assert Adds(s.trace, e.s.trace, i);
    RequestedGrows(s.trace, e.s.trace, i, pending);
    assert Accepts(w.evict(last, i)) == e.err.None?;
    RightSnoc(w, pods, e.s.trace, 0, completed, 1, Concluded(i, e.err.None?));
    RequestedSnoc(e.s.trace, i, pending, e.err.None?);
    var s1 := Noted(e.s, Concluded(i, e.err.None?));
    StillCleared(pods, s.trace, s1.trace);
    QueuedGrows(s.trace, s1.trace, pending, completed);
  }

  lemma {:induction false} RequestSound(w: World, s: Log, pods: seq<Pod>, i: nat, pending: seq<nat>,
                                        completed: seq<bool>)
    requires i <= |pods| && Right(w, pods, s.trace, 0, completed, 1) && Queued(s.trace, pending, completed)
    requires (forall a :: 0 <= a < |pending| ==> pending[a] < i) && Requested(s.trace, i, pending)
    requires |completed| == |pods| && (forall k :: 0 <= k < |pods| ==> !completed[k])
    requires forall p :: p in pods ==> Cleared(p, s.trace)
    ensures var r := RequestFrom(w, s, pods, i, pending);
      && Right(w, pods, r.s.trace, 0, completed, 1) && Queued(r.s.trace, r.pending, completed)
      && (if r.cancelled then Cancelled(w, r.s.t) else Requested(r.s.trace, |pods|, r.pending))
    decreases |pods| - i
  {
    hide Right, Cleared, Queued, Requested, Evict;
    if i < |pods| && !Cancelled(w, s.t) {
      RequestOne(w, s, pods, i, pending, completed);
      var e := Evict(w, Sent(w, s, Progress(Evicting, pods, i, 0, "")), i, 0);
      var s1 := Noted(e.s, Concluded(i, e.err.None?));
      var ev := if e.err.None? then Progress(Accepted, pods, i, 0, "") else Progress(Blocked, pods, i, 0, e.err.value);
      var s2, more := Sent(w, s1, ev), if e.err.None? then pending + [i] else pending;
      SentRight(w, s1, ev, pods, 0, completed, 1);
      StillCleared(pods, s1.trace, s2.trace);
      if e.err.None? { QueuedSnoc(s1.trace, pending, completed, i); }
      QueuedGrows(s1.trace, s2.trace, more, completed);
      assert Adds(s1.trace, s2.trace, i + 1);
      RequestedGrows(s1.trace, s2.trace, i + 1, more);
      if e.err.None? || !Cancelled(w, s1.t) {
        RequestSound(w, s2, pods, i + 1, more, completed);
      }
    }
  }

  /** Where every pod stands while polling goes on: asked, and, if it accepted, counted, still waiting,
      or one whose check failed. */
  ghost predicate Tracked(trace: Trace, n: nat, pending: seq<nat>, completed: seq<bool>) {
    && n == |completed|
    && forall j: nat :: j < n ==>
         && Asked(j) in trace
         && if Concluded(j, true) in trace then completed[j] || j in pending || Polled(j, Unclear) in trace
            else Concluded(j, false) in trace
  }

  lemma TrackedFromRequests(trace: Trace, n: nat, pending: seq<nat>, completed: seq<bool>)
    requires Requested(trace, n, pending) && |completed| == n
    ensures Tracked(trace, n, pending, completed)
  {
  }

  /** More trace without conclusions; entries may leave the queue when they are counted or unclear. */
  lemma TrackedGrows(trace0: Trace, trace: Trace, n: nat, pending0: seq<nat>, pending: seq<nat>,
                     completed0: seq<bool>, completed: seq<bool>)
    requires Tracked(trace0, n, pending0, completed0) && trace0 <= trace && |completed| == n
    requires forall k :: |trace0| <= k < |trace| ==> !trace[k].Concluded?
    requires forall j: nat :: j < n && completed0[j] ==> completed[j]
    requires forall j :: j in pending0 && j !in pending ==> (j < n && completed[j]) || Polled(j, Unclear) in trace
    ensures Tracked(trace, n, pending, completed)
  {
    forall j: nat | j < n ensures Concluded(j, true) in trace <==> Concluded(j, true) in trace0 {
      if Concluded(j, true) in trace {
        var k :| 0 <= k < |trace| && trace[k] == Concluded(j, true);
        assert trace0[k] == trace[k];
      }
    }
    assert forall j: nat :: Polled(j, Unclear) in trace0 ==> Polled(j, Unclear) in trace;
  }

  /** During a round: what is kept so far and what is still to look at. */
  ghost predicate InRound(w: World, pods: seq<Pod>, p: Poll, todo: seq<nat>) {
    && |p.completed| == |pods| && Right(w, pods, p.s.trace, p.done, p.completed, 2)
    && Queued(p.s.trace, p.kept + todo, p.completed) && Tracked(p.s.trace, |pods|, p.kept + todo, p.completed)
  }

  /** Keeping, or losing, the entry at the head of what is left to look at. */
  lemma QueueMoves(trace: Trace, kept: seq<nat>, todo: seq<nat>, completed: seq<bool>)
    requires |todo| > 0 && Queued(trace, kept + todo, completed)
    ensures todo[0] < |completed| && !completed[todo[0]] && Asked(todo[0]) in trace
    ensures kept + [todo[0]] + todo[1..] == kept + todo
    ensures Queued(trace, kept + todo[1..], completed) && Queued(trace, kept + todo[1..], completed[todo[0] := true])
    ensures forall j :: j in kept + todo && j !in kept + todo[1..] ==> j == todo[0]
  {
    var p, q := kept + todo, kept + todo[1..];
    assert p[|kept|] == todo[0];
    assert kept + [todo[0]] + todo[1..] == p;
    assert forall a :: 0 <= a < |q| ==> q[a] == p[if a < |kept| then a else a + 1];
    assert forall a :: 0 <= a < |q| ==> q[a] != todo[0];
  }

  /** A poll counts a pod exactly when the cluster says, in time, that it is gone or replaced. */
  lemma PollCounts(w: World, p: Poll, pods: seq<Pod>, i: nat)
    requires i < |pods| == |p.completed| && InRange(p.kept, |pods|) && !p.completed[i]
    ensures var q := PollOne(w, p, pods, i);
      && (q.completed[i] <==>
            && !Cancelled(w, p.s.t + 1)
            && (w.get(p.s.t, i) == Missing || (w.get(p.s.t, i).Found? && w.get(p.s.t, i).uid != pods[i].uid)))
      && q.done == (if q.completed[i] then p.done + 1 else p.done)
      && q.completed == (if q.completed[i] then p.completed[i := true] else p.completed)
      && (q.kept == p.kept + [i] <==> !Cancelled(w, p.s.t + 1) && w.get(p.s.t, i) == Found(pods[i].uid))
      && (q.kept == p.kept || q.kept == p.kept + [i])
  {
    assert |p.kept + [i]| == |p.kept| + 1;
  }

  /** A counted pod's event can be lost: the context was not done when the poll was checked, and is by
      the time the event is sent. */
  lemma CountedButUnreported(w: World, p: Poll, pods: seq<Pod>, i: nat)
    requires i < |pods| == |p.completed| && InRange(p.kept, |pods|) && SaysGone(w.get(p.s.t, i), pods[i].uid)
    requires w.deadline == p.s.t + 2 && w.drops(p.s.t + 2)
    ensures PollOne(w, p, pods, i).done == p.done + 1
    ensures PollOne(w, p, pods, i).s.trace == p.s.trace + [Polled(i, Gone)]
  {
  }

  lemma PollOneSound(w: World, p: Poll, pods: seq<Pod>, todo: seq<nat>)
    requires |todo| > 0 && InRound(w, pods, p, todo) && InRange(p.kept, |pods|)
    ensures todo[0] < |pods|
    ensures var q := PollOne(w, p, pods, todo[0]);
      Right(w, pods, q.s.trace, q.done, q.completed, 2) && (!q.cancelled ==> InRound(w, pods, q, todo[1..]))
  {
    hide Right, Queued, Tracked, FindingAt;
    var i, rest := todo[0], p.kept + todo[1..];
    QueueMoves(p.s.trace, p.kept, todo, p.completed);
    var q := PollOne(w, p, pods, i);
    var finding := FindingAt(w, p.s.t, pods, i);
    var s1 := Acted(p.s, Polled(i, finding));
    assert s1.trace[|p.s.trace|] == Polled(i, finding);
    if finding.Gone? {
      RightConfirm(w, pods, p.s.trace, p.done, p.completed, i, p.s.t);
    } else {
      RightSnoc(w, pods, p.s.trace, p.done, p.completed, 2, Polled(i, finding));
    }
    if finding.Gone? || finding.Unclear? {
      var ev := if finding.Gone? then Progress(Evicted, pods, i, q.done, "")
        else Progress(Blocked, pods, i, q.done, ErrOf(w.get(p.s.t, i)));
      SentRight(w, s1, ev, pods, q.done, q.completed, 2);
      QueuedGrows(p.s.trace, q.s.trace, rest, q.completed);
      TrackedGrows(p.s.trace, q.s.trace, |pods|, p.kept + todo, rest, p.completed, q.completed);
    } else if finding.Present? {
      QueuedGrows(p.s.trace, q.s.trace, p.kept + todo, p.completed);
      TrackedGrows(p.s.trace, q.s.trace, |pods|, p.kept + todo, p.kept + todo, p.completed, p.completed);
    }
  }

  lemma RightConfirm(w: World, pods: seq<Pod>, trace: Trace, done: nat, completed: seq<bool>, i: nat, t: nat)
    requires Right(w, pods, trace, done, completed, 2) && i < |pods| && |completed| == |pods| && !completed[i]
    requires Asked(i) in trace && FindingAt(w, t, pods, i) == Gone
    ensures Right(w, pods, trace + [Polled(i, Gone)], done + 1, completed[i := true], 2)
  {
    hide Sound, FindingAt;
    SoundConfirm(pods, trace, done, completed, i);
    assert Real(w, pods, Polled(i, Gone));
  }

  lemma {:induction false} PollSound(w: World, p: Poll, pods: seq<Pod>, todo: seq<nat>)
    requires InRound(w, pods, p, todo) && InRange(todo, |pods|) && InRange(p.kept, |pods|)
    ensures var q := PollFrom(w, p, pods, todo);
      Right(w, pods, q.s.trace, q.done, q.completed, 2) && (!q.cancelled ==> InRound(w, pods, q, []))
    decreases |todo|
  {
    hide Right, Queued, PollOne, Tracked;
    if |todo| == 0 {
      assert todo == [];
    } else if !p.cancelled {
      var q := PollOne(w, p, pods, todo[0]);
      PollOneSound(w, p, pods, todo);
      if q.cancelled {
        assert PollFrom(w, q, pods, todo[1..]) == q;
      } else {
        PollSound(w, q, pods, todo[1..]);
      }
    }
  }

  /** Polling ends with nothing pending, and every pod accounted for, or because the context is done. */
  lemma {:induction false} AwaitSound(w: World, p: Poll, pods: seq<Pod>)
    requires !p.cancelled && InRange(p.kept, |pods|) && InRound(w, pods, p, [])
    ensures var q := Await(w, p, pods);
      && Right(w, pods, q.s.trace, q.done, q.completed, 2)
      && (if q.cancelled then Cancelled(w, q.s.t) else q.kept == [] && Explained(pods, q.completed, q.s.trace))
    decreases if Cancelled(w, p.s.t) then 0 else w.deadline - p.s.t
  {
    hide Right, Queued, PollFrom, Tracked, Explained;
    if |p.kept| == 0 {
      NothingPending(pods, p.s.trace, p.completed);
      assert p.kept + [] == [];
    } else {
      var p0 := p.(kept := []);
      assert [] + p.kept == p.kept + [];
      PollSound(w, p0, pods, p.kept);
      var q := PollFrom(w, p0, pods, p.kept);
      if !q.cancelled && |q.kept| == 0 {
        assert q.kept + [] == [];
        NothingPending(pods, q.s.trace, q.completed);
      } else if !q.cancelled && !(Cancelled(w, q.s.t + 1) && w.noticed(q.s.t + 1)) {
        AwaitSound(w, q.(s := q.s.(t := q.s.t + 1)), pods);
      }
    }
  }

  lemma NothingPending(pods: seq<Pod>, trace: Trace, completed: seq<bool>)
    ensures |completed| == |pods| && Tracked(trace, |pods|, [], completed) ==> Explained(pods, completed, trace)
  {
  }

  lemma FinishedCloses(s: Log, pods: seq<Pod>, done: nat, completed: seq<bool>, err: Option<string>)
    requires Sound(pods, s.trace, done, completed, 2) && |completed| == |pods|
    ensures var o := Finished(s, pods, done, completed, err);
      && Closed(o.pods, o.completed, o.s.trace) && o.s.trace[..|o.s.trace| - 1] == s.trace
      && o.pods == pods && o.completed == completed && o.s.t == s.t
  {
    var o := Finished(s, pods, done, completed, err);
    assert o.s.trace[..|o.s.trace| - 1] == s.trace;
  }

  lemma LookupsRight(w: World, pods: seq<Pod>, trace: Trace)
    requires Lookups(trace) && AllReal(w, [], trace)
    ensures Right(w, pods, trace, 0, NoneDone(|pods|), 1) && Right(w, pods, trace, 0, NoneDone(|pods|), 2)
    ensures Queued(trace, [], NoneDone(|pods|)) && Requested(trace, 0, [])
  {
    NoneGone(NoneDone(|pods|));
    forall k | 0 <= k < |trace| ensures Real(w, pods, trace[k]) {
      assert Real(w, [], trace[k]);
    }
  }

  lemma {:induction false} NoneGone(completed: seq<bool>)
    requires forall i :: 0 <= i < |completed| ==> !completed[i]
    ensures Tally(completed) == 0
    decreases |completed|
  {
    if |completed| > 0 { NoneGone(completed[..|completed| - 1]); }
  }

  lemma FirstEvents(w: World, s: Log, pods: seq<Pod>)
    requires Lookups(s.trace) && AllReal(w, [], s.trace) && forall p :: p in pods ==> Cleared(p, s.trace)
    ensures var s0, none := Sent(w, s, Event(Starting, "", 0, |pods|, "", [])), NoneDone(|pods|);
      && Right(w, pods, s0.trace, 0, none, 1) && Queued(s0.trace, [], none) && Requested(s0.trace, 0, [])
      && forall p :: p in pods ==> Cleared(p, s0.trace)
  {
    hide Right, Queued, Requested, Cleared, Lookups, Sent;
    var none, start := NoneDone(|pods|), Event(Starting, "", 0, |pods|, "", []);
    var s0 := Sent(w, s, start);
    LookupsRight(w, pods, s.trace);
    SentRight(w, s, start, pods, 0, none, 1);
    SentAdds(w, s, start, 0);
    StillCleared(pods, s.trace, s0.trace);
    QueuedGrows(s.trace, s0.trace, [], none);
    RequestedGrows(s.trace, s0.trace, 0, []);
  }

  lemma SentAdds(w: World, s: Log, ev: Event, i: nat)
    ensures Adds(s.trace, Sent(w, s, ev).trace, i)
  {
  }

  lemma NextStageRight(w: World, pods: seq<Pod>, trace: Trace, done: nat, completed: seq<bool>, stage: nat)
    requires Right(w, pods, trace, done, completed, stage)
    ensures Right(w, pods, trace, done, completed, stage + 1)
  {
    NextStage(pods, trace, done, completed, stage);
  }

  /** From the eviction requests to polling. */
  lemma PollingStarts(w: World, s: Log, pods: seq<Pod>, pending: seq<nat>)
    requires Right(w, pods, s.trace, 0, NoneDone(|pods|), 1) && Queued(s.trace, pending, NoneDone(|pods|))
    requires Requested(s.trace, |pods|, pending)
    ensures var s1 := if |pending| > 0 then Sent(w, s, WaitEvent(|pods|)) else s;
      InRound(w, pods, Poll(s1, 0, NoneDone(|pods|), pending, false), [])
  {
    hide Right, Queued, Requested, Tracked, Sent;
    var none := NoneDone(|pods|);
    var s1 := if |pending| > 0 then Sent(w, s, WaitEvent(|pods|)) else s;
    NextStageRight(w, pods, s.trace, 0, none, 1);
    SentRight(w, s, WaitEvent(|pods|), pods, 0, none, 2);
    SentAdds(w, s, WaitEvent(|pods|), |pods|);
    QueuedGrows(s.trace, s1.trace, pending, none);
    RequestedGrows(s.trace, s1.trace, |pods|, pending);
    TrackedFromRequests(s1.trace, |pods|, pending, none);
    assert pending + [] == pending;
  }

  /** How a drain of listed pods ends: with every pod explained, or because the context is done. */
  ghost predicate Ended(w: World, pods: seq<Pod>, o: Outcome) {
    && |o.s.trace| > 0 && o.s.trace[|o.s.trace| - 1].Emitted? && o.pods == pods && |o.completed| == |pods|
    && if o.s.trace[|o.s.trace| - 1].ev.phase.Done? then Explained(pods, o.completed, o.s.trace)
       else Cancelled(w, o.s.t)
  }

  lemma FinishedEnds(w: World, s: Log, pods: seq<Pod>, done: nat, completed: seq<bool>, err: Option<string>)
    requires Right(w, pods, s.trace, done, completed, 2) && |completed| == |pods|
    requires if err.Some? then Cancelled(w, s.t) else Explained(pods, completed, s.trace)
    ensures var o := Finished(s, pods, done, completed, err);
      Closed(o.pods, o.completed, o.s.trace) && AllReal(w, o.pods, o.s.trace) && Ended(w, pods, o)
  {
    hide Real, Explained, Closed, Sound;
    FinishedCloses(s, pods, done, completed, err);
    FinishedReal(w, s, pods, done, completed, err);
    if err.None? { StillExplained(pods, completed, s.trace, Finished(s, pods, done, completed, err).s.trace); }
  }

  lemma StillExplained(pods: seq<Pod>, completed: seq<bool>, trace0: Trace, trace: Trace)
    requires |completed| == |pods| && Explained(pods, completed, trace0)
    requires |trace| > 0 && trace[..|trace| - 1] == trace0 && trace[|trace| - 1].Emitted?
    ensures Explained(pods, completed, trace)
  {
    assert trace == trace0 + [trace[|trace| - 1]];
    assert forall a: Act :: !a.Emitted? ==> (a in trace <==> a in trace0);
  }

  lemma FinishedReal(w: World, s: Log, pods: seq<Pod>, done: nat, completed: seq<bool>, err: Option<string>)
    requires AllReal(w, pods, s.trace) && |completed| == |pods|
    ensures AllReal(w, pods, Finished(s, pods, done, completed, err).s.trace)
  {
    var trace := Finished(s, pods, done, completed, err).s.trace;
    assert forall k :: 0 <= k < |s.trace| ==> trace[k] == s.trace[k];
  }

  lemma ListedCloses(w: World, s: Log, pods: seq<Pod>)
    requires Lookups(s.trace) && AllReal(w, [], s.trace) && forall p :: p in pods ==> Cleared(p, s.trace)
    ensures var o := DrainListed(w, s, pods);
      Closed(o.pods, o.completed, o.s.trace) && AllReal(w, o.pods, o.s.trace) && Ended(w, pods, o)
  {
    hide Right, Queued, Cleared, Closed, Lookups, RequestFrom, Await, Requested, Tracked, Ended, AllReal, Explained;
    var none, start := NoneDone(|pods|), Event(Starting, "", 0, |pods|, "", []);
    FirstEvents(w, s, pods);
    var s0 := Sent(w, s, start);
    RequestSound(w, s0, pods, 0, [], none);
    var r := RequestFrom(w, s0, pods, 0, []);
    if r.cancelled {
      NextStageRight(w, pods, r.s.trace, 0, none, 1);
      FinishedEnds(w, r.s, pods, 0, none, Some("context done"));
    } else {
      PollingStarts(w, r.s, pods, r.pending);
      var s1 := if |r.pending| > 0 then Sent(w, r.s, WaitEvent(|pods|)) else r.s;
      var p := Poll(s1, 0, none, r.pending, false);
      AwaitSound(w, p, pods);
      var q := Await(w, p, pods);
      FinishedEnds(w, q.s, pods, q.done, q.completed, if q.cancelled then Some("context done") else None);
    }
  }

  /** The drain could not start, or a pod must not be evicted: nothing was asked to go. */
  ghost predicate NotStarted(w: World, o: Outcome) {
    && (w.setup.Some? || w.list.None? || exists p :: p in w.list.value && Refused(p, o.s.trace))
    && o.pods == [] && |o.s.trace| > 0 && o.s.trace[|o.s.trace| - 1].Emitted?
    && o.s.trace[|o.s.trace| - 1].ev.phase.Error?
  }

  /** Every drain, whatever the cluster answers and whenever it is cancelled: preflight of all
      candidates before the first eviction, the last eviction request before the first poll, and one
      terminal event, last, that accounts for every candidate; nothing in its trace is made up. Either
      it reports that it could not start, or all drainable pods were candidates, and it ends with every
      one of them asked and counted, given up or not to be found out, or because the context is done. */
  lemma DrainCloses(w: World)
    ensures var o := Drained(w);
      && Closed(o.pods, o.completed, o.s.trace) && AllReal(w, o.pods, o.s.trace)
      && (NotStarted(w, o) || (w.setup.None? && w.list.Some? && Ended(w, Drainable(w.list.value), o)))
  {
    hide Sound, Cleared, Closed, Refused, Lookups, Ended, DrainListed;
    NoLookups(w);
    if w.setup.Some? {
      NothingStarted(w, Log(0, []), w.setup);
    } else if w.list.None? {
      NothingStarted(w, Log(1, []), Some("preflight refused"));
    } else {
      var all := w.list.value;
      assert all[0..] == all && all[..0] == [];
      ListSound(w, Log(1, []), all, 0, [], {});
      var l := ListFrom(w, Log(1, []), all, [], {});
      if l.pods.None? {
        NothingStarted(w, l.s, Some("preflight refused"));
        var p :| p in all && Refused(p, l.s.trace);
        StillRefused(p, l.s.trace, Drained(w).s.trace);
      } else {
        ListedCloses(w, l.s, l.pods.value);
      }
    }
  }

  lemma NothingStarted(w: World, s: Log, err: Option<string>)
    requires Lookups(s.trace) && AllReal(w, [], s.trace) && err.Some?
    ensures var o := Finished(s, [], 0, [], err);
      && Closed(o.pods, o.completed, o.s.trace) && AllReal(w, o.pods, o.s.trace)
      && o.s.trace[..|o.s.trace| - 1] == s.trace
  {
    hide Sound, Lookups;
    LookupsRight(w, [], s.trace);
    assert NoneDone(0) == [];
    FinishedCloses(s, [], 0, [], err);
    FinishedReal(w, s, [], 0, [], err);
  }

  lemma NoLookups(w: World)
    ensures Lookups([]) && Looked(w, {}, [])
  {
  }

  lemma StillRefused(p: Pod, trace0: Trace, trace: Trace)
    requires Refused(p, trace0) && |trace| > 0 && trace[..|trace| - 1] == trace0
    ensures Refused(p, trace)
  {
  }
}
