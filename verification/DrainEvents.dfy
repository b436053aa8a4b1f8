/** What a drain reports, said of what it did: every event is about the act before it and none is made
    up, and unless the context is done nothing that happened to a pod goes unreported. Also which
    pods a drain is about and which it lists in the end, by their own fields. */
module DrainEvents {
  import opened DrainTrace
  import opened DrainSpec
  import opened Options

  // ------------------------------------------------------------ which pods

  /** Ascending positions below `n`, exactly those that pass. */
  ghost predicate Picks(at: seq<nat>, n: nat, pass: nat -> bool) {
    && (forall a, b :: 0 <= a < b < |at| ==> at[a] < at[b])
    && (forall i: nat :: i in at <==> i < n && pass(i))
  }

  lemma PicksSnoc(at: seq<nat>, n: nat, pass: nat -> bool)
    requires Picks(at, n, pass)
    ensures Picks(if pass(n) then at + [n] else at, n + 1, pass)
  {
    var more := if pass(n) then at + [n] else at;
    forall a, b | 0 <= a < b < |more| ensures more[a] < more[b] {
      if b == |at| { assert at[a] in at; }
    }
    forall i: nat ensures i in more <==> i < n + 1 && pass(i) {
      assert i in more <==> i in at || (pass(n) && i == n);
    }
  }

  lemma PicksNone(pass: nat -> bool)
    ensures Picks([], 0, pass)
  {
  }

  /** Not a mirror pod, not a DaemonSet's, not finished. */
  function MustGo(all: seq<Pod>): nat -> bool {
    (i: nat) => i < |all| && !all[i].mirror && !all[i].daemonSet && !all[i].finished
  }

  /** The pods to drain are those of the node that must go, in list order. */
  lemma {:induction false} DrainableAre(all: seq<Pod>, n: nat) returns (at: seq<nat>)
    requires n <= |all|
    ensures Picks(at, n, MustGo(all)) && |at| == |Drainable(all[..n])|
    ensures forall k :: 0 <= k < |at| ==> at[k] < |all| && Drainable(all[..n])[k] == all[at[k]]
    decreases n
  {
    hide Picks;
    at := [];
    PicksNone(MustGo(all));
    if n > 0 {
      at := DrainableAre(all, n - 1);
      assert all[..n][..n - 1] == all[..n - 1];
      PicksSnoc(at, n - 1, MustGo(all));
      if MustGo(all)(n - 1) { at := at + [n - 1]; }
    }
  }

  function Unconfirmed(completed: seq<bool>): nat -> bool {
    (i: nat) => i < |completed| && !completed[i]
  }

  /** The remaining pods are those not confirmed gone, by namespace and name, in list order. */
  lemma {:induction false} RemainingAre(pods: seq<Pod>, completed: seq<bool>, n: nat) returns (at: seq<nat>)
    requires |completed| == |pods| && n <= |pods|
    ensures Picks(at, n, Unconfirmed(completed)) && |at| == |Remaining(pods[..n], completed[..n])|
    ensures forall k :: 0 <= k < |at| ==>
      at[k] < |pods| && Remaining(pods[..n], completed[..n])[k] == pods[at[k]].ns + "/" + pods[at[k]].name
    decreases n
  {
    hide Picks;
    at := [];
    PicksNone(Unconfirmed(completed));
    if n > 0 {
      at := RemainingAre(pods, completed, n - 1);
      assert pods[..n][..n - 1] == pods[..n - 1] && completed[..n][..n - 1] == completed[..n - 1];
      PicksSnoc(at, n - 1, Unconfirmed(completed));
      if Unconfirmed(completed)(n - 1) { at := at + [n - 1]; }
    }
  }

  // ----------------------------------------------------------- true events

  /** How many pods were confirmed gone. */
  function Confirmed(trace: Trace): nat {
    if |trace| == 0 then 0
    else Confirmed(trace[..|trace| - 1]) + if IsGone(trace[|trace| - 1]) then 1 else 0
  }

  /** An end was put to asking for this pod. */
  ghost predicate Settled(trace: Trace, j: nat) {
    Concluded(j, true) in trace || Concluded(j, false) in trace
  }

  /** It is this pod's turn: all before it are settled, it is not, and no pod after it was asked. */
  ghost predicate OnTurn(trace: Trace, i: nat) {
    && (forall j: nat :: j < i ==> Settled(trace, j))
    && (forall k :: 0 <= k < |trace| && trace[k].Asked? ==> trace[k].i <= i)
    && (forall k :: 0 <= k < |trace| && trace[k].Concluded? ==> trace[k].i < i)
  }

  /** An event's pod, or an act's, by namespace and name. */
  ghost predicate Names(pods: seq<Pod>, i: nat, name: string) {
    i < |pods| && name == pods[i].ns + "/" + pods[i].name
  }

  ghost predicate LastIs(trace: Trace, a: Act) {
    |trace| > 0 && trace[|trace| - 1] == a
  }

  /** What an event says is so when it is sent. */
  ghost predicate True(pods: seq<Pod>, before: Trace, ev: Event) {
    && ev.total == |pods| && ev.done == Confirmed(before)
    && match ev.phase
       case Starting => forall k :: 0 <= k < |before| ==> before[k].Verified?
       case Evicting => exists i :: Names(pods, i, ev.pod) && OnTurn(before, i) && Asked(i) !in before
       case Accepted => exists i :: Names(pods, i, ev.pod) && LastIs(before, Concluded(i, true))
       case Blocked =>
         exists i ::
           Names(pods, i, ev.pod) && (LastIs(before, Concluded(i, false)) || LastIs(before, Polled(i, Unclear)))
       case Waiting =>
         && (forall j: nat :: j < |pods| ==> Settled(before, j))
         && forall k :: 0 <= k < |before| ==> !before[k].Polled?
       case Evicted => exists i :: Names(pods, i, ev.pod) && LastIs(before, Polled(i, Gone))
       case Done => true
       case Error => true
  }

  /** Pods are asked in list order, each until its end, and every event is true. */
  ghost predicate ToldAt(pods: seq<Pod>, before: Trace, a: Act) {
    match a
    case Asked(i) => i < |pods| && OnTurn(before, i)
    case Concluded(i, _) => LastIs(before, Asked(i))
    case Emitted(ev) => True(pods, before, ev)
    case _ => true
  }

  ghost predicate Told(pods: seq<Pod>, trace: Trace) {
    forall k :: 0 <= k < |trace| ==> ToldAt(pods, trace[..k], trace[k])
  }

  lemma ToldSnoc(pods: seq<Pod>, trace: Trace, a: Act)
    requires Told(pods, trace) && ToldAt(pods, trace, a)
    ensures Told(pods, trace + [a])
  {
    hide ToldAt;
    var t := trace + [a];
    forall k | 0 <= k < |t| ensures ToldAt(pods, t[..k], t[k]) {
      assert t[..k] == trace[..k];
      assert trace[..|trace|] == trace;
    }
  }

  // --------------------------------------------------------- nothing withheld

  /** What there is to report of an act. */
  function Wants(a: Act): Option<Phase> {
    match a
    case Concluded(_, true) => Some(Accepted)
    case Concluded(_, false) => Some(Blocked)
    case Polled(_, Gone) => Some(Evicted)
    case Polled(_, Unclear) => Some(Blocked)
    case _ => None
  }

  ghost predicate HeardAt(trace: Trace, k: nat)
    requires k < |trace|
  {
    Wants(trace[k]).Some? ==>
      k + 1 < |trace| && trace[k + 1].Emitted? && trace[k + 1].ev.phase == Wants(trace[k]).value
  }

  /** Each such act is followed by its event. */
  ghost predicate Heard(trace: Trace) {
    forall k: nat :: k < |trace| ==> HeardAt(trace, k)
  }

  lemma HeardSnoc(trace: Trace, a: Act)
    requires Heard(trace) && Wants(a).None?
    ensures Heard(trace + [a])
  {
    forall k: nat | k < |trace| + 1 ensures HeardAt(trace + [a], k) {
      if k < |trace| { assert HeardAt(trace, k); }
    }
  }

  lemma HeardPair(trace: Trace, a: Act, ev: Event)
    requires Heard(trace) && Wants(a) == Some(ev.phase)
    ensures Heard(trace + [a] + [Emitted(ev)])
  {
    var t := trace + [a] + [Emitted(ev)];
    forall k: nat | k < |t| ensures HeardAt(t, k) {
      if k < |trace| { assert HeardAt(trace, k); }
    }
  }

  /** The reports so far are true and, unless the context is done, complete. */
  ghost predicate Candid(w: World, pods: seq<Pod>, s: Log) {
    Told(pods, s.trace) && (Cancelled(w, s.t) || Heard(s.trace))
  }

  /** One more act that needs no report, at the same time or later. */
  lemma CandidSnoc(w: World, pods: seq<Pod>, s: Log, a: Act, t: nat)
    requires Candid(w, pods, s) && t >= s.t && Wants(a).None? && ToldAt(pods, s.trace, a)
    ensures Candid(w, pods, Log(t, s.trace + [a]))
  {
    hide Heard, Told, ToldAt, Wants;
    ToldSnoc(pods, s.trace, a);
    if Heard(s.trace) { HeardSnoc(s.trace, a); }
  }

  lemma CandidLater(w: World, pods: seq<Pod>, s: Log, t: nat)
    requires Candid(w, pods, s) && t >= s.t
    ensures Candid(w, pods, Log(t, s.trace))
  {
  }

  /** An event of its own. */
  lemma CandidSent(w: World, pods: seq<Pod>, s: Log, ev: Event)
    requires Candid(w, pods, s) && True(pods, s.trace, ev)
    ensures Candid(w, pods, Sent(w, s, ev))
  {
    hide Heard, Told, True;
    CandidSnoc(w, pods, s, Emitted(ev), s.t + 1);
    CandidLater(w, pods, s, s.t + 1);
  }

  /** An act and the event about it; the event is lost only when the context is done. */
  lemma CandidPair(w: World, pods: seq<Pod>, s: Log, a: Act, t: nat, ev: Event)
    requires Candid(w, pods, s) && t >= s.t && Wants(a) == Some(ev.phase)
    requires ToldAt(pods, s.trace, a) && True(pods, s.trace + [a], ev)
    ensures Candid(w, pods, Sent(w, Log(t, s.trace + [a]), ev))
  {
    hide Heard, Told, Wants;
    ToldSnoc(pods, s.trace, a);
    assert ToldAt(pods, s.trace + [a], Emitted(ev));
    hide ToldAt, True;
    ToldSnoc(pods, s.trace + [a], Emitted(ev));
    if Heard(s.trace) { HeardPair(s.trace, a, ev); }
  }

  // -------------------------------------------------------------- requesting

  lemma ConfirmedSnoc(trace: Trace, a: Act)
    ensures Confirmed(trace + [a]) == Confirmed(trace) + if IsGone(a) then 1 else 0
  {
    assert (trace + [a])[..|trace|] == trace;
  }

  /** Nothing was polled yet, and the pods before `i` are settled. */
  ghost predicate Requesting(trace: Trace, i: nat) {
    && Confirmed(trace) == 0 && (forall k :: 0 <= k < |trace| ==> !trace[k].Polled?)
    && OnTurn(trace, i)
  }

  /** The same, and pod `i` was not asked either. */
  ghost predicate Turned(trace: Trace, i: nat) {
    Requesting(trace, i) && Asked(i) !in trace
  }

  lemma RequestingSnoc(trace: Trace, i: nat, a: Act)
    requires Requesting(trace, i) && (a.Emitted? || a == Asked(i))
    ensures Requesting(trace + [a], i)
  {
    ConfirmedSnoc(trace, a);
    forall j: nat | j < i ensures Settled(trace + [a], j) {
      assert Settled(trace, j);
    }
  }

  lemma RequestingNext(trace: Trace, i: nat, accepted: bool)
    requires Requesting(trace, i)
    ensures Turned(trace + [Concluded(i, accepted)], i + 1)
  {
    var t := trace + [Concluded(i, accepted)];
    ConfirmedSnoc(trace, Concluded(i, accepted));
    assert t[|trace|] == Concluded(i, accepted);
    forall j: nat | j < i + 1 ensures Settled(t, j) {
      if j < i { assert Settled(trace, j); }
    }
  }

  /** One request, and the wait after it. */
  lemma AskCandid(w: World, s: Log, i: nat, pods: seq<Pod>)
    requires Candid(w, pods, s) && Requesting(s.trace, i) && i < |pods|
    ensures var s1 := Acted(s, Asked(i));
      && Candid(w, pods, s1) && Candid(w, pods, s1.(t := s1.t + 1))
      && Requesting(s1.trace, i) && LastIs(s1.trace, Asked(i))
  {
    assert ToldAt(pods, s.trace, Asked(i));
    hide Candid, Requesting, Cancelled, ToldAt;
    CandidSnoc(w, pods, s, Asked(i), s.t + 1);
    RequestingSnoc(s.trace, i, Asked(i));
    CandidLater(w, pods, Acted(s, Asked(i)), s.t + 2);
  }

  lemma {:induction false} EvictCandid(w: World, s: Log, i: nat, attempt: nat, pods: seq<Pod>)
    requires Candid(w, pods, s) && Requesting(s.trace, i) && i < |pods| && attempt <= PDB_MAX_RETRIES
    ensures var e := Evict(w, s, i, attempt);
      Candid(w, pods, e.s) && Requesting(e.s.trace, i) && LastIs(e.s.trace, Asked(i))
    decreases PDB_MAX_RETRIES - attempt
  {
    hide Candid, Requesting, Cancelled, LastIs;
    AskCandid(w, s, i, pods);
    var s1 := Acted(s, Asked(i));
    var s2 := s1.(t := s1.t + 1);
    if w.evict(s.t, i).TooMany? && attempt < PDB_MAX_RETRIES && !(Cancelled(w, s2.t) && w.noticed(s2.t)) {
      EvictCandid(w, s2, i, attempt + 1, pods);
    }
  }

  /** The first event about a pod, before it is asked. */
  lemma EvictingTrue(pods: seq<Pod>, trace: Trace, i: nat)
    requires Turned(trace, i) && i < |pods|
    ensures True(pods, trace, Progress(Evicting, pods, i, 0, ""))
  {
    assert Names(pods, i, RefOf(pods[i]));
  }

  function ConclusionEvent(pods: seq<Pod>, i: nat, err: Option<string>): Event
    requires i < |pods|
  {
    if err.None? then Progress(Accepted, pods, i, 0, "") else Progress(Blocked, pods, i, 0, err.value)
  }

  lemma ConclusionTrue(pods: seq<Pod>, trace: Trace, i: nat, err: Option<string>)
    requires Requesting(trace, i) && i < |pods|
    ensures var ev := ConclusionEvent(pods, i, err);
      Wants(Concluded(i, err.None?)) == Some(ev.phase) && True(pods, trace + [Concluded(i, err.None?)], ev)
  {
    ConfirmedSnoc(trace, Concluded(i, err.None?));
    assert Names(pods, i, RefOf(pods[i])) && LastIs(trace + [Concluded(i, err.None?)], Concluded(i, err.None?));
  }

  lemma SentKeeps(w: World, s: Log, ev: Event, i: nat)
    ensures Requesting(s.trace, i) ==> Requesting(Sent(w, s, ev).trace, i)
    ensures Turned(s.trace, i) ==> Turned(Sent(w, s, ev).trace, i)
    ensures Confirmed(Sent(w, s, ev).trace) == Confirmed(s.trace)
  {
    if Requesting(s.trace, i) { RequestingSnoc(s.trace, i, Emitted(ev)); }
    ConfirmedSnoc(s.trace, Emitted(ev));
  }

  /** Announcing a pod's turn, and asking it until its end. */
  lemma AskedCandid(w: World, s: Log, pods: seq<Pod>, i: nat)
    requires Candid(w, pods, s) && Turned(s.trace, i) && i < |pods|
    ensures var e := Evict(w, Sent(w, s, Progress(Evicting, pods, i, 0, "")), i, 0);
      Candid(w, pods, e.s) && Requesting(e.s.trace, i) && LastIs(e.s.trace, Asked(i))
  {
    hide Evict, Sent, True, Requesting, LastIs, Turned, Candid, Progress;
    var ev := Progress(Evicting, pods, i, 0, "");
    TurnedParts(s.trace, i);
    EvictingTrue(pods, s.trace, i);
    CandidSent(w, pods, s, ev);
    SentKeeps(w, s, ev, i);
    EvictCandid(w, Sent(w, s, ev), i, 0, pods);
  }

  /** Its conclusion, and the event about it. */
  lemma ConcludedCandid(w: World, s: Log, pods: seq<Pod>, i: nat, err: Option<string>)
    requires Candid(w, pods, s) && Requesting(s.trace, i) && LastIs(s.trace, Asked(i)) && i < |pods|
    ensures var s1 := Noted(s, Concluded(i, err.None?));
      var s2 := Sent(w, s1, ConclusionEvent(pods, i, err));
      && Candid(w, pods, s2) && Turned(s2.trace, i + 1) && Turned(s1.trace, i + 1)
      && (Cancelled(w, s1.t) ==> Candid(w, pods, s1))
  {
    hide Sent, True, Told, Heard, Requesting, Wants, LastIs, Turned, ConclusionEvent;
    var a := Concluded(i, err.None?);
    ConclusionTrue(pods, s.trace, i, err);
    assert ToldAt(pods, s.trace, a);
    CandidPair(w, pods, s, a, s.t, ConclusionEvent(pods, i, err));
    RequestingNext(s.trace, i, err.None?);
    ToldSnoc(pods, s.trace, a);
    SentKeeps(w, Noted(s, a), ConclusionEvent(pods, i, err), i + 1);
  }

  lemma {:induction false} RequestCandid(w: World, s: Log, pods: seq<Pod>, i: nat, pending: seq<nat>)
    requires i <= |pods| && Candid(w, pods, s) && Turned(s.trace, i)
    requires forall k :: 0 <= k < |pending| ==> pending[k] < |pods|
    ensures var r := RequestFrom(w, s, pods, i, pending);
      && Candid(w, pods, r.s) && Confirmed(r.s.trace) == 0
      && (!r.cancelled ==> Requesting(r.s.trace, |pods|))
    decreases |pods| - i
  {
    hide Evict, Sent, Turned, Requesting, Candid, Cancelled, Progress, LastIs;
    TurnedParts(s.trace, i);
    if i < |pods| && !Cancelled(w, s.t) {
      AskedCandid(w, s, pods, i);
      var e := Evict(w, Sent(w, s, Progress(Evicting, pods, i, 0, "")), i, 0);
      ConcludedCandid(w, e.s, pods, i, e.err);
      var s1 := Noted(e.s, Concluded(i, e.err.None?));
      var s2 := Sent(w, s1, ConclusionEvent(pods, i, e.err));
      TurnedParts(s1.trace, i + 1);
      assert s2 == Sent(w, s1, if e.err.None? then Progress(Accepted, pods, i, 0, "")
                               else Progress(Blocked, pods, i, 0, e.err.value));
      if e.err.None? || !Cancelled(w, s1.t) {
        RequestCandid(w, s2, pods, i + 1, if e.err.None? then pending + [i] else pending);
      }
    }
  }

  lemma TurnedParts(trace: Trace, i: nat)
    requires Turned(trace, i)
    ensures Requesting(trace, i) && Confirmed(trace) == 0
  {
  }

  // ----------------------------------------------------------------- polling

  lemma PollOneCandid(w: World, p: Poll, pods: seq<Pod>, i: nat)
    requires i < |pods| == |p.completed| && InRange(p.kept, |pods|)
    requires Candid(w, pods, p.s) && Confirmed(p.s.trace) == p.done
    ensures var q := PollOne(w, p, pods, i); Candid(w, pods, q.s) && Confirmed(q.s.trace) == q.done
  {
    var q, finding := PollOne(w, p, pods, i), FindingAt(w, p.s.t, pods, i);
    var a := Polled(i, finding);
    var s1 := Acted(p.s, a);
    ConfirmedSnoc(p.s.trace, a);
    assert Names(pods, i, RefOf(pods[i])) && LastIs(s1.trace, a);
    if finding.Gone? || finding.Unclear? {
      var ev := if finding.Gone? then Progress(Evicted, pods, i, q.done, "")
        else Progress(Blocked, pods, i, q.done, ErrOf(w.get(p.s.t, i)));
      assert True(pods, s1.trace, ev);
      hide Candid, True, Sent, FindingAt;
      CandidPair(w, pods, p.s, a, p.s.t + 1, ev);
      SentKeeps(w, s1, ev, 0);
    } else {
      hide Candid, FindingAt;
      CandidSnoc(w, pods, p.s, a, p.s.t + 1);
    }
  }

  lemma {:induction false} PollCandid(w: World, p: Poll, pods: seq<Pod>, todo: seq<nat>)
    requires |p.completed| == |pods| && InRange(todo, |pods|) && InRange(p.kept, |pods|)
    requires Candid(w, pods, p.s) && Confirmed(p.s.trace) == p.done
    ensures var q := PollFrom(w, p, pods, todo); Candid(w, pods, q.s) && Confirmed(q.s.trace) == q.done
    decreases |todo|
  {
    hide Candid, PollOne;
    if |todo| > 0 && !p.cancelled {
      PollOneCandid(w, p, pods, todo[0]);
      PollCandid(w, PollOne(w, p, pods, todo[0]), pods, todo[1..]);
    }
  }

  lemma {:induction false} AwaitCandid(w: World, p: Poll, pods: seq<Pod>)
    requires |p.completed| == |pods| && InRange(p.kept, |pods|)
    requires Candid(w, pods, p.s) && Confirmed(p.s.trace) == p.done
    ensures var q := Await(w, p, pods); Candid(w, pods, q.s) && Confirmed(q.s.trace) == q.done
    decreases if Cancelled(w, p.s.t) then 0 else w.deadline - p.s.t
  {
    hide Candid, PollFrom;
    if |p.kept| > 0 && !p.cancelled {
      PollCandid(w, p.(kept := []), pods, p.kept);
      var q := PollFrom(w, p.(kept := []), pods, p.kept);
      if !q.cancelled && |q.kept| > 0 {
        var s1 := q.s.(t := q.s.t + 1);
        CandidLater(w, pods, q.s, s1.t);
        if !(Cancelled(w, s1.t) && w.noticed(s1.t)) {
          AwaitCandid(w, q.(s := s1), pods);
        }
      }
    }
  }

  /** Once the context is done no other pod is asked. */
  lemma NoMoreRequests(w: World, s: Log, pods: seq<Pod>, i: nat, pending: seq<nat>)
    requires s.t >= w.deadline && i < |pods| && forall k :: 0 <= k < |pending| ==> pending[k] < |pods|
    ensures RequestFrom(w, s, pods, i, pending) == Requests(s, pending, true)
  {
  }

  /** Once it is done one more pod is polled at most, and none is counted. */
  lemma NoMoreCounts(w: World, p: Poll, pods: seq<Pod>)
    requires p.s.t >= w.deadline && !p.cancelled && |p.kept| > 0
    requires |p.completed| == |pods| && InRange(p.kept, |pods|)
    ensures var q := Await(w, p, pods);
      && q.cancelled && q.done == p.done && q.completed == p.completed
      && q.s.trace == p.s.trace + [Polled(p.kept[0], Late)]
  {
    var p0 := p.(kept := []);
    var q := PollOne(w, p0, pods, p.kept[0]);
    assert FindingAt(w, p.s.t, pods, p.kept[0]) == Late;
    assert PollFrom(w, q, pods, p.kept[1..]) == q;
  }

  // --------------------------------------------------------------- the whole

  lemma FinishedCandid(w: World, s: Log, pods: seq<Pod>, done: nat, completed: seq<bool>, err: Option<string>)
    requires |completed| == |pods| && Candid(w, pods, s) && Confirmed(s.trace) == done
    ensures Candid(w, pods, Finished(s, pods, done, completed, err).s)
    ensures Finished(s, pods, done, completed, err).pods == pods
  {
    hide Candid, Remaining;
    var ev := Event(if err.Some? then Error else Done, "", done, |pods|,
                    if err.Some? then err.value else "", Remaining(pods, completed));
    CandidSnoc(w, pods, s, Emitted(ev), s.t);
  }

  /** Before anything is asked. */
  lemma LookupsCandid(w: World, pods: seq<Pod>, s: Log)
    requires Lookups(s.trace)
    ensures Candid(w, pods, s) && Turned(s.trace, 0)
    ensures True(pods, s.trace, Event(Starting, "", 0, |pods|, "", []))
  {
    NoneConfirmed(s.trace);
    assert Heard(s.trace) by {
      forall k: nat | k < |s.trace| ensures HeardAt(s.trace, k) {
      }
    }
  }

  lemma {:induction false} NoneConfirmed(trace: Trace)
    requires forall k :: 0 <= k < |trace| ==> !trace[k].Polled?
    ensures Confirmed(trace) == 0
    decreases |trace|
  {
    if |trace| > 0 { NoneConfirmed(trace[..|trace| - 1]); }
  }

  lemma WaitingTrue(pods: seq<Pod>, trace: Trace)
    requires Requesting(trace, |pods|)
    ensures True(pods, trace, WaitEvent(|pods|))
  {
  }

  lemma ListedCandid(w: World, s: Log, pods: seq<Pod>)
    requires Lookups(s.trace)
    ensures Candid(w, pods, DrainListed(w, s, pods).s) && DrainListed(w, s, pods).pods == pods
  {
    hide Candid, True, Sent, RequestFrom, Await, Turned, Requesting, Finished, Lookups;
    var start := Event(Starting, "", 0, |pods|, "", []);
    LookupsCandid(w, pods, s);
    CandidSent(w, pods, s, start);
    SentKeeps(w, s, start, 0);
    RequestCandid(w, Sent(w, s, start), pods, 0, []);
    var r := RequestFrom(w, Sent(w, s, start), pods, 0, []);
    if r.cancelled {
      FinishedCandid(w, r.s, pods, 0, NoneDone(|pods|), Some("context done"));
    } else {
      WaitingTrue(pods, r.s.trace);
      CandidSent(w, pods, r.s, WaitEvent(|pods|));
      SentKeeps(w, r.s, WaitEvent(|pods|), |pods|);
      var s1 := if |r.pending| > 0 then Sent(w, r.s, WaitEvent(|pods|)) else r.s;
      var p := Poll(s1, 0, NoneDone(|pods|), r.pending, false);
      AwaitCandid(w, p, pods);
      var q := Await(w, p, pods);
      FinishedCandid(w, q.s, pods, q.done, q.completed, if q.cancelled then Some("context done") else None);
    }
  }

  /** Whatever the cluster answers and whenever the drain is cancelled: pods are asked in list order,
      each until an end is put to it, every event is about the act before it and has the right counts,
      and unless the context is done every acceptance, failure and confirmation is reported. */
  lemma DrainTells(w: World)
    ensures var o := Drained(w);
      && Told(o.pods, o.s.trace) && (o.s.t < w.deadline ==> Heard(o.s.trace))
  {
    hide Told, Heard, Finished, DrainListed, Lookups, Looked, ListFrom;
    NoLookups(w);
    if w.setup.Some? {
      LookupsCandid(w, [], Log(0, []));
      ClosedCandid(w, Log(0, []), w.setup);
    } else if w.list.None? {
      LookupsCandid(w, [], Log(1, []));
      ClosedCandid(w, Log(1, []), Some("preflight refused"));
    } else {
      var all := w.list.value;
      assert all[0..] == all && all[..0] == [];
      ListSound(w, Log(1, []), all, 0, [], {});
      var l := ListFrom(w, Log(1, []), all, [], {});
      LookupsCandid(w, [], l.s);
      if l.pods.None? {
        ClosedCandid(w, l.s, Some("preflight refused"));
      } else {
        ListedCandid(w, l.s, l.pods.value);
      }
    }
  }

  lemma ClosedCandid(w: World, s: Log, err: Option<string>)
    requires Lookups(s.trace) && Candid(w, [], s)
    ensures Candid(w, [], Finished(s, [], 0, [], err).s) && Finished(s, [], 0, [], err).pods == []
  {
    NoneConfirmed(s.trace);
    FinishedCandid(w, s, [], 0, [], err);
  }
}
