/** Node drain as it is written: loops over slices and maps, a list filtered in place, and the
    progress channel. It computes exactly what DrainSpec says, so all that is proved there holds. */
module Drain {
  import opened DrainTrace
  import opened DrainSpec
  import opened DrainEvents
  import opened Options

  method CheckPod(w: World, s0: Log, p: Pod, known0: set<Key>) returns (s: Log, safe: bool, known: set<Key>)
    ensures Checked(s, safe, known) == Check(w, s0, p, known0)
  {
    s, safe, known := s0, false, known0;
    if p.emptyDir || p.owner.None? {
      return;
    }
    var key := p.owner.value;
    if key in known {
      return s, true, known;
    }
    safe := w.verify(s.t, key);
    s := Acted(s, Verified(key, safe));
    if safe {
      known := known + {key};
    }
  }

  /** listDrainablePods. */
  method ListDrainable(w: World, s0: Log, all: seq<Pod>) returns (s: Log, pods: Option<seq<Pod>>)
    ensures Listing(s, pods) == ListFrom(w, s0, all, [], {})
  {
    hide Check, Skipped;
    var out, known := [], {};
    s := s0;
    assert all[0..] == all;
    for i := 0 to |all|
      invariant ListFrom(w, s, all[i..], out, known) == ListFrom(w, s0, all, [], {})
    {
      assert all[i..][1..] == all[i + 1..];
      if Skipped(all[i]) {
        continue;
      }
      var safe;
      s, safe, known := CheckPod(w, s, all[i], known);
      if !safe {
        return s, None;
      }
      out := out + [all[i]];
    }
    pods := Some(out);
  }

  method Send(w: World, s0: Log, ev: Event) returns (s: Log)
    ensures s == Sent(w, s0, ev)
  {
    s := s0.(t := s0.t + 1);
    if !(Cancelled(w, s.t) && w.drops(s.t)) {
      s := s.(trace := s.trace + [Emitted(ev)]);
    }
  }

  /** evictWithRetry: the back-off doubles, 31 seconds in all at most. */
  method EvictWithRetry(w: World, s0: Log, i: nat) returns (s: Log, err: Option<string>, ghost waited: nat)
    ensures Eviction(s, err) == Evict(w, s0, i, 0) && waited <= 31
  {
    s, waited := s0, 0;
    var backoff := 1;
    var attempt := 0;
    while true
      invariant 0 <= attempt <= PDB_MAX_RETRIES && Evict(w, s, i, attempt) == Evict(w, s0, i, 0)
      invariant waited == backoff - 1 && backoff == [1, 2, 4, 8, 16, 32][attempt]
      decreases PDB_MAX_RETRIES - attempt
    {
      var reply := w.evict(s.t, i);
      s := Acted(s, Asked(i));
      if Accepts(reply) {
        return s, None, waited;
      }
      if reply.Failed? {
        return s, Some(reply.err), waited;
      }
      if attempt >= PDB_MAX_RETRIES {
        return s, Some("PDB blocked after 5 retries"), waited;
      }
      s := s.(t := s.t + 1);
      if Cancelled(w, s.t) && w.noticed(s.t) {
        return s, Some("cancelled"), waited;
      }
      waited, backoff, attempt := waited + backoff, 2 * backoff, attempt + 1;
    }
  }

  /** The eviction loop. */
  method RequestAll(w: World, s0: Log, pods: seq<Pod>) returns (s: Log, pending: seq<nat>, cancelled: bool)
    ensures Requests(s, pending, cancelled) == RequestFrom(w, s0, pods, 0, [])
  {
    hide Evict, Sent;
    s, pending, cancelled := s0, [], false;
    for i := 0 to |pods|
      invariant InRange(pending, |pods|) && RequestFrom(w, s, pods, i, pending) == RequestFrom(w, s0, pods, 0, [])
    {
      if Cancelled(w, s.t) {
        return s, pending, true;
      }
      s := Send(w, s, Progress(Evicting, pods, i, 0, ""));
      var err;
      ghost var waited;
      s, err, waited := EvictWithRetry(w, s, i);
      s := Noted(s, Concluded(i, err.None?));
      if err.Some? {
        if Cancelled(w, s.t) {
          return s, pending, true;
        }
        s := Send(w, s, Progress(Blocked, pods, i, 0, err.value));
        continue;
      }
      pending := pending + [i];
      s := Send(w, s, Progress(Accepted, pods, i, 0, ""));
    }
  }

  /** One poll of one pod, and the event about it. */
  method PollPod(w: World, s0: Log, i: nat, pods: seq<Pod>, done0: nat, completed: array<bool>, ghost kept: seq<nat>)
    returns (s: Log, done: nat, keep: bool, cancelled: bool)
    requires i < |pods| == completed.Length && InRange(kept, |pods|)
    modifies completed
    ensures Poll(s, done, completed[..], if keep then kept + [i] else kept, cancelled)
      == PollOne(w, Poll(s0, done0, old(completed[..]), kept, false), pods, i)
  {
    var current, finding := w.get(s0.t, i), FindingAt(w, s0.t, pods, i);
    s, done, keep, cancelled := Acted(s0, Polled(i, finding)), done0, false, false;
    if Cancelled(w, s.t) {
      cancelled := true;
    } else if SaysGone(current, pods[i].uid) {
      ghost var was := completed[..];
      completed[i] := true;
      assert completed[..] == was[i := true];
      done := done + 1;
      s := Send(w, s, Progress(Evicted, pods, i, done, ""));
    } else if current.Unknown? {
      s := Send(w, s, Progress(Blocked, pods, i, done, "confirm termination: " + current.err));
    } else {
      keep := true;
    }
  }

  /** One round over what is pending, filtered in place: pending[..k] is what the round keeps, and
      what lies between there and the read position is overwritten only behind it. */
  method PollRound(w: World, s0: Log, pods: seq<Pod>, done0: nat, completed: array<bool>, pending: array<nat>, n0: nat)
    returns (s: Log, done: nat, n: nat, cancelled: bool)
    requires completed.Length == |pods| && n0 <= pending.Length && InRange(pending[..n0], |pods|)
    modifies completed, pending
    ensures n <= n0
    ensures Poll(s, done, completed[..], pending[..n], cancelled)
      == PollFrom(w, Poll(s0, done0, old(completed[..]), [], false), pods, old(pending[..n0]))
  {
    hide PollOne, Cancelled;
    s, done, cancelled := s0, done0, false;
    ghost var want := PollFrom(w, Poll(s0, done0, completed[..], [], false), pods, pending[..n0]);
    ghost var todo := pending[..n0];
    var k, r := 0, 0;
    while r < n0
      invariant 0 <= k <= r <= n0 && todo == pending[r..n0] && InRange(todo, |pods|) && InRange(pending[..k], |pods|)
      invariant PollFrom(w, Poll(s, done, completed[..], pending[..k], false), pods, todo) == want
    {
      var i := pending[r];
      assert todo[0] == i && todo[1..] == pending[r + 1..n0];
      ghost var kept := pending[..k];
      var keep;
      s, done, keep, cancelled := PollPod(w, s, i, pods, done, completed, kept);
      todo := todo[1..];
      if keep {
        pending[k] := i;
        assert pending[..k + 1] == kept + [i];
        k := k + 1;
      }
      r := r + 1;
      if cancelled {
        return s, done, k, true;
      }
    }
    n := k;
  }

  /** The polling loop. */
  method AwaitTermination(w: World, s0: Log, pods: seq<Pod>, completed: array<bool>, accepted: seq<nat>)
    returns (s: Log, done: nat, cancelled: bool)
    requires completed.Length == |pods| && InRange(accepted, |pods|)
    modifies completed
    ensures var q := Await(w, Poll(s0, 0, old(completed[..]), accepted, false), pods);
      s == q.s && done == q.done && completed[..] == q.completed && cancelled == q.cancelled
  {
    hide PollFrom;
    var pending := new nat[|accepted|](i requires 0 <= i < |accepted| => accepted[i]);
    var n := |accepted|;
    assert pending[..n] == accepted;
    s, done, cancelled := s0, 0, false;
    ghost var want := Await(w, Poll(s0, 0, completed[..], accepted, false), pods);
    while n > 0
      invariant 0 <= n <= pending.Length && InRange(pending[..n], |pods|)
      invariant Await(w, Poll(s, done, completed[..], pending[..n], false), pods) == want
      decreases if Cancelled(w, s.t) then 0 else w.deadline - s.t
    {
      s, done, n, cancelled := PollRound(w, s, pods, done, completed, pending, n);
      if cancelled {
        return;
      }
      if n == 0 {
        return;
      }
      s := s.(t := s.t + 1);
      if Cancelled(w, s.t) && w.noticed(s.t) {
        return s, done, true;
      }
    }
  }

  method Finish(s0: Log, pods: seq<Pod>, done: nat, completed: seq<bool>, err: Option<string>) returns (s: Log)
    requires |completed| == |pods|
    ensures Outcome(s, pods, completed) == Finished(s0, pods, done, completed, err)
  {
    var remaining := [];
    for i := 0 to |pods|
      invariant remaining == Remaining(pods[..i], completed[..i])
    {
      assert pods[..i + 1][..i] == pods[..i] && completed[..i + 1][..i] == completed[..i];
      if !completed[i] {
        remaining := remaining + [RefOf(pods[i])];
      }
    }
    assert pods[..|pods|] == pods && completed[..|pods|] == completed;
    var ev := Event(if err.Some? then Error else Done, "", done, |pods|,
                    if err.Some? then err.value else "", remaining);
    s := s0.(trace := s0.trace + [Emitted(ev)]);
  }

  /** drain. */
  method DrainNode(w: World) returns (s: Log, pods: seq<Pod>, completed: seq<bool>)
    ensures Outcome(s, pods, completed) == Drained(w)
  {
    hide ListFrom, RequestFrom, Await, Finished, Sent;
    if w.setup.Some? {
      s := Finish(Log(0, []), [], 0, [], w.setup);
      return s, [], [];
    }
    if w.list.None? {
      s := Finish(Log(1, []), [], 0, [], Some("preflight refused"));
      return s, [], [];
    }
    var listed;
    s, listed := ListDrainable(w, Log(1, []), w.list.value);
    if listed.None? {
      s := Finish(s, [], 0, [], Some("preflight refused"));
      return s, [], [];
    }
    pods := listed.value;
    s := Send(w, s, Event(Starting, "", 0, |pods|, "", []));
    var flags := new bool[|pods|](_ => false);
    assert flags[..] == NoneDone(|pods|);
    var pending, cancelled;
    s, pending, cancelled := RequestAll(w, s, pods);
    var done := 0;
    if !cancelled {
      if |pending| > 0 {
        s := Send(w, s, WaitEvent(|pods|));
      }
      s, done, cancelled := AwaitTermination(w, s, pods, flags, pending);
    }
    completed := flags[..];
    s := Finish(s, pods, done, completed, if cancelled then Some("context done") else None);
  }

  // -------------------------------------------------------------- forwarder

  function Events(trace: Trace): seq<Event> {
    if |trace| == 0 then []
    else
      var es, a := Events(trace[..|trace| - 1]), trace[|trace| - 1];
      if a.Emitted? then es + [a.ev] else es
  }

  datatype Summary = Summary(done: nat, total: nat, err: string, remaining: seq<string>, blocked: seq<string>)

  /** What a summary has to say about a finished stream. */
  ghost predicate Summarises(s: Summary, last: Event) {
    && s.done == last.done && s.total == last.total && s.remaining == last.remaining
    && s.err == (if last.phase.Error? then last.err else "")
  }

  function Reports(es: seq<Event>): seq<string> {
    if |es| == 0 then []
    else
      var rs, e := Reports(es[..|es| - 1]), es[|es| - 1];
      if e.phase.Blocked? then rs + [e.pod + " (" + e.err + ")"] else rs
  }

  function BlockedAt(es: seq<Event>): nat -> bool {
    (i: nat) => i < |es| && es[i].phase.Blocked?
  }

  /** A summary's reports are those of the blocked events, in order: the pod, and why in brackets. */
  lemma {:induction false} ReportsAre(es: seq<Event>, n: nat) returns (at: seq<nat>)
    requires n <= |es|
    ensures Picks(at, n, BlockedAt(es)) && |at| == |Reports(es[..n])|
    ensures forall k :: 0 <= k < |at| ==>
      at[k] < |es| && Reports(es[..n])[k] == es[at[k]].pod + " (" + es[at[k]].err + ")"
    decreases n
  {
    hide Picks;
    at := [];
    PicksNone(BlockedAt(es));
    if n > 0 {
      at := ReportsAre(es, n - 1);
      assert es[..n][..n - 1] == es[..n - 1];
      PicksSnoc(at, n - 1, BlockedAt(es));
      if BlockedAt(es)(n - 1) { at := at + [n - 1]; }
    }
  }

  function EmittedAt(trace: Trace): nat -> bool {
    (i: nat) => i < |trace| && trace[i].Emitted?
  }

  /** The forwarder gets every event of a trace, in order. */
  lemma {:induction false} EventsAre(trace: Trace, n: nat) returns (at: seq<nat>)
    requires n <= |trace|
    ensures Picks(at, n, EmittedAt(trace)) && |at| == |Events(trace[..n])|
    ensures forall k :: 0 <= k < |at| ==> at[k] < |trace| && trace[at[k]] == Emitted(Events(trace[..n])[k])
    decreases n
  {
    hide Picks;
    at := [];
    PicksNone(EmittedAt(trace));
    if n > 0 {
      at := EventsAre(trace, n - 1);
      assert trace[..n][..n - 1] == trace[..n - 1];
      PicksSnoc(at, n - 1, EmittedAt(trace));
      if EmittedAt(trace)(n - 1) { at := at + [n - 1]; }
    }
  }

  /** startDrain's loop over the stream: folds by maximum, keeps the terminal event's list. */
  method Forward(es: seq<Event>) returns (s: Summary)
    requires |es| > 0 && Terminal(es[|es| - 1])
    requires forall k :: 0 <= k < |es| - 1 ==>
      !Terminal(es[k]) && es[k].done <= es[|es| - 1].done && es[k].total <= es[|es| - 1].total
    ensures Summarises(s, es[|es| - 1]) && s.blocked == Reports(es)
  {
    s := Summary(0, 0, "", [], []);
    for i := 0 to |es|
      invariant s.blocked == Reports(es[..i])
      invariant i < |es| ==> s.done <= es[|es| - 1].done && s.total <= es[|es| - 1].total && s.err == ""
      invariant i == |es| ==> Summarises(s, es[|es| - 1])
    {
      assert es[..i + 1][..i] == es[..i];
      var ev := es[i];
      s := s.(total := if ev.total > s.total then ev.total else s.total,
              done := if ev.done > s.done then ev.done else s.done);
      if ev.phase.Blocked? {
        s := s.(blocked := s.blocked + [ev.pod + " (" + ev.err + ")"]);
      }
      if ev.phase.Error? {
        s := s.(err := ev.err);
      }
      if ev.phase.Error? || ev.phase.Done? {
        s := s.(remaining := ev.remaining);
      }
    }
    assert es[..|es|] == es;
  }

  lemma {:induction false} EventsIn(trace: Trace)
    ensures forall e :: e in Events(trace) ==> Emitted(e) in trace
    decreases |trace|
  {
    if |trace| > 0 {
      var before := trace[..|trace| - 1];
      EventsIn(before);
      forall e | e in Events(trace) ensures Emitted(e) in trace {
        if e in Events(before) { assert Emitted(e) in before; }
      }
    }
  }

  /** The forwarder's input from any finished drain is what Forward asks for. */
  lemma ClosedForwards(pods: seq<Pod>, completed: seq<bool>, trace: Trace)
    requires Closed(pods, completed, trace)
    ensures var (es, last) := (Events(trace), trace[|trace| - 1].ev);
      && |es| > 0 && es[|es| - 1] == last && Terminal(last)
      && forall k :: 0 <= k < |es| - 1 ==> !Terminal(es[k]) && es[k].done <= last.done && es[k].total <= last.total
  {
    var before := trace[..|trace| - 1];
    EventsIn(before);
    forall k | 0 <= k < |Events(before)|
      ensures !Terminal(Events(before)[k]) && Events(before)[k].done <= trace[|trace| - 1].ev.done
      ensures Events(before)[k].total == |pods|
    {
      assert Emitted(Events(before)[k]) in before;
    }
  }

  /** A drain and its forwarder: whatever was dropped on the way, the summary the user sees counts
      the pods confirmed gone and lists all the others, in list order. */
  method StartDrain(w: World) returns (s: Summary, ghost o: Outcome)
    ensures o == Drained(w) && |o.completed| == |o.pods|
    ensures s.total == |o.pods| && s.done == Tally(o.completed) && s.remaining == Remaining(o.pods, o.completed)
    ensures s.done + |s.remaining| == s.total
    ensures NotStarted(w, o) || (w.list.Some? && Ended(w, Drainable(w.list.value), o))
    ensures s.blocked == Reports(Events(o.s.trace))
  {
    hide Events, Drained, Sound, NotStarted, Ended, AllReal;
    var log, pods, completed := DrainNode(w);
    DrainCloses(w);
    ClosedForwards(pods, completed, log.trace);
    ClosedAccounts(pods, completed, log.trace);
    s := Forward(Events(log.trace));
    o := Outcome(log, pods, completed);
  }
}
