/** What every interleaving of the delivery queue keeps, and what follows from it:
    eventual convergence, exactly which events are handed over, the memory bound,
    the wake-up guarantee, fair scheduling and the order of the sync marker. */
module DeliveryTheorems {
  import opened DeliverySpec
  import opened Options

  // ------------------------------------------------ the invariant is kept

  /** The fast path: nothing is queued, so nothing can be overtaken. */
  lemma PublishDirect<T>(s: State<T>, p: Pub<T>, u: Uid)
    requires !s.runner.Stopped? && Shape(s) && |s.queue| == 0 && UidInv(s, u)
    ensures UidInv(Publish(s, p, true), u)
  {
    var l, m := LedgerOf(s, u), LedgerOf(Publish(s, p, true), u);
    RestrictSnoc(s.sent, p, u);
    RestrictSnoc(s.published, p, u);
    if p.uid == u {
      assert m == l.(given := l.given + [p], arrived := l.arrived + [p], noted := l.given + [p],
                     isKnown := !p.deleted);
      BalancedDirect(l, p);
    } else {
      assert m == l;
    }
  }

  lemma BalancedDirect<T>(l: Ledger<T>, p: Pub<T>)
    requires Balanced(l) && l.hand == l.waiting == [] && l.entry.None?
    ensures Balanced(l.(given := l.given + [p], arrived := l.arrived + [p], noted := l.given + [p],
                        isKnown := !p.deleted))
  {
    assert l.given + [] + [] == l.given && l.given + [p] + [] + [] == l.given + [p];
    SubseqSnoc(l.given, l.arrived, p);
  }

  lemma PublishShape<T>(s: State<T>, p: Pub<T>)
    requires !s.runner.Stopped? && Shape(s)
    ensures Shape(Publish(s, p, false))
  {
    var i := Find(s.queue, p.uid);
    if i < |s.queue| {
      EntryRemove(s.queue, i, p.uid);
      EntryUpdate(s.queue, i, Entry(p, s.queue[i].version + 1), p.uid);
    } else {
      EntryPush(s.queue, Entry(p, 0), p.uid);
    }
  }

  /** The queued path touches the entry of the published UID and no other. */
  lemma PublishQueue<T>(s: State<T>, p: Pub<T>, u: Uid)
    requires Distinct(s.queue) && !s.runner.Stopped?
    ensures var q, had := Publish(s, p, false).queue, EntryOf(s.queue, u);
      EntryOf(q, u) ==
        if u != p.uid then had
        else if Drops(s, p) then None
        else Some(Entry(p, if had.Some? then had.value.version + 1 else 0))
  {
    var i := Find(s.queue, p.uid);
    if i < |s.queue| {
      EntryRemove(s.queue, i, u);
      EntryUpdate(s.queue, i, Entry(p, s.queue[i].version + 1), u);
    } else {
      EntryPush(s.queue, Entry(p, 0), u);
    }
  }

  /** A deletion of something the consumer never saw cancels its queued addition. */
  lemma PublishCancel<T>(s: State<T>, p: Pub<T>)
    requires !s.runner.Stopped? && Shape(s) && UidInv(s, p.uid) && Drops(s, p)
    ensures UidInv(Publish(s, p, false), p.uid)
  {
    var u, t := p.uid, Publish(s, p, false);
    var l := LedgerOf(s, u);
    RestrictSnoc(s.published, p, u);
    PublishQueue(s, p, u);
    assert Recorded(t) == Recorded(s);
    assert l.noted == l.given by {
      if s.runner.Sent? {
        RecordedSplit(s, u);
        assert s.queue[0].pub.uid == u ==> Find(s.queue, u) == 0;
      }
    }
    assert LedgerOf(t, u) == l.(waiting := [], arrived := l.arrived + [p], entry := None);
    BalancedCancel(l, p);
  }

  /** Dropping the waiting publish leaves an embedding. */
  lemma DropWaiting<T>(l: Ledger<T>)
    requires Balanced(l)
    ensures Subseq(l.given + l.hand, l.arrived)
    ensures l.given + l.hand + [] == l.given + l.hand
  {
    if |l.waiting| == 1 {
      SubseqPrefix(l.given + l.hand + l.waiting, l.arrived);
      assert (l.given + l.hand + l.waiting)[..|l.given + l.hand|] == l.given + l.hand;
    } else {
      assert l.given + l.hand + l.waiting == l.given + l.hand;
    }
  }

  lemma BalancedCancel<T>(l: Ledger<T>, p: Pub<T>)
    requires Balanced(l) && !l.isKnown && l.noted == l.given && l.hand == [] && p.deleted
    ensures Balanced(l.(waiting := [], arrived := l.arrived + [p], entry := None))
  {
    DropWaiting(l);
    SubseqSkip(l.given + l.hand, l.arrived, p);
    assert l.given + l.hand == l.given;
  }

  /** Queueing replaces the waiting publish but never the snapshot being sent. */
  lemma PublishLatest<T>(s: State<T>, p: Pub<T>)
    requires !s.runner.Stopped? && Shape(s) && UidInv(s, p.uid) && !Drops(s, p)
    ensures UidInv(Publish(s, p, false), p.uid)
  {
    var u, t := p.uid, Publish(s, p, false);
    var l, e := LedgerOf(s, u), EntryOf(t.queue, u);
    RestrictSnoc(s.published, p, u);
    PublishQueue(s, p, u);
    assert t.runner == s.runner && Recorded(t) == Recorded(s);
    assert InFlight(s, u) ==> Find(s.queue, u) == 0;
    assert Waiting(t, u) == [p];
    assert LedgerOf(t, u) == l.(waiting := [p], arrived := l.arrived + [p], entry := e);
    BalancedLatest(l, e.value);
  }

  lemma BalancedLatest<T>(l: Ledger<T>, e: Entry<T>)
    requires Balanced(l) && (e.pub.deleted && !l.flying ==> l.isKnown)
    ensures Balanced(l.(waiting := [e.pub], arrived := l.arrived + [e.pub], entry := Some(e)))
  {
    DropWaiting(l);
    SubseqSnoc(l.given + l.hand, l.arrived, e.pub);
  }

  /** The queued path leaves every other UID alone. */
  lemma PublishOther<T>(s: State<T>, p: Pub<T>, u: Uid)
    requires !s.runner.Stopped? && Shape(s) && UidInv(s, u) && u != p.uid
    ensures UidInv(Publish(s, p, false), u)
  {
    var t := Publish(s, p, false);
    RestrictSnoc(s.published, p, u);
    PublishQueue(s, p, u);
    assert t.sent == s.sent && t.runner == s.runner && t.published == s.published + [p];
    assert Recorded(t) == Recorded(s);
    assert LedgerOf(t, u) == LedgerOf(s, u);
  }

  lemma PublishInv<T>(s: State<T>, p: Pub<T>, room: bool, u: Uid)
    requires !s.runner.Stopped? && Shape(s) && UidInv(s, u)
    ensures Shape(Publish(s, p, room)) && UidInv(Publish(s, p, room), u)
  {
    if |s.queue| == 0 && room {
      PublishDirect(s, p, u);
    } else {
      assert Publish(s, p, room) == Publish(s, p, false);
      PublishShape(s, p);
      if u != p.uid {
        PublishOther(s, p, u);
      } else if Drops(s, p) {
        PublishCancel(s, p);
      } else {
        PublishLatest(s, p);
      }
    }
  }

  lemma PickInv<T>(s: State<T>, u: Uid)
    requires s.runner.Ready? && Shape(s) && UidInv(s, u)
    ensures Shape(Pick(s)) && UidInv(Pick(s), u)
  {
    var l, m := LedgerOf(s, u), LedgerOf(Pick(s), u);
    assert Recorded(Pick(s)) == Recorded(s);
    if |s.queue| > 0 && s.queue[0].pub.uid == u {
      assert Find(s.queue, u) == 0;
      assert m == l.(hand := l.waiting, waiting := [], flying := true);
      assert l.given + [] + l.waiting == l.given + l.waiting + [];
    } else {
      assert m == l;
    }
  }

  lemma WakeInv<T>(s: State<T>, u: Uid)
    requires s.runner.Parked? && Shape(s) && UidInv(s, u)
    ensures Shape(Wake(s)) && UidInv(Wake(s), u)
  {
    assert LedgerOf(Wake(s), u) == LedgerOf(s, u);
  }

  lemma SendInv<T>(s: State<T>, u: Uid)
    requires s.runner.Sending? && Shape(s) && UidInv(s, u)
    ensures Shape(Send(s)) && UidInv(Send(s), u)
  {
    var t, p := Send(s), s.runner.snap.pub;
    var l, m := LedgerOf(s, u), LedgerOf(t, u);
    RestrictSnoc(s.sent, p, u);
    assert Recorded(t) == s.sent;
    if u == p.uid {
      assert Find(s.queue, u) == 0;
      assert m == l.(given := l.given + [p], hand := []);
      assert m.given + m.hand == l.given + l.hand;
    } else {
      assert m == l;
    }
  }

  /** The queue after a send: the front entry is gone, or waits at the back. */
  lemma FinishQueue<T>(s: State<T>, u: Uid)
    requires s.runner.Sent? && Shape(s)
    ensures Shape(Finish(s))
    ensures EntryOf(s.queue, s.runner.snap.pub.uid) == Some(s.queue[0])
    ensures EntryOf(Finish(s).queue, u) ==
      if u != s.runner.snap.pub.uid then EntryOf(s.queue, u)
      else if |Finish(s).queue| < |s.queue| then None
      else Some(s.queue[0])
  {
    FrontToBack(s.queue, u);
    FrontToBack(s.queue, s.queue[0].pub.uid);
  }

  lemma FrontEntry<T>(q: seq<Entry<T>>)
    requires |q| > 0
    ensures EntryOf(q, q[0].pub.uid) == Some(q[0])
  {
  }

  lemma NoEntry<T>(q: seq<Entry<T>>, u: Uid)
    requires EntryOf(q, u).None?
    ensures Find(q, u) == |q|
  {
  }

  lemma FrontToBack<T>(q: seq<Entry<T>>, u: Uid)
    requires Distinct(q) && |q| > 0
    ensures Distinct(q[1..]) && Distinct(q[1..] + [q[0]]) && EntryOf(q, q[0].pub.uid) == Some(q[0])
    ensures EntryOf(q[1..], u) == if u == q[0].pub.uid then None else EntryOf(q, u)
    ensures EntryOf(q[1..] + [q[0]], u) == EntryOf(q, u)
  {
    assert RemoveAt(q, 0) == q[1..];
    FrontEntry(q);
    hide EntryOf, Find, RemoveAt, Distinct;
    EntryRemove(q, 0, u);
    EntryRemove(q, 0, q[0].pub.uid);
    NoEntry(q[1..], q[0].pub.uid);
    EntryPush(q[1..], q[0], u);
  }

  /** The history of `u` up to the last hand-over. */
  lemma RecordedSplit<T>(s: State<T>, u: Uid)
    requires s.runner.Sent? && Shape(s)
    ensures var before, p := Restrict(Recorded(s), u), s.runner.snap.pub;
      Restrict(s.sent, u) == if p.uid == u then before + [p] else before
  {
    assert s.sent == Recorded(s) + [s.runner.snap.pub];
    RestrictSnoc(Recorded(s), s.runner.snap.pub, u);
  }

  lemma FinishOther<T>(s: State<T>, u: Uid)
    requires s.runner.Sent? && Shape(s) && UidInv(s, u) && u != s.runner.snap.pub.uid
    ensures UidInv(Finish(s), u)
  {
    FinishQueue(s, u);
    RecordedSplit(s, u);
    assert Recorded(Finish(s)) == s.sent;
    assert LedgerOf(Finish(s), u) == LedgerOf(s, u);
  }

  lemma FinishSelf<T>(s: State<T>)
    requires s.runner.Sent? && Shape(s) && UidInv(s, s.runner.snap.pub.uid)
    ensures UidInv(Finish(s), s.runner.snap.pub.uid)
  {
    var t, ev, latest, u := Finish(s), s.runner.snap, s.queue[0], s.runner.snap.pub.uid;
    var l, m := LedgerOf(s, u), LedgerOf(t, u);
    FinishQueue(s, u);
    RecordedSplit(s, u);
    assert Recorded(t) == s.sent;
    assert l.entry == Some(latest);
    var gone := latest.version == ev.version || (latest.pub.deleted && ev.pub.deleted);
    assert l.waiting == if latest.version == ev.version then [] else [latest.pub];
    assert m == l.(waiting := if gone then [] else l.waiting, noted := l.given, isKnown := !ev.pub.deleted,
                   entry := if gone then None else l.entry, flying := false);
    BalancedFinish(l, ev.pub, gone);
  }

  lemma BalancedFinish<T>(l: Ledger<T>, ev: Pub<T>, gone: bool)
    requires Balanced(l) && |l.given| > 0 && l.given[|l.given| - 1] == ev && l.entry.Some? && l.hand == []
    requires l.waiting == [] || l.waiting == [l.entry.value.pub]
    requires l.waiting == [] ==> gone
    requires l.waiting != [] ==> (gone <==> l.entry.value.pub.deleted && ev.deleted)
    ensures Balanced(l.(waiting := if gone then [] else l.waiting, noted := l.given, isKnown := !ev.deleted,
                        entry := if gone then None else l.entry, flying := false))
  {
    DropWaiting(l);
    assert l.given + l.hand == l.given;
  }

  lemma StepInvAt<T>(s: State<T>, a: Action<T>, u: Uid)
    requires !s.runner.Stopped? && !a.DoStop? && Shape(s) && UidInv(s, u) && Enabled(s, a)
    ensures Shape(Next(s, a)) && UidInv(Next(s, a), u)
  {
    match a
    case DoPublish(p, room) => PublishInv(s, p, room, u);
    case DoPick => PickInv(s, u);
    case DoWake => WakeInv(s, u);
    case DoSend => SendInv(s, u);
    case DoFinish =>
      FinishQueue(s, u);
      if u == s.runner.snap.pub.uid { FinishSelf(s); } else { FinishOther(s, u); }
  }

  /** The structural half of the invariant needs nothing about the histories. */
  lemma StepShape<T>(s: State<T>, a: Action<T>)
    requires !s.runner.Stopped? && !a.DoStop? && Shape(s) && Enabled(s, a)
    ensures Shape(Next(s, a))
  {
    match a
    case DoPublish(p, room) =>
      if |s.queue| > 0 || !room {
        assert Publish(s, p, room) == Publish(s, p, false);
        PublishShape(s, p);
      }
    case DoFinish => FinishQueue(s, s.runner.snap.pub.uid);
    case _ =>
  }

  /** One step of any kind keeps the invariant. */
  lemma StepInv<T>(s: State<T>, a: Action<T>)
    requires Inv(s) && Enabled(s, a)
    ensures Inv(Next(s, a))
  {
    var t := Next(s, a);
    if !s.runner.Stopped? && !a.DoStop? {
      StepShape(s, a);
      forall u ensures UidInv(t, u) {
        assert UidInv(s, u);
        StepInvAt(s, a, u);
      }
    }
  }

  /** The invariant holds after every interleaving from a fresh delivery. */
  lemma {:induction false} RunInv<T>(s: State<T>, acts: seq<Action<T>>)
    requires Inv(s) && Legal(s, acts)
    ensures Inv(Exec(s, acts))
    decreases |acts|
  {
    if |acts| > 0 {
      StepInv(s, acts[0]);
      RunInv(Next(s, acts[0]), acts[1..]);
    }
  }

  // -------------------------------------------------------- after the stop

  /** After the runner has stopped nothing is accepted or sent any more. */
  lemma {:induction false} StaysStopped<T>(s: State<T>, acts: seq<Action<T>>)
    requires s.runner.Stopped? && Legal(s, acts)
    ensures Exec(s, acts) == s
    decreases |acts|
  {
    if |acts| > 0 {
      StaysStopped(Next(s, acts[0]), acts[1..]);
    }
  }

  /** Stopping changes neither history: they are what they were when the runner last ran. */
  lemma {:induction false} BeforeStop<T>(s: State<T>, acts: seq<Action<T>>) returns (k: nat)
    requires !s.runner.Stopped? && Legal(s, acts)
    ensures k <= |acts| && Legal(s, acts[..k]) && !Exec(s, acts[..k]).runner.Stopped?
    ensures Exec(s, acts[..k]).published == Exec(s, acts).published
    ensures Exec(s, acts[..k]).sent == Exec(s, acts).sent
    decreases |acts|
  {
    k := 0;
    if |acts| > 0 {
      if acts[0].DoStop? {
        StaysStopped(Next(s, acts[0]), acts[1..]);
      } else {
        var m := BeforeStop(Next(s, acts[0]), acts[1..]);
        k := m + 1;
        assert acts[..k][1..] == acts[1..][..m];
      }
    }
  }

  /** No publish is lost on the way in: the history is what the producer published. */
  lemma {:induction false} NothingLost<T>(s: State<T>, acts: seq<Action<T>>)
    requires !s.runner.Stopped? && Legal(s, acts)
    ensures Exec(s, acts).published == s.published + Arrivals(acts)
    decreases |acts|
  {
    if |acts| > 0 {
      if acts[0].DoStop? {
        StaysStopped(Next(s, acts[0]), acts[1..]);
      } else {
        NothingLost(Next(s, acts[0]), acts[1..]);
      }
    }
  }

  lemma PublishedIsArrivals<T>(acts: seq<Action<T>>)
    requires Legal(Init(), acts)
    ensures Exec(Init(), acts).published == Arrivals(acts)
  {
    NothingLost(Init<T>(), acts);
    assert [] + Arrivals(acts) == Arrivals(acts);
  }

  /** What publish does with an event: while nothing waits and the channel has room the event goes
      straight out; otherwise nothing goes out now, and unless it is a deletion the consumer need not
      hear of, it is what its UID's entry holds from then on. */
  lemma PublishPlaces<T>(s: State<T>, p: Pub<T>, room: bool)
    requires !s.runner.Stopped?
    ensures var t := Publish(s, p, room);
      if |s.queue| == 0 && room then t.sent == s.sent + [p] && t.queue == []
      else
        && t.sent == s.sent
        && if p.deleted && p.uid !in s.known && !(EntryOf(s.queue, p.uid).Some? && InFlight(s, p.uid))
           then Distinct(s.queue) ==> EntryOf(t.queue, p.uid).None?
           else EntryOf(t.queue, p.uid).Some? && EntryOf(t.queue, p.uid).value.pub == p && t.wake
  {
    if |s.queue| > 0 || !room {
      var i := Find(s.queue, p.uid);
      if Drops(s, p) {
        if i < |s.queue| && Distinct(s.queue) { EntryRemove(s.queue, i, p.uid); }
      } else {
        var q := Enqueued(s.queue, p);
        assert q[i].pub == p;
        assert forall j :: 0 <= j < i ==> q[j].pub.uid == s.queue[j].pub.uid;
      }
    }
  }

  // -------------------------------------------------- eventual convergence

  /** The table after a history is, per UID, the outcome of that UID's last event. */
  lemma FoldOutcome<T>(es: seq<Pub<T>>, u: Uid)
    ensures u in Fold(es) <==> Outcome(Restrict(es, u)).Some?
    ensures u in Fold(es) ==> Fold(es)[u] == Outcome(Restrict(es, u)).value
    decreases |es|
  {
    if |es| > 0 {
      FoldOutcome(es[..|es| - 1], u);
    }
  }

  /** In every interleaving before close: a UID with no queue entry looks the same to the
      consumer as to the producer, and a queued UID has its latest publish in its entry. */
  lemma Converges<T>(acts: seq<Action<T>>, u: Uid)
    requires Legal(Init(), acts) && !Exec(Init(), acts).runner.Stopped?
    ensures var s := Exec(Init(), acts);
      match EntryOf(s.queue, u)
      case None =>
        && (u in Fold(s.sent) <==> u in Fold(Arrivals(acts)))
        && (u in Fold(s.sent) ==> Fold(s.sent)[u] == Fold(Arrivals(acts))[u])
      case Some(e) =>
        |Restrict(Arrivals(acts), u)| > 0 && e.pub == Restrict(Arrivals(acts), u)[|Restrict(Arrivals(acts), u)| - 1]
  {
    PublishedIsArrivals(acts);
    var s := Exec(Init(), acts);
    RunInv(Init(), acts);
    assert UidInv(s, u) && Balanced(LedgerOf(s, u));
    if EntryOf(s.queue, u).None? {
      assert !InFlight(s, u);
      GivenEmbeds(LedgerOf(s, u));
      FoldOutcome(s.sent, u);
      FoldOutcome(s.published, u);
    }
  }

  /** With the queue empty the consumer's table, once Out is drained, is the producer's. */
  lemma ConvergedWhenEmpty<T>(acts: seq<Action<T>>)
    requires Legal(Init(), acts) && !Exec(Init(), acts).runner.Stopped?
    requires |Exec(Init(), acts).queue| == 0
    ensures Fold(Exec(Init(), acts).sent) == Fold(Arrivals(acts))
  {
    PublishedIsArrivals(acts);
    forall u
      ensures u in Fold(Exec(Init(), acts).sent) <==> u in Fold(Exec(Init(), acts).published)
      ensures u in Fold(Exec(Init(), acts).sent) ==>
        Fold(Exec(Init(), acts).sent)[u] == Fold(Exec(Init(), acts).published)[u]
    {
      Converges(acts, u);
    }
  }

  lemma {:induction false} SubseqDropTail<T>(a: seq<T>, c: seq<T>, b: seq<T>)
    requires Subseq(a + c, b)
    ensures Subseq(a, b)
    decreases |c|
  {
    if |c| == 0 {
      assert a + c == a;
    } else {
      SubseqPrefix(a + c, b);
      assert (a + c)[..|a + c| - 1] == a + c[..|c| - 1];
      SubseqDropTail(a, c[..|c| - 1], b);
    }
  }

  lemma GivenEmbeds<T>(l: Ledger<T>)
    requires Balanced(l)
    ensures Subseq(l.given, l.arrived)
    ensures l.hand == l.waiting == [] ==> l.given + l.hand + l.waiting == l.given
  {
    DropWaiting(l);
    SubseqDropTail(l.given, l.hand, l.arrived);
  }

  lemma FreshInv<T>()
    ensures Inv(Init<T>())
  {
  }

  lemma SentEmbeds<T>(acts: seq<Action<T>>, u: Uid)
    requires Legal(Init(), acts)
    ensures var s := Exec(Init(), acts); Subseq(Restrict(s.sent, u), Restrict(s.published, u))
  {
    hide Subseq, Shape, Next, Enabled, Restrict;
    FreshInv<T>();
    var k := BeforeStop(Init(), acts);
    var s := Exec(Init(), acts[..k]);
    RunInv(Init(), acts[..k]);
    assert UidInv(s, u);
    GivenEmbeds(LedgerOf(s, u));
  }

  /** Per UID, what is handed over is a subsequence of what was published: nothing is
      invented, duplicated or reordered. */
  lemma DeliveredAreSubsequence<T>(acts: seq<Action<T>>, u: Uid)
    requires Legal(Init(), acts)
    ensures var s := Exec(Init(), acts); Subseq(Restrict(s.sent, u), Restrict(Arrivals(acts), u))
  {
    hide Subseq, Restrict, Arrivals, Next, Enabled;
    PublishedIsArrivals(acts);
    SentEmbeds(acts, u);
  }

  /** Memory is bounded by resources, not by events: the queue holds one entry a UID, each
      of them live, visible to the consumer or in flight; `known` is what the consumer sees. */
  lemma MemoryBound<T>(acts: seq<Action<T>>, u: Uid)
    requires Legal(Init(), acts) && !Exec(Init(), acts).runner.Stopped?
    ensures var s := Exec(Init(), acts);
      && Distinct(s.queue)
      && (EntryOf(s.queue, u).Some? ==> u in Fold(Arrivals(acts)) || u in s.known || InFlight(s, u))
      && (u in s.known <==> u in Fold(Recorded(s)))
  {
    PublishedIsArrivals(acts);
    var s := Exec(Init(), acts);
    RunInv(Init(), acts);
    assert UidInv(s, u);
    FoldOutcome(s.published, u);
    FoldOutcome(Recorded(s), u);
  }

  /** No lost wake-up: a parked runner with work always has a token waiting. */
  lemma NoLostWakeup<T>(acts: seq<Action<T>>)
    requires Legal(Init(), acts)
    ensures var s := Exec(Init(), acts);
      s.runner.Parked? && |s.queue| > 0 ==> Enabled(s, DoWake)
  {
    RunInv(Init<T>(), acts);
  }

  // ------------------------------------------------------------ scheduling

  /** Completed sends in a run. */
  function Finishes<T>(acts: seq<Action<T>>): nat {
    if |acts| == 0 then 0 else (if acts[0].DoFinish? then 1 else 0) + Finishes(acts[1..])
  }

  /** Some publish in the run takes the queued `u` out again, or the runner stops. */
  ghost predicate Cancelled<T>(s: State<T>, acts: seq<Action<T>>, u: Uid)
    requires Legal(s, acts)
    decreases |acts|
  {
    |acts| > 0 && (
      || acts[0].DoStop?
      || (acts[0].DoPublish? && EntryOf(s.queue, u).Some? && EntryOf(Next(s, acts[0]).queue, u).None?)
      || Cancelled(Next(s, acts[0]), acts[1..], u))
  }

  /** Publishing never moves another entry back. */
  lemma PublishKeepsPlace<T>(s: State<T>, p: Pub<T>, room: bool, u: Uid)
    requires !s.runner.Stopped? && Shape(s) && Find(s.queue, u) < |s.queue|
    ensures var q := Publish(s, p, room).queue; Find(q, u) < |q| ==> Find(q, u) <= Find(s.queue, u)
  {
    var k, i, q := Find(s.queue, u), Find(s.queue, p.uid), Publish(s, p, room).queue;
    if i < |s.queue| && q == RemoveAt(s.queue, i) {
      EntryRemove(s.queue, i, u);
      if i != k { assert q[if k < i then k else k - 1] == s.queue[k]; }
    } else {
      assert q[k].pub.uid == u;
    }
  }

  /** A completed send moves every other entry one place forward. */
  lemma FinishAdvances<T>(s: State<T>, u: Uid)
    requires s.runner.Sent? && Shape(s) && 0 < Find(s.queue, u) < |s.queue|
    ensures var q := Finish(s).queue; Find(q, u) < |q| && Find(q, u) == Find(s.queue, u) - 1
  {
    var k, q := Find(s.queue, u), Finish(s).queue;
    assert q[k - 1] == s.queue[k];
    forall j | 0 <= j < k - 1 ensures q[j].pub.uid != u { assert q[j] == s.queue[j + 1]; }
  }

  lemma RecordedGrows<T>(s: State<T>, a: Action<T>, u: Uid)
    requires Inv(s) && Enabled(s, a)
    ensures |Restrict(Recorded(s), u)| <= |Restrict(Recorded(Next(s, a)), u)|
    ensures a.DoFinish? && InFlight(s, u) ==> |Restrict(Recorded(s), u)| < |Restrict(Recorded(Next(s, a)), u)|
  {
    match a
    case DoPublish(p, room) =>
      RestrictSnoc(s.sent, p, u);
      if s.runner.Sent? { assert Publish(s, p, room).sent == s.sent; }
    case DoSend => assert Recorded(Next(s, a)) == s.sent;
    case DoFinish => RecordedSplit(s, u);
    case _ =>
  }

  lemma {:induction false} RecordedNeverShrinks<T>(s: State<T>, acts: seq<Action<T>>, u: Uid)
    requires Inv(s) && Legal(s, acts)
    ensures |Restrict(Recorded(s), u)| <= |Restrict(Exec(s, acts).sent, u)|
    decreases |acts|
  {
    if |acts| == 0 {
      if s.runner.Sent? { RecordedSplit(s, u); }
    } else {
      RecordedGrows(s, acts[0], u);
      StepInv(s, acts[0]);
      RecordedNeverShrinks(Next(s, acts[0]), acts[1..], u);
    }
  }

  /** Whatever publishes interleave, the entry at position k has been handed to Out once
      k + 1 sends have completed, unless a deletion cancels it: no hot UID starves it. */
  lemma {:induction false} FairService<T>(s: State<T>, acts: seq<Action<T>>, u: Uid)
    requires Inv(s) && !s.runner.Stopped? && Legal(s, acts)
    requires Find(s.queue, u) < |s.queue| && Finishes(acts) >= Find(s.queue, u) + 1
    requires !Cancelled(s, acts, u)
    ensures |Restrict(Recorded(s), u)| < |Restrict(Exec(s, acts).sent, u)|
    decreases |acts|
  {
    var a := acts[0];
    var t := Next(s, a);
    StepInv(s, a);
    RecordedGrows(s, a, u);
    if a.DoFinish? && Find(s.queue, u) == 0 {
      RecordedNeverShrinks(t, acts[1..], u);
    } else {
      match a {
        case DoPublish(p, room) => PublishKeepsPlace(s, p, room, u);
        case DoFinish => FinishAdvances(s, u);
        case _ =>
      }
      FairService(t, acts[1..], u);
    }
  }

  // ------------------------------------------------------------ quiescence

  predicate Quiet<T>(acts: seq<Action<T>>) {
    forall i :: 0 <= i < |acts| ==> !acts[i].DoPublish? && !acts[i].DoStop?
  }

  /** How many runner steps are left if nobody publishes. */
  function Rank<T>(s: State<T>): nat {
    var stale := (s.runner.Sending? || s.runner.Sent?) && |s.queue| > 0
                 && s.runner.snap.version != s.queue[0].version;
    4 * |s.queue| + (if stale then 4 else 0) + (if s.wake then 4 else 0)
    + match s.runner case Ready => 3 case Sending(_) => 2 case Sent(_) => 1 case _ => 0
  }

  /** Once publishing pauses the runner takes at most Rank(s) more steps. */
  lemma {:induction false} DrainsInBoundedSteps<T>(s: State<T>, acts: seq<Action<T>>)
    requires Inv(s) && !s.runner.Stopped? && Legal(s, acts) && Quiet(acts)
    ensures !Exec(s, acts).runner.Stopped? && |acts| + Rank(Exec(s, acts)) <= Rank(s)
    decreases |acts|
  {
    if |acts| > 0 {
      var t := Next(s, acts[0]);
      StepInv(s, acts[0]);
      assert Rank(t) < Rank(s);
      assert Quiet(acts[1..]);
      DrainsInBoundedSteps(t, acts[1..]);
    }
  }

  /** When the runner can take no step at all, the consumer has everything. */
  lemma StuckMeansConverged<T>(acts: seq<Action<T>>)
    requires Legal(Init(), acts)
    requires var s := Exec(Init(), acts);
      && !s.runner.Stopped? && !Enabled(s, DoPick) && !Enabled(s, DoWake)
      && !Enabled(s, DoSend) && !Enabled(s, DoFinish)
    ensures var s := Exec(Init(), acts); |s.queue| == 0 && Fold(s.sent) == Fold(Arrivals(acts))
  {
    PublishedIsArrivals(acts);
    RunInv(Init<T>(), acts);
    ConvergedWhenEmpty(acts);
  }

  // --------------------------------------------------- order of the marker

  /** `u` occurs in `es`, strictly before any `v`. */
  ghost predicate Before<T>(es: seq<Pub<T>>, u: Uid, v: Uid) {
    exists i :: 0 <= i < |es| && es[i].uid == u && forall j :: 0 <= j <= i ==> es[j].uid != v
  }

  ghost predicate Occurs<T>(es: seq<Pub<T>>, u: Uid) {
    exists i :: 0 <= i < |es| && es[i].uid == u
  }

  ghost predicate NeverDeleted<T>(es: seq<Pub<T>>, u: Uid) {
    forall i :: 0 <= i < |es| && es[i].uid == u ==> !es[i].deleted
  }

  lemma BeforeSnoc<T>(es: seq<Pub<T>>, p: Pub<T>, u: Uid, v: Uid)
    requires u != v
    ensures Occurs(es + [p], u) <==> Occurs(es, u) || p.uid == u
    ensures Before(es + [p], u, v) <==> Before(es, u, v) || (p.uid == u && !Occurs(es, v))
  {
    var fs := es + [p];
    if Occurs(es, u) {
      var i :| 0 <= i < |es| && es[i].uid == u;
      assert fs[i].uid == u;
    }
    if Before(es, u, v) {
      var i :| 0 <= i < |es| && es[i].uid == u && forall j :: 0 <= j <= i ==> es[j].uid != v;
      assert fs[i].uid == u && forall j :: 0 <= j <= i ==> fs[j].uid != v;
    }
    if p.uid == u {
      assert fs[|es|].uid == u;
      if !Occurs(es, v) {
        assert forall j :: 0 <= j <= |es| ==> fs[j].uid != v;
      }
    }
    if Before(fs, u, v) {
      var i :| 0 <= i < |fs| && fs[i].uid == u && forall j :: 0 <= j <= i ==> fs[j].uid != v;
      forall j | 0 <= j <= i && j < |es| ensures es[j].uid != v { assert es[j] == fs[j]; }
      if i < |es| { assert es[i].uid == u; }
    }
  }

  lemma OccursRestrict<T>(es: seq<Pub<T>>, u: Uid)
    ensures Occurs(es, u) <==> |Restrict(es, u)| > 0
    ensures NeverDeleted(es, u) ==> forall i :: 0 <= i < |Restrict(es, u)| ==> !Restrict(es, u)[i].deleted
    decreases |es|
  {
    if |es| > 0 {
      var es0, p := es[..|es| - 1], es[|es| - 1];
      OccursRestrict(es0, u);
      if Occurs(es0, u) {
        var i :| 0 <= i < |es0| && es0[i].uid == u;
        assert es[i].uid == u;
      }
      if NeverDeleted(es, u) {
        forall i | 0 <= i < |es0| && es0[i].uid == u ensures !es0[i].deleted { assert es[i] == es0[i]; }
      }
    }
  }

  lemma NeverDeletedSnoc<T>(es: seq<Pub<T>>, p: Pub<T>, u: Uid)
    requires NeverDeleted(es + [p], u)
    ensures NeverDeleted(es, u) && (p.uid == u ==> !p.deleted)
  {
    assert (es + [p])[|es|] == p;
    forall i | 0 <= i < |es| && es[i].uid == u ensures !es[i].deleted { assert (es + [p])[i] == es[i]; }
  }

  /** A published, never deleted resource has been sent or is queued; nothing else is sent. */
  lemma PublishedIsPending<T>(s: State<T>, u: Uid)
    requires !s.runner.Stopped? && Shape(s) && UidInv(s, u)
    ensures Occurs(s.sent, u) ==> Occurs(s.published, u)
    ensures Find(s.queue, u) < |s.queue| ==> Occurs(s.published, u)
    ensures NeverDeleted(s.published, u) && Occurs(s.published, u) ==>
      Occurs(s.sent, u) || Find(s.queue, u) < |s.queue|
  {
    OccursRestrict(s.sent, u);
    OccursRestrict(s.published, u);
    GivenEmbeds(LedgerOf(s, u));
    assert Find(s.queue, u) == |s.queue| ==> Waiting(s, u) == [];
    assert Shape(s) && Find(s.queue, u) == |s.queue| ==> InHand(s, u) == [];
  }

  /** First deliveries keep the order of first publishes. */
  ghost predicate Fifo<T>(s: State<T>, u: Uid, v: Uid) {
    NeverDeleted(s.published, u) && NeverDeleted(s.published, v)
    && Before(s.published, u, v) && Occurs(s.published, v)
    ==>
      if Occurs(s.sent, v) then Before(s.sent, u, v)
      else s.runner.Stopped? || Occurs(s.sent, u) || Find(s.queue, u) < Find(s.queue, v) < |s.queue|
  }

  lemma BeforeOccurs<T>(es: seq<Pub<T>>, u: Uid, v: Uid)
    requires Occurs(es, u) && !Occurs(es, v)
    ensures Before(es, u, v)
  {
    var i :| 0 <= i < |es| && es[i].uid == u;
    assert forall j :: 0 <= j <= i ==> es[j].uid != v;
  }

  lemma PlaceAfterRemove<T>(q: seq<Entry<T>>, i: nat, u: Uid)
    requires Distinct(q) && i < |q| && q[i].pub.uid != u && Find(q, u) < |q|
    ensures Find(RemoveAt(q, i), u) == if Find(q, u) < i then Find(q, u) else Find(q, u) - 1
  {
    var k, r := Find(q, u), RemoveAt(q, i);
    var m := if k < i then k else k - 1;
    assert r[m] == q[k];
    forall j | 0 <= j < m ensures r[j].pub.uid != u { assert r[j] == q[if j < i then j else j + 1]; }
  }

  lemma PlaceAfterGrowth<T>(q: seq<Entry<T>>, r: seq<Entry<T>>, u: Uid)
    requires |q| <= |r| && forall j :: 0 <= j < |q| ==> r[j].pub.uid == q[j].pub.uid
    ensures Find(q, u) < |q| ==> Find(r, u) == Find(q, u)
    ensures Find(q, u) == |q| ==> Find(r, u) >= |q|
  {
    var k, l := Find(q, u), Find(r, u);
    if l < |q| { assert q[l].pub.uid == u; }
    if k < |q| { assert r[k].pub.uid == u; }
  }

  /** A cancelled entry leaves the others in order. */
  lemma DropKeepsOrder<T>(q: seq<Entry<T>>, i: nat, u: Uid, v: Uid)
    requires Distinct(q) && i < |q| && Find(q, u) < Find(q, v) < |q| && q[i].pub.uid != u && q[i].pub.uid != v
    ensures Find(RemoveAt(q, i), u) < Find(RemoveAt(q, i), v) < |q| - 1
  {
    hide Distinct, RemoveAt;
    PlaceAfterRemove(q, i, u);
    PlaceAfterRemove(q, i, v);
  }

  /** An entry queued or overwritten does, too. */
  lemma EnqueueKeepsOrder<T>(q: seq<Entry<T>>, p: Pub<T>, u: Uid, v: Uid)
    requires Find(q, u) < |q| && Find(q, u) < Find(q, v) && (Find(q, v) < |q| || p.uid == v)
    ensures var r := Enqueued(q, p); Find(r, u) < Find(r, v) < |r|
  {
    var r := Enqueued(q, p);
    PlaceAfterGrowth(q, r, u);
    PlaceAfterGrowth(q, r, v);
    if Find(q, v) == |q| { assert r[|q|].pub.uid == v; }
  }

  /** Queueing keeps the relative order of entries already there. */
  lemma PublishKeepsOrder<T>(s: State<T>, p: Pub<T>, u: Uid, v: Uid)
    requires !s.runner.Stopped? && Shape(s) && u != v && !(p.deleted && (p.uid == u || p.uid == v))
    requires Find(s.queue, u) < |s.queue|
    requires Find(s.queue, u) < Find(s.queue, v)
    requires Find(s.queue, v) < |s.queue| || p.uid == v
    ensures var q := Publish(s, p, false).queue; Find(q, u) < Find(q, v) < |q|
  {
    hide Distinct, RemoveAt, Enqueued;
    var i := Find(s.queue, p.uid);
    if !Drops(s, p) {
      EnqueueKeepsOrder(s.queue, p, u, v);
    } else if i < |s.queue| {
      DropKeepsOrder(s.queue, i, u, v);
      assert |RemoveAt(s.queue, i)| == |s.queue| - 1 by { RemoveShortens(s.queue, i); }
    }
  }

  lemma RemoveShortens<T>(q: seq<T>, i: nat)
    requires i < |q|
    ensures |RemoveAt(q, i)| == |q| - 1
  {
  }

  /** A publish that establishes the premise of Fifo(u, v) found `u` already published. */
  lemma FifoPremise<T>(es: seq<Pub<T>>, p: Pub<T>, u: Uid, v: Uid)
    requires u != v && Before(es + [p], u, v) && Occurs(es + [p], v)
    requires NeverDeleted(es + [p], u) && NeverDeleted(es + [p], v)
    ensures NeverDeleted(es, u) && NeverDeleted(es, v) && Before(es, u, v) && Occurs(es, u)
    ensures Occurs(es, v) || p.uid == v
    ensures !(p.deleted && (p.uid == u || p.uid == v))
  {
    NeverDeletedSnoc(es, p, u);
    NeverDeletedSnoc(es, p, v);
    BeforeSnoc(es, p, u, v);
    BeforeSnoc(es, p, v, u);
  }

  lemma FifoDirect<T>(s: State<T>, p: Pub<T>, u: Uid, v: Uid)
    requires !s.runner.Stopped? && |s.queue| == 0 && u != v
    requires Occurs(s.sent, u) && (Occurs(s.sent, v) ==> Before(s.sent, u, v))
    ensures Fifo(Publish(s, p, true), u, v)
  {
    BeforeSnoc(s.sent, p, u, v);
    if !Occurs(s.sent, v) { BeforeOccurs(s.sent, u, v); }
  }

  lemma FifoPublish<T>(s: State<T>, p: Pub<T>, room: bool, u: Uid, v: Uid)
    requires !s.runner.Stopped? && Shape(s) && UidInv(s, u) && UidInv(s, v) && u != v && Fifo(s, u, v)
    ensures Fifo(Publish(s, p, room), u, v)
  {
    hide UidInv, NeverDeleted, Before, Occurs, Find, Drops, Enqueued, RemoveAt;
    var t := Publish(s, p, room);
    var es := t.published;
    if NeverDeleted(es, u) && NeverDeleted(es, v) && Before(es, u, v) && Occurs(es, v) {
      FifoPremise(s.published, p, u, v);
      PublishedIsPending(s, u);
      PublishedIsPending(s, v);
      if |s.queue| == 0 && room {
        FifoDirect(s, p, u, v);
      } else {
        assert t == Publish(s, p, false) && t.sent == s.sent;
        if !Occurs(s.sent, u) && !Occurs(s.sent, v) {
          PublishKeepsOrder(s, p, u, v);
        }
      }
    }
  }

  lemma FifoSend<T>(s: State<T>, u: Uid, v: Uid)
    requires s.runner.Sending? && Shape(s) && u != v && Fifo(s, u, v)
    ensures Fifo(Send(s), u, v)
  {
    var p := s.runner.snap.pub;
    BeforeSnoc(s.sent, p, u, v);
    BeforeSnoc(s.sent, p, v, u);
    assert p.uid == v ==> Find(s.queue, v) == 0;
    if Occurs(s.sent, u) && !Occurs(s.sent, v) { BeforeOccurs(s.sent, u, v); }
  }

  lemma FifoFinish<T>(s: State<T>, u: Uid, v: Uid)
    requires s.runner.Sent? && Shape(s) && u != v && Fifo(s, u, v)
    ensures Fifo(Finish(s), u, v)
  {
    var k, l, q := Find(s.queue, u), Find(s.queue, v), Finish(s).queue;
    assert s.sent[|s.sent| - 1].uid == s.queue[0].pub.uid;
    if k < l < |s.queue| && !Occurs(s.sent, u) {
      FinishAdvances(s, u);
      FinishAdvances(s, v);
    }
  }

  lemma {:induction false} FifoRun<T>(s: State<T>, acts: seq<Action<T>>, u: Uid, v: Uid)
    requires Inv(s) && Legal(s, acts) && u != v && Fifo(s, u, v)
    ensures Fifo(Exec(s, acts), u, v)
    decreases |acts|
  {
    if |acts| > 0 {
      StepInv(s, acts[0]);
      if s.runner.Stopped? || acts[0].DoStop? {
        StaysStopped(Next(s, acts[0]), acts[1..]);
      } else {
        match acts[0] {
          case DoPublish(p, room) => FifoPublish(s, p, room, u, v);
          case DoSend => FifoSend(s, u, v);
          case DoFinish => FifoFinish(s, u, v);
          case _ =>
        }
        FifoRun(Next(s, acts[0]), acts[1..], u, v);
      }
    }
  }

  /** The sync marker `v` (published under a UID that is never deleted) leaves only after
      every never-deleted resource published before it has been sent at least once. */
  lemma MarkerLeavesLast<T>(acts: seq<Action<T>>, u: Uid, v: Uid)
    requires Legal(Init(), acts) && u != v
    requires var s := Exec(Init(), acts);
      && NeverDeleted(Arrivals(acts), u) && NeverDeleted(Arrivals(acts), v)
      && Before(Arrivals(acts), u, v) && Occurs(s.sent, v)
    ensures Before(Exec(Init(), acts).sent, u, v)
  {
    PublishedIsArrivals(acts);
    var k := BeforeStop(Init(), acts);
    RunInv(Init<T>(), acts[..k]);
    FifoRun(Init<T>(), acts, u, v);
    PublishedIsPending(Exec(Init(), acts[..k]), v);
  }
}
