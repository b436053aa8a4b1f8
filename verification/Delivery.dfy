/** The delivery object itself: fields mutated in place under a mutex. Each method is one
    critical section or one channel operation, and refines the step of DeliverySpec with the
    same name, so every theorem about interleavings of steps is one about these methods. */
module Delivery {
  import opened DeliverySpec
  import opened DeliveryTheorems
  import opened Options

  /** An element of the linked queue; `pending` and `inFlight` alias it. */
  class Element<T> {
    var value: Entry<T>

    constructor (v: Entry<T>)
      ensures value == v
    {
      value := v;
    }
  }

  /** What a history put on the channel. */
  function Events<T>(es: seq<Pub<T>>): seq<T> {
    seq(|es|, i requires 0 <= i < |es| => es[i].event)
  }

  /** The UIDs of a queue. */
  ghost function Uids<T>(q: seq<Entry<T>>): set<Uid>
    decreases |q|
  {
    if |q| == 0 then {} else Uids(q[..|q| - 1]) + {q[|q| - 1].pub.uid}
  }

  lemma {:induction false} UidsMember<T>(q: seq<Entry<T>>, u: Uid)
    ensures u in Uids(q) <==> exists i :: 0 <= i < |q| && q[i].pub.uid == u
    decreases |q|
  {
    if |q| > 0 {
      var q0 := q[..|q| - 1];
      UidsMember(q0, u);
      assert q[|q| - 1].pub.uid == u ==> u in Uids(q);
      if i :| 0 <= i < |q0| && q0[i].pub.uid == u { assert q[i].pub.uid == u; }
      if u in Uids(q) && q[|q| - 1].pub.uid != u {
        var i :| 0 <= i < |q0| && q0[i].pub.uid == u;
        assert q[i].pub.uid == u;
      }
    }
  }

  /** `pending` points at exactly the linked elements, one a UID. */
  ghost predicate Indexed<T>(q: seq<Entry<T>>, queue: seq<Element<T>>, pending: map<Uid, Element<T>>) {
    && |q| == |queue|
    && pending.Keys == Uids(q)
    && forall i :: 0 <= i < |q| ==> q[i].pub.uid in pending && pending[q[i].pub.uid] == queue[i]
  }

  lemma NothingIndexed<T>()
    ensures Indexed<T>([], [], map[])
  {
  }

  lemma IndexedFind<T>(q: seq<Entry<T>>, queue: seq<Element<T>>, pending: map<Uid, Element<T>>, u: Uid)
    requires Indexed(q, queue, pending)
    ensures u in pending <==> Find(q, u) < |q|
    ensures u in pending ==> pending[u] == queue[Find(q, u)]
  {
    UidsMember(q, u);
  }

  lemma IndexedRemove<T>(q: seq<Entry<T>>, queue: seq<Element<T>>, pending: map<Uid, Element<T>>, i: nat)
    requires Indexed(q, queue, pending) && Distinct(q) && i < |q|
    ensures Indexed(RemoveAt(q, i), RemoveAt(queue, i), pending - {q[i].pub.uid})
  {
    hide Uids;
    var r := RemoveAt(q, i);
    assert forall j :: 0 <= j < |r| ==> r[j] == q[if j < i then j else j + 1];
    forall u ensures u in Uids(r) <==> u in Uids(q) && u != q[i].pub.uid {
      UidsMember(r, u);
      UidsMember(q, u);
      if u in Uids(q) && u != q[i].pub.uid {
        var j :| 0 <= j < |q| && q[j].pub.uid == u;
        assert r[if j < i then j else j - 1] == q[j];
      }
    }
    assert Uids(r) == Uids(q) - {q[i].pub.uid};
  }

  lemma IndexedPush<T>(q: seq<Entry<T>>, queue: seq<Element<T>>, pending: map<Uid, Element<T>>,
                       e: Entry<T>, elem: Element<T>)
    requires Indexed(q, queue, pending) && e.pub.uid !in pending
    ensures Indexed(q + [e], queue + [elem], pending[e.pub.uid := elem])
  {
    assert (q + [e])[..|q|] == q;
  }

  lemma IndexedUpdate<T>(q: seq<Entry<T>>, queue: seq<Element<T>>, pending: map<Uid, Element<T>>,
                         at: nat, e: Entry<T>)
    requires Indexed(q, queue, pending) && at < |q| && q[at].pub.uid == e.pub.uid
    ensures Indexed(q[at := e], queue, pending)
  {
    var r := q[at := e];
    assert forall j :: 0 <= j < |q| ==> r[j].pub.uid == q[j].pub.uid;
    forall u ensures u in Uids(r) <==> u in Uids(q) {
      UidsMember(r, u);
      UidsMember(q, u);
      if i :| 0 <= i < |q| && q[i].pub.uid == u { assert r[i].pub.uid == u; }
    }
    assert Uids(r) == Uids(q);
  }

  class EventDelivery<T> {
    var queue: seq<Element<T>>
    var pending: map<Uid, Element<T>>
    var known: set<Uid>
    var inFlight: Element?<T>
    var wake: bool
    var closed: bool
    // everything the channel was given, in order
    var out: seq<T>
    // where the runner goroutine stands, with its local copy of the event being sent
    var runner: Runner<T>
    // what the linked elements hold, and the two histories
    ghost var entries: seq<Entry<T>>
    ghost var published: seq<Pub<T>>
    ghost var sent: seq<Pub<T>>

    ghost predicate Linked()
      reads this, queue
    {
      && |queue| == |entries| && Indexed(entries, queue, pending)
      && forall i :: 0 <= i < |queue| ==> queue[i].value == entries[i]
    }

    /** The abstract state this object stands for. */
    ghost function Model(): State<T>
      reads this
    {
      State(entries, known, runner, wake, published, sent)
    }

    ghost predicate Valid()
      reads this, queue
    {
      && Linked()
      && closed == runner.Stopped? && out == Events(sent)
      && inFlight == (if (runner.Sending? || runner.Sent?) && |queue| > 0 then queue[0] else null)
      && (closed || Shape(Model()))
    }

    constructor ()
      ensures Valid() && Model() == Init()
    {
      queue, pending, known, inFlight := [], map[], {}, null;
      wake, closed, runner, out := false, false, Ready, [];
      entries, published, sent := [], [], [];
    }

    /** Hands the event straight to Out while nothing waits, else cancels or queues it. */
    method Publish(uid: Uid, event: T, deleted: bool, room: bool)
      requires Valid()
      modifies this, queue
      ensures Valid()
      ensures Model() == DeliverySpec.Publish(old(Model()), Pub(uid, event, deleted), room)
      ensures forall e :: e in queue ==> e in old(queue) || fresh(e)
    {
      if closed {
        return;
      }
      var p := Pub(uid, event, deleted);
      if |queue| == 0 && room {
        StepShape(Model(), DoPublish(p, room));
        RecordKnown(uid, deleted);
        out := out + [event];
        published, sent := published + [p], sent + [p];
      } else {
        assert DeliverySpec.Publish(Model(), p, room) == DeliverySpec.Publish(Model(), p, false);
        PublishSlow(p);
      }
    }

    /** Out is full or work is waiting: a deletion of something unseen cancels, all else queues. */
    method PublishSlow(p: Pub<T>)
      requires Valid() && !closed
      modifies this, queue
      ensures Valid() && Model() == DeliverySpec.Publish(old(Model()), p, false)
      ensures forall e :: e in queue ==> e in old(queue) || fresh(e)
    {
      hide Indexed, RemoveAt, Enqueued, Distinct;
      ghost var s, at := Model(), Find(entries, p.uid);
      ghost var s1, after := s.(published := published + [p]), DeliverySpec.Publish(s, p, false);
      StepShape(s, DoPublish(p, false));
      var elem := Lookup(p.uid);
      var drops := p.deleted && p.uid !in known && (elem == null || elem != inFlight);
      assert drops == Drops(s, p);
      published := published + [p];
      if drops {
        assert after == s1.(queue := if at < |entries| then RemoveAt(entries, at) else entries);
        Dequeue(elem, at);
      } else {
        assert after == s1.(queue := Enqueued(entries, p), wake := true);
        Enqueue(elem, p);
      }
      assert Model() == after;
    }

    /** The pending index: nil exactly when nothing is queued for the UID. */
    method Lookup(uid: Uid) returns (elem: Element?<T>)
      requires Valid() && !closed
      ensures elem == null <==> Find(entries, uid) == |queue|
      ensures elem != null ==> elem == queue[Find(entries, uid)]
      ensures elem != null ==> (elem == inFlight <==> InFlight(Model(), uid))
    {
      elem := if uid in pending then pending[uid] else null;
      IndexedFind(entries, queue, pending, uid);
      if elem != null && InFlight(Model(), uid) { assert Find(entries, uid) == 0; }
    }

    method RecordKnown(uid: Uid, deleted: bool)
      modifies this`known
      ensures known == Record(old(known), uid, deleted)
    {
      known := if deleted then known - {uid} else known + {uid};
    }

    /** Unlinks one element; every other element keeps its place and its index entry. */
    method Remove(elem: Element<T>, ghost at: nat)
      requires Linked() && Distinct(entries) && at < |queue| && queue[at] == elem
      modifies this`queue, this`pending, this`entries
      ensures Linked() && queue == RemoveAt(old(queue), at)
      ensures entries == RemoveAt(old(entries), at)
    {
      var i :| 0 <= i < |queue| && queue[i] == elem;
      assert i == at by { assert queue[i].value == entries[i] && queue[at].value == entries[at]; }
      IndexedRemove(entries, queue, pending, i);
      pending := pending - {elem.value.pub.uid};
      queue := RemoveAt(queue, i);
      entries := RemoveAt(entries, at);
    }

    /** Takes the entry at `at` out, if there is one; the front stays unless it is that entry. */
    method Dequeue(elem: Element?<T>, ghost at: nat)
      requires Linked() && Distinct(entries) && at <= |queue|
      requires if elem == null then at == |queue| else at < |queue| && queue[at] == elem
      modifies this`queue, this`pending, this`entries
      ensures Linked()
      ensures entries == if at < |old(entries)| then RemoveAt(old(entries), at) else old(entries)
      ensures forall e :: e in queue ==> e in old(queue) || fresh(e)
      ensures |old(queue)| > 0 && old(queue)[0] != elem ==> |queue| > 0 && queue[0] == old(queue)[0]
    {
      if elem != null {
        Remove(elem, at);
      }
    }

    method PushBack(p: Pub<T>)
      requires Linked() && Find(entries, p.uid) == |queue|
      modifies this`queue, this`pending, this`entries
      ensures Linked() && entries == old(entries) + [Entry(p, 0)]
      ensures |queue| == |old(queue)| + 1 && queue[..|old(queue)|] == old(queue)
      ensures forall e :: e in queue ==> e in old(queue) || fresh(e)
    {
      var elem := new Element(Entry(p, 0));
      IndexedFind(entries, queue, pending, p.uid);
      IndexedPush(entries, queue, pending, Entry(p, 0), elem);
      queue := queue + [elem];
      pending := pending[p.uid := elem];
      entries := entries + [Entry(p, 0)];
    }

    method Overwrite(elem: Element<T>, p: Pub<T>, ghost at: nat)
      requires Linked() && Distinct(entries) && at < |queue| && elem == queue[at]
      requires entries[at].pub.uid == p.uid
      modifies this`entries, elem
      ensures Linked() && entries == old(entries)[at := Entry(p, old(entries)[at].version + 1)]
    {
      ghost var e := Entry(p, elem.value.version + 1);
      IndexedUpdate(entries, queue, pending, at, e);
      assert forall i :: 0 <= i < |queue| && queue[i] == elem ==> queue[i].value == entries[i];
      elem.value := Entry(p, elem.value.version + 1);
      entries := entries[at := e];
    }

    /** A new element at the back or the latest publish in the existing one, and a wake token. */
    method Enqueue(elem: Element?<T>, p: Pub<T>)
      requires Linked() && Distinct(entries)
      requires elem == null <==> Find(entries, p.uid) == |queue|
      requires elem != null ==> elem == queue[Find(entries, p.uid)]
      modifies this`queue, this`pending, this`entries, this`wake, elem
      ensures Linked() && wake && entries == Enqueued(old(entries), p)
      ensures forall e :: e in queue ==> e in old(queue) || fresh(e)
      ensures |old(queue)| > 0 ==> |queue| > 0 && queue[0] == old(queue)[0]
    {
      if elem == null {
        PushBack(p);
        assert |old(queue)| > 0 ==> queue[0] == queue[..|old(queue)|][0];
      } else {
        Overwrite(elem, p, Find(entries, p.uid));
      }
      wake := true;
    }

    method MoveToBack(elem: Element<T>)
      requires Linked() && Distinct(entries) && |queue| > 0 && queue[0] == elem
      modifies this`queue, this`entries
      ensures Linked() && queue == old(queue)[1..] + [elem]
      ensures entries == old(entries)[1..] + [old(entries)[0]]
    {
      hide Uids, Distinct;
      ghost var e, others := entries[0], pending - {entries[0].pub.uid};
      IndexedRemove(entries, queue, pending, 0);
      assert RemoveAt(entries, 0) == entries[1..] && RemoveAt(queue, 0) == queue[1..];
      IndexedPush(entries[1..], queue[1..], others, e, elem);
      assert pending == others[e.pub.uid := elem];
      queue := queue[1..] + [elem];
      entries := entries[1..] + [e];
    }

    /** Top of the loop: park on an empty queue, else snapshot the front as in flight. */
    method RunPick()
      requires Valid() && Enabled(Model(), DoPick)
      modifies this`runner, this`inFlight
      ensures Valid() && Model() == Pick(old(Model()))
    {
      StepShape(Model(), DoPick);
      if |queue| == 0 {
        runner := Parked;
      } else {
        runner := Sending(queue[0].value);
        inFlight := queue[0];
      }
    }

    method RunWake()
      requires Valid() && Enabled(Model(), DoWake)
      modifies this`runner, this`wake
      ensures Valid() && Model() == DeliverySpec.Wake(old(Model()))
    {
      StepShape(Model(), DoWake);
      wake, runner := false, Ready;
    }

    /** The channel send, outside the lock: only the history and the counter move. */
    method RunSend()
      requires Valid() && Enabled(Model(), DoSend)
      modifies this`runner, this`sent, this`out
      ensures Valid() && Model() == Send(old(Model())) && queue == old(queue)
      ensures out == old(out) + [old(runner).snap.pub.event]
    {
      StepShape(Model(), DoSend);
      out := out + [runner.snap.pub.event];
      sent := sent + [runner.snap.pub];
      runner := Sent(runner.snap);
    }

    /** Re-take the lock: record the hand-over, then remove the entry or send it to the back. */
    method RunFinish()
      requires Valid() && Enabled(Model(), DoFinish)
      modifies this`runner, this`inFlight, this`known, this`queue, this`pending, this`entries
      ensures Valid() && Model() == Finish(old(Model()))
      ensures forall e :: e in queue ==> e in old(queue) || fresh(e)
    {
      hide Indexed, Distinct, Record, Find;
      ghost var s, after := Model(), Finish(Model());
      StepShape(s, DoFinish);
      var elem, ev, latest := queue[0], runner.snap, queue[0].value;
      assert latest == entries[0];
      inFlight := null;
      runner := Ready;
      RecordKnown(ev.pub.uid, ev.pub.deleted);
      if latest.version == ev.version || (latest.pub.deleted && ev.pub.uid !in known) {
        assert after == s.(runner := Ready, known := known, queue := RemoveAt(entries, 0));
        Remove(elem, 0);
      } else {
        assert after == s.(runner := Ready, known := known, queue := entries[1..] + [entries[0]]);
        MoveToBack(elem);
      }
      assert Model() == after;
    }

    /** Cancellation: the deferred cleanup drops all pending work. */
    method RunStop()
      requires Valid() && Enabled(Model(), DoStop)
      modifies this
      ensures Valid() && Model() == Stop(old(Model())) && queue == [] && pending == map[]
    {
      hide Shape, Indexed;
      NothingIndexed<T>();
      closed, pending, known, inFlight, queue, runner := true, map[], {}, null, [], Stopped;
      entries := [];
    }
  }

  /** Any interleaving, on the object: the channel is given exactly what the steps send, so the
      theorems about them are about what these methods deliver. */
  method Interleave<T>(acts: seq<Action<T>>) returns (out: seq<T>)
    requires Legal(Init(), acts)
    ensures out == Events(Exec(Init(), acts).sent)
  {
    hide Shape, Indexed;
    var d := new EventDelivery<T>();
    for i := 0 to |acts|
      invariant fresh(d) && d.Valid() && fresh(d.queue)
      invariant Legal(d.Model(), acts[i..]) && Exec(d.Model(), acts[i..]) == Exec(Init(), acts)
    {
      assert acts[i..][0] == acts[i] && acts[i..][1..] == acts[i + 1..];
      ghost var before := d.queue;
      assert forall e :: e in before ==> fresh(e);
      Perform(d, acts[i]);
      assert forall e :: e in d.queue ==> e in before || fresh(e);
      assert forall e :: e in d.queue ==> fresh(e);
      assert forall k :: 0 <= k < |d.queue| ==> d.queue[k] in d.queue;
    }
    out := d.out;
  }

  method Perform<T>(d: EventDelivery<T>, a: Action<T>)
    requires d.Valid() && Enabled(d.Model(), a)
    modifies d, d.queue
    ensures d.Valid() && d.Model() == Next(old(d.Model()), a)
    ensures forall e :: e in d.queue ==> e in old(d.queue) || fresh(e)
  {
    hide Shape, Indexed;
    match a {
      case DoPublish(p, room) => d.Publish(p.uid, p.event, p.deleted, room);
      case DoPick => d.RunPick();
      case DoWake => d.RunWake();
      case DoSend => d.RunSend();
      case DoFinish => d.RunFinish();
      case DoStop => d.RunStop();
    }
  }
}
