/** Coalescing event delivery as a transition system.

    A producer (Publish) and a runner (Pick, Send, Finish, Wake) share a queue of
    pending entries, the set of UIDs the consumer knows and an in-flight entry.
    Every step below is one critical section of the source, or one channel
    operation between two of them; publishes may land between Send and Finish.
    The two histories `published` and `sent` are what the theorems speak about. */
module DeliverySpec {
  import opened Options

  type Uid = string

  /** One call of publish: the resource, its new state, and whether it is a deletion. */
  datatype Pub<T> = Pub(uid: Uid, event: T, deleted: bool)

  /** A queue element: the latest publish of its UID and how often it was overwritten. */
  datatype Entry<T> = Entry(pub: Pub<T>, version: nat)

  /** Where the runner goroutine stands. `Sending` blocks on Out with a snapshot of
      the front entry; `Sent` has handed it over but not yet re-taken the lock. */
  datatype Runner<T> =
    | Ready
    | Parked
    | Sending(snap: Entry<T>)
    | Sent(snap: Entry<T>)
    | Stopped

  datatype State<T> = State(
    queue: seq<Entry<T>>,
    known: set<Uid>,
    runner: Runner<T>,
    wake: bool,
    published: seq<Pub<T>>,
    sent: seq<Pub<T>>)

  // ---------------------------------------------------------------- steps

  /** Index of the entry for `u`, or |q| when there is none. */
  function Find<T>(q: seq<Entry<T>>, u: Uid): (i: nat)
    ensures i <= |q|
    ensures forall j :: 0 <= j < i ==> q[j].pub.uid != u
    ensures i < |q| ==> q[i].pub.uid == u
  {
    if |q| == 0 then 0
    else if q[0].pub.uid == u then 0
    else 1 + Find(q[1..], u)
  }

  function EntryOf<T>(q: seq<Entry<T>>, u: Uid): Option<Entry<T>> {
    var i := Find(q, u);
    if i < |q| then Some(q[i]) else None
  }

  function RemoveAt<T>(q: seq<T>, i: nat): seq<T>
    requires i < |q|
  {
    q[..i] + q[i + 1..]
  }

  /** A new entry at the back, or the latest publish in the entry already there. */
  function Enqueued<T>(q: seq<Entry<T>>, p: Pub<T>): seq<Entry<T>> {
    var i := Find(q, p.uid);
    if i == |q| then q + [Entry(p, 0)] else q[i := Entry(p, q[i].version + 1)]
  }

  predicate InFlight<T>(s: State<T>, u: Uid) {
    (s.runner.Sending? || s.runner.Sent?) && s.runner.snap.pub.uid == u
  }

  /** What the consumer knows after being handed an event of `uid`. */
  function Record(known: set<Uid>, uid: Uid, deleted: bool): set<Uid> {
    if deleted then known - {uid} else known + {uid}
  }

  /** A deletion the consumer need not hear of: it never saw the resource, nor is about to. */
  predicate Drops<T>(s: State<T>, p: Pub<T>) {
    p.deleted && p.uid !in s.known && (Find(s.queue, p.uid) == |s.queue| || !InFlight(s, p.uid))
  }

  function Init<T>(): State<T> {
    State([], {}, Ready, false, [], [])
  }

  /** `room` is the answer of the non-blocking send to Out. */
  function Publish<T>(s: State<T>, p: Pub<T>, room: bool): State<T> {
    if s.runner.Stopped? then s
    else
      var s1 := s.(published := s.published + [p]);
      if |s.queue| == 0 && room then
        s1.(known := Record(s.known, p.uid, p.deleted), sent := s.sent + [p])
      else
        var i := Find(s.queue, p.uid);
        if Drops(s, p) then
          s1.(queue := if i < |s.queue| then RemoveAt(s.queue, i) else s.queue)
        else
          s1.(queue := Enqueued(s.queue, p), wake := true)
  }

  function Pick<T>(s: State<T>): State<T> {
    s.(runner := if |s.queue| == 0 then Parked else Sending(s.queue[0]))
  }

  function Wake<T>(s: State<T>): State<T> {
    s.(runner := Ready, wake := false)
  }

  function Send<T>(s: State<T>): State<T>
    requires s.runner.Sending?
  {
    s.(runner := Sent(s.runner.snap), sent := s.sent + [s.runner.snap.pub])
  }

  function Finish<T>(s: State<T>): State<T>
    requires s.runner.Sent? && |s.queue| > 0
  {
    var ev, latest := s.runner.snap, s.queue[0];
    var known := Record(s.known, ev.pub.uid, ev.pub.deleted);
    var rest := s.queue[1..];
    s.(runner := Ready, known := known,
       queue := if latest.version == ev.version || (latest.pub.deleted && ev.pub.uid !in known)
                then rest else rest + [latest])
  }

  function Stop<T>(s: State<T>): State<T> {
    s.(runner := Stopped, queue := [], known := {})
  }

  datatype Action<T> =
    | DoPublish(p: Pub<T>, room: bool)
    | DoPick | DoWake | DoSend | DoFinish | DoStop

  /** When a step may be scheduled. Cancellation is not seen between Send and Finish. */
  predicate Enabled<T>(s: State<T>, a: Action<T>) {
    match a
    case DoPublish(_, _) => true
    case DoPick => s.runner.Ready?
    case DoWake => s.runner.Parked? && s.wake
    case DoSend => s.runner.Sending?
    case DoFinish => s.runner.Sent? && |s.queue| > 0
    case DoStop => s.runner.Ready? || s.runner.Parked? || s.runner.Sending?
  }

  function Next<T>(s: State<T>, a: Action<T>): State<T>
    requires Enabled(s, a)
  {
    match a
    case DoPublish(p, room) => Publish(s, p, room)
    case DoPick => Pick(s)
    case DoWake => Wake(s)
    case DoSend => Send(s)
    case DoFinish => Finish(s)
    case DoStop => Stop(s)
  }

  /** `acts` is an interleaving the scheduler can produce from `s`. */
  predicate Legal<T>(s: State<T>, acts: seq<Action<T>>)
    decreases |acts|
  {
    |acts| == 0 || (Enabled(s, acts[0]) && Legal(Next(s, acts[0]), acts[1..]))
  }

  function Exec<T>(s: State<T>, acts: seq<Action<T>>): State<T>
    requires Legal(s, acts)
    decreases |acts|
  {
    if |acts| == 0 then s else Exec(Next(s, acts[0]), acts[1..])
  }

  /** What the producer published: every publish of a run up to the stop, in order. */
  function Arrivals<T>(acts: seq<Action<T>>): seq<Pub<T>> {
    if |acts| == 0 || acts[0].DoStop? then []
    else if acts[0].DoPublish? then [acts[0].p] + Arrivals(acts[1..])
    else Arrivals(acts[1..])
  }

  // ------------------------------------------------------ what is observed

  /** The consumer's table: apply one event after another, as applyPodEvent does. */
  ghost function Fold<T>(es: seq<Pub<T>>): map<Uid, T>
    decreases |es|
  {
    if |es| == 0 then map[]
    else
      var m, p := Fold(es[..|es| - 1]), es[|es| - 1];
      if p.deleted then m - {p.uid} else m[p.uid := p.event]
  }

  /** The events of one UID, in order. */
  ghost function Restrict<T>(es: seq<Pub<T>>, u: Uid): seq<Pub<T>>
    decreases |es|
  {
    if |es| == 0 then []
    else
      var r, p := Restrict(es[..|es| - 1], u), es[|es| - 1];
      if p.uid == u then r + [p] else r
  }

  /** State of a resource after its last event. */
  ghost function Outcome<T>(es: seq<Pub<T>>): Option<T> {
    if |es| == 0 || es[|es| - 1].deleted then None else Some(es[|es| - 1].event)
  }

  /** `a` embeds into `b` in order, no element of `b` used twice. */
  ghost predicate Subseq<T>(a: seq<T>, b: seq<T>)
    decreases |b|
  {
    if |a| == 0 then true
    else if |b| == 0 then false
    else
      || (a[|a| - 1] == b[|b| - 1] && Subseq(a[..|a| - 1], b[..|b| - 1]))
      || Subseq(a, b[..|b| - 1])
  }

  // ------------------------------------------------------------ invariant

  /** The snapshot of `u` the runner is blocked on handing over. */
  ghost function InHand<T>(s: State<T>, u: Uid): seq<Pub<T>> {
    if s.runner.Sending? && s.runner.snap.pub.uid == u then [s.runner.snap.pub] else []
  }

  /** The publish of `u` that waits behind it, unless the snapshot is already the latest. */
  ghost function Waiting<T>(s: State<T>, u: Uid): seq<Pub<T>> {
    var e := EntryOf(s.queue, u);
    if e.None? || (InFlight(s, u) && s.runner.snap.version == e.value.version) then [] else [e.value.pub]
  }

  ghost predicate Distinct<T>(q: seq<Entry<T>>) {
    forall i, j :: 0 <= i < j < |q| ==> q[i].pub.uid != q[j].pub.uid
  }

  /** The part of `sent` the runner has already recorded in `known`. */
  ghost function Recorded<T>(s: State<T>): seq<Pub<T>> {
    if s.runner.Sent? && |s.sent| > 0 then s.sent[..|s.sent| - 1] else s.sent
  }

  ghost predicate Shape<T>(s: State<T>) {
    && Distinct(s.queue)
    && (s.runner.Sending? || s.runner.Sent? ==>
          && |s.queue| > 0
          && s.queue[0].pub.uid == s.runner.snap.pub.uid
          && s.runner.snap.version <= s.queue[0].version
          && (s.runner.snap.version == s.queue[0].version ==> s.queue[0] == s.runner.snap))
    && (s.runner.Sent? ==> |s.sent| > 0 && s.sent[|s.sent| - 1] == s.runner.snap.pub)
    && (s.runner.Parked? && |s.queue| > 0 ==> s.wake)
  }

  /** Everything the invariant says about one UID, as plain values: what Out got, what is in
      hand and what waits, what was published, what `known` has noted, and the queue entry. */
  datatype Ledger<T> = Ledger(
    given: seq<Pub<T>>,
    hand: seq<Pub<T>>,
    waiting: seq<Pub<T>>,
    arrived: seq<Pub<T>>,
    noted: seq<Pub<T>>,
    isKnown: bool,
    entry: Option<Entry<T>>,
    flying: bool)

  ghost function LedgerOf<T>(s: State<T>, u: Uid): Ledger<T> {
    Ledger(Restrict(s.sent, u), InHand(s, u), Waiting(s, u), Restrict(s.published, u),
           Restrict(Recorded(s), u), u in s.known, EntryOf(s.queue, u), InFlight(s, u))
  }

  ghost predicate Balanced<T>(l: Ledger<T>) {
    && |l.waiting| <= 1
    && Subseq(l.given + l.hand + l.waiting, l.arrived)
    && Outcome(l.given + l.hand + l.waiting) == Outcome(l.arrived)
    && (l.isKnown <==> Outcome(l.noted).Some?)
    && (l.entry.Some? ==>
          && |l.arrived| > 0 && l.arrived[|l.arrived| - 1] == l.entry.value.pub
          && (l.entry.value.pub.deleted && !l.flying ==> l.isKnown))
  }

  ghost predicate UidInv<T>(s: State<T>, u: Uid) {
    Balanced(LedgerOf(s, u))
  }

  ghost predicate Inv<T>(s: State<T>) {
    s.runner.Stopped? || (Shape(s) && forall u :: UidInv(s, u))
  }

  // ----------------------------------------------------- sequence lemmas

  lemma RestrictSnoc<T>(es: seq<Pub<T>>, p: Pub<T>, u: Uid)
    ensures Restrict(es + [p], u) == if p.uid == u then Restrict(es, u) + [p] else Restrict(es, u)
  {
    assert (es + [p])[..|es|] == es;
  }

  lemma {:induction false} SubseqSkip<T>(a: seq<T>, b: seq<T>, x: T)
    requires Subseq(a, b)
    ensures Subseq(a, b + [x])
  {
    assert (b + [x])[..|b|] == b;
  }

  lemma {:induction false} SubseqSnoc<T>(a: seq<T>, b: seq<T>, x: T)
    requires Subseq(a, b)
    ensures Subseq(a + [x], b + [x])
  {
    assert (a + [x])[..|a|] == a && (b + [x])[..|b|] == b;
  }

  lemma {:induction false} SubseqPrefix<T>(a: seq<T>, b: seq<T>)
    requires Subseq(a, b) && |a| > 0
    ensures Subseq(a[..|a| - 1], b)
    decreases |b|
  {
    var b0 := b[..|b| - 1];
    if Subseq(a, b0) {
      SubseqPrefix(a, b0);
    }
    assert b == b0 + [b[|b| - 1]];
    SubseqSkip(a[..|a| - 1], b0, b[|b| - 1]);
  }

  lemma EntryRemove<T>(q: seq<Entry<T>>, i: nat, u: Uid)
    requires Distinct(q) && i < |q|
    ensures Distinct(RemoveAt(q, i))
    ensures EntryOf(RemoveAt(q, i), u) == if u == q[i].pub.uid then None else EntryOf(q, u)
  {
    var r := RemoveAt(q, i);
    var j := Find(q, u);
    if u != q[i].pub.uid && j < |q| {
      assert r[if j < i then j else j - 1] == q[j];
    }
  }

  lemma EntryPush<T>(q: seq<Entry<T>>, e: Entry<T>, u: Uid)
    requires Distinct(q) && Find(q, e.pub.uid) == |q|
    ensures Distinct(q + [e])
    ensures EntryOf(q + [e], u) == if u == e.pub.uid then Some(e) else EntryOf(q, u)
  {
    var j := Find(q, u);
    if j < |q| {
      assert (q + [e])[j] == q[j];
    } else if u == e.pub.uid {
      assert (q + [e])[|q|] == e;
    }
  }

  lemma EntryUpdate<T>(q: seq<Entry<T>>, i: nat, e: Entry<T>, u: Uid)
    requires Distinct(q) && i < |q| && q[i].pub.uid == e.pub.uid
    ensures Distinct(q[i := e])
    ensures EntryOf(q[i := e], u) == if u == e.pub.uid then Some(e) else EntryOf(q, u)
  {
    var j := Find(q, u);
    if j < |q| {
      assert q[i := e][j] == if j == i then e else q[j];
    }
  }
}
