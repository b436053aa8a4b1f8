/** From the delivery channel to the table: batching loses and reorders nothing, so what the
    UI has applied ends up equal to what the informer published. */
module ResourceBatch {
  import opened DeliverySpec
  import opened DeliveryTheorems
  import PodRows
  import PodTable
  import opened Options

  const BATCH_MAX := 64

  function Flatten<T>(batches: seq<seq<T>>): seq<T> {
    if |batches| == 0 then [] else Flatten(batches[..|batches| - 1]) + batches[|batches| - 1]
  }

  /** The forwarder. `events` is everything the channel yields before it is closed; `ready(k)`
      and `cancelled(k)` are the scheduler's answers at the k-th receive. */
  method Forward<T>(events: seq<T>, ready: nat -> bool, cancelled: nat -> bool)
    returns (batches: seq<seq<T>>, stopped: bool, tick: nat)
    ensures forall i :: 0 <= i < |batches| ==> 1 <= |batches[i]| <= BATCH_MAX
    ensures Flatten(batches) <= events
    ensures !stopped ==> Flatten(batches) == events
    ensures stopped ==> cancelled(tick)
  {
    batches, stopped, tick := [], false, 0;
    var at := 0;
    while true
      invariant at <= |events| && Flatten(batches) == events[..at] && !stopped
      invariant forall i :: 0 <= i < |batches| ==> 1 <= |batches[i]| <= BATCH_MAX
      decreases |events| - at
    {
      if cancelled(tick) {
        stopped := true;
        return;
      }
      if at == |events| {
        return;
      }
      ghost var start := at;
      var batch, closed := [events[at]], false;
      at, tick := at + 1, tick + 1;
      while |batch| < BATCH_MAX
        invariant start < at <= |events| && batch == events[start..at] && 1 <= |batch| <= BATCH_MAX
        decreases BATCH_MAX - |batch|
      {
        if cancelled(tick) {
          stopped := true;
          return;
        }
        if !ready(tick) {
          break;
        }
        if at == |events| {
          closed := true;
          break;
        }
        batch := batch + [events[at]];
        at, tick := at + 1, tick + 1;
      }
      tick := tick + 1;
      assert (batches + [batch])[..|batches|] == batches;
      assert events[..at] == events[..start] + events[start..at];
      batches := batches + [batch];
      if closed {
        return;
      }
    }
  }

  // --------------------------------------------------------- field ownership

  /** The informer-owned half of the table. */
  ghost function InformerView(pods: map<Uid, PodRows.PodRow>): map<Uid, PodRows.Informer> {
    map u | u in pods :: pods[u].inf
  }

  /** The pod events of a run of UI messages, as the informer published them. */
  ghost function PodPubs(ops: seq<PodTable.Op>): seq<Pub<PodRows.Informer>>
    decreases |ops|
  {
    if |ops| == 0 then []
    else
      var before, op := PodPubs(ops[..|ops| - 1]), ops[|ops| - 1];
      if op.PodChanged? then before + [Pub(op.ev.uid, op.ev.inf, op.ev.deleted)] else before
  }

  /** One message: only a pod event changes an informer field. */
  lemma OneMessage(f: PodTable.Facts, op: PodTable.Op)
    ensures InformerView(PodTable.Apply(f, op).pods) ==
      if !op.PodChanged? then InformerView(f.pods)
      else if op.ev.deleted then InformerView(f.pods) - {op.ev.uid}
      else InformerView(f.pods)[op.ev.uid := op.ev.inf]
  {
  }

  /** Metrics and network messages never touch what the informer wrote, whatever the
      interleaving: the informer-owned fields are the fold of the pod events alone. */
  lemma {:induction false} InformerFieldsAreFold(ops: seq<PodTable.Op>)
    ensures InformerView(PodTable.AfterAll(ops).pods) == Fold(PodPubs(ops))
    decreases |ops|
  {
    if |ops| > 0 {
      var rest, op := ops[..|ops| - 1], ops[|ops| - 1];
      var pubs := PodPubs(rest);
      InformerFieldsAreFold(rest);
      OneMessage(PodTable.AfterAll(rest), op);
      if op.PodChanged? {
        var p := Pub(op.ev.uid, op.ev.inf, op.ev.deleted);
        assert PodPubs(ops) == pubs + [p] && (pubs + [p])[..|pubs|] == pubs;
      }
    }
  }

  /** End to end: once a resource has no queue entry and the UI has applied every event it was
      handed, the informer fields of its row are what the informer last published, however the
      publishes, sends, batches, metrics and network messages interleaved. */
  lemma TableMatchesInformer(acts: seq<Action<PodRows.Informer>>, ops: seq<PodTable.Op>, u: Uid)
    requires Legal(Init(), acts) && !Exec(Init(), acts).runner.Stopped?
    requires EntryOf(Exec(Init(), acts).queue, u).None?
    requires Restrict(PodPubs(ops), u) == Restrict(Exec(Init(), acts).sent, u)
    ensures var pods, published := PodTable.AfterAll(ops).pods, Fold(Arrivals(acts));
      (u in pods <==> u in published) && (u in pods && u in published ==> pods[u].inf == published[u])
  {
    Converges(acts, u);
    InformerFieldsAreFold(ops);
    PublishedIsArrivals(acts);
    FoldOutcome(PodPubs(ops), u);
    FoldOutcome(Exec(Init(), acts).sent, u);
    assert u in PodTable.AfterAll(ops).pods <==> u in InformerView(PodTable.AfterAll(ops).pods);
  }

  lemma {:induction false} OtherOpsPublishNothing(ops: seq<PodTable.Op>, others: seq<PodTable.Op>)
    requires forall i :: 0 <= i < |others| ==> !others[i].PodChanged?
    ensures PodPubs(ops + others) == PodPubs(ops)
    decreases |others|
  {
    if |others| == 0 {
      assert ops + others == ops;
    } else {
      OtherOpsPublishNothing(ops, others[..|others| - 1]);
      assert (ops + others)[..|ops + others| - 1] == ops + others[..|others| - 1];
    }
  }

  lemma PodOpPublishes(ops: seq<PodTable.Op>, op: PodTable.Op)
    requires op.PodChanged?
    ensures PodPubs(ops + [op]) == PodPubs(ops) + [Pub(op.ev.uid, op.ev.inf, op.ev.deleted)]
  {
    assert (ops + [op])[..|ops|] == ops;
  }

  /** The rows of a table agree with what was published, for every UID that is not queued. */
  ghost predicate TableAgrees(acts: seq<Action<PodRows.Informer>>, ops: seq<PodTable.Op>)
    requires Legal(Init(), acts)
  {
    forall u :: EntryOf(Exec(Init(), acts).queue, u).None? ==>
      var pods, published := PodTable.AfterAll(ops).pods, Fold(Arrivals(acts));
      (u in pods <==> u in published) && (u in pods && u in published ==> pods[u].inf == published[u])
  }

  /** The whole way from the informer to the screen: a run of the delivery, the forwarder cutting
      what it sent into batches as the scheduler lets it, and the UI applying batch after batch with
      any other messages in between and any metrics found waiting. Unless the forwarder was
      cancelled, the table agrees with the informer on every UID that is not queued. */
  method Pipeline(acts: seq<Action<PodRows.Informer>>, ready: nat -> bool, cancelled: nat -> bool,
                  others: nat -> seq<PodTable.Op>, waiting: nat -> Option<PodRows.Metrics>)
    returns (ops: seq<PodTable.Op>, stopped: bool, tick: nat)
    requires Legal(Init(), acts) && !Exec(Init(), acts).runner.Stopped?
    requires forall n, i :: 0 <= i < |others(n)| ==> !others(n)[i].PodChanged?
    ensures if stopped then cancelled(tick) else TableAgrees(acts, ops)
  {
    hide TableAgrees, PodPubs;
    var batches;
    batches, stopped, tick := Forward(Exec(Init(), acts).sent, ready, cancelled);
    ops := [];
    NothingPublished();
    for i := 0 to |batches|
      invariant PodPubs(ops) == Flatten(batches[..i])
    {
      assert batches[..i + 1][..i] == batches[..i];
      ops := ApplyBatch(ops, batches[i], others, waiting);
    }
    assert batches[..|batches|] == batches;
    if !stopped {
      AppliedAgrees(acts, ops);
    }
  }

  lemma NothingPublished()
    ensures PodPubs([]) == []
  {
  }

  /** One ResourceBatchMsg, event by event. */
  method ApplyBatch(ops0: seq<PodTable.Op>, batch: seq<Pub<PodRows.Informer>>, others: nat -> seq<PodTable.Op>,
                    waiting: nat -> Option<PodRows.Metrics>)
    returns (ops: seq<PodTable.Op>)
    requires forall n, i :: 0 <= i < |others(n)| ==> !others(n)[i].PodChanged?
    ensures PodPubs(ops) == PodPubs(ops0) + batch
  {
    hide PodPubs;
    ops := ops0;
    for j := 0 to |batch|
      invariant PodPubs(ops) == PodPubs(ops0) + batch[..j]
    {
      var n, p := |ops|, batch[j];
      var op := PodTable.PodChanged(PodRows.PodEvent(p.uid, p.event, p.deleted), waiting(n));
      OtherOpsPublishNothing(ops, others(n));
      PodOpPublishes(ops + others(n), op);
      assert batch[..j + 1] == batch[..j] + [p];
      ops := ops + others(n) + [op];
    }
    assert batch[..|batch|] == batch;
  }

  lemma AppliedAgrees(acts: seq<Action<PodRows.Informer>>, ops: seq<PodTable.Op>)
    requires Legal(Init(), acts) && !Exec(Init(), acts).runner.Stopped?
    requires PodPubs(ops) == Exec(Init(), acts).sent
    ensures TableAgrees(acts, ops)
  {
    forall u | EntryOf(Exec(Init(), acts).queue, u).None?
      ensures var pods, published := PodTable.AfterAll(ops).pods, Fold(Arrivals(acts));
        (u in pods <==> u in published) && (u in pods && u in published ==> pods[u].inf == published[u])
    {
      TableMatchesInformer(acts, ops, u);
    }
  }
}
