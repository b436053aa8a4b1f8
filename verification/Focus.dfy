/** The focus coordinator as atomic steps: callers accept a request under the lock and then
    signal a one-slot channel; the loop takes the signal, reads the newest request, arms the
    debounce timer, and applies the request when the timer fires. An armed timer may fire at any
    time, and any number of callers may be between their two steps. */
module Focus {

  datatype Target = Target(ctx: string, generation: nat)

  const NONE := Target("", 0)

  datatype Child = Child(target: Target, cancelled: bool)

  /** Where the loop stands: at its select, or holding a token it has not acted on. */
  datatype Pc = Selecting | GotToken | Exited

  datatype State = State(
    latest: Target, hasRequest: bool, calls: nat, token: bool, pc: Pc,
    pending: Target, active: Target, armed: bool, children: seq<Child>)

  const INIT := State(NONE, false, 0, false, Selecting, NONE, NONE, false, [])

  datatype Action = Request(target: Target) | Signal | Take | Read | Fire | Stop

  predicate Accepts(s: State, t: Target) {
    !s.hasRequest || t.generation > s.latest.generation
  }

  function Accepted(s: State, t: Target): State {
    if Accepts(s, t) then s.(latest := t, hasRequest := true, calls := s.calls + 1) else s
  }

  function Taken(s: State): State {
    s.(token := false, pc := GotToken)
  }

  function ReadLatest(s: State): State {
    if s.latest == s.active then s.(pending := NONE, pc := Selecting)
    else s.(pending := s.latest, armed := true, pc := Selecting)
  }

  function CancelLast(cs: seq<Child>): seq<Child> {
    if |cs| == 0 then cs else cs[..|cs| - 1] + [cs[|cs| - 1].(cancelled := true)]
  }

  function Spawned(s: State): State {
    s.(active := s.pending, pending := NONE, armed := false,
       children := CancelLast(s.children) + [Child(s.pending, false)])
  }

  function Fired(s: State): State {
    if s.pending.ctx == "" then s.(armed := false)
    else if s.latest != s.pending then s.(pending := s.latest)
    else Spawned(s)
  }

  function Stopped(s: State): State {
    s.(pc := Exited, children := CancelLast(s.children))
  }

  predicate Enabled(s: State, a: Action) {
    match a
    case Request(_) => true
    case Signal => s.calls > 0
    case Take => s.token && s.pc.Selecting?
    case Read => s.pc.GotToken?
    case Fire => s.armed && s.pc.Selecting?
    case Stop => s.pc.Selecting?
  }

  function Next(s: State, a: Action): State {
    match a
    case Request(t) => Accepted(s, t)
    case Signal => s.(token := true, calls := if s.calls > 0 then s.calls - 1 else 0)
    case Take => Taken(s)
    case Read => ReadLatest(s)
    case Fire => Fired(s)
    case Stop => Stopped(s)
  }

  function Exec(s: State, run: seq<Action>): State {
    if |run| == 0 then s else Next(Exec(s, run[..|run| - 1]), run[|run| - 1])
  }

  ghost predicate Legal(s: State, run: seq<Action>) {
    |run| > 0 ==>
      Legal(s, run[..|run| - 1]) && Enabled(Exec(s, run[..|run| - 1]), run[|run| - 1])
  }

  // ---------------------------------------------------------------- safety

  /** Strictly newer each time. */
  ghost predicate Increasing(cs: seq<Child>) {
    forall i, j :: 0 <= i < j < |cs| ==> cs[i].target.generation < cs[j].target.generation
  }

  /** Only the last child can be running, and none once the loop has exited. */
  ghost predicate OneRunning(s: State) {
    && (forall i :: 0 <= i < |s.children| - 1 ==> s.children[i].cancelled)
    && (|s.children| > 0 ==> (s.children[|s.children| - 1].cancelled <==> s.pc.Exited?))
  }

  /** `active` is what the last child was spawned for, and what waits is newer. */
  ghost predicate Ordered(s: State) {
    && s.active == (if |s.children| == 0 then NONE else s.children[|s.children| - 1].target)
    && (|s.children| > 0 ==> s.hasRequest && s.active.generation <= s.latest.generation)
    && (|s.children| > 0 && s.active.generation == s.latest.generation ==> s.active == s.latest)
    && (s.pending != NONE ==>
          && s.hasRequest && s.pending.generation <= s.latest.generation
          && (s.pending.generation == s.latest.generation ==> s.pending == s.latest)
          && (|s.children| > 0 ==> s.active.generation < s.pending.generation))
    && (!s.hasRequest ==> s.latest == NONE)
  }

  /** The newest request is on its way: some step that will see it is pending. */
  ghost predicate UnderWay(s: State) {
    s.calls > 0 || s.token || s.pc.GotToken? || (s.armed && s.pending.ctx != "")
  }

  /** No wake-up is lost, unless the newest request names no context at all. */
  ghost predicate NoneLost(s: State) {
    s.hasRequest && s.latest != s.active && s.latest.ctx != "" && !s.pc.Exited? ==> UnderWay(s)
  }

  ghost predicate Inv(s: State) {
    && Increasing(s.children) && OneRunning(s) && Ordered(s) && NoneLost(s)
    && (forall i :: 0 <= i < |s.children| ==> s.children[i].target.ctx != "")
  }

  lemma SpawnInv(s: State)
    requires Inv(s) && s.pending.ctx != "" && s.latest == s.pending && s.pc.Selecting?
    ensures Inv(Spawned(s))
  {
    var cs, ds := s.children, Spawned(s).children;
    assert forall i :: 0 <= i < |cs| ==> ds[i].target == cs[i].target;
    assert ds[|cs|] == Child(s.pending, false);
    assert forall i :: 0 <= i < |cs| ==> ds[i].cancelled;
  }

  lemma StepInv(s: State, a: Action)
    requires Inv(s) && Enabled(s, a)
    ensures Inv(Next(s, a))
  {
    hide Spawned, Increasing;
    if a.Fire? && s.pending.ctx != "" && s.latest == s.pending {
      SpawnInv(s);
    } else if a.Stop? {
      StopInv(s);
    }
  }

  lemma StopInv(s: State)
    requires Inv(s) && s.pc.Selecting?
    ensures Inv(Stopped(s))
  {
    var cs, ds := s.children, Stopped(s).children;
    assert |ds| == |cs| && forall i :: 0 <= i < |cs| ==> ds[i].target == cs[i].target;
  }

  lemma ExecSnoc(run: seq<Action>, a: Action)
    ensures Exec(INIT, run + [a]) == Next(Exec(INIT, run), a)
    ensures Legal(INIT, run + [a]) <==> Legal(INIT, run) && Enabled(Exec(INIT, run), a)
  {
    assert (run + [a])[..|run|] == run;
  }

  lemma {:induction false} RunInv(run: seq<Action>)
    requires Legal(INIT, run)
    ensures Inv(Exec(INIT, run))
    decreases |run|
  {
    if |run| > 0 {
      RunInv(run[..|run| - 1]);
      StepInv(Exec(INIT, run[..|run| - 1]), run[|run| - 1]);
    }
  }

  /** Only a firing timer spawns; what it spawns is the newest accepted request at that instant,
      newer than everything spawned before, and the child before it is cancelled first. */
  lemma SpawnsNewest(run: seq<Action>, a: Action)
    requires Legal(INIT, run + [a]) && |Exec(INIT, run + [a]).children| > |Exec(INIT, run).children|
    ensures var (s, t) := (Exec(INIT, run), Exec(INIT, run + [a]));
      && a.Fire? && |t.children| == |s.children| + 1 && t.children[|s.children|] == Child(s.latest, false)
      && s.hasRequest && s.latest.ctx != "" && t.active == t.latest == s.latest
      && forall i :: 0 <= i < |s.children| ==>
           && t.children[i] == Child(s.children[i].target, true)
           && s.children[i].target.generation < s.latest.generation
  {
    var s := Exec(INIT, run);
    ExecSnoc(run, a);
    RunInv(run);
    if |s.children| > 0 {
      assert forall i :: 0 <= i < |s.children| ==>
        s.children[i].target.generation <= s.children[|s.children| - 1].target.generation;
    }
  }

  /** No child is forgotten, and none is revived. */
  lemma ChildrenStay(s: State, a: Action)
    ensures |s.children| <= |Next(s, a).children|
    ensures forall i :: 0 <= i < |s.children| ==>
      && Next(s, a).children[i].target == s.children[i].target
      && (s.children[i].cancelled ==> Next(s, a).children[i].cancelled)
  {
  }

  /** The request of a run with the highest generation, the earliest one if several have it. */
  ghost predicate IsNewest(run: seq<Action>, i: nat) {
    && i < |run| && run[i].Request?
    && (forall j :: 0 <= j < |run| && run[j].Request? ==> run[j].target.generation <= run[i].target.generation)
    && (forall j :: 0 <= j < i && run[j].Request? ==> run[j].target.generation < run[i].target.generation)
  }

  /** The newest accepted request is the newest that was made, in whatever order they came in. */
  lemma {:induction false} LatestIsNewest(run: seq<Action>) returns (i: nat)
    ensures Exec(INIT, run).hasRequest ==> IsNewest(run, i) && Exec(INIT, run).latest == run[i].target
    ensures !Exec(INIT, run).hasRequest ==> forall j :: 0 <= j < |run| ==> !run[j].Request?
    decreases |run|
  {
    hide Taken, ReadLatest, Fired, Stopped;
    i := 0;
    if |run| > 0 {
      var n := |run| - 1;
      i := LatestIsNewest(run[..n]);
      Accepting(Exec(INIT, run[..n]), run[n]);
      if run[n].Request? && Accepts(Exec(INIT, run[..n]), run[n].target) { i := n; }
    }
  }

  lemma Accepting(s: State, a: Action)
    ensures var t := Next(s, a);
      if a.Request? && Accepts(s, a.target) then t.latest == a.target && t.hasRequest
      else t.latest == s.latest && t.hasRequest == s.hasRequest
  {
  }

  /** Requests that arrive late never replace a newer one. */
  lemma LatestOnlyGrows(s: State, a: Action)
    requires s.hasRequest
    ensures Next(s, a).hasRequest
    ensures Next(s, a).latest == s.latest || Next(s, a).latest.generation > s.latest.generation
  {
  }

  // -------------------------------------------------------------- progress

  /** Nothing internal is left to do. */
  predicate Settled(s: State) {
    s.calls == 0 && !s.token && s.pc.Selecting? && !s.armed
  }

  predicate Internal(a: Action) {
    a.Signal? || a.Take? || a.Read? || a.Fire?
  }

  /** What the loop and its callers still have to do once no more requests arrive. */
  function Rank(s: State): nat {
    8 * s.calls + (if s.token then 4 else 0) + (if s.pc.GotToken? then 3 else 0)
    + if !s.armed then 0 else if s.pending.ctx != "" && s.pending != s.latest then 2 else 1
  }

  lemma RankFalls(s: State, a: Action)
    requires Internal(a) && Enabled(s, a)
    ensures Rank(Next(s, a)) < Rank(s)
  {
  }

  /** Left alone, the loop comes to rest within a number of steps known beforehand. */
  lemma {:induction false} SettlesInTime(s: State, run: seq<Action>)
    requires Legal(s, run) && forall i :: 0 <= i < |run| ==> Internal(run[i])
    ensures |run| + Rank(Exec(s, run)) <= Rank(s)
    decreases |run|
  {
    if |run| > 0 {
      SettlesInTime(s, run[..|run| - 1]);
      RankFalls(Exec(s, run[..|run| - 1]), run[|run| - 1]);
    }
  }

  /** While it is not at rest, and has not exited, it can move. */
  lemma NotSettledMoves(s: State)
    requires !s.pc.Exited?
    ensures Settled(s) <==> forall a :: Internal(a) ==> !Enabled(s, a)
  {
    if !Settled(s) {
      assert Enabled(s, Signal) || Enabled(s, Take) || Enabled(s, Read) || Enabled(s, Fire);
    }
  }

  lemma NewestOnce(run: seq<Action>, i: nat, j: nat)
    requires IsNewest(run, i) && IsNewest(run, j)
    ensures i == j
  {
  }

  lemma RestIsLatest(s: State)
    requires Inv(s) && Settled(s) && s.hasRequest
    ensures |s.children| > 0 && s.children[|s.children| - 1] == Child(s.latest, false) <==> s.latest.ctx != ""
  {
    hide Increasing;
  }

  /** At rest, the newest request made is the one running, if and only if it names a context. */
  lemma SettledIsCurrent(run: seq<Action>, i: nat)
    requires Legal(INIT, run) && Settled(Exec(INIT, run)) && IsNewest(run, i)
    ensures var s := Exec(INIT, run);
      |s.children| > 0 && s.children[|s.children| - 1] == Child(run[i].target, false) <==> run[i].target.ctx != ""
  {
    hide Inv, Settled, Exec, Legal;
    RunInv(run);
    var j := LatestIsNewest(run);
    assert Exec(INIT, run).hasRequest;
    NewestOnce(run, i, j);
    RestIsLatest(Exec(INIT, run));
  }

  /** The failing side is real: a newer request without a context leaves the old child running. */
  lemma EmptyContextIsIgnored()
    ensures var run := [Request(Target("a", 1)), Signal, Take, Read, Fire,
                        Request(Target("", 2)), Signal, Take, Read, Fire];
      && Legal(INIT, run) && Settled(Exec(INIT, run)) && Exec(INIT, run).latest == Target("", 2)
      && Exec(INIT, run).children == [Child(Target("a", 1), false)]
  {
    hide Next, Enabled, CancelLast;
    var a, b := Target("a", 1), Target("", 2);
    assert Exec(INIT, []) == INIT && CancelLast([]) == [] by { NothingSpawned(); }
    var served := ServeOne([], a);
    var ignored := ServeOne(served, b);
    assert ignored == [Request(a), Signal, Take, Read, Fire, Request(b), Signal, Take, Read, Fire];
  }

  lemma NothingSpawned()
    ensures Exec(INIT, []) == INIT && CancelLast([]) == []
  {
  }

  /** A request followed by everything the loop does about it. */
  lemma ServeOne(run: seq<Action>, t: Target) returns (bs: seq<Action>)
    requires Legal(INIT, run) && Settled(Exec(INIT, run)) && Accepts(Exec(INIT, run), t)
    requires t != Exec(INIT, run).active
    ensures bs == run + [Request(t)] + [Signal] + [Take] + [Read] + [Fire]
    ensures Legal(INIT, bs) && Settled(Exec(INIT, bs)) && Exec(INIT, bs).latest == t && Exec(INIT, bs).hasRequest
    ensures Exec(INIT, bs).children == if t.ctx == "" then Exec(INIT, run).children
      else CancelLast(Exec(INIT, run).children) + [Child(t, false)]
    ensures Exec(INIT, bs).active == if t.ctx == "" then Exec(INIT, run).active else t
  {
    hide Legal, Exec, CancelLast;
    ExecSnoc(run, Request(t));
    ExecSnoc(run + [Request(t)], Signal);
    ExecSnoc(run + [Request(t)] + [Signal], Take);
    ExecSnoc(run + [Request(t)] + [Signal] + [Take], Read);
    ExecSnoc(run + [Request(t)] + [Signal] + [Take] + [Read], Fire);
    bs := run + [Request(t)] + [Signal] + [Take] + [Read] + [Fire];
  }
}
