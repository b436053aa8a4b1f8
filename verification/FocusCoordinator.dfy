/** The coordinator object: each method is one critical section, channel operation or branch of
    the loop's select, and makes the step of Focus it is named after. */
module FocusCoordinator {
  import opened Focus

  class WatchCoordinator {
    // shared, under the mutex
    var latest: Target
    var hasRequest: bool
    // the one-slot wake-up channel, and the callers that have not signalled it yet
    var token: bool
    var calls: nat
    // the loop's own variables
    var pc: Pc
    var pending: Target
    var active: Target
    var armed: bool
    var children: seq<Child>

    function Model(): State
      reads this
    {
      State(latest, hasRequest, calls, token, pc, pending, active, armed, children)
    }

    constructor ()
      ensures Model() == INIT
    {
      latest, hasRequest, token, calls := NONE, false, false, 0;
      pc, pending, active, armed, children := Selecting, NONE, NONE, false, [];
    }

    /** switchTo up to the unlock; the caller signals next only when told to. */
    method Accept(target: Target) returns (signal: bool)
      modifies this`latest, this`hasRequest, this`calls
      ensures Model() == Accepted(old(Model()), target)
      ensures signal <==> Accepts(old(Model()), target)
    {
      if hasRequest && target.generation <= latest.generation {
        return false;
      }
      latest, hasRequest := target, true;
      calls := calls + 1;
      return true;
    }

    /** The non-blocking send: a full channel keeps the token it has. */
    method SendSignal()
      requires calls > 0
      modifies this`token, this`calls
      ensures Model() == Next(old(Model()), Signal)
    {
      if !token {
        token := true;
      }
      calls := calls - 1;
    }

    method TakeSignal()
      requires Enabled(Model(), Take)
      modifies this`token, this`pc
      ensures Model() == Taken(old(Model()))
    {
      token, pc := false, GotToken;
    }

    /** The select's request branch, from the read under the lock on. */
    method HandleRequest()
      requires Enabled(Model(), Read)
      modifies this`pending, this`armed, this`pc
      ensures Model() == ReadLatest(old(Model()))
    {
      pending, pc := latest, Selecting;
      if pending == active {
        pending := NONE;
        return;
      }
      armed := true;
    }

    /** The select's timer branch; acceptance and application share the lock. */
    method HandleTimer()
      requires Enabled(Model(), Fire)
      modifies this`pending, this`active, this`armed, this`children
      ensures Model() == Fired(old(Model()))
    {
      armed := false;
      if pending.ctx == "" {
        return;
      }
      if latest != pending {
        pending := latest;
        armed := true;
        return;
      }
      var target := pending;
      pending := NONE;
      Apply(target);
    }

    method CancelCurrent()
      modifies this`children
      ensures children == CancelLast(old(children))
    {
      if |children| > 0 {
        children := children[..|children| - 1] + [children[|children| - 1].(cancelled := true)];
      }
    }

    method Apply(target: Target)
      modifies this`active, this`children
      ensures active == target && children == CancelLast(old(children)) + [Child(target, false)]
    {
      active := target;
      CancelCurrent();
      children := children + [Child(target, false)];
    }

    method Exit()
      requires Enabled(Model(), Stop)
      modifies this`pc, this`children
      ensures Model() == Stopped(old(Model()))
    {
      CancelCurrent();
      pc := Exited;
    }
  }

  /** Any legal interleaving of callers and loop, on the object: it ends where the steps say, so
      generations only rise, one child runs at most, and no wake-up is lost. */
  method Interleave(run: seq<Action>) returns (s: State)
    requires Legal(INIT, run)
    ensures s == Exec(INIT, run) && Inv(s)
  {
    hide Inv, Next, Enabled;
    var c := new WatchCoordinator();
    for i := 0 to |run|
      invariant Legal(INIT, run[..i]) && c.Model() == Exec(INIT, run[..i])
    {
      LegalPrefix(run, i + 1);
      assert run[..i + 1] == run[..i] + [run[i]];
      ExecSnoc(run[..i], run[i]);
      Perform(c, run[i]);
    }
    assert run[..|run|] == run;
    RunInv(run);
    s := c.Model();
  }

  method Perform(c: WatchCoordinator, a: Action)
    requires Enabled(c.Model(), a)
    modifies c
    ensures c.Model() == Next(old(c.Model()), a)
  {
    hide Taken, ReadLatest, Fired, Stopped, Accepted;
    match a {
      case Request(t) => var _ := c.Accept(t);
      case Signal => c.SendSignal();
      case Take => c.TakeSignal();
      case Read => c.HandleRequest();
      case Fire => c.HandleTimer();
      case Stop => c.Exit();
    }
  }

  lemma {:induction false} LegalPrefix(run: seq<Action>, n: nat)
    requires Legal(INIT, run) && n <= |run|
    ensures Legal(INIT, run[..n])
    decreases |run|
  {
    if n == |run| {
      assert run[..n] == run;
    } else {
      LegalPrefix(run[..|run| - 1], n);
      assert run[..|run| - 1][..n] == run[..n];
    }
  }
}
