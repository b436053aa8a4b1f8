/** ResolveScope for one context: any number of callers share one request. Every access to the
    two shared maps, the request, its reply and the closing of the call is a step of its own, in
    any interleaving; a caller's context may be done at any time. */
module ScopeFlight {
  import opened Options

  /** What the cluster-wide list came back with. */
  datatype Reply = Allowed | Denied | Transient

  /** resolveScopeNow: the scope, and whether it is definitive. */
  function ScopeOf(r: Reply, hint: string): string {
    if r.Allowed? then "" else hint
  }

  predicate Definitive(r: Reply) {
    !r.Transient?
  }

  datatype CallPc = Started | Requesting | Storing | Deleting | Closing | Closed

  /** A shared call: `reply` is what its request came back with, if it made one. */
  datatype Call = Call(pc: CallPc, ns: string, reply: Option<Reply>)

  /** A caller's answer comes from the cache, from a call, or from giving up. */
  datatype Source = Cache | Flight(k: nat) | GaveUp

  datatype CallerPc = Missed | Waiting(k: nat) | Done(ns: string, from: Source)

  datatype State = State(
    stored: Option<string>, entry: Option<nat>, calls: seq<Call>, callers: map<nat, CallerPc>,
    requests: nat, stores: nat)

  const INIT := State(None, None, [], map[], 0, 0)

  datatype Action =
    | Look(c: nat)               // scopes.Load
    | Join(c: nat)               // scopeCalls.LoadOrStore
    | Leave(c: nat)              // the caller's context is done
    | Recheck(k: nat)            // the goroutine's scopes.Load, and its request
    | Answer(k: nat, r: Reply)
    | Store(k: nat)
    | Delete(k: nat)
    | Close(k: nat)
    | Collect(c: nat)            // <-call.done

  function SetCall(s: State, k: nat, call: Call): State
    requires k < |s.calls|
  {
    s.(calls := s.calls[k := call])
  }

  predicate CallAt(s: State, k: nat, pc: CallPc) {
    k < |s.calls| && s.calls[k].pc == pc
  }

  predicate CallerAt(s: State, c: nat, pc: CallerPc) {
    c in s.callers && s.callers[c] == pc
  }

  predicate Enabled(s: State, a: Action) {
    match a
    case Look(c) => c !in s.callers
    case Join(c) => CallerAt(s, c, Missed)
    case Leave(c) => c in s.callers && !s.callers[c].Done?
    case Recheck(k) => CallAt(s, k, Started)
    case Answer(k, _) => CallAt(s, k, Requesting)
    case Store(k) => CallAt(s, k, Storing)
    case Delete(k) => CallAt(s, k, Deleting)
    case Close(k) => CallAt(s, k, Closing)
    case Collect(c) => c in s.callers && s.callers[c].Waiting? && CallAt(s, s.callers[c].k, Closed)
  }

  function Next(s: State, a: Action, hint: string): State {
    if Enabled(s, a) then Step(s, a, hint) else s
  }

  function Step(s: State, a: Action, hint: string): State
    requires Enabled(s, a)
  {
    match a
    case Look(c) =>
      s.(callers := s.callers[c := if s.stored.Some? then Done(s.stored.value, Cache) else Missed])
    case Join(c) =>
      if s.entry.Some? then s.(callers := s.callers[c := Waiting(s.entry.value)])
      else s.(entry := Some(|s.calls|), calls := s.calls + [Call(Started, "", None)],
              callers := s.callers[c := Waiting(|s.calls|)])
    case Leave(c) => s.(callers := s.callers[c := Done(hint, GaveUp)])
    case Recheck(k) =>
      if s.stored.Some? then SetCall(s, k, Call(Deleting, s.stored.value, None))
      else SetCall(s, k, Call(Requesting, "", None)).(requests := s.requests + 1)
    case Answer(k, r) =>
      SetCall(s, k, Call(if Definitive(r) then Storing else Deleting, ScopeOf(r, hint), Some(r)))
    case Store(k) => SetCall(s, k, s.calls[k].(pc := Deleting)).(stored := Some(s.calls[k].ns), stores := s.stores + 1)
    case Delete(k) => SetCall(s, k, s.calls[k].(pc := Closing)).(entry := None)
    case Close(k) => SetCall(s, k, s.calls[k].(pc := Closed))
    case Collect(c) => s.(callers := s.callers[c := Done(s.calls[s.callers[c].k].ns, Flight(s.callers[c].k))])
  }

  function Exec(run: seq<Action>, hint: string): State {
    if |run| == 0 then INIT else Next(Exec(run[..|run| - 1], hint), run[|run| - 1], hint)
  }

  predicate Legal(run: seq<Action>, hint: string) {
    |run| > 0 ==>
      Legal(run[..|run| - 1], hint) && Enabled(Exec(run[..|run| - 1], hint), run[|run| - 1])
  }

  // ------------------------------------------------------------- invariants

  /** From its creation until it removes itself from the map. */
  predicate Live(call: Call) {
    call.pc.Started? || call.pc.Requesting? || call.pc.Storing? || call.pc.Deleting?
  }

  /** What a call that has its answer says. */
  ghost predicate Told(s: State, call: Call, hint: string) {
    match call.reply
    case None => s.stored == Some(call.ns)
    case Some(r) => call.ns == ScopeOf(r, hint) && (Definitive(r) && !call.pc.Storing? ==> s.stored == Some(call.ns))
  }

  ghost predicate CallInv(s: State, k: nat, hint: string)
    requires k < |s.calls|
  {
    var call := s.calls[k];
    && (Live(call) <==> s.entry == Some(k))
    && (call.pc.Requesting? || call.pc.Storing? ==> s.stored.None?)
    && (call.pc.Started? || call.pc.Requesting? ==> call.reply.None?)
    && (call.pc.Storing? ==> call.reply.Some? && Definitive(call.reply.value))
    && (!call.pc.Started? && !call.pc.Requesting? ==> Told(s, call, hint))
  }

  ghost predicate CallerInv(s: State, c: nat, hint: string)
    requires c in s.callers
  {
    match s.callers[c]
    case Missed => true
    case Waiting(k) => k < |s.calls|
    case Done(ns, Cache) => s.stored == Some(ns)
    case Done(ns, Flight(k)) => CallAt(s, k, Closed) && ns == s.calls[k].ns
    case Done(ns, GaveUp) => ns == hint
  }

  ghost predicate Inv(s: State, hint: string) {
    && (s.entry.Some? ==> s.entry.value < |s.calls|)
    && (forall k: nat :: k < |s.calls| ==> CallInv(s, k, hint))
    && (forall c: nat :: c in s.callers ==> CallerInv(s, c, hint))
    && s.stores == (if s.stored.Some? then 1 else 0)
    && (s.stored.Some? ==> exists k: nat :: DefinitiveFrom(s, k, hint))
  }

  /** Call `k` heard the definitive answer that is stored. */
  ghost predicate DefinitiveFrom(s: State, k: nat, hint: string) {
    k < |s.calls| && s.stored.Some? && s.calls[k].reply.Some? && Definitive(s.calls[k].reply.value)
    && s.stored.value == ScopeOf(s.calls[k].reply.value, hint)
  }

  predicate OnCall(a: Action) {
    a.Recheck? || a.Answer? || a.Store? || a.Delete? || a.Close?
  }

  lemma StepCall(s: State, a: Action, hint: string, k: nat)
    requires Enabled(s, a) && k < |Next(s, a, hint).calls| && (s.entry.Some? ==> s.entry.value < |s.calls|)
    requires forall j: nat :: j < |s.calls| ==> CallInv(s, j, hint)
    ensures CallInv(Next(s, a, hint), k, hint)
  {
    if OnCall(a) { assert CallInv(s, a.k, hint); }
    if k < |s.calls| { assert CallInv(s, k, hint); }
  }

  lemma StepCalls(s: State, a: Action, hint: string)
    requires Inv(s, hint) && Enabled(s, a)
    ensures var t := Next(s, a, hint);
      (t.entry.Some? ==> t.entry.value < |t.calls|) && forall k: nat :: k < |t.calls| ==> CallInv(t, k, hint)
  {
    hide CallInv;
    forall k: nat | k < |Next(s, a, hint).calls| ensures CallInv(Next(s, a, hint), k, hint) {
      StepCall(s, a, hint, k);
    }
  }

  lemma StepCaller(s: State, a: Action, hint: string, c: nat)
    requires Enabled(s, a) && c in Next(s, a, hint).callers
    requires c in s.callers ==> CallerInv(s, c, hint)
    requires (s.entry.Some? ==> s.entry.value < |s.calls|) && (a.Store? ==> s.stored.None?)
    ensures CallerInv(Next(s, a, hint), c, hint)
  {
  }

  lemma StepCallers(s: State, a: Action, hint: string)
    requires Inv(s, hint) && Enabled(s, a)
    ensures forall c: nat :: c in Next(s, a, hint).callers ==> CallerInv(Next(s, a, hint), c, hint)
  {
    hide CallerInv, Next;
    if a.Store? { assert CallInv(s, a.k, hint); }
    forall c: nat | c in Next(s, a, hint).callers ensures CallerInv(Next(s, a, hint), c, hint) {
      StepCaller(s, a, hint, c);
    }
  }

  lemma StepStored(s: State, a: Action, hint: string)
    requires Inv(s, hint) && Enabled(s, a)
    ensures var t := Next(s, a, hint);
      && t.stores == (if t.stored.Some? then 1 else 0)
      && (t.stored.Some? ==> exists k: nat :: DefinitiveFrom(t, k, hint))
  {
    var t := Next(s, a, hint);
    if a.Store? {
      assert CallInv(s, a.k, hint);
      assert DefinitiveFrom(t, a.k, hint);
    } else if s.stored.Some? {
      var k: nat :| DefinitiveFrom(s, k, hint);
      if OnCall(a) { assert CallInv(s, a.k, hint); }
      assert DefinitiveFrom(t, k, hint);
    }
  }

  lemma {:induction false} RunInv(run: seq<Action>, hint: string)
    requires Legal(run, hint)
    ensures Inv(Exec(run, hint), hint)
    decreases |run|
  {
    hide CallInv, CallerInv, DefinitiveFrom, Next;
    if |run| > 0 {
      var s, a := Exec(run[..|run| - 1], hint), run[|run| - 1];
      RunInv(run[..|run| - 1], hint);
      StepCalls(s, a, hint);
      StepCallers(s, a, hint);
      StepStored(s, a, hint);
    }
  }

  // --------------------------------------------------------------- theorems

  /** At most one request is outstanding. */
  lemma OneRequest(run: seq<Action>, hint: string, j: nat, k: nat)
    requires Legal(run, hint)
    requires CallAt(Exec(run, hint), j, Requesting) && CallAt(Exec(run, hint), k, Requesting)
    ensures j == k
  {
    RunInv(run, hint);
    assert CallInv(Exec(run, hint), j, hint) && CallInv(Exec(run, hint), k, hint);
  }

  /** How many replies of a run settled the scope. */
  ghost function Settling(run: seq<Action>): nat {
    if |run| == 0 then 0
    else Settling(run[..|run| - 1]) + if run[|run| - 1].Answer? && !run[|run| - 1].r.Transient? then 1 else 0
  }

  /** A settling reply has come and is about to be stored. */
  predicate AboutToStore(s: State) {
    s.entry.Some? && CallAt(s, s.entry.value, Storing)
  }

  lemma StepSettles(s: State, a: Action, hint: string)
    requires Inv(s, hint) && Enabled(s, a)
    ensures var t := Next(s, a, hint);
      t.stores + (if AboutToStore(t) then 1 else 0) == s.stores + (if AboutToStore(s) then 1 else 0)
        + if a.Answer? && !a.r.Transient? then 1 else 0
  {
    hide Told, CallerInv, DefinitiveFrom;
    if OnCall(a) { assert CallInv(s, a.k, hint); }
  }

  lemma StepHears(s: State, a: Action, hint: string, k: nat)
    requires Enabled(s, a) && k < |Next(s, a, hint).calls| && Next(s, a, hint).calls[k].reply.Some?
    ensures a == Answer(k, Next(s, a, hint).calls[k].reply.value)
      || (k < |s.calls| && s.calls[k].reply == Next(s, a, hint).calls[k].reply)
  {
  }

  /** The replies the calls have are the ones that came. */
  lemma {:induction false} RepliesCame(run: seq<Action>, hint: string)
    requires Legal(run, hint)
    ensures var s := Exec(run, hint);
      && Settling(run) == s.stores + (if AboutToStore(s) then 1 else 0)
      && forall k: nat :: k < |s.calls| && s.calls[k].reply.Some? ==> Answer(k, s.calls[k].reply.value) in run
    decreases |run|
  {
    hide Inv, Next, AboutToStore;
    if |run| == 0 {
      NothingStored();
    } else {
      var before, a := run[..|run| - 1], run[|run| - 1];
      var s := Exec(before, hint);
      RepliesCame(before, hint);
      RunInv(before, hint);
      StepSettles(s, a, hint);
      var t := Next(s, a, hint);
      forall k: nat | k < |t.calls| && t.calls[k].reply.Some? ensures Answer(k, t.calls[k].reply.value) in run {
        StepHears(s, a, hint, k);
        assert run == before + [a];
      }
    }
  }

  lemma NothingStored()
    ensures !AboutToStore(INIT)
  {
  }

  /** What is stored is what the one settling reply of the run said: all namespaces if the cluster
      list was allowed, the hint if it was denied. A transient answer is never cached. Once stored it
      is never replaced and no request follows. */
  lemma StoredOnce(run: seq<Action>, a: Action, hint: string)
    requires Legal(run, hint) && Enabled(Exec(run, hint), a)
    ensures var (s, t) := (Exec(run, hint), Next(Exec(run, hint), a, hint));
      && Settling(run) <= 1
      && (s.stored.Some? ==>
            && t.stored == s.stored && t.requests == s.requests && t.stores == s.stores
            && exists k: nat ::
                 || (Answer(k, Allowed) in run && s.stored.value == "")
                 || (Answer(k, Denied) in run && s.stored.value == hint))
  {
    hide CallerInv, Told;
    RunInv(run, hint);
    RepliesCame(run, hint);
    var s := Exec(run, hint);
    if s.entry.Some? { assert CallInv(s, s.entry.value, hint); }
    if a.Store? { assert CallInv(s, a.k, hint); }
    if s.stored.Some? {
      var k: nat :| DefinitiveFrom(s, k, hint);
      assert Answer(k, s.calls[k].reply.value) in run;
    }
  }

  /** A settling reply is stored by the time its call is closed, and a closed call says what its reply
      did: all namespaces if allowed, the hint if denied or if the cluster could not be asked. One
      that made no request says what was stored. */
  lemma ClosedCallSays(run: seq<Action>, hint: string, k: nat)
    requires Legal(run, hint) && CallAt(Exec(run, hint), k, Closed)
    ensures var (s, call) := (Exec(run, hint), Exec(run, hint).calls[k]);
      && (call.reply == Some(Allowed) ==> call.ns == "" && s.stored == Some(""))
      && (call.reply == Some(Denied) ==> call.ns == hint && s.stored == Some(hint))
      && (call.reply == Some(Transient) ==> call.ns == hint)
      && (call.reply == None ==> s.stored == Some(call.ns))
      && (call.reply.Some? ==> Answer(k, call.reply.value) in run)
  {
    RunInv(run, hint);
    RepliesCame(run, hint);
    assert CallInv(Exec(run, hint), k, hint);
  }

  /** All who waited for the same call to the end got the same answer: the stored scope if its
      reply was definitive, and otherwise the hint. */
  lemma WaitersAgree(run: seq<Action>, hint: string, c: nat, d: nat, k: nat, x: string, y: string)
    requires Legal(run, hint)
    requires CallerAt(Exec(run, hint), c, Done(x, Flight(k))) && CallerAt(Exec(run, hint), d, Done(y, Flight(k)))
    ensures x == y
    ensures k < |Exec(run, hint).calls|
    ensures Exec(run, hint).stored == Some(x) || (x == hint && Exec(run, hint).calls[k].reply == Some(Transient))
  {
    RunInv(run, hint);
    var s := Exec(run, hint);
    assert CallerInv(s, c, hint) && CallerInv(s, d, hint);
    assert CallInv(s, k, hint);
  }

  /** Nobody waits in vain: until its call is closed, the call itself has a step to make. */
  lemma CallMoves(run: seq<Action>, hint: string, c: nat, k: nat)
    requires Legal(run, hint) && CallerAt(Exec(run, hint), c, Waiting(k))
    ensures var s := Exec(run, hint);
      || Enabled(s, Collect(c)) || Enabled(s, Recheck(k)) || Enabled(s, Answer(k, Allowed))
      || Enabled(s, Store(k)) || Enabled(s, Delete(k)) || Enabled(s, Close(k))
  {
    RunInv(run, hint);
    assert CallerInv(Exec(run, hint), c, hint);
  }

  function StepsLeft(pc: CallPc): nat {
    match pc
    case Started => 5 case Requesting => 4 case Storing => 3 case Deleting => 2 case Closing => 1 case Closed => 0
  }

  /** No step of anyone sets a call back, and its own bring it closer to closing. */
  lemma CallAdvances(s: State, a: Action, hint: string, k: nat)
    requires Enabled(s, a) && k < |s.calls|
    ensures var t := Next(s, a, hint);
      && k < |t.calls| && StepsLeft(t.calls[k].pc) <= StepsLeft(s.calls[k].pc)
      && (OnCall(a) && a.k == k ==>
            StepsLeft(t.calls[k].pc) < StepsLeft(s.calls[k].pc))
  {
  }
}

/** The supervisor's side of ScopeFlight: its maps, and one method per atomic step. */
module ScopeResolver {
  import opened ScopeFlight
  import opened Options

  class Supervisor {
    const hint: string
    // the two shared maps, for this context
    var scopes: Option<string>
    var scopeCalls: Option<nat>
    // the calls ever made, and where each caller stands
    var calls: seq<Call>
    var callers: map<nat, CallerPc>
    ghost var requests: nat
    ghost var stores: nat

    ghost function Model(): State
      reads this
    {
      State(scopes, scopeCalls, calls, callers, requests, stores)
    }

    constructor (hint: string)
      ensures Model() == INIT && this.hint == hint
    {
      this.hint := hint;
      scopes, scopeCalls, calls, callers, requests, stores := None, None, [], map[], 0, 0;
    }

    /** The cached answer, or a miss. */
    method LookUp(c: nat)
      requires Enabled(Model(), Look(c))
      modifies this`callers
      ensures Model() == Next(old(Model()), Look(c), hint)
    {
      if scopes.Some? {
        callers := callers[c := Done(scopes.value, Cache)];
      } else {
        callers := callers[c := Missed];
      }
    }

    /** LoadOrStore: join the call under way, or start one. */
    method JoinCall(c: nat)
      requires Enabled(Model(), Join(c))
      modifies this`callers, this`scopeCalls, this`calls
      ensures Model() == Next(old(Model()), Join(c), hint)
    {
      if scopeCalls.None? {
        scopeCalls := Some(|calls|);
        calls := calls + [Call(Started, "", None)];
      }
      callers := callers[c := Waiting(scopeCalls.value)];
    }

    method GiveUp(c: nat)
      requires Enabled(Model(), Leave(c))
      modifies this`callers
      ensures Model() == Next(old(Model()), Leave(c), hint)
    {
      callers := callers[c := Done(hint, GaveUp)];
    }

    /** The goroutine looks at the cache again before it asks the cluster. */
    method BeginCall(k: nat)
      requires Enabled(Model(), Recheck(k))
      modifies this`calls, this`requests
      ensures Model() == Next(old(Model()), Recheck(k), hint)
    {
      if scopes.Some? {
        calls := calls[k := Call(Deleting, scopes.value, None)];
      } else {
        calls := calls[k := Call(Requesting, "", None)];
        requests := requests + 1;
      }
    }

    method TakeReply(k: nat, r: Reply)
      requires Enabled(Model(), Answer(k, r))
      modifies this`calls
      ensures Model() == Next(old(Model()), Answer(k, r), hint)
    {
      var ns := if r.Allowed? then "" else hint;
      calls := calls[k := Call(if r.Transient? then Deleting else Storing, ns, Some(r))];
    }

    method StoreScope(k: nat)
      requires Enabled(Model(), Store(k))
      modifies this`scopes, this`calls, this`stores
      ensures Model() == Next(old(Model()), Store(k), hint)
    {
      scopes, stores := Some(calls[k].ns), stores + 1;
      calls := calls[k := calls[k].(pc := Deleting)];
    }

    method DeleteCall(k: nat)
      requires Enabled(Model(), Delete(k))
      modifies this`scopeCalls, this`calls
      ensures Model() == Next(old(Model()), Delete(k), hint)
    {
      scopeCalls := None;
      calls := calls[k := calls[k].(pc := Closing)];
    }

    method CloseCall(k: nat)
      requires Enabled(Model(), Close(k))
      modifies this`calls
      ensures Model() == Next(old(Model()), Close(k), hint)
    {
      calls := calls[k := calls[k].(pc := Closed)];
    }

    method CollectAnswer(c: nat)
      requires Enabled(Model(), Collect(c))
      modifies this`callers
      ensures Model() == Next(old(Model()), Collect(c), hint)
    {
      var k := callers[c].k;
      callers := callers[c := Done(calls[k].ns, Flight(k))];
    }
  }

  method Perform(v: Supervisor, a: Action)
    requires Enabled(v.Model(), a)
    modifies v
    ensures v.Model() == Next(old(v.Model()), a, v.hint)
  {
    hide Next;
    match a {
      case Look(c) => v.LookUp(c);
      case Join(c) => v.JoinCall(c);
      case Leave(c) => v.GiveUp(c);
      case Recheck(k) => v.BeginCall(k);
      case Answer(k, r) => v.TakeReply(k, r);
      case Store(k) => v.StoreScope(k);
      case Delete(k) => v.DeleteCall(k);
      case Close(k) => v.CloseCall(k);
      case Collect(c) => v.CollectAnswer(c);
    }
  }

  /** What entitles a caller to its answer. */
  ghost predicate Justified(s: State, pc: CallerPc, hint: string)
    requires pc.Done?
  {
    match pc.from
    case Cache => s.stored == Some(pc.ns)
    case GaveUp => pc.ns == hint
    case Flight(k) =>
      && k < |s.calls| && s.calls[k].pc.Closed? && pc.ns == s.calls[k].ns
      && (s.stored == Some(pc.ns) || (pc.ns == hint && s.calls[k].reply == Some(Transient)))
  }

  /** Where every caller stands, and the cache, after any legal interleaving on the object: exactly
      what the steps say. A caller that has an answer got the cached scope, the answer of the call it
      joined, or, having given up, the hint; and the answer of a call is the cached scope unless the
      cluster could not be asked. */
  method Interleave(run: seq<Action>, hint: string)
    returns (callers: map<nat, CallerPc>, calls: seq<Call>, stored: Option<string>)
    requires Legal(run, hint)
    ensures var s := Exec(run, hint); callers == s.callers && calls == s.calls && stored == s.stored
    ensures forall c :: c in callers && callers[c].Done? ==> Justified(Exec(run, hint), callers[c], hint)
  {
    hide Next, Enabled, CallInv, CallerInv, DefinitiveFrom;
    var v := new Supervisor(hint);
    for i := 0 to |run|
      invariant fresh(v) && v.hint == hint && Legal(run[..i], hint) && v.Model() == Exec(run[..i], hint)
    {
      LegalPrefix(run, hint, i + 1);
      assert run[..i + 1][..i] == run[..i];
      Perform(v, run[i]);
    }
    assert run[..|run|] == run;
    callers, calls, stored := v.callers, v.calls, v.scopes;
    forall c | c in callers && callers[c].Done? ensures Justified(Exec(run, hint), callers[c], hint) {
      AnswerJustified(run, hint, c);
    }
  }

  /** Every answer is one the caller may act on. */
  lemma AnswerJustified(run: seq<Action>, hint: string, c: nat)
    requires Legal(run, hint) && c in Exec(run, hint).callers && Exec(run, hint).callers[c].Done?
    ensures Justified(Exec(run, hint), Exec(run, hint).callers[c], hint)
  {
    RunInv(run, hint);
    var s := Exec(run, hint);
    assert CallerInv(s, c, hint);
    if s.callers[c].from.Flight? { assert CallInv(s, s.callers[c].from.k, hint); }
  }

  lemma {:induction false} LegalPrefix(run: seq<Action>, hint: string, n: nat)
    requires Legal(run, hint) && n <= |run|
    ensures Legal(run[..n], hint)
    decreases |run|
  {
    if n == |run| {
      assert run[..n] == run;
    } else {
      LegalPrefix(run[..|run| - 1], hint, n);
      assert run[..|run| - 1][..n] == run[..n];
    }
  }
}
