/** The handlers of module Evidence against the ledger of module LedgerProtocol:
    an append is not one step here but the statements of a transaction, which
    interleave with those of other transactions and with the handlers. The main
    result, RunRefines, says that every such run is a run of module Evidence, in
    which an append is one step, to the same stores; ClockedRunIsHonest says the
    same of its honest runs. Everything proved there therefore holds here. */
module ConcurrentLedger {
  import opened Basics
  import opened HashChain
  import opened LedgerValidator
  import opened Ledger
  import P = LedgerProtocol
  import E = Evidence

  /** handlers.ledger is what handlers read: committed data only. owner says for
      which call a transaction was begun. */
  datatype State = State(handlers: E.State, protocol: P.State, owner: map<nat, E.CallId>)

  const START := State(E.START, P.START, map[])

  datatype Step =
    | Handle(step: E.Step)             // a handler's statement
    | BeginFor(t: nat, c: E.CallId)    // the ledger takes up a call
    | Transact(statement: P.Step)           // a statement, commit or rollback of a transaction

  /** A call is taken up by one transaction. */
  ghost predicate Enabled(s: State, step: Step) {
    match step
    case Handle(e) => !e.Serve? && !e.Drop? && E.Enabled(s.handlers, e)
    case BeginFor(t, c) =>
      c in s.handlers.calls && s.handlers.calls[c].Open? && t !in s.protocol.txs &&
      forall u | u in s.protocol.txs :: u in s.owner ==> s.owner[u] != c
    case Transact(p) => !p.Begin? && P.Enabled(s.protocol, p) && p.t in s.owner
  }

  /** What the caller of a finished transaction gets to see. */
  function Finish(s: E.State, c: E.CallId, db: Db, call: E.Call): E.State {
    s.(ledger := db, calls := s.calls[c := call])
  }

  ghost function Next(h: Sha256, k: E.HashSign, s: State, step: Step): State
    requires Enabled(s, step)
  {
    match step
    case Handle(e) => s.(handlers := E.Next(h, k, s.handlers, e))
    case BeginFor(t, c) =>
      s.(protocol := P.Next(h, s.protocol, P.Begin(t, s.handlers.calls[c].request)), owner := s.owner[t := c])
    case Transact(p) =>
      var protocol := P.Next(h, s.protocol, p);
      var c := s.owner[p.t];
      if p.Commit? then
        var tx := s.protocol.txs[p.t];
        State(Finish(s.handlers, c, protocol.db, E.Committed(tx.request, tx.row.recordId)), protocol, s.owner)
      else if p.Rollback? then
        State(Finish(s.handlers, c, protocol.db, E.Dropped(s.protocol.txs[p.t].request)), protocol, s.owner)
      else s.(protocol := protocol)
  }

  ghost predicate Run(h: Sha256, k: E.HashSign, s: State, steps: seq<Step>, s': State)
    decreases |steps|
  {
    if steps == [] then s' == s
    else Enabled(s, steps[0]) && Run(h, k, Next(h, k, s, steps[0]), steps[1..], s')
  }

  /** Every transaction works on its own open call. */
  ghost predicate Owned(s: State) {
    && (forall t | t in s.protocol.txs :: t in s.owner && s.owner[t] in s.handlers.calls &&
          s.handlers.calls[s.owner[t]] == E.Open(s.protocol.txs[t].request))
    && (forall t, u | t in s.protocol.txs && u in s.protocol.txs && t in s.owner && u in s.owner && s.owner[t] == s.owner[u] :: t == u)
  }

  ghost predicate Sound(h: Sha256, k: E.HashSign, s: State) {
    P.LockInvariant(h, s.protocol) && P.Serial(h, s.protocol) && s.handlers.ledger == s.protocol.db && Owned(s) &&
    E.Safe(h, k, s.handlers)
  }

  /** The steps of module Evidence that a step here amounts to: one or none. */
  ghost function Effect(s: State, step: Step): seq<E.Step>
    requires Enabled(s, step)
  {
    match step
    case Handle(e) => [e]
    case BeginFor(_, _) => []
    case Transact(p) =>
      if p.Commit? then [E.Serve(s.owner[p.t], s.protocol.txs[p.t].row.recordId, s.protocol.txs[p.t].row.createdAt)]
      else if p.Rollback? then [E.Drop(s.owner[p.t])]
      else []
  }

  lemma HandleRefines(h: Sha256, k: E.HashSign, s: State, step: Step)
    requires Sound(h, k, s) && Enabled(s, step) && step.Handle?
    ensures Sound(h, k, Next(h, k, s, step))
  {
    var s' := Next(h, k, s, step);
    E.StepIsSafe(h, k, s.handlers, step.step);
    E.StepFrame(h, k, s.handlers, step.step);
    E.CallIsNew(k, s.handlers, step.step);
    forall t | t in s.protocol.txs
      ensures t in s.owner && s.owner[t] in s'.handlers.calls && s'.handlers.calls[s.owner[t]] == E.Open(s.protocol.txs[t].request)
    {
      CallStays(h, k, s.handlers, step.step, s.owner[t]);
    }
  }

  /** Handlers leave calls alone that have been made. */
  lemma CallStays(h: Sha256, k: E.HashSign, s: E.State, step: E.Step, c: E.CallId)
    requires E.Safe(h, k, s) && E.Enabled(s, step) && !step.Serve? && !step.Drop? && c in s.calls
    ensures c in E.Next(h, k, s, step).calls && E.Next(h, k, s, step).calls[c] == s.calls[c]
  {
    E.CallIsNew(k, s, step);
    if !E.SameCall(s, E.Next(h, k, s, step), c) {
      E.ChangedCall(h, k, s, step, c);
    }
  }

  lemma BeginRefines(h: Sha256, k: E.HashSign, s: State, step: Step)
    requires Sound(h, k, s) && Enabled(s, step) && step.BeginFor?
    ensures Sound(h, k, Next(h, k, s, step)) && Next(h, k, s, step).handlers == s.handlers
  {
    var begin := P.Begin(step.t, s.handlers.calls[step.c].request);
    P.CommitIsAppend(h, s.protocol, begin);
    P.LockInvariantKept(h, s.protocol, begin);
    P.SerialKept(h, s.protocol, begin);
  }

  lemma StatementRefines(h: Sha256, k: E.HashSign, s: State, step: Step)
    requires Sound(h, k, s) && Enabled(s, step) && step.Transact? && !step.statement.Commit? && !step.statement.Rollback?
    ensures Sound(h, k, Next(h, k, s, step)) && Next(h, k, s, step).handlers == s.handlers
  {
    P.CommitIsAppend(h, s.protocol, step.statement);
    P.LockInvariantKept(h, s.protocol, step.statement);
    P.SerialKept(h, s.protocol, step.statement);
    SameRequests(h, s.protocol, step.statement);
  }

  /** Statements do not change what a transaction is for. */
  lemma SameRequests(h: Sha256, s: P.State, step: P.Step)
    requires P.Enabled(s, step) && !step.Begin? && !step.Commit? && !step.Rollback?
    ensures P.Next(h, s, step).txs.Keys == s.txs.Keys
    ensures forall t | t in s.txs :: P.Next(h, s, step).txs[t].request == s.txs[t].request
  {
  }

  lemma FewerTransactions(h: Sha256, s: P.State, step: P.Step)
    requires P.Enabled(s, step) && (step.Commit? || step.Rollback?)
    ensures step.t in s.txs && P.Next(h, s, step).txs == s.txs - {step.t}
  {
  }

  /** Commit and rollback are what a ledger step does to the call. */
  lemma EndingIsStep(h: Sha256, k: E.HashSign, s: State, step: Step)
    requires Sound(h, k, s) && Enabled(s, step) && step.Transact? && (step.statement.Commit? || step.statement.Rollback?)
    ensures E.Enabled(s.handlers, Effect(s, step)[0])
    ensures E.Next(h, k, s.handlers, Effect(s, step)[0]) == Next(h, k, s, step).handlers
  {
    P.CommitIsAppend(h, s.protocol, step.statement);
    assert s.handlers.calls[s.owner[step.statement.t]] == E.Open(s.protocol.txs[step.statement.t].request);
  }

  /** The other transactions work on other calls. */
  lemma EndingKeepsOwned(h: Sha256, k: E.HashSign, s: State, step: Step)
    requires Owned(s) && Enabled(s, step) && step.Transact? && (step.statement.Commit? || step.statement.Rollback?)
    ensures Owned(Next(h, k, s, step))
  {
    FewerTransactions(h, s.protocol, step.statement);
  }

  lemma EndingRefines(h: Sha256, k: E.HashSign, s: State, step: Step)
    requires Sound(h, k, s) && Enabled(s, step) && step.Transact? && (step.statement.Commit? || step.statement.Rollback?)
    ensures Sound(h, k, Next(h, k, s, step))
  {
    EndingIsStep(h, k, s, step);
    E.StepIsSafe(h, k, s.handlers, Effect(s, step)[0]);
    P.LockInvariantKept(h, s.protocol, step.statement);
    P.SerialKept(h, s.protocol, step.statement);
    EndingKeepsOwned(h, k, s, step);
  }

  /** A step here is a run of at most one step there. */
  lemma StepRefines(h: Sha256, k: E.HashSign, s: State, step: Step)
    requires Sound(h, k, s) && Enabled(s, step)
    ensures Sound(h, k, Next(h, k, s, step))
    ensures E.Run(h, k, s.handlers, Effect(s, step), Next(h, k, s, step).handlers)
  {
    if step.Handle? {
      HandleRefines(h, k, s, step);
      E.RunOne(h, k, s.handlers, step.step);
    } else if step.BeginFor? {
      BeginRefines(h, k, s, step);
    } else if step.statement.Commit? || step.statement.Rollback? {
      EndingIsStep(h, k, s, step);
      EndingRefines(h, k, s, step);
      E.RunOne(h, k, s.handlers, Effect(s, step)[0]);
    } else {
      StatementRefines(h, k, s, step);
    }
  }

  lemma {:induction false} RunConcat(h: Sha256, k: E.HashSign, s: E.State, xs: seq<E.Step>, mid: E.State, ys: seq<E.Step>, s': E.State)
    requires E.Run(h, k, s, xs, mid) && E.Run(h, k, mid, ys, s')
    ensures E.Run(h, k, s, xs + ys, s')
    decreases |xs|
  {
    if xs == [] {
      assert xs + ys == ys;
    } else {
      assert (xs + ys)[1..] == xs[1..] + ys;
      RunConcat(h, k, E.Next(h, k, s, xs[0]), xs[1..], mid, ys, s');
    }
  }

  /** Every interleaving of handlers and append transactions is a run of module
      Evidence between the same stores. */
  lemma {:induction false} RunRefines(h: Sha256, k: E.HashSign, s: State, steps: seq<Step>, s': State) returns (there: seq<E.Step>)
    requires Sound(h, k, s) && Run(h, k, s, steps, s')
    ensures Sound(h, k, s') && E.Run(h, k, s.handlers, there, s'.handlers)
    decreases |steps|
  {
    hide Sound, Next, Enabled, Effect;
    if steps == [] {
      there := [];
    } else {
      var mid := Next(h, k, s, steps[0]);
      StepRefines(h, k, s, steps[0]);
      var rest := RunRefines(h, k, mid, steps[1..], s');
      RunConcat(h, k, s.handlers, Effect(s, steps[0]), mid.handlers, rest, s'.handlers);
      there := Effect(s, steps[0]) + rest;
    }
  }

  lemma StartIsSound(h: Sha256, k: E.HashSign)
    ensures Sound(h, k, START) && P.InOrder(START.protocol)
  {
    P.StartIsSerial(h);
    E.StartIsSafe(h, k);
  }

  // -------------------------------------------------------------- honest runs

  /** The clock moves on under each case's lock, and validation does not fail on
      the server. */
  ghost predicate Clocked(s: State, step: Step) {
    && (step.Transact? ==> P.Clocked(s.protocol, step.statement))
    && (step.Handle? && step.step.CheckLedger? ==> !step.step.serverError)
  }

  ghost predicate ClockedRun(h: Sha256, k: E.HashSign, s: State, steps: seq<Step>, s': State)
    decreases |steps|
  {
    if steps == [] then s' == s
    else Enabled(s, steps[0]) && Clocked(s, steps[0]) && ClockedRun(h, k, Next(h, k, s, steps[0]), steps[1..], s')
  }

  lemma OrderKept(h: Sha256, k: E.HashSign, s: State, step: Step)
    requires Sound(h, k, s) && P.InOrder(s.protocol) && Enabled(s, step) && Clocked(s, step)
    ensures P.InOrder(Next(h, k, s, step).protocol)
  {
    if step.BeginFor? {
      P.OrderKept(h, s.protocol, P.Begin(step.t, s.handlers.calls[step.c].request));
    } else if step.Transact? {
      P.OrderKept(h, s.protocol, step.statement);
    }
  }

  /** A commit is served at a clock reading later than all rows of its case. */
  lemma EffectIsHonest(h: Sha256, k: E.HashSign, s: State, step: Step)
    requires Sound(h, k, s) && P.InOrder(s.protocol) && Enabled(s, step) && Clocked(s, step)
    ensures Effect(s, step) != [] ==> E.Honest(s.handlers, Effect(s, step)[0])
  {
    if step.Transact? && step.statement.Commit? {
      assert s.handlers.calls[s.owner[step.statement.t]] == E.Open(s.protocol.txs[step.statement.t].request);
    }
  }

  /** A step that has an effect has it in one honest step. */
  lemma EffectExtends(h: Sha256, k: E.HashSign, s: State, step: Step, before: seq<E.Step>)
    requires Sound(h, k, s) && P.InOrder(s.protocol) && Enabled(s, step) && Clocked(s, step)
    requires E.HonestRun(h, k, E.START, before, s.handlers)
    ensures E.HonestRun(h, k, E.START, before + Effect(s, step), Next(h, k, s, step).handlers)
  {
    var effect := Effect(s, step);
    EffectIsHonest(h, k, s, step);
    if step.Handle? {
      E.HonestMore(h, k, E.START, before, s.handlers, effect[0]);
    } else if effect != [] {
      EndingIsStep(h, k, s, step);
      E.HonestMore(h, k, E.START, before, s.handlers, effect[0]);
    } else {
      assert before + effect == before;
    }
  }

  /** Every such run with an honest clock is an honest run of module Evidence. */
  lemma {:induction false} ClockedRunIsHonest(h: Sha256, k: E.HashSign, s: State, steps: seq<Step>, s': State, before: seq<E.Step>)
    returns (there: seq<E.Step>)
    requires Sound(h, k, s) && P.InOrder(s.protocol) && ClockedRun(h, k, s, steps, s')
    requires E.HonestRun(h, k, E.START, before, s.handlers)
    ensures E.HonestRun(h, k, E.START, there, s'.handlers)
    decreases |steps|
  {
    hide Sound, Next, Enabled, Clocked, Effect;
    if steps == [] {
      there := before;
    } else {
      StepRefines(h, k, s, steps[0]);
      OrderKept(h, k, s, steps[0]);
      EffectExtends(h, k, s, steps[0], before);
      there := ClockedRunIsHonest(h, k, Next(h, k, s, steps[0]), steps[1..], s', before + Effect(s, steps[0]));
    }
  }

  /** So at the level of single statements, too: with a clock that moves on under
      the lock, a file with the original's digest is VALID and any other TAMPERED,
      unless the case id is blank. */
  lemma VerdictsUnderConcurrency(h: Sha256, k: E.HashSign, steps: seq<Step>, s: State, e: E.DomainEvent)
    requires ClockedRun(h, k, START, steps, s) && e in s.handlers.events && e.VerificationDone?
    ensures e.artifactId in s.handlers.artifacts
    ensures var art := s.handlers.artifacts[e.artifactId];
      e.originalHash == k.digest(art.content) && e.result == E.Promised(art.caseId, e.originalHash, e.currentHash)
  {
    StartIsSound(h, k);
    var there := ClockedRunIsHonest(h, k, START, steps, s, []);
    E.HonestVerdicts(h, k, there, s.handlers, e);
  }
}
