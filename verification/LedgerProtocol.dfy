/** The append transactions of services/immutable-ledger/servicer.py running
    concurrently. Each statement of _append_record is one step, the steps of
    any number of transactions interleave, and any of them may roll back at any
    point. The main result, RunIsSerial, says that whatever the interleaving,
    the committed tables are those of the committed appends run one after the
    other in commit order; the facts proved of such histories in module Ledger
    therefore hold of every concurrent run. */
module LedgerProtocol {
  import opened Basics
  import opened HashChain
  import opened LedgerValidator
  import opened Ledger

  /** Where a transaction stands: begun, its state row ensured, its head row
      locked and read, its record and the new head written but not committed. */
  datatype Tx =
    | Begun(request: Request)
    | Ensured(request: Request)
    | Locked(request: Request, previous: Option<string>)
    | Staged(request: Request, row: Row)

  /** db holds committed data only. locks maps a case to the transaction that
      holds its state row: by SELECT ... FOR UPDATE, or by having inserted it.
      log is the history of committed appends. */
  datatype State = State(db: Db, locks: map<string, nat>, txs: map<nat, Tx>, log: seq<Entry>)

  datatype Step =
    | Begin(t: nat, request: Request)
    | EnsureRow(t: nat)
    | LockHead(t: nat)
    | Stage(t: nat, recordId: nat, now: int)
    | Commit(t: nat)
    | Rollback(t: nat)

  const START := State(EMPTY_DB, map[], map[], [])

  predicate FreeFor(s: State, t: nat, c: string) {
    c !in s.locks || s.locks[c] == t
  }

  /** A statement that would wait for another transaction's row is not enabled.
      A record id is the primary key, so a commit that repeats one fails. */
  predicate Enabled(s: State, step: Step) {
    match step
    case Begin(t, q) => t !in s.txs
    case EnsureRow(t) => t in s.txs && s.txs[t].Begun? && (s.txs[t].request.caseId in s.db.heads || FreeFor(s, t, s.txs[t].request.caseId))
    case LockHead(t) => t in s.txs && s.txs[t].Ensured? && FreeFor(s, t, s.txs[t].request.caseId)
    case Stage(t, id, now) => t in s.txs && s.txs[t].Locked?
    case Commit(t) => t in s.txs && s.txs[t].Staged? && forall r | r in s.db.rows :: r.recordId != s.txs[t].row.recordId
    case Rollback(t) => t in s.txs
  }

  function Unlock(locks: map<string, nat>, t: nat): map<string, nat> {
    map c | c in locks && locks[c] != t :: locks[c]
  }

  function Next(h: Sha256, s: State, step: Step): State
    requires Enabled(s, step)
  {
    match step
    case Begin(t, q) => s.(txs := s.txs[t := Begun(q)])
    case EnsureRow(t) =>
      var q := s.txs[t].request;
      var s' := s.(txs := s.txs[t := Ensured(q)]);
      if q.caseId in s.db.heads then s' else s'.(locks := s.locks[q.caseId := t])
    case LockHead(t) =>
      var q := s.txs[t].request;
      s.(locks := s.locks[q.caseId := t], txs := s.txs[t := Locked(q, Head(s.db, q.caseId))])
    case Stage(t, id, now) =>
      var q := s.txs[t].request;
      s.(txs := s.txs[t := Staged(q, MakeRow(h, Entry(q, id, now), s.txs[t].previous))])
    case Commit(t) =>
      var q, row := s.txs[t].request, s.txs[t].row;
      State(Db(s.db.rows + [row], s.db.heads[q.caseId := Some(row.recordHash)]),
            Unlock(s.locks, t), s.txs - {t}, s.log + [Entry(q, row.recordId, row.createdAt)])
    case Rollback(t) => s.(locks := Unlock(s.locks, t), txs := s.txs - {t})
  }

  /** A run: the steps are enabled one after the other and lead from s to s'. */
  ghost predicate Run(h: Sha256, s: State, steps: seq<Step>, s': State)
    decreases |steps|
  {
    if steps == [] then s' == s
    else Enabled(s, steps[0]) && Run(h, Next(h, s, steps[0]), steps[1..], s')
  }

  /** Whoever is past the lock holds it and has read the current head. */
  ghost predicate LockInvariant(h: Sha256, s: State) {
    && (forall t | t in s.txs && (s.txs[t].Locked? || s.txs[t].Staged?) ::
          var c := s.txs[t].request.caseId;
          c in s.locks && s.locks[c] == t)
    && (forall t | t in s.txs && s.txs[t].Locked? ::
          s.txs[t].previous == Head(s.db, s.txs[t].request.caseId))
    && (forall t | t in s.txs && s.txs[t].Staged? ::
          var Staged(q, row) := s.txs[t];
          row == MakeRow(h, Entry(q, row.recordId, row.createdAt), Head(s.db, q.caseId)))
    && (forall c | c in s.locks :: s.locks[c] in s.txs && s.txs[s.locks[c]].request.caseId == c)
  }

  ghost predicate Serial(h: Sha256, s: State) {
    s.db == Replay(h, s.log) && FreshRecordIds(s.log)
  }

  /** A commit is one serial append; every other step leaves the tables alone. */
  lemma CommitIsAppend(h: Sha256, s: State, step: Step)
    requires Enabled(s, step) && LockInvariant(h, s)
    ensures step.Commit? ==>
      var Staged(q, row) := s.txs[step.t];
      Next(h, s, step).db == Append(h, s.db, Entry(q, row.recordId, row.createdAt))
    ensures !step.Commit? ==> Next(h, s, step).db == s.db && Next(h, s, step).log == s.log
  {
  }

  lemma CommitKeepsLocks(h: Sha256, s: State, step: Step)
    requires Enabled(s, step) && LockInvariant(h, s) && step.Commit?
    ensures LockInvariant(h, Next(h, s, step))
  {
  }

  lemma RollbackKeepsLocks(h: Sha256, s: State, step: Step)
    requires Enabled(s, step) && LockInvariant(h, s) && step.Rollback?
    ensures LockInvariant(h, Next(h, s, step))
  {
  }

  lemma BeginKeepsLocks(h: Sha256, s: State, step: Step)
    requires Enabled(s, step) && LockInvariant(h, s) && (step.Begin? || step.EnsureRow?)
    ensures LockInvariant(h, Next(h, s, step))
  {
  }

  lemma StageKeepsLocks(h: Sha256, s: State, step: Step)
    requires Enabled(s, step) && LockInvariant(h, s) && (step.LockHead? || step.Stage?)
    ensures LockInvariant(h, Next(h, s, step))
  {
  }

  lemma LockInvariantKept(h: Sha256, s: State, step: Step)
    requires Enabled(s, step) && LockInvariant(h, s)
    ensures LockInvariant(h, Next(h, s, step))
  {
    if step.Commit? {
      CommitKeepsLocks(h, s, step);
    } else if step.Rollback? {
      RollbackKeepsLocks(h, s, step);
    } else if step.Begin? || step.EnsureRow? {
      BeginKeepsLocks(h, s, step);
    } else {
      StageKeepsLocks(h, s, step);
    }
  }

  lemma FreshIdsExtend(h: Sha256, log: seq<Entry>, e: Entry)
    requires FreshRecordIds(log) && forall r | r in Replay(h, log).rows :: r.recordId != e.recordId
    ensures FreshRecordIds(log + [e])
  {
    var rows := Replay(h, log).rows;
    ReplayRows(h, log);
    forall i | 0 <= i < |log| ensures log[i].recordId != e.recordId {
      assert rows[i] in rows;
    }
  }

  lemma SerialKept(h: Sha256, s: State, step: Step)
    requires Enabled(s, step) && LockInvariant(h, s) && Serial(h, s)
    ensures Serial(h, Next(h, s, step))
  {
    CommitIsAppend(h, s, step);
    if step.Commit? {
      var Staged(q, row) := s.txs[step.t];
      FreshIdsExtend(h, s.log, Entry(q, row.recordId, row.createdAt));
      assert (s.log + [Entry(q, row.recordId, row.createdAt)])[..|s.log|] == s.log;
    }
  }

  /** Every interleaving is equivalent to the serial execution of its committed
      appends in commit order, and keeps the locks honest. */
  lemma {:induction false} RunIsSerial(h: Sha256, s: State, steps: seq<Step>, s': State)
    requires LockInvariant(h, s) && Serial(h, s) && Run(h, s, steps, s')
    ensures LockInvariant(h, s') && Serial(h, s')
    ensures s.log <= s'.log && s.db.rows <= s'.db.rows
    decreases |steps|
  {
    if steps != [] {
      CommitIsAppend(h, s, steps[0]);
      LockInvariantKept(h, s, steps[0]);
      SerialKept(h, s, steps[0]);
      RunIsSerial(h, Next(h, s, steps[0]), steps[1..], s');
    }
  }

  /** No fork, for every interleaving from the empty ledger: the committed rows
      of a case are one chain in commit order, the state row points at its end
      (or there is neither), and no two rows share a predecessor. */
  lemma NoForkInAnyRun(h: Sha256, steps: seq<Step>, s: State, c: string)
    requires Run(h, START, steps, s)
    ensures IsChain(h, CaseRows(s.db, c)) && Head(s.db, c) == LastHash(CaseRows(s.db, c))
    ensures CollisionFree(h, HashedTexts(CaseRows(s.db, c))) ==>
      forall i, j | 0 <= i < j < |CaseRows(s.db, c)| ::
        CaseRows(s.db, c)[i].previousRecordHash != CaseRows(s.db, c)[j].previousRecordHash
  {
    RunIsSerial(h, START, steps, s);
    ReplayConsistent(h, s.log);
    var rows := CaseRows(s.db, c);
    if CollisionFree(h, HashedTexts(rows)) {
      forall i, j | 0 <= i < j < |rows| ensures rows[i].previousRecordHash != rows[j].previousRecordHash {
        PredecessorsDistinct(h, rows, i, j);
      }
    }
  }

  /** For every interleaving, the validator accepts a case exactly when the
      clock readings taken under its lock came in commit order. */
  lemma AcceptanceInAnyRun(h: Sha256, steps: seq<Step>, s: State, c: string)
    requires Run(h, START, steps, s) && CollisionFree(h, HashedTexts(CaseRows(s.db, c)))
    ensures Accepted(h, s.db, c) <==> StampedInOrder(s.db, c)
  {
    RunIsSerial(h, START, steps, s);
    ReplayConsistent(h, s.log);
    ReplayUniqueIds(h, s.log);
    AcceptedIffStampedInOrder(h, s.db, c);
  }

  /** The clock read under a case's lock is later than every row of the case. */
  ghost predicate Clocked(s: State, step: Step) {
    step.Stage? && step.t in s.txs ==>
      forall r | r in CaseRows(s.db, s.txs[step.t].request.caseId) :: r.createdAt < step.now
  }

  ghost predicate ClockedRun(h: Sha256, s: State, steps: seq<Step>, s': State)
    decreases |steps|
  {
    if steps == [] then s' == s
    else Enabled(s, steps[0]) && Clocked(s, steps[0]) && ClockedRun(h, Next(h, s, steps[0]), steps[1..], s')
  }

  /** Every case is in order, and so will be the rows not yet committed. */
  ghost predicate InOrder(s: State) {
    && (forall c :: StampedInOrder(s.db, c))
    && (forall t | t in s.txs && s.txs[t].Staged? ::
          forall r | r in CaseRows(s.db, s.txs[t].request.caseId) :: r.createdAt < s.txs[t].row.createdAt)
  }

  /** Nobody else commits to a case between a clock reading and its commit. */
  lemma CommitKeepsOrder(h: Sha256, s: State, step: Step)
    requires Enabled(s, step) && LockInvariant(h, s) && InOrder(s) && step.Commit?
    ensures InOrder(Next(h, s, step))
  {
    var s' := Next(h, s, step);
    var Staged(q, row) := s.txs[step.t];
    var e := Entry(q, row.recordId, row.createdAt);
    CommitIsAppend(h, s, step);
    forall c ensures StampedInOrder(s'.db, c) {
      LaterClockKeepsOrder(h, s.db, e, c);
    }
    forall t | t in s'.txs && s'.txs[t].Staged?
      ensures forall r | r in CaseRows(s'.db, s'.txs[t].request.caseId) :: r.createdAt < s'.txs[t].row.createdAt
    {
      assert s.txs[t].request.caseId != q.caseId;
      AppendToCase(h, s.db, e, s.txs[t].request.caseId);
    }
  }

  lemma OrderKept(h: Sha256, s: State, step: Step)
    requires Enabled(s, step) && LockInvariant(h, s) && InOrder(s) && Clocked(s, step)
    ensures InOrder(Next(h, s, step))
  {
    if step.Commit? {
      CommitKeepsOrder(h, s, step);
    } else {
      CommitIsAppend(h, s, step);
    }
  }

  /** As long as the clock moves on under the lock, every case is accepted in
      every state of every interleaving, and the validator checks at least as
      many rows of it as before. Nothing is assumed about the hash. */
  lemma {:induction false} ClockedRunAccepts(h: Sha256, s: State, steps: seq<Step>, s': State, c: string)
    requires LockInvariant(h, s) && Serial(h, s) && InOrder(s) && ClockedRun(h, s, steps, s')
    ensures LockInvariant(h, s') && Serial(h, s') && InOrder(s')
    ensures Accepted(h, s'.db, c) && |ValidatorRows(s.db, c)| <= |ValidatorRows(s'.db, c)|
    decreases |steps|
  {
    if steps == [] {
      ReplayConsistent(h, s.log);
      ReplayUniqueIds(h, s.log);
      StampedInOrderAccepted(h, s.db, c);
    } else {
      var mid := Next(h, s, steps[0]);
      LockInvariantKept(h, s, steps[0]);
      SerialKept(h, s, steps[0]);
      OrderKept(h, s, steps[0]);
      CasesDoNotInterfere(h, s, steps[0], c);
      SortByKeepsRows(RowKey, CaseRows(s.db, c));
      SortByKeepsRows(RowKey, CaseRows(mid.db, c));
      ClockedRunAccepts(h, mid, steps[1..], s', c);
    }
  }

  lemma {:induction false} OutOfOrderStays(h: Sha256, s: State, steps: seq<Step>, s': State, c: string)
    requires LockInvariant(h, s) && Run(h, s, steps, s') && !StampedInOrder(s.db, c)
    ensures !StampedInOrder(s'.db, c)
    decreases |steps|
  {
    if steps != [] {
      var mid := Next(h, s, steps[0]);
      CommitIsAppend(h, s, steps[0]);
      LockInvariantKept(h, s, steps[0]);
      if steps[0].Commit? {
        var Staged(q, row) := s.txs[steps[0].t];
        OutOfOrderForGood(h, s.db, Entry(q, row.recordId, row.createdAt), c);
      }
      OutOfOrderStays(h, mid, steps[1..], s', c);
    }
  }

  /** Once a case is rejected, it is rejected in every later state of every run. */
  lemma RejectedForGood(h: Sha256, start: seq<Step>, s: State, steps: seq<Step>, s': State, c: string)
    requires Run(h, START, start, s) && Run(h, s, steps, s') && CollisionFree(h, HashedTexts(CaseRows(s'.db, c)))
    requires !Accepted(h, s.db, c)
    ensures !Accepted(h, s'.db, c)
  {
    RunIsSerial(h, START, start, s);
    RunIsSerial(h, s, steps, s');
    ReplayConsistent(h, s.log);
    ReplayConsistent(h, s'.log);
    ReplayUniqueIds(h, s.log);
    ReplayUniqueIds(h, s'.log);
    if StampedInOrder(s.db, c) {
      StampedInOrderAccepted(h, s.db, c);
    } else {
      OutOfOrderStays(h, s, steps, s', c);
    }
    AcceptedIffStampedInOrder(h, s'.db, c);
  }

  /** All of it holds at the start. */
  lemma StartIsSerial(h: Sha256)
    ensures LockInvariant(h, START) && Serial(h, START) && InOrder(START)
  {
  }

  /** The columns of every committed row say what its hashed payload says. */
  lemma ColumnsInAnyRun(h: Sha256, steps: seq<Step>, s: State, r: Row)
    requires Run(h, START, steps, s) && r in s.db.rows
    ensures ColumnsAgree(r)
  {
    RunIsSerial(h, START, steps, s);
    ReplayColumns(h, s.log);
  }

  lemma ReplayUniqueIds(h: Sha256, log: seq<Entry>)
    requires FreshRecordIds(log)
    ensures UniqueIds(Replay(h, log).rows)
  {
    ReplayRows(h, log);
    var rows := Replay(h, log).rows;
    forall i, j | 0 <= i < j < |rows| ensures rows[i].recordId != rows[j].recordId {
      assert rows[i].recordId == log[i].recordId && rows[j].recordId == log[j].recordId;
    }
  }

  /** A step of one case's transaction leaves every other case's rows and head
      as they were, and a case's rows only grow at the end. */
  lemma CasesDoNotInterfere(h: Sha256, s: State, step: Step, c: string)
    requires Enabled(s, step) && LockInvariant(h, s)
    ensures CaseRows(s.db, c) <= CaseRows(Next(h, s, step).db, c)
    ensures step.t in s.txs && s.txs[step.t].request.caseId != c ==>
      CaseRows(Next(h, s, step).db, c) == CaseRows(s.db, c) && Head(Next(h, s, step).db, c) == Head(s.db, c)
  {
    CommitIsAppend(h, s, step);
    if step.Commit? {
      var Staged(q, row) := s.txs[step.t];
      AppendToCase(h, s.db, Entry(q, row.recordId, row.createdAt), c);
    }
  }

  /** The transaction that holds the lock t would have to wait for, or t. */
  function Blocker(s: State, t: nat): nat
    requires t in s.txs
  {
    var c := s.txs[t].request.caseId;
    if c in s.locks then s.locks[c] else t
  }

  /** What t does next. */
  function NextStatement(s: State, t: nat, recordId: nat, now: int): Step
    requires t in s.txs
  {
    match s.txs[t]
    case Begun(_) => EnsureRow(t)
    case Ensured(_) => LockHead(t)
    case Locked(_, _) => Stage(t, recordId, now)
    case Staged(_, _) => Commit(t)
  }

  /** No deadlock: a transaction that cannot go on waits for one that can. */
  lemma NeverStuck(h: Sha256, steps: seq<Step>, s: State, t: nat, recordId: nat, now: int)
    requires Run(h, START, steps, s) && t in s.txs
    requires forall t | t in s.txs && s.txs[t].Staged? :: forall r | r in s.db.rows :: r.recordId != s.txs[t].row.recordId
    ensures Blocker(s, t) in s.txs
    ensures Enabled(s, NextStatement(s, t, recordId, now)) ||
            Enabled(s, NextStatement(s, Blocker(s, t), recordId, now))
  {
    RunIsSerial(h, START, steps, s);
  }
}
