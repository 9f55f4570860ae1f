/** Outbox, relay, broker and custody consumer together: worker.py of the
    evidence collector and consumer.py of the custody service, one step per
    statement that another process can observe, with crashes, lost replies and
    redelivery between any two of them.

    The relay delivers at least once; SecuredAlways says that no event is ever
    lost and that none is recorded twice. While the consumer does not crash,
    AttemptsBounded counts for every single message: it is handled at most four
    times, and it is at any time in exactly one place. */
module Pipeline {
  import opened Basics
  import opened CanonicalJson
  import opened HashChain
  import opened Custody
  import opened OutboxWorker

  const MAX_RETRIES := 3

  /** A message in the custody queue with its x-retry-count header. tag is a
      history: the number of the publication it goes back to, which a retry copy
      shares with its original. */
  datatype Message = Message(body: Json, retry: nat, tag: nat)

  function Retried(m: Message): Message {
    Message(m.body, m.retry + 1, m.tag)
  }

  /** Publishing keeps, for an open cycle, its batch, how far it has got, and
      the rows published so far; their flags are not committed yet. */
  datatype Worker = Resting | Publishing(batch: seq<nat>, next: nat, sent: set<nat>)

  /** What the consumer has done with the message it holds, which stays in the
      queue until it is acknowledged: nothing yet, processed it, failed on it,
      or failed and published its retry copy. */
  datatype Consumer = Waiting | Handling(m: Message) | Handled(m: Message) | Failing(m: Message) | Requeued(m: Message)

  /** queue holds every message the broker has not seen acknowledged. The rest
      are histories: what the reporter published, the bodies published in order,
      and how often the message of each tag was delivered, failed, and was
      acknowledged after processing. */
  datatype State = State(
    outbox: seq<OutboxRow>, direct: seq<Json>, worker: Worker, queue: seq<Message>, consumer: Consumer,
    custody: Custody.Tables, dlq: seq<Message>,
    published: seq<Json>, delivered: multiset<nat>, failed: multiset<nat>, completed: multiset<nat>)

  const START := State([], [], Resting, [], Waiting, EMPTY_TABLES, [],
                       [], multiset{}, multiset{}, multiset{})

  datatype Step =
    | WriteOutbox(row: OutboxRow)       // a collector transaction commits an event
    | PublishDirect(body: Json)         // the reporter publishes without an outbox
    | SelectBatch(batch: seq<nat>)
    | PublishOk
    | PublishRaises(reached: bool)      // the message may have reached the broker all the same
    | CommitCycle(notes: Notes)
    | AbortCycle                        // rollback, or a crash of the relay
    | Deliver(i: nat)
    | Finish(id: nat)                   // _process_message returns
    | Raise                             // it raises and nothing is committed
    | RaiseAfterCommit(id: nat)         // the commit takes effect but its reply is lost
    | AckRaises                         // the acknowledgement itself raises
    | Ack(i: nat)
    | PublishRetry
    | Reject(i: nat)
    | ConsumerCrash                     // the held message will be delivered again

  function Without(queue: seq<Message>, i: nat): seq<Message>
    requires i < |queue|
  {
    queue[..i] + queue[i + 1..]
  }

  /** Event ids are fresh uuids: no other row and no other envelope has this one. */
  predicate FreshId(s: State, eventId: string) {
    && (forall r | r in s.outbox :: r.eventId != eventId)
    && (forall b | b in s.direct && Identified(b) :: TextOf(b, "event_id") != eventId)
  }

  predicate FreshRow(s: State, row: OutboxRow) {
    && Identified(row.payload) && TextOf(row.payload, "event_id") == row.eventId
    && !row.published && FreshId(s, row.eventId)
  }

  predicate NewId(t: Custody.Tables, id: nat) {
    forall e | e in t.events :: e.id < id
  }

  ghost predicate Enabled(h: Sha256, clock: Clock, s: State, step: Step) {
    match step
    case WriteOutbox(row) => FreshRow(s, row)
    case PublishDirect(body) => Identified(body) ==> FreshId(s, TextOf(body, "event_id"))
    case SelectBatch(batch) => s.worker.Resting? && IsBatch(s.outbox, batch)
    case PublishOk => s.worker.Publishing? && s.worker.next < |s.worker.batch|
    case PublishRaises(reached) => s.worker.Publishing? && s.worker.next < |s.worker.batch|
    case CommitCycle(_) => s.worker.Publishing? && s.worker.next >= |s.worker.batch|
    case AbortCycle => s.worker.Publishing?
    case Deliver(i) => s.consumer.Waiting? && i < |s.queue|
    case Finish(id) => s.consumer.Handling? && NewId(s.custody, id) && !Process(h, clock, s.custody, s.consumer.m.body, id).Raised?
    case Raise => s.consumer.Handling?
    case RaiseAfterCommit(id) => s.consumer.Handling? && NewId(s.custody, id) && Process(h, clock, s.custody, s.consumer.m.body, id).Persisted?
    case AckRaises => s.consumer.Handled?
    case Ack(i) => (s.consumer.Handled? || s.consumer.Requeued?) && i < |s.queue| && s.queue[i] == s.consumer.m
    case PublishRetry => s.consumer.Failing? && s.consumer.m.retry < MAX_RETRIES
    case Reject(i) => s.consumer.Failing? && s.consumer.m.retry >= MAX_RETRIES && i < |s.queue| && s.queue[i] == s.consumer.m
    case ConsumerCrash => !s.consumer.Waiting?
  }

  function Publish(s: State, body: Json): State {
    s.(queue := s.queue + [Message(body, 0, |s.published|)], published := s.published + [body])
  }

  /** The handler of exceptions takes over. */
  function Fail(s: State): State
    requires !s.consumer.Waiting?
  {
    s.(consumer := Failing(s.consumer.m), failed := s.failed + multiset{s.consumer.m.tag})
  }

  function CustodyAfter(h: Sha256, clock: Clock, t: Custody.Tables, body: Json, id: nat): Custody.Tables {
    var outcome := Process(h, clock, t, body, id);
    if outcome.Persisted? then outcome.tables else t
  }

  /** The relay's open cycle names rows of the table. */
  ghost predicate Bounded(s: State) {
    s.worker.Publishing? ==>
      (forall i | 0 <= i < |s.worker.batch| :: s.worker.batch[i] < |s.outbox|) &&
      (forall x | x in s.worker.sent :: x in s.worker.batch)
  }

  ghost function Next(h: Sha256, clock: Clock, s: State, step: Step): State
    requires Enabled(h, clock, s, step) && Bounded(s)
  {
    match step
    case WriteOutbox(row) => s.(outbox := s.outbox + [row])
    case PublishDirect(body) => Publish(s, body).(direct := s.direct + [body])
    case SelectBatch(batch) => s.(worker := Publishing(batch, 0, {}))
    case PublishOk =>
      var id := s.worker.batch[s.worker.next];
      Publish(s, s.outbox[id].payload).(worker := s.worker.(next := s.worker.next + 1, sent := s.worker.sent + {id}))
    case PublishRaises(reached) =>
      var id := s.worker.batch[s.worker.next];
      var s' := if reached then Publish(s, s.outbox[id].payload) else s;
      s'.(worker := s.worker.(next := s.worker.next + 1))
    case CommitCycle(notes) => s.(outbox := AfterCycle(s.outbox, s.worker.batch, s.worker.sent, notes), worker := Resting)
    case AbortCycle => s.(worker := Resting)
    case Deliver(i) => s.(consumer := Handling(s.queue[i]), delivered := s.delivered + multiset{s.queue[i].tag})
    case Finish(id) => s.(custody := CustodyAfter(h, clock, s.custody, s.consumer.m.body, id), consumer := Handled(s.consumer.m))
    case Raise => Fail(s)
    case RaiseAfterCommit(id) => Fail(s).(custody := CustodyAfter(h, clock, s.custody, s.consumer.m.body, id))
    case AckRaises => Fail(s)
    case Ack(i) =>
      s.(queue := Without(s.queue, i), consumer := Waiting,
         completed := s.completed + if s.consumer.Handled? then multiset{s.consumer.m.tag} else multiset{})
    case PublishRetry => s.(queue := s.queue + [Retried(s.consumer.m)], consumer := Requeued(s.consumer.m))
    case Reject(i) => s.(queue := Without(s.queue, i), dlq := s.dlq + [s.consumer.m], consumer := Waiting)
    case ConsumerCrash => s.(consumer := Waiting)
  }

  ghost predicate Run(h: Sha256, clock: Clock, s: State, steps: seq<Step>, s': State)
    decreases |steps|
  {
    if steps == [] then s' == s
    else Enabled(h, clock, s, steps[0]) && Bounded(s) && Run(h, clock, Next(h, clock, s, steps[0]), steps[1..], s')
  }

  lemma {:induction false} RunConcat(h: Sha256, clock: Clock, s: State, xs: seq<Step>, mid: State, ys: seq<Step>, s': State)
    requires Run(h, clock, s, xs, mid) && Run(h, clock, mid, ys, s')
    ensures Run(h, clock, s, xs + ys, s')
    decreases |xs|
  {
    if xs == [] {
      assert xs + ys == ys;
    } else {
      assert (xs + ys)[1..] == xs[1..] + ys;
      RunConcat(h, clock, Next(h, clock, s, xs[0]), xs[1..], mid, ys, s');
    }
  }

  lemma RunOne(h: Sha256, clock: Clock, s: State, step: Step)
    requires Bounded(s) && Enabled(h, clock, s, step)
    ensures Run(h, clock, s, [step], Next(h, clock, s, step))
  {
    assert [step][1..] == [];
  }

  // ------------------------------------------------- no loss, no double record

  ghost predicate Holds(messages: seq<Message>, body: Json) {
    exists m | m in messages :: m.body == body
  }

  /** The row's event is in the live queue, in the custody tables or in the DLQ. */
  ghost predicate Secured(s: State, row: OutboxRow) {
    Holds(s.queue, row.payload) || row.eventId in s.custody.processed || Holds(s.dlq, row.payload)
  }

  ghost predicate RowsNamed(rows: seq<OutboxRow>) {
    && (forall r | r in rows :: Identified(r.payload) && TextOf(r.payload, "event_id") == r.eventId)
    && (forall i, j | 0 <= i < j < |rows| :: rows[i].eventId != rows[j].eventId)
  }

  ghost predicate PublishedSecured(s: State) {
    forall i | 0 <= i < |s.outbox| ::
      s.outbox[i].published || (s.worker.Publishing? && i in s.worker.sent) ==> Secured(s, s.outbox[i])
  }

  ghost predicate ConsumerSound(s: State) {
    && (!s.consumer.Waiting? ==> s.consumer.m in s.queue)
    && (s.consumer.Handled? ==> Identified(s.consumer.m.body) && TextOf(s.consumer.m.body, "event_id") in s.custody.processed)
    && (s.consumer.Requeued? ==> s.consumer.m.retry < MAX_RETRIES && Retried(s.consumer.m) in s.queue)
  }

  ghost predicate HeadersBounded(s: State) {
    (forall m | m in s.queue :: m.retry <= MAX_RETRIES) && (forall m | m in s.dlq :: m.retry == MAX_RETRIES)
  }

  ghost predicate Safe(h: Sha256, s: State) {
    Bounded(s) && RowsNamed(s.outbox) && PublishedSecured(s) && ConsumerSound(s) && HeadersBounded(s) && Custody.Invariant(h, s.custody)
  }

  lemma SplitAt(queue: seq<Message>, i: nat)
    requires i < |queue|
    ensures queue[..i] + [queue[i]] + queue[i + 1..] == queue
  {
  }

  lemma WithoutMembers(queue: seq<Message>, i: nat)
    requires i < |queue|
    ensures forall m :: m in Without(queue, i) ==> m in queue
    ensures forall m :: m in queue ==> m in Without(queue, i) || m == queue[i]
  {
    assert queue == queue[..i] + [queue[i]] + queue[i + 1..];
  }

  /** Nothing a step adds to the three places takes an event out of them. */
  lemma SecuredGrows(s: State, s': State, row: OutboxRow)
    requires Secured(s, row)
    requires forall m | m in s.queue :: m in s'.queue
    requires forall m | m in s.dlq :: m in s'.dlq
    requires s.custody.processed <= s'.custody.processed
    ensures Secured(s', row)
  {
  }

  lemma CustodyAfterKeeps(h: Sha256, clock: Clock, t: Custody.Tables, body: Json, id: nat)
    requires Custody.Invariant(h, t) && NewId(t, id)
    ensures Custody.Invariant(h, CustodyAfter(h, clock, t, body, id))
    ensures t.processed <= CustodyAfter(h, clock, t, body, id).processed
    ensures !Process(h, clock, t, body, id).Raised? ==>
      Identified(body) && TextOf(body, "event_id") in CustodyAfter(h, clock, t, body, id).processed
  {
    if Process(h, clock, t, body, id).Persisted? {
      ProcessKeeps(h, clock, t, body, id);
    }
  }

  lemma WriteKeepsSafe(h: Sha256, clock: Clock, s: State, step: Step)
    requires Safe(h, s) && Enabled(h, clock, s, step) && step.WriteOutbox?
    ensures Safe(h, Next(h, clock, s, step))
  {
    var s' := Next(h, clock, s, step);
    forall i | 0 <= i < |s'.outbox| && (s'.outbox[i].published || (s'.worker.Publishing? && i in s'.worker.sent))
      ensures Secured(s', s'.outbox[i])
    {
      SecuredGrows(s, s', s.outbox[i]);
    }
    forall i | 0 <= i < |s.outbox| ensures s.outbox[i].eventId != step.row.eventId {
      assert s.outbox[i] in s.outbox;
    }
  }

  lemma PublishKeepsSafe(h: Sha256, clock: Clock, s: State, step: Step)
    requires Safe(h, s) && Enabled(h, clock, s, step)
    requires step.PublishDirect? || step.PublishOk? || step.PublishRaises?
    ensures Safe(h, Next(h, clock, s, step))
  {
    var s' := Next(h, clock, s, step);
    forall i | 0 <= i < |s'.outbox| && (s'.outbox[i].published || (s'.worker.Publishing? && i in s'.worker.sent))
      ensures Secured(s', s'.outbox[i])
    {
      if Secured(s, s.outbox[i]) {
        SecuredGrows(s, s', s.outbox[i]);
      } else {
        assert Message(s.outbox[i].payload, 0, |s.published|) in s'.queue;
      }
    }
  }

  lemma CycleStartKeepsSafe(h: Sha256, clock: Clock, s: State, step: Step)
    requires Safe(h, s) && Enabled(h, clock, s, step)
    requires step.SelectBatch? || step.AbortCycle?
    ensures Safe(h, Next(h, clock, s, step))
  {
    var s' := Next(h, clock, s, step);
    if step.SelectBatch? {
      BatchInTable(s.outbox, step.batch);
    }
    forall i | 0 <= i < |s'.outbox| && s'.outbox[i].published ensures Secured(s', s'.outbox[i]) {
      SecuredGrows(s, s', s.outbox[i]);
    }
  }

  lemma NamesKept(rows: seq<OutboxRow>, after: seq<OutboxRow>)
    requires RowsNamed(rows) && |after| == |rows|
    requires forall i | 0 <= i < |rows| :: after[i].payload == rows[i].payload && after[i].eventId == rows[i].eventId
    ensures RowsNamed(after)
  {
    forall r | r in after ensures Identified(r.payload) && TextOf(r.payload, "event_id") == r.eventId {
      var i :| 0 <= i < |after| && after[i] == r;
      assert rows[i] in rows;
    }
  }

  lemma CommittedSecured(s: State, s': State)
    requires PublishedSecured(s) && s.worker.Publishing? && s'.worker.Resting? && |s'.outbox| == |s.outbox|
    requires s'.queue == s.queue && s'.custody == s.custody && s'.dlq == s.dlq
    requires forall i | 0 <= i < |s.outbox| ::
      s'.outbox[i].payload == s.outbox[i].payload && s'.outbox[i].eventId == s.outbox[i].eventId &&
      (s'.outbox[i].published ==> s.outbox[i].published || i in s.worker.sent)
    ensures PublishedSecured(s')
  {
    forall i | 0 <= i < |s'.outbox| && s'.outbox[i].published ensures Secured(s', s'.outbox[i]) {
      assert Secured(s, s.outbox[i]);
    }
  }

  /** Committing the flags claims no more than what was published. */
  lemma CommitKeepsSafe(h: Sha256, clock: Clock, s: State, step: Step)
    requires Safe(h, s) && Enabled(h, clock, s, step) && step.CommitCycle?
    ensures Safe(h, Next(h, clock, s, step))
  {
    var rows := AfterCycle(s.outbox, s.worker.batch, s.worker.sent, step.notes);
    AfterCycleRows(s.outbox, s.worker.batch, s.worker.sent, step.notes);
    NamesKept(s.outbox, rows);
    CommittedSecured(s, s.(outbox := rows, worker := Resting));
  }

  lemma ConsumerKeepsSafe(h: Sha256, clock: Clock, s: State, step: Step)
    requires Safe(h, s) && Enabled(h, clock, s, step)
    requires step.Deliver? || step.Finish? || step.Raise? || step.RaiseAfterCommit? || step.AckRaises? || step.PublishRetry? ||
             step.ConsumerCrash?
    ensures Safe(h, Next(h, clock, s, step))
  {
    var s' := Next(h, clock, s, step);
    if step.Finish? || step.RaiseAfterCommit? {
      CustodyAfterKeeps(h, clock, s.custody, s.consumer.m.body, step.id);
    }
    forall i | 0 <= i < |s'.outbox| && (s'.outbox[i].published || (s'.worker.Publishing? && i in s'.worker.sent))
      ensures Secured(s', s'.outbox[i])
    {
      SecuredGrows(s, s', s.outbox[i]);
    }
  }

  /** Taking the held message off the queue loses nothing: its event has been
      recorded, or its retry copy is queued, or it is in the DLQ. */
  lemma RemovalKeepsSafe(h: Sha256, clock: Clock, s: State, step: Step)
    requires Safe(h, s) && Enabled(h, clock, s, step)
    requires step.Ack? || step.Reject?
    ensures Safe(h, Next(h, clock, s, step))
  {
    var s', m := Next(h, clock, s, step), s.consumer.m;
    WithoutMembers(s.queue, step.i);
    forall i | 0 <= i < |s'.outbox| && (s'.outbox[i].published || (s'.worker.Publishing? && i in s'.worker.sent))
      ensures Secured(s', s'.outbox[i])
    {
      var row := s.outbox[i];
      if row.payload == m.body {
        assert row in s.outbox;
        if step.Ack? && s.consumer.Requeued? {
          assert Retried(m) in s'.queue;
        }
        assert step.Reject? ==> m in s'.dlq;
      } else if Holds(s.queue, row.payload) {
        var q :| q in s.queue && q.body == row.payload;
        assert q in s'.queue;
      } else if Holds(s.dlq, row.payload) {
        var q :| q in s.dlq && q.body == row.payload;
        assert q in s'.dlq;
      }
    }
  }

  lemma {:induction false} RunIsSafe(h: Sha256, clock: Clock, s: State, steps: seq<Step>, s': State)
    requires Safe(h, s) && Run(h, clock, s, steps, s')
    ensures Safe(h, s')
    decreases |steps|
  {
    if steps != [] {
      var step := steps[0];
      if step.Ack? || step.Reject? {
        RemovalKeepsSafe(h, clock, s, step);
      } else if step.WriteOutbox? {
        WriteKeepsSafe(h, clock, s, step);
      } else if step.PublishDirect? || step.PublishOk? || step.PublishRaises? {
        PublishKeepsSafe(h, clock, s, step);
      } else if step.SelectBatch? || step.AbortCycle? {
        CycleStartKeepsSafe(h, clock, s, step);
      } else if step.CommitCycle? {
        CommitKeepsSafe(h, clock, s, step);
      } else {
        ConsumerKeepsSafe(h, clock, s, step);
      }
      RunIsSafe(h, clock, Next(h, clock, s, step), steps[1..], s');
    }
  }

  /** In every reachable state: every committed event is unpublished, in the live
      queue, in custody or in the DLQ; custody holds no event twice, and the ids
      it has processed are exactly those of its events. */
  lemma SecuredAlways(h: Sha256, clock: Clock, steps: seq<Step>, s: State)
    requires Run(h, clock, START, steps, s)
    ensures forall i | 0 <= i < |s.outbox| :: !s.outbox[i].published || Secured(s, s.outbox[i])
    ensures forall i, j | 0 <= i < j < |s.custody.events| :: s.custody.events[i].eventId != s.custody.events[j].eventId
    ensures s.custody.processed == set e | e in s.custody.events :: e.eventId
    ensures forall m | m in s.queue :: m.retry <= 3
    ensures forall m | m in s.dlq :: m.retry == 3
  {
    RunIsSafe(h, clock, START, steps, s);
  }

  /** Whatever happened on the way, a timeline checks exactly when its events
      were consumed in order of time. */
  lemma TimelineInAnyRun(h: Sha256, clock: Clock, steps: seq<Step>, s: State, a: string)
    requires Run(h, clock, START, steps, s) && CollisionFree(h, ContentTexts(Consumed(s.custody, a)))
    ensures ChainValid(Timeline(s.custody, a)) <==> InTimeOrder(Consumed(s.custody, a))
  {
    RunIsSafe(h, clock, START, steps, s);
    CustodyValidIff(h, s.custody, a);
  }

  /** A step adds to the custody of at most one artifact, at the end, and takes
      nothing away: of the others, the timeline is as it was. */
  lemma TimelinesOnlyGrow(h: Sha256, clock: Clock, s: State, step: Step, a: string)
    requires Bounded(s) && Enabled(h, clock, s, step)
    ensures Consumed(s.custody, a) <= Consumed(Next(h, clock, s, step).custody, a)
    ensures !s.consumer.Waiting? && Get(s.consumer.m.body, "artifact_id") != Some(Str(a)) ==>
      Timeline(Next(h, clock, s, step).custody, a) == Timeline(s.custody, a)
  {
    if (step.Finish? || step.RaiseAfterCommit?) && Process(h, clock, s.custody, s.consumer.m.body, step.id).Persisted? {
      ProcessAppends(h, clock, s.custody, s.consumer.m.body, step.id, a);
    }
  }

  lemma {:induction false} ConsumedGrows(h: Sha256, clock: Clock, s: State, steps: seq<Step>, s': State, a: string)
    requires Run(h, clock, s, steps, s')
    ensures Consumed(s.custody, a) <= Consumed(s'.custody, a)
    decreases |steps|
  {
    if steps != [] {
      TimelinesOnlyGrow(h, clock, s, steps[0], a);
      ConsumedGrows(h, clock, Next(h, clock, s, steps[0]), steps[1..], s', a);
    }
  }

  /** Once a timeline fails the check, it fails it in every later state of every
      run. */
  lemma BrokenForGood(h: Sha256, clock: Clock, start: seq<Step>, s: State, steps: seq<Step>, s': State, a: string)
    requires Run(h, clock, START, start, s) && Run(h, clock, s, steps, s')
    requires CollisionFree(h, ContentTexts(Consumed(s'.custody, a)))
    requires !ChainValid(Timeline(s.custody, a))
    ensures !ChainValid(Timeline(s'.custody, a))
  {
    hide ChainValid, Timeline, Enabled, Next;
    RunIsSafe(h, clock, START, start, s);
    RunIsSafe(h, clock, s, steps, s');
    ConsumedGrows(h, clock, s, steps, s', a);
    InvalidForGood(h, s.custody, s'.custody, a);
  }

  // ------------------------------------------------- what is recorded is genuine

  /** A body someone wrote: the payload of an outbox row, or the reporter's. */
  ghost predicate Source(s: State, body: Json) {
    body in s.direct || exists r | r in s.outbox :: r.payload == body
  }

  /** The event is what processing this body makes of it. */
  ghost predicate Records(h: Sha256, clock: Clock, e: Event, body: Json) {
    Readable(clock, body) && e == MakeEvent(h, clock, body, e.id, e.previousEventHash)
  }

  ghost predicate Genuine(h: Sha256, clock: Clock, s: State) {
    && (forall m | m in s.queue :: Source(s, m.body))
    && (!s.consumer.Waiting? ==> Source(s, s.consumer.m.body))
    && (forall e | e in s.custody.events :: exists body :: Source(s, body) && Records(h, clock, e, body))
  }

  /** No two sources share an event id. */
  ghost predicate SourcesNamed(s: State) {
    && RowsNamed(s.outbox)
    && (forall i, j | 0 <= i < j < |s.direct| && Identified(s.direct[i]) && Identified(s.direct[j]) ::
          TextOf(s.direct[i], "event_id") != TextOf(s.direct[j], "event_id"))
    && (forall r, b | r in s.outbox && b in s.direct && Identified(b) :: TextOf(b, "event_id") != r.eventId)
  }

  /** Sources are never lost: payloads and ids of rows stay as they were. */
  ghost predicate SourcesGrow(s: State, s': State) {
    && s.direct <= s'.direct && |s.outbox| <= |s'.outbox|
    && forall i | 0 <= i < |s.outbox| :: s'.outbox[i].payload == s.outbox[i].payload && s'.outbox[i].eventId == s.outbox[i].eventId
  }

  lemma StepSourcesGrow(h: Sha256, clock: Clock, s: State, step: Step)
    requires Bounded(s) && Enabled(h, clock, s, step)
    ensures SourcesGrow(s, Next(h, clock, s, step))
  {
    if step.CommitCycle? {
      AfterCycleRows(s.outbox, s.worker.batch, s.worker.sent, step.notes);
    }
  }

  lemma SourceKept(s: State, s': State, body: Json)
    requires SourcesGrow(s, s') && Source(s, body)
    ensures Source(s', body)
  {
    if body !in s.direct {
      var r :| r in s.outbox && r.payload == body;
      var i :| 0 <= i < |s.outbox| && s.outbox[i] == r;
      assert s'.outbox[i] in s'.outbox;
    }
  }

  lemma SameNames(s: State, s': State)
    requires SourcesNamed(s) && s'.direct == s.direct && |s'.outbox| == |s.outbox|
    requires forall i | 0 <= i < |s.outbox| :: s'.outbox[i].payload == s.outbox[i].payload && s'.outbox[i].eventId == s.outbox[i].eventId
    ensures SourcesNamed(s')
  {
    NamesKept(s.outbox, s'.outbox);
    forall r | r in s'.outbox ensures exists q | q in s.outbox :: q.payload == r.payload && q.eventId == r.eventId {
      var i :| 0 <= i < |s'.outbox| && s'.outbox[i] == r;
      assert s.outbox[i] in s.outbox;
    }
  }

  lemma WriteKeepsNames(h: Sha256, clock: Clock, s: State, step: Step)
    requires Bounded(s) && SourcesNamed(s) && Enabled(h, clock, s, step) && step.WriteOutbox?
    ensures SourcesNamed(Next(h, clock, s, step))
  {
    forall i | 0 <= i < |s.outbox| ensures s.outbox[i].eventId != step.row.eventId {
      assert s.outbox[i] in s.outbox;
    }
  }

  lemma DirectKeepsNames(h: Sha256, clock: Clock, s: State, step: Step)
    requires Bounded(s) && SourcesNamed(s) && Enabled(h, clock, s, step) && step.PublishDirect?
    ensures SourcesNamed(Next(h, clock, s, step))
  {
    forall i | 0 <= i < |s.direct| && Identified(s.direct[i]) && Identified(step.body)
      ensures TextOf(s.direct[i], "event_id") != TextOf(step.body, "event_id")
    {
      assert s.direct[i] in s.direct;
    }
  }

  lemma NoNewSource(h: Sha256, clock: Clock, s: State, step: Step)
    requires Bounded(s) && Enabled(h, clock, s, step) && !step.WriteOutbox? && !step.PublishDirect?
    ensures Next(h, clock, s, step).direct == s.direct && |Next(h, clock, s, step).outbox| == |s.outbox|
  {
  }

  lemma SourcesStayNamed(h: Sha256, clock: Clock, s: State, step: Step)
    requires Bounded(s) && SourcesNamed(s) && Enabled(h, clock, s, step)
    ensures SourcesNamed(Next(h, clock, s, step))
  {
    if step.WriteOutbox? {
      WriteKeepsNames(h, clock, s, step);
    } else if step.PublishDirect? {
      DirectKeepsNames(h, clock, s, step);
    } else {
      NoNewSource(h, clock, s, step);
      StepSourcesGrow(h, clock, s, step);
      SameNames(s, Next(h, clock, s, step));
    }
  }

  lemma MessagesStayGenuine(h: Sha256, clock: Clock, s: State, step: Step)
    requires Bounded(s) && Genuine(h, clock, s) && Enabled(h, clock, s, step)
    ensures var s' := Next(h, clock, s, step);
      (forall m | m in s'.queue :: Source(s', m.body)) && (!s'.consumer.Waiting? ==> Source(s', s'.consumer.m.body))
  {
    var s' := Next(h, clock, s, step);
    StepSourcesGrow(h, clock, s, step);
    if step.Ack? || step.Reject? {
      WithoutMembers(s.queue, step.i);
    }
    forall m | m in s'.queue ensures Source(s', m.body) {
      if Source(s, m.body) {
        SourceKept(s, s', m.body);
      }
    }
    if !s'.consumer.Waiting? {
      SourceKept(s, s', s'.consumer.m.body);
    }
  }

  lemma CustodyStaysGenuine(h: Sha256, clock: Clock, s: State, step: Step)
    requires Bounded(s) && Genuine(h, clock, s) && Enabled(h, clock, s, step)
    ensures var s' := Next(h, clock, s, step);
      forall e | e in s'.custody.events :: exists body :: Source(s', body) && Records(h, clock, e, body)
  {
    var s' := Next(h, clock, s, step);
    StepSourcesGrow(h, clock, s, step);
    forall e | e in s'.custody.events ensures exists body :: Source(s', body) && Records(h, clock, e, body) {
      if e in s.custody.events {
        var body :| Source(s, body) && Records(h, clock, e, body);
        SourceKept(s, s', body);
      } else {
        var body := s.consumer.m.body;
        SourceKept(s, s', body);
        NewEventFacts(h, clock, s.custody, body, step.id);
        assert Records(h, clock, e, body);
      }
    }
  }

  lemma {:induction false} RunIsGenuine(h: Sha256, clock: Clock, s: State, steps: seq<Step>, s': State)
    requires Genuine(h, clock, s) && SourcesNamed(s) && Run(h, clock, s, steps, s')
    ensures Genuine(h, clock, s') && SourcesNamed(s')
    decreases |steps|
  {
    if steps != [] {
      MessagesStayGenuine(h, clock, s, steps[0]);
      CustodyStaysGenuine(h, clock, s, steps[0]);
      SourcesStayNamed(h, clock, s, steps[0]);
      RunIsGenuine(h, clock, Next(h, clock, s, steps[0]), steps[1..], s');
    }
  }

  /** What custody records under the id of an outbox row is made from that row's
      payload and from nothing else. */
  lemma RecordedFaithfully(h: Sha256, clock: Clock, s: State, row: OutboxRow, e: Event)
    requires Genuine(h, clock, s) && SourcesNamed(s)
    requires row in s.outbox && e in s.custody.events && e.eventId == row.eventId
    ensures Records(h, clock, e, row.payload)
  {
    var body :| Source(s, body) && Records(h, clock, e, body);
    assert TextOf(body, "event_id") == row.eventId;
    if body !in s.direct {
      var r :| r in s.outbox && r.payload == body;
      var i :| 0 <= i < |s.outbox| && s.outbox[i] == r;
      var j :| 0 <= j < |s.outbox| && s.outbox[j] == row;
      assert i == j;
    }
  }

  // ------------------------------------------- attempts and conservation

  /** How often a message may still be handled. */
  function Weight(m: Message): int {
    MAX_RETRIES + 1 - m.retry
  }

  function Potential(queue: seq<Message>): int {
    if queue == [] then 0 else Potential(queue[..|queue| - 1]) + Weight(queue[|queue| - 1])
  }

  lemma {:induction false} PotentialConcat(a: seq<Message>, b: seq<Message>)
    ensures Potential(a + b) == Potential(a) + Potential(b)
  {
    if b == [] {
      assert a + b == a;
    } else {
      var front, last := b[..|b| - 1], b[|b| - 1];
      assert (a + b)[..|a + b| - 1] == a + front;
      PotentialConcat(a, front);
    }
  }

  lemma PotentialOfOne(m: Message)
    ensures Potential([m]) == Weight(m)
  {
    assert [m][..0] == [];
  }

  lemma PotentialAround(a: seq<Message>, m: Message, b: seq<Message>)
    ensures Potential(a + [m] + b) == Potential(a + b) + Weight(m)
  {
    PotentialConcat(a + [m], b);
    PotentialConcat(a, [m]);
    PotentialConcat(a, b);
    PotentialOfOne(m);
  }

  lemma PotentialWithout(queue: seq<Message>, i: nat)
    requires i < |queue|
    ensures Potential(Without(queue, i)) == Potential(queue) - Weight(queue[i])
  {
    var a, m, b := queue[..i], queue[i], queue[i + 1..];
    SplitAt(queue, i);
    PotentialAround(a, m, b);
  }

  lemma {:induction false} PotentialBounds(queue: seq<Message>)
    requires forall m | m in queue :: m.retry <= MAX_RETRIES
    ensures Potential(queue) >= |queue|
  {
    if queue != [] {
      PotentialBounds(queue[..|queue| - 1]);
    }
  }

  // ------------------------------------------------ every message by its tag

  function OfTag(t: nat): Message -> bool {
    (m: Message) => m.tag == t
  }

  /** Where one published message and its retry copies are, how often it was
      delivered and failed, and what the consumer is doing with it. */
  datatype View = View(live: seq<Message>, dead: seq<Message>, completed: nat, delivered: nat, failed: nat, held: Consumer)

  function ViewOf(s: State, t: nat): View {
    View(Filter(OfTag(t), s.queue), Filter(OfTag(t), s.dlq), s.completed[t], s.delivered[t], s.failed[t],
         if !s.consumer.Waiting? && s.consumer.m.tag == t then s.consumer else Waiting)
  }

  /** The message is in one place, and its counts agree with its header. While a
      retry copy is out and its original not acknowledged, both are queued. */
  predicate Regular(v: View) {
    match v.held
    case Waiting =>
      || (|v.live| == 1 && v.dead == [] && v.completed == 0 && v.delivered == v.failed == v.live[0].retry <= MAX_RETRIES)
      || (v.live == [] && v.dead == [] && v.completed == 1 && v.delivered == v.failed + 1 <= MAX_RETRIES + 1)
      || (v.live == [] && |v.dead| == 1 && v.completed == 0 && v.delivered == v.failed == MAX_RETRIES + 1)
    case Handling(m) => v == View([m], [], 0, m.retry + 1, m.retry, v.held) && m.retry <= MAX_RETRIES
    case Handled(m) => v == View([m], [], 0, m.retry + 1, m.retry, v.held) && m.retry <= MAX_RETRIES
    case Failing(m) => v == View([m], [], 0, m.retry + 1, m.retry + 1, v.held) && m.retry <= MAX_RETRIES
    case Requeued(m) => v == View([m, Retried(m)], [], 0, m.retry + 1, m.retry + 1, v.held) && m.retry < MAX_RETRIES
  }

  const UNKNOWN := View([], [], 0, 0, 0, Waiting)

  ghost predicate Counted(s: State, t: nat) {
    if t < |s.published| then Regular(ViewOf(s, t)) else ViewOf(s, t) == UNKNOWN
  }

  lemma FilterWithout(p: Message -> bool, queue: seq<Message>, i: nat)
    requires i < |queue|
    ensures Filter(p, queue) == Filter(p, queue[..i]) + (if p(queue[i]) then [queue[i]] else []) + Filter(p, queue[i + 1..])
    ensures Filter(p, Without(queue, i)) == Filter(p, queue[..i]) + Filter(p, queue[i + 1..])
  {
    SplitAt(queue, i);
    FilterConcat(p, queue[..i] + [queue[i]], queue[i + 1..]);
    FilterAppend(p, queue[..i], queue[i]);
    FilterConcat(p, queue[..i], queue[i + 1..]);
  }

  lemma PublishCounted(s: State, body: Json, t: nat)
    requires Counted(s, t)
    ensures Counted(Publish(s, body), t)
  {
    FilterAppend(OfTag(t), s.queue, Message(body, 0, |s.published|));
  }

  lemma DeliverCounted(s: State, i: nat, t: nat)
    requires Counted(s, t) && s.consumer.Waiting? && i < |s.queue|
    ensures Counted(s.(consumer := Handling(s.queue[i]), delivered := s.delivered + multiset{s.queue[i].tag}), t)
  {
    FilterMember(OfTag(t), s.queue, s.queue[i]);
  }

  lemma HandledCounted(s: State, custody: Custody.Tables, t: nat)
    requires Counted(s, t) && s.consumer.Handling?
    ensures Counted(s.(custody := custody, consumer := Handled(s.consumer.m)), t)
  {
  }

  lemma FailCounted(s: State, t: nat)
    requires Counted(s, t) && (s.consumer.Handling? || s.consumer.Handled?)
    ensures Counted(Fail(s), t)
  {
  }

  lemma RetryCounted(s: State, t: nat)
    requires Counted(s, t) && s.consumer.Failing? && s.consumer.m.retry < MAX_RETRIES
    ensures Counted(s.(queue := s.queue + [Retried(s.consumer.m)], consumer := Requeued(s.consumer.m)), t)
  {
    hide Filter;
    FilterAppend(OfTag(t), s.queue, Retried(s.consumer.m));
  }

  lemma CompleteCounted(s: State, i: nat, t: nat)
    requires Counted(s, t) && s.consumer.Handled? && i < |s.queue| && s.queue[i] == s.consumer.m
    ensures Counted(s.(queue := Without(s.queue, i), consumer := Waiting, completed := s.completed + multiset{s.consumer.m.tag}), t)
  {
    FilterWithout(OfTag(t), s.queue, i);
  }

  /** Acknowledging the original leaves its copy in its place. */
  lemma CopyTakesOver(s: State, i: nat, t: nat)
    requires Counted(s, t) && s.consumer.Requeued? && i < |s.queue| && s.queue[i] == s.consumer.m
    ensures Counted(s.(queue := Without(s.queue, i), consumer := Waiting), t)
  {
    hide Filter;
    FilterWithout(OfTag(t), s.queue, i);
    var m, before, after := s.consumer.m, Filter(OfTag(t), s.queue[..i]), Filter(OfTag(t), s.queue[i + 1..]);
    if m.tag == t {
      assert (before + [m] + after)[|before|] == m;
      assert before == [] && [m] + after == [m, Retried(m)];
      assert after == ([m] + after)[1..];
    }
  }

  lemma RejectCounted(s: State, i: nat, t: nat)
    requires Counted(s, t) && s.consumer.Failing? && s.consumer.m.retry >= MAX_RETRIES
    requires i < |s.queue| && s.queue[i] == s.consumer.m
    ensures Counted(s.(queue := Without(s.queue, i), dlq := s.dlq + [s.consumer.m], consumer := Waiting), t)
  {
    hide Filter;
    var m, before, after := s.consumer.m, Filter(OfTag(t), s.queue[..i]), Filter(OfTag(t), s.queue[i + 1..]);
    FilterWithout(OfTag(t), s.queue, i);
    FilterAppend(OfTag(t), s.dlq, m);
    if m.tag == t {
      assert |before + [m] + after| == 1;
      assert before == [] && after == [];
    }
  }

  predicate OfConsumer(step: Step) {
    step.Deliver? || step.Finish? || step.Raise? || step.RaiseAfterCommit? || step.AckRaises? || step.Ack? ||
    step.PublishRetry? || step.Reject?
  }

  lemma ConsumerStepCounted(h: Sha256, clock: Clock, s: State, step: Step, t: nat)
    requires Bounded(s) && Counted(s, t) && Enabled(h, clock, s, step) && OfConsumer(step)
    ensures Counted(Next(h, clock, s, step), t)
  {
    hide Regular, Filter;
    match step
    case Deliver(i) => DeliverCounted(s, i, t);
    case Finish(id) => HandledCounted(s, CustodyAfter(h, clock, s.custody, s.consumer.m.body, id), t);
    case Raise => FailCounted(s, t);
    case RaiseAfterCommit(_) => FailCounted(s, t);
    case AckRaises => FailCounted(s, t);
    case PublishRetry => RetryCounted(s, t);
    case Ack(i) =>
      if s.consumer.Handled? {
        CompleteCounted(s, i, t);
      } else {
        CopyTakesOver(s, i, t);
      }
    case Reject(i) => RejectCounted(s, i, t);
  }

  lemma StepCounted(h: Sha256, clock: Clock, s: State, step: Step, t: nat)
    requires Bounded(s) && Counted(s, t) && Enabled(h, clock, s, step) && !step.ConsumerCrash?
    ensures Counted(Next(h, clock, s, step), t)
  {
    hide Regular, Filter;
    if OfConsumer(step) {
      ConsumerStepCounted(h, clock, s, step, t);
    } else if step.PublishDirect? {
      PublishCounted(s, step.body, t);
    } else if step.PublishOk? || step.PublishRaises? {
      PublishCounted(s, s.outbox[s.worker.batch[s.worker.next]].payload, t);
    }
  }

  /** The number of messages, and what they say. */
  ghost predicate Conserved(s: State) {
    && |s.queue| + |s.completed| + |s.dlq| == |s.published| + (if s.consumer.Requeued? then 1 else 0)
    && (!s.consumer.Waiting? ==> s.consumer.m.tag < |s.published| && s.consumer.m.body == s.published[s.consumer.m.tag])
    && (forall m | m in s.queue || m in s.dlq :: m.tag < |s.published| && m.body == s.published[m.tag])
  }

  lemma StepConserved(h: Sha256, clock: Clock, s: State, step: Step)
    requires Bounded(s) && Conserved(s) && Enabled(h, clock, s, step) && !step.ConsumerCrash?
    ensures Conserved(Next(h, clock, s, step))
  {
    if step.Ack? || step.Reject? {
      WithoutMembers(s.queue, step.i);
    }
  }

  lemma {:induction false} RunIsCounted(h: Sha256, clock: Clock, s: State, steps: seq<Step>, s': State)
    requires Conserved(s) && (forall t: nat :: Counted(s, t)) && Run(h, clock, s, steps, s')
    requires forall i | 0 <= i < |steps| :: !steps[i].ConsumerCrash?
    ensures Conserved(s') && forall t: nat :: Counted(s', t)
    decreases |steps|
  {
    if steps != [] {
      var mid := Next(h, clock, s, steps[0]);
      StepConserved(h, clock, s, steps[0]);
      forall t: nat ensures Counted(mid, t) {
        StepCounted(h, clock, s, steps[0], t);
      }
      RunIsCounted(h, clock, mid, steps[1..], s');
    }
  }

  lemma StartIsCounted()
    ensures Conserved(START) && forall t: nat :: Counted(START, t)
  {
  }

  lemma CountedMeans(s: State, t: nat)
    requires Counted(s, t) && Conserved(s) && t < |s.published|
    ensures s.failed[t] <= s.delivered[t] <= MAX_RETRIES + 1
    ensures forall m | m in s.queue && m.tag == t && !(!s.consumer.Waiting? && s.consumer.m == m) ::
      s.delivered[t] == s.failed[t] == m.retry
    ensures forall m | m in s.dlq && m.tag == t :: s.delivered[t] == s.failed[t] == MAX_RETRIES + 1
    ensures forall m | (m in s.queue || m in s.dlq) && m.tag == t :: m.body == s.published[t]
    ensures s.consumer.Waiting? ==> |Filter(OfTag(t), s.queue)| + s.completed[t] + |Filter(OfTag(t), s.dlq)| == 1
  {
    forall m: Message ensures m in Filter(OfTag(t), s.queue) <==> m in s.queue && m.tag == t {
      FilterMember(OfTag(t), s.queue, m);
    }
    forall m: Message ensures m in Filter(OfTag(t), s.dlq) <==> m in s.dlq && m.tag == t {
      FilterMember(OfTag(t), s.dlq, m);
    }
  }

  /** In every run in which the consumer does not crash, for every single message
      and its retry copies: it is handled at most four times; while it is queued
      and not being handled, its header says how often it was delivered, and all
      of that failed; in the DLQ it has failed exactly four times; and whenever
      the consumer is idle it is in exactly one of queue, completed and DLQ. */
  lemma AttemptsBounded(h: Sha256, clock: Clock, steps: seq<Step>, s: State, t: nat)
    requires Run(h, clock, START, steps, s) && t < |s.published|
    requires forall i | 0 <= i < |steps| :: !steps[i].ConsumerCrash?
    ensures s.failed[t] <= s.delivered[t] <= 4
    ensures forall m | m in s.queue && m.tag == t && !(!s.consumer.Waiting? && s.consumer.m == m) ::
      s.delivered[t] == s.failed[t] == m.retry
    ensures forall m | m in s.dlq && m.tag == t :: s.delivered[t] == s.failed[t] == 4
    ensures forall m | (m in s.queue || m in s.dlq) && m.tag == t :: m.body == s.published[t]
    ensures s.consumer.Waiting? ==> |Filter(OfTag(t), s.queue)| + s.completed[t] + |Filter(OfTag(t), s.dlq)| == 1
  {
    StartIsCounted();
    RunIsCounted(h, clock, START, steps, s);
    assert Counted(s, t);
    CountedMeans(s, t);
  }

  /** In total: whenever the consumer is idle, queued, completed and dead-lettered
      messages add up to the published ones. */
  lemma MessagesConserved(h: Sha256, clock: Clock, steps: seq<Step>, s: State)
    requires Run(h, clock, START, steps, s) && s.consumer.Waiting?
    requires forall i | 0 <= i < |steps| :: !steps[i].ConsumerCrash?
    ensures |s.queue| + |s.completed| + |s.dlq| == |s.published|
  {
    StartIsCounted();
    RunIsCounted(h, clock, START, steps, s);
  }

  // ------------------------------------------- the relay's cycle as a run

  /** The messages these bodies become when n messages have been published. */
  function Messages(bodies: seq<Json>, n: nat): seq<Message> {
    seq(|bodies|, i requires 0 <= i < |bodies| => Message(bodies[i], 0, n + i))
  }

  function PublishStep(id: nat, accepted: set<nat>, reached: set<nat>): Step {
    if id in accepted then PublishOk else PublishRaises(id in reached)
  }

  /** The publish statements for these rows. */
  function PublishSteps(batch: seq<nat>, accepted: set<nat>, reached: set<nat>): seq<Step> {
    seq(|batch|, i requires 0 <= i < |batch| => PublishStep(batch[i], accepted, reached))
  }

  function AcceptedOf(ids: seq<nat>, accepted: set<nat>): set<nat> {
    set x | x in ids && x in accepted
  }

  /** The pipeline after the first n publishes of a cycle over batch. */
  function Published(s: State, batch: seq<nat>, n: nat, accepted: set<nat>, reached: set<nat>): State
    requires n <= |batch| && forall i | 0 <= i < |batch| :: batch[i] < |s.outbox|
  {
    var out := Sent(s.outbox, batch[..n], reached);
    s.(worker := Publishing(batch, n, AcceptedOf(batch[..n], accepted)),
       queue := s.queue + Messages(out, |s.published|), published := s.published + out)
  }

  lemma PublishOne(h: Sha256, clock: Clock, s: State, batch: seq<nat>, n: nat, accepted: set<nat>, reached: set<nat>)
    requires n < |batch| && accepted <= reached && forall i | 0 <= i < |batch| :: batch[i] < |s.outbox|
    ensures Run(h, clock, Published(s, batch, n, accepted, reached), [PublishStep(batch[n], accepted, reached)],
                Published(s, batch, n + 1, accepted, reached))
  {
    var id, mid, next := batch[n], Published(s, batch, n, accepted, reached), Published(s, batch, n + 1, accepted, reached);
    var before, after := Sent(s.outbox, batch[..n], reached), Sent(s.outbox, batch[..n + 1], reached);
    assert batch[..n + 1] == batch[..n] + [id] && batch[..n + 1][..n] == batch[..n];
    assert AcceptedOf(batch[..n + 1], accepted) == AcceptedOf(batch[..n], accepted) + if id in accepted then {id} else {};
    assert after == before + if id in reached then [s.outbox[id].payload] else [];
    var n0 := |s.published|;
    assert Messages(after, n0) == Messages(before, n0) + if id in reached then [Message(s.outbox[id].payload, 0, n0 + |before|)] else [];
    assert next.queue == mid.queue + if id in reached then [Message(s.outbox[id].payload, 0, |mid.published|)] else [];
    RunOne(h, clock, mid, PublishStep(id, accepted, reached));
    var got := Next(h, clock, mid, PublishStep(id, accepted, reached));
    assert mid.outbox == s.outbox;
    assert got.worker == next.worker;
    assert got.queue == next.queue;
    assert got.published == next.published;
    assert got == next;
  }

  lemma {:induction false} PublishAll(h: Sha256, clock: Clock, s: State, batch: seq<nat>, n: nat, accepted: set<nat>, reached: set<nat>)
    requires n <= |batch| && accepted <= reached && forall i | 0 <= i < |batch| :: batch[i] < |s.outbox|
    ensures Run(h, clock, Published(s, batch, 0, accepted, reached), PublishSteps(batch[..n], accepted, reached),
                Published(s, batch, n, accepted, reached))
  {
    hide Published, Enabled, Next, PublishStep;
    if n == 0 {
      assert PublishSteps(batch[..0], accepted, reached) == [];
    } else {
      PublishAll(h, clock, s, batch, n - 1, accepted, reached);
      PublishOne(h, clock, s, batch, n - 1, accepted, reached);
      RunConcat(h, clock, Published(s, batch, 0, accepted, reached), PublishSteps(batch[..n - 1], accepted, reached),
                Published(s, batch, n - 1, accepted, reached), [PublishStep(batch[n - 1], accepted, reached)],
                Published(s, batch, n, accepted, reached));
      assert PublishSteps(batch[..n], accepted, reached) ==
        PublishSteps(batch[..n - 1], accepted, reached) + [PublishStep(batch[n - 1], accepted, reached)];
    }
  }

  lemma CycleOpens(h: Sha256, clock: Clock, s: State, batch: seq<nat>, accepted: set<nat>, reached: set<nat>)
    requires s.worker.Resting? && IsBatch(s.outbox, batch) && forall i | 0 <= i < |batch| :: batch[i] < |s.outbox|
    ensures Run(h, clock, s, [SelectBatch(batch)], Published(s, batch, 0, accepted, reached))
  {
    var open := Published(s, batch, 0, accepted, reached);
    assert batch[..0] == [] && Messages([], |s.published|) == [] && s.published + [] == s.published && s.queue + [] == s.queue;
    assert open.worker == Publishing(batch, 0, {});
    assert open == Next(h, clock, s, SelectBatch(batch));
    RunOne(h, clock, s, SelectBatch(batch));
  }

  lemma CycleCloses(h: Sha256, clock: Clock, s: State, batch: seq<nat>, accepted: set<nat>, reached: set<nat>,
                    notes: Notes, commits: bool) returns (s': State)
    requires forall i | 0 <= i < |batch| :: batch[i] < |s.outbox|
    ensures Run(h, clock, Published(s, batch, |batch|, accepted, reached), [if commits then CommitCycle(notes) else AbortCycle], s')
    ensures s'.outbox == if commits then AfterCycle(s.outbox, batch, accepted, notes) else s.outbox
    ensures s'.queue == s.queue + Messages(Sent(s.outbox, batch, reached), |s.published|) && s'.worker.Resting?
    ensures s'.custody == s.custody && s'.dlq == s.dlq && s'.consumer == s.consumer
  {
    var done := Published(s, batch, |batch|, accepted, reached);
    var last := if commits then CommitCycle(notes) else AbortCycle;
    assert batch[..|batch|] == batch;
    s' := Next(h, clock, done, last);
    assert AfterCycle(s.outbox, batch, done.worker.sent, notes) == AfterCycle(s.outbox, batch, accepted, notes);
    RunOne(h, clock, done, last);
  }

  /** One polling cycle of the relay is a run of the pipeline with the effect
      that PublishOutboxEvents has on its table and exchange. */
  lemma CycleIsRun(h: Sha256, clock: Clock, s: State, batch: seq<nat>, accepted: set<nat>, reached: set<nat>,
                   notes: Notes, commits: bool)
    returns (steps: seq<Step>, s': State)
    requires s.worker.Resting? && IsBatch(s.outbox, batch) && accepted <= reached
    ensures Run(h, clock, s, steps, s')
    ensures forall i | 0 <= i < |batch| :: batch[i] < |s.outbox|
    ensures s'.outbox == if commits then AfterCycle(s.outbox, batch, accepted, notes) else s.outbox
    ensures s'.queue == s.queue + Messages(Sent(s.outbox, batch, reached), |s.published|) && s'.worker.Resting?
    ensures s'.custody == s.custody && s'.dlq == s.dlq && s'.consumer == s.consumer
  {
    BatchInTable(s.outbox, batch);
    var open, done := Published(s, batch, 0, accepted, reached), Published(s, batch, |batch|, accepted, reached);
    var last := if commits then CommitCycle(notes) else AbortCycle;
    CycleOpens(h, clock, s, batch, accepted, reached);
    PublishAll(h, clock, s, batch, |batch|, accepted, reached);
    s' := CycleCloses(h, clock, s, batch, accepted, reached, notes, commits);
    assert batch[..|batch|] == batch;
    RunConcat(h, clock, s, [SelectBatch(batch)], open, PublishSteps(batch, accepted, reached), done);
    steps := [SelectBatch(batch)] + PublishSteps(batch, accepted, reached) + [last];
    RunConcat(h, clock, s, [SelectBatch(batch)] + PublishSteps(batch, accepted, reached), done, [last], s');
  }
}
