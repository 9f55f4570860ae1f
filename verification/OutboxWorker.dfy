/** The outbox relay of services/evidence-collector/worker.py: a cycle takes the
    ten oldest unpublished rows, publishes them in no particular order and
    commits the flags. Besides the cycle itself, this module says how soon a row
    is published, when it never is, and how far the publishing order can stray
    from the order of creation. Rows may share a created_at, and the order of
    their ids means nothing. */
module OutboxWorker {
  import opened Basics
  import opened CanonicalJson

  const BATCH := 10

  /** A row of outbox_events. Its id is its position in the table. */
  datatype OutboxRow = OutboxRow(eventId: string, payload: Json, createdAt: int,
                                 published: bool, publishedAt: Option<int>, retryCount: nat, lastError: Option<string>)

  /** The ids of the unpublished rows, oldest id first. */
  function Pending(rows: seq<OutboxRow>): seq<nat> {
    if rows == [] then []
    else
      var last := |rows| - 1;
      Pending(rows[..last]) + if rows[last].published then [] else [last]
  }

  ghost predicate NoRepeats(ids: seq<nat>) {
    forall i, j | 0 <= i < j < |ids| :: ids[i] != ids[j]
  }

  function Least(a: nat, b: nat): nat {
    if a < b then a else b
  }

  /** What the two queries of a cycle may return: the ten oldest unpublished
      rows (ORDER BY created_at LIMIT 10), fetched again in any order. */
  ghost predicate IsBatch(rows: seq<OutboxRow>, batch: seq<nat>) {
    && |batch| == Least(BATCH, |Pending(rows)|)
    && NoRepeats(batch)
    && (forall x | x in batch :: x in Pending(rows))
    && (forall x, y | x in batch && y in Pending(rows) && y !in batch ::
          x < |rows| && y < |rows| && rows[x].createdAt <= rows[y].createdAt)
  }

  /** What the clock reads when a row is published, and what the exception says
      when it is not, row by row. */
  datatype Notes = Notes(now: nat -> int, error: nat -> string)

  /** A row after one attempt to publish it. */
  function Attempted(row: OutboxRow, accepted: bool, now: int, error: string): OutboxRow {
    if accepted then row.(published := true, publishedAt := Some(now))
    else row.(retryCount := row.retryCount + 1, lastError := Some(error))
  }

  function AfterCycle(rows: seq<OutboxRow>, batch: seq<nat>, accepted: set<nat>, notes: Notes): seq<OutboxRow> {
    seq(|rows|, i requires 0 <= i < |rows| =>
      if i in batch then Attempted(rows[i], i in accepted, notes.now(i), notes.error(i)) else rows[i])
  }

  /** The message bodies that reach the broker during a cycle. */
  function Sent(rows: seq<OutboxRow>, batch: seq<nat>, reached: set<nat>): seq<Json>
    requires forall i | 0 <= i < |batch| :: batch[i] < |rows|
  {
    if batch == [] then []
    else
      var last := batch[|batch| - 1];
      Sent(rows, batch[..|batch| - 1], reached) + if last in reached then [rows[last].payload] else []
  }

  lemma {:induction false} PendingMembers(rows: seq<OutboxRow>, x: nat)
    ensures x in Pending(rows) <==> x < |rows| && !rows[x].published
  {
    if rows != [] {
      PendingMembers(rows[..|rows| - 1], x);
    }
  }

  lemma {:induction false} PendingAscends(rows: seq<OutboxRow>)
    ensures forall i, j | 0 <= i < j < |Pending(rows)| :: Pending(rows)[i] < Pending(rows)[j]
  {
    if rows != [] {
      var front := rows[..|rows| - 1];
      PendingAscends(front);
      forall i | 0 <= i < |Pending(front)| ensures Pending(front)[i] < |front| {
        PendingMembers(front, Pending(front)[i]);
      }
    }
  }

  lemma AttemptOne(rows: seq<OutboxRow>, done: seq<nat>, id: nat, accepted: set<nat>, reached: set<nat>, notes: Notes)
    requires id !in done && id < |rows| && forall i | 0 <= i < |done| :: done[i] < |rows|
    ensures AfterCycle(rows, done, accepted, notes)[id] == rows[id]
    ensures AfterCycle(rows, done + [id], accepted, notes) ==
      AfterCycle(rows, done, accepted, notes)[id := Attempted(rows[id], id in accepted, notes.now(id), notes.error(id))]
    ensures Sent(rows, done + [id], reached) == Sent(rows, done, reached) + if id in reached then [rows[id].payload] else []
  {
    assert (done + [id])[..|done|] == done;
  }

  class Exchange {
    var messages: seq<Json>

    constructor ()
      ensures messages == []
    {
      messages := [];
    }
  }

  class OutboxTable {
    var rows: seq<OutboxRow>

    constructor ()
      ensures rows == []
    {
      rows := [];
    }

    /** One polling cycle. batch is what the queries returned, accepted the ids
        whose publish does not raise, reached the ids whose message gets to the
        broker: a publish that raises may have got there all the same. If the
        final commit fails, the messages are out but no flag is kept. */
    method PublishOutboxEvents(exchange: Exchange, batch: seq<nat>, accepted: set<nat>, reached: set<nat>,
                               notes: Notes, commits: bool)
      requires IsBatch(rows, batch) && accepted <= reached
      modifies this, exchange
      ensures rows == if commits then AfterCycle(old(rows), batch, accepted, notes) else old(rows)
      ensures forall i | 0 <= i < |batch| :: batch[i] < |old(rows)|
      ensures exchange.messages == old(exchange.messages) + Sent(old(rows), batch, reached)
    {
      var before := rows;
      BatchInTable(rows, batch);
      PublishEach(exchange, batch, accepted, reached, notes);
      if !commits {
        rows := before;
      }
    }

    /** The loop over the events of a batch. */
    method PublishEach(exchange: Exchange, batch: seq<nat>, accepted: set<nat>, reached: set<nat>, notes: Notes)
      requires NoRepeats(batch) && forall i | 0 <= i < |batch| :: batch[i] < |rows|
      modifies this, exchange
      ensures rows == AfterCycle(old(rows), batch, accepted, notes)
      ensures exchange.messages == old(exchange.messages) + Sent(old(rows), batch, reached)
    {
      ghost var before := rows;
      for n := 0 to |batch|
        invariant rows == AfterCycle(before, batch[..n], accepted, notes)
        invariant exchange.messages == old(exchange.messages) + Sent(before, batch[..n], reached)
      {
        var id := batch[n];
        assert batch[..n + 1] == batch[..n] + [id];
        AttemptOne(before, batch[..n], id, accepted, reached, notes);
        var event := rows[id];
        if id in reached {
          exchange.messages := exchange.messages + [event.payload];
        }
        if id in accepted {
          event := event.(published := true, publishedAt := Some(notes.now(id)));
        } else {
          event := event.(retryCount := event.retryCount + 1, lastError := Some(notes.error(id)));
        }
        rows := rows[id := event];
      }
      assert batch[..|batch|] == batch;
    }
  }

  lemma BatchInTable(rows: seq<OutboxRow>, batch: seq<nat>)
    requires IsBatch(rows, batch)
    ensures NoRepeats(batch) && forall i | 0 <= i < |batch| :: batch[i] < |rows|
  {
    forall i | 0 <= i < |batch| ensures batch[i] < |rows| {
      assert batch[i] in batch;
      PendingMembers(rows, batch[i]);
    }
  }

  lemma AfterCycleRows(rows: seq<OutboxRow>, batch: seq<nat>, accepted: set<nat>, notes: Notes)
    ensures var after := AfterCycle(rows, batch, accepted, notes);
      |after| == |rows| && forall i | 0 <= i < |rows| ::
        after[i].payload == rows[i].payload && after[i].eventId == rows[i].eventId && after[i].createdAt == rows[i].createdAt &&
        (after[i].published <==> rows[i].published || (i in batch && i in accepted))
  {
  }

  /** What a committing cycle writes, column by column: a row of the batch that
      was accepted is marked with its own clock reading, one that was not has one
      more retry and its own error, and every other row is as it was. */
  lemma AfterCycleColumns(rows: seq<OutboxRow>, batch: seq<nat>, accepted: set<nat>, notes: Notes, i: nat)
    requires i < |rows|
    ensures |AfterCycle(rows, batch, accepted, notes)| == |rows|
    ensures var row, before := AfterCycle(rows, batch, accepted, notes)[i], rows[i];
      && row.eventId == before.eventId && row.payload == before.payload && row.createdAt == before.createdAt
      && row.retryCount == before.retryCount + (if i in batch && i !in accepted then 1 else 0)
      && row.lastError == (if i in batch && i !in accepted then Some(notes.error(i)) else before.lastError)
      && row.publishedAt == (if i in batch && i in accepted then Some(notes.now(i)) else before.publishedAt)
      && (row.published <==> before.published || (i in batch && i in accepted))
  {
  }

  /** After a committing cycle those rows wait that waited before, less the ones
      that were published. */
  lemma PendingAfterCycle(rows: seq<OutboxRow>, batch: seq<nat>, accepted: set<nat>, notes: Notes, x: nat)
    ensures x in Pending(AfterCycle(rows, batch, accepted, notes)) <==> x in Pending(rows) && !(x in batch && x in accepted)
  {
    PendingMembers(rows, x);
    PendingMembers(AfterCycle(rows, batch, accepted, notes), x);
  }

  // ------------------------------------------------------------ counting ids

  function Ids(ids: seq<nat>): set<nat> {
    set x | x in ids
  }

  lemma {:induction false} SetOfDistinct(ids: seq<nat>)
    ensures |Ids(ids)| <= |ids|
    ensures NoRepeats(ids) ==> |Ids(ids)| == |ids|
  {
    if ids != [] {
      var front, last := ids[..|ids| - 1], ids[|ids| - 1];
      SetOfDistinct(front);
      assert ids == front + [last];
      assert Ids(ids) == Ids(front) + {last};
      if NoRepeats(ids) {
        assert last !in front;
      }
    }
  }

  lemma {:induction false} SmallerSubset(a: set<nat>, b: set<nat>)
    requires a <= b
    ensures |a| <= |b|
  {
    if a != {} {
      var x :| x in a;
      SmallerSubset(a - {x}, b - {x});
    }
  }

  // ------------------------------------------------------- runs of the table

  /** One committing cycle, and the rows inserted before the next one. */
  datatype CycleRun = CycleRun(batch: seq<nat>, accepted: set<nat>, notes: Notes, arrivals: seq<OutboxRow>)

  function AfterRun(rows: seq<OutboxRow>, c: CycleRun): seq<OutboxRow> {
    AfterCycle(rows, c.batch, c.accepted, c.notes) + c.arrivals
  }

  /** Cycles that lead from rows to rows'. */
  ghost predicate Cycles(rows: seq<OutboxRow>, cycles: seq<CycleRun>, rows': seq<OutboxRow>)
    decreases |cycles|
  {
    if cycles == [] then rows' == rows
    else IsBatch(rows, cycles[0].batch) && (forall r | r in cycles[0].arrivals :: !r.published) &&
         Cycles(AfterRun(rows, cycles[0]), cycles[1..], rows')
  }

  /** Publishing a row of failing always raises, publishing any other never does. */
  ghost predicate Consistently(cycles: seq<CycleRun>, failing: set<nat>) {
    forall i | 0 <= i < |cycles| :: forall x | x in cycles[i].batch :: x in failing <==> x !in cycles[i].accepted
  }

  lemma ConsistentlyLater(cycles: seq<CycleRun>, failing: set<nat>)
    requires cycles != [] && Consistently(cycles, failing)
    ensures Consistently(cycles[1..], failing)
  {
    assert forall i | 0 <= i < |cycles| - 1 :: cycles[1..][i] == cycles[i + 1];
  }

  /** The row is in the table to come and was not published before. */
  predicate OpenAt(rows: seq<OutboxRow>, rows': seq<OutboxRow>, y: nat) {
    y < |rows'| && (y < |rows| ==> !rows[y].published)
  }

  /** mid is a table that cycle c leaves behind, as far as order goes. */
  ghost predicate Follows(rows: seq<OutboxRow>, c: CycleRun, mid: seq<OutboxRow>) {
    && |rows| <= |mid|
    && (forall y: nat | y < |rows| :: mid[y].createdAt == rows[y].createdAt &&
          (mid[y].published <==> rows[y].published || (y in c.batch && y in c.accepted)))
    && (forall y: nat | |rows| <= y < |mid| :: mid[y] in c.arrivals)
  }

  lemma RunFollows(rows: seq<OutboxRow>, c: CycleRun)
    ensures Follows(rows, c, AfterRun(rows, c))
  {
    var after, mid := AfterCycle(rows, c.batch, c.accepted, c.notes), AfterRun(rows, c);
    AfterCycleRows(rows, c.batch, c.accepted, c.notes);
    assert forall y: nat | y < |rows| :: mid[y] == after[y];
    assert forall y: nat | |rows| <= y < |mid| :: mid[y] == c.arrivals[y - |rows|];
  }

  /** created_at never changes, and a published row stays published. */
  ghost predicate Stays(rows: seq<OutboxRow>, rows': seq<OutboxRow>) {
    |rows| <= |rows'| &&
    forall y: nat | y < |rows| :: rows'[y].createdAt == rows[y].createdAt && (rows[y].published ==> rows'[y].published)
  }

  lemma {:induction false} RowsStay(rows: seq<OutboxRow>, cycles: seq<CycleRun>, rows': seq<OutboxRow>)
    requires Cycles(rows, cycles, rows')
    ensures Stays(rows, rows')
    decreases |cycles|
  {
    if cycles != [] {
      RunFollows(rows, cycles[0]);
      RowsStay(AfterRun(rows, cycles[0]), cycles[1..], rows');
    }
  }

  // ----------------------------------------------------------------- retry count

  /** How many of the cycles took x without publishing it. */
  function Missed(cycles: seq<CycleRun>, x: nat): nat {
    if cycles == [] then 0
    else (if x in cycles[0].batch && x !in cycles[0].accepted then 1 else 0) + Missed(cycles[1..], x)
  }

  lemma AfterRunColumns(rows: seq<OutboxRow>, c: CycleRun, x: nat)
    requires x < |rows|
    ensures |rows| <= |AfterRun(rows, c)|
    ensures AfterRun(rows, c)[x].retryCount == rows[x].retryCount + (if x in c.batch && x !in c.accepted then 1 else 0)
  {
    AfterCycleColumns(rows, c.batch, c.accepted, c.notes, x);
    assert AfterRun(rows, c)[x] == AfterCycle(rows, c.batch, c.accepted, c.notes)[x];
  }

  /** Over any run, a row's retry count grows by exactly the number of cycles that
      took it and did not publish it. */
  lemma {:induction false} RetriesCounted(rows: seq<OutboxRow>, cycles: seq<CycleRun>, rows': seq<OutboxRow>, x: nat)
    requires Cycles(rows, cycles, rows') && x < |rows|
    ensures x < |rows'| && rows'[x].retryCount == rows[x].retryCount + Missed(cycles, x)
    decreases |cycles|
  {
    if cycles != [] {
      AfterRunColumns(rows, cycles[0], x);
      RetriesCounted(AfterRun(rows, cycles[0]), cycles[1..], rows', x);
    }
  }

  // ------------------------------------------------------------------ progress

  /** The rows that may be taken before x: those not yet published, or still to
      arrive, that are not newer. */
  function Ahead(rows: seq<OutboxRow>, rows': seq<OutboxRow>, x: nat): set<nat>
    requires x < |rows'|
  {
    set y: nat | y < |rows'| && OpenAt(rows, rows', y) && y != x && rows'[y].createdAt <= rows'[x].createdAt
  }

  /** A cycle that passes x over takes ten rows that are ahead of it. */
  lemma PassedOver(rows: seq<OutboxRow>, batch: seq<nat>, rows': seq<OutboxRow>, x: nat)
    requires IsBatch(rows, batch) && x < |rows| && !rows[x].published && x !in batch && Stays(rows, rows')
    ensures |Ids(batch)| == 10 && Ids(batch) <= Ahead(rows, rows', x)
  {
    PendingMembers(rows, x);
    SetOfDistinct(batch);
    if |batch| < BATCH {
      PendingAscends(rows);
      SetOfDistinct(Pending(rows));
      SmallerSubset(Ids(batch), Ids(Pending(rows)) - {x});
      assert false;
    }
    forall y | y in batch ensures y in Ahead(rows, rows', x) {
      PendingMembers(rows, y);
    }
  }

  lemma TakenOut(ahead: set<nat>, later: set<nat>, taken: set<nat>, failing: set<nat>, k: nat)
    requires taken <= ahead && later <= ahead - (taken - failing) && |ahead * failing| <= k
    ensures |later * failing| <= k && |later - failing| + |taken| <= |ahead - failing| + k
  {
    SmallerSubset(later * failing, ahead * failing);
    SmallerSubset(taken * failing, ahead * failing);
    SmallerSubset(later - failing, (ahead - failing) - (taken - failing));
    assert taken == taken * failing + (taken - failing);
    assert ahead - failing == ((ahead - failing) - (taken - failing)) + (taken - failing);
  }

  lemma StillAhead(rows: seq<OutboxRow>, c: CycleRun, mid: seq<OutboxRow>, rows': seq<OutboxRow>, x: nat, y: nat)
    requires IsBatch(rows, c.batch) && Follows(rows, c, mid) && x < |rows'| && y in Ahead(mid, rows', x)
    ensures y in Ahead(rows, rows', x) && (y in c.batch ==> y !in c.accepted)
  {
    PendingMembers(rows, y);
  }

  /** After that cycle the publishable ones among those ten are no longer ahead. */
  lemma FewerAhead(rows: seq<OutboxRow>, c: CycleRun, mid: seq<OutboxRow>, rows': seq<OutboxRow>, failing: set<nat>, x: nat, k: nat)
    requires IsBatch(rows, c.batch) && (forall y | y in c.batch :: y in failing <==> y !in c.accepted)
    requires x < |rows| && !rows[x].published && x !in c.batch
    requires Stays(rows, rows') && Follows(rows, c, mid) && |mid| <= |rows'|
    requires |Ahead(rows, rows', x) * failing| <= k
    ensures |Ahead(mid, rows', x) * failing| <= k
    ensures |Ahead(mid, rows', x) - failing| + BATCH <= |Ahead(rows, rows', x) - failing| + k
  {
    var ahead, later, taken := Ahead(rows, rows', x), Ahead(mid, rows', x), Ids(c.batch);
    PassedOver(rows, c.batch, rows', x);
    forall y | y in later ensures y in ahead && (y in taken ==> y in failing) {
      StillAhead(rows, c, mid, rows', x, y);
    }
    TakenOut(ahead, later, taken, failing, k);
  }

  lemma TakenOrOpen(rows: seq<OutboxRow>, c: CycleRun, mid: seq<OutboxRow>, rows': seq<OutboxRow>, x: nat)
    requires x < |rows| && !rows[x].published && Follows(rows, c, mid) && Stays(mid, rows')
    ensures |rows| <= |mid| <= |rows'|
    ensures x in c.batch && x in c.accepted ==> rows'[x].published
    ensures x !in c.batch ==> !mid[x].published
  {
  }

  /** Whatever order the batches come in and whatever arrives: with k < 10 stuck
      rows that may be taken before x, x is published within n cycles once
      n * (10 - k) exceeds the number of publishable rows that may be. */
  lemma {:induction false} PublishedWithin(rows: seq<OutboxRow>, cycles: seq<CycleRun>, rows': seq<OutboxRow>, failing: set<nat>,
                                           x: nat, k: nat)
    requires Cycles(rows, cycles, rows') && Consistently(cycles, failing)
    requires x < |rows| <= |rows'| && !rows[x].published && x !in failing
    requires |Ahead(rows, rows', x) * failing| <= k < 10
    requires |Ahead(rows, rows', x) - failing| < |cycles| * (10 - k)
    ensures rows'[x].published
    decreases |cycles|
  {
    hide Ahead, IsBatch, AfterCycle, Follows, Stays;
    assert cycles != [];
    var c, mid := cycles[0], AfterRun(rows, cycles[0]);
    RowsStay(rows, cycles, rows');
    RowsStay(mid, cycles[1..], rows');
    RunFollows(rows, c);
    TakenOrOpen(rows, c, mid, rows', x);
    if x !in c.batch {
      ConsistentlyLater(cycles, failing);
      FewerAhead(rows, c, mid, rows', failing, x, k);
      OneLess(|cycles|, BATCH - k);
      PublishedWithin(mid, cycles[1..], rows', failing, x, k);
    }
  }

  lemma OneLess(n: nat, d: nat)
    requires n > 0
    ensures (n - 1) * d == n * d - d && (d > 0 ==> n * d >= n)
  {
  }

  /** The unpublished rows that are older than x and can never be published. */
  function Stuck(rows: seq<OutboxRow>, failing: set<nat>, x: nat): set<nat>
    requires x < |rows|
  {
    set y: nat | y < |rows| && !rows[y].published && y in failing && rows[y].createdAt < rows[x].createdAt
  }

  lemma StuckFillBatch(rows: seq<OutboxRow>, batch: seq<nat>, failing: set<nat>, x: nat)
    requires IsBatch(rows, batch) && x < |rows| && |Stuck(rows, failing, x)| >= BATCH
    ensures x !in batch
  {
    if x in batch {
      var stuck := Stuck(rows, failing, x);
      forall y | y in stuck ensures y in batch {
        PendingMembers(rows, y);
      }
      SmallerSubset(stuck + {x}, Ids(batch));
      SetOfDistinct(batch);
      assert false;
    }
  }

  lemma StuckStay(rows: seq<OutboxRow>, c: CycleRun, mid: seq<OutboxRow>, failing: set<nat>, x: nat)
    requires (forall y | y in c.batch :: y in failing <==> y !in c.accepted)
    requires x < |rows| && Follows(rows, c, mid)
    ensures |Stuck(rows, failing, x)| <= |Stuck(mid, failing, x)|
  {
    SmallerSubset(Stuck(rows, failing, x), Stuck(mid, failing, x));
  }

  /** With ten stuck rows older than x, x is never published. */
  lemma {:induction false} NeverPublished(rows: seq<OutboxRow>, cycles: seq<CycleRun>, rows': seq<OutboxRow>, failing: set<nat>, x: nat)
    requires Cycles(rows, cycles, rows') && Consistently(cycles, failing)
    requires x < |rows| && !rows[x].published && |Stuck(rows, failing, x)| >= 10
    ensures x < |rows'| && !rows'[x].published
    decreases |cycles|
  {
    if cycles != [] {
      var c, mid := cycles[0], AfterRun(rows, cycles[0]);
      StuckFillBatch(rows, c.batch, failing, x);
      ConsistentlyLater(cycles, failing);
      RunFollows(rows, c);
      StuckStay(rows, c, mid, failing, x);
      NeverPublished(mid, cycles[1..], rows', failing, x);
    }
  }

  lemma StuckAhead(rows: seq<OutboxRow>, rows': seq<OutboxRow>, failing: set<nat>, x: nat)
    requires x < |rows| && Stays(rows, rows')
    requires forall y: nat | |rows| <= y < |rows'| :: rows[x].createdAt < rows'[y].createdAt
    requires forall y: nat | y < |rows| && !rows[y].published && y in failing :: rows[y].createdAt != rows[x].createdAt
    ensures |Ahead(rows, rows', x) * failing| <= |Stuck(rows, failing, x)|
  {
    SmallerSubset(Ahead(rows, rows', x) * failing, Stuck(rows, failing, x));
  }

  /** Exactly: if later rows are newer than x and no stuck row was created at the
      same instant, then after more cycles than there are publishable rows ahead
      of x, x is published if and only if fewer than ten stuck rows are older. */
  lemma PublishedIff(rows: seq<OutboxRow>, cycles: seq<CycleRun>, rows': seq<OutboxRow>, failing: set<nat>, x: nat)
    requires Cycles(rows, cycles, rows') && Consistently(cycles, failing)
    requires x < |rows| <= |rows'| && !rows[x].published && x !in failing
    requires forall y: nat | |rows| <= y < |rows'| :: rows[x].createdAt < rows'[y].createdAt
    requires forall y: nat | y < |rows| && !rows[y].published && y in failing :: rows[y].createdAt != rows[x].createdAt
    requires |Ahead(rows, rows', x) - failing| < |cycles|
    ensures rows'[x].published <==> |Stuck(rows, failing, x)| < 10
  {
    hide Ahead, Stuck, Cycles, Consistently, OpenAt, Stays;
    var k := |Stuck(rows, failing, x)|;
    if k < BATCH {
      RowsStay(rows, cycles, rows');
      StuckAhead(rows, rows', failing, x);
      OneLess(|cycles|, 10 - k);
      PublishedWithin(rows, cycles, rows', failing, x, k);
    } else {
      NeverPublished(rows, cycles, rows', failing, x);
    }
  }

  // ------------------------------------------------------------------ disorder

  /** The ids in the order in which a run publishes them. */
  function PublishOrder(cycles: seq<CycleRun>): seq<nat> {
    if cycles == [] then [] else cycles[0].batch + PublishOrder(cycles[1..])
  }

  /** Rows arrive in the order of created_at, ties allowed. */
  ghost predicate ArriveInOrder(rows: seq<OutboxRow>, cycles: seq<CycleRun>)
    decreases |cycles|
  {
    cycles == [] ||
    ((forall x: nat, r | x < |rows| && r in cycles[0].arrivals :: rows[x].createdAt <= r.createdAt) &&
     ArriveInOrder(AfterRun(rows, cycles[0]), cycles[1..]))
  }

  /** A clean cycle publishes its batch, and nothing else stops being open. */
  lemma OpenAfter(rows: seq<OutboxRow>, c: CycleRun, mid: seq<OutboxRow>, rows': seq<OutboxRow>, y: nat)
    requires IsBatch(rows, c.batch) && (forall x | x in c.batch :: x in c.accepted) && (forall r | r in c.arrivals :: !r.published)
    requires Follows(rows, c, mid) && |mid| <= |rows'|
    ensures OpenAt(mid, rows', y) <==> OpenAt(rows, rows', y) && y !in c.batch
    ensures y in c.batch ==> y < |rows| && OpenAt(rows, rows', y) && mid[y].published
  {
    PendingMembers(rows, y);
  }

  lemma BatchThenRest(batch: seq<nat>, later: seq<nat>)
    requires NoRepeats(batch) && NoRepeats(later) && forall y | y in later :: y !in batch
    ensures NoRepeats(batch + later)
  {
    var all := batch + later;
    forall i, j | 0 <= i < j < |all| ensures all[i] != all[j] {
      assert all[i] == if i < |batch| then batch[i] else later[i - |batch|];
      assert all[j] == if j < |batch| then batch[j] else later[j - |batch|];
      if i < |batch| <= j {
        assert all[j] in later && all[i] in batch;
      }
    }
  }

  /** A run without failures publishes each open row that ends up published, once. */
  lemma {:induction false} OrderIsOfOpenRows(rows: seq<OutboxRow>, cycles: seq<CycleRun>, rows': seq<OutboxRow>)
    requires Cycles(rows, cycles, rows') && Consistently(cycles, {})
    ensures forall y: nat :: y in PublishOrder(cycles) <==> OpenAt(rows, rows', y) && rows'[y].published
    ensures NoRepeats(PublishOrder(cycles))
    decreases |cycles|
  {
    if cycles != [] {
      var c, rest, mid := cycles[0], cycles[1..], AfterRun(rows, cycles[0]);
      ConsistentlyLater(cycles, {});
      OrderIsOfOpenRows(mid, rest, rows');
      RowsStay(mid, rest, rows');
      RunFollows(rows, c);
      forall y: nat {
        OpenAfter(rows, c, mid, rows', y);
      }
      BatchThenRest(c.batch, PublishOrder(rest));
    }
  }

  /** From position n on, everything is at least as new as x, and stays so. */
  lemma {:induction false} ArrivalsAreNewer(rows: seq<OutboxRow>, cycles: seq<CycleRun>, rows': seq<OutboxRow>, n: nat, x: nat)
    requires Cycles(rows, cycles, rows') && ArriveInOrder(rows, cycles) && x < n <= |rows|
    requires forall y: nat | n <= y < |rows| :: rows[x].createdAt <= rows[y].createdAt
    ensures |rows| <= |rows'| && rows'[x].createdAt == rows[x].createdAt
    ensures forall y: nat | n <= y < |rows'| :: rows[x].createdAt <= rows'[y].createdAt
    decreases |cycles|
  {
    if cycles != [] {
      RunFollows(rows, cycles[0]);
      ArrivalsAreNewer(AfterRun(rows, cycles[0]), cycles[1..], rows', n, x);
    }
  }

  /** What a cycle takes is not newer than anything left or still to come. */
  lemma BatchIsOldest(rows: seq<OutboxRow>, cycles: seq<CycleRun>, rows': seq<OutboxRow>, x: nat, y: nat)
    requires cycles != [] && Cycles(rows, cycles, rows') && Consistently(cycles, {}) && ArriveInOrder(rows, cycles)
    requires x in cycles[0].batch && OpenAt(AfterRun(rows, cycles[0]), rows', y)
    ensures x < |rows'| && rows'[x].createdAt <= rows'[y].createdAt
  {
    var c, mid := cycles[0], AfterRun(rows, cycles[0]);
    RowsStay(rows, cycles, rows');
    RowsStay(mid, cycles[1..], rows');
    RunFollows(rows, c);
    PendingMembers(rows, x);
    OpenAfter(rows, c, mid, rows', y);
    if y < |rows| {
      PendingMembers(rows, y);
    } else {
      ArrivalsAreNewer(mid, cycles[1..], rows', |rows|, x);
    }
  }

  /** Ten places apart, rows leave in order of created_at. */
  lemma {:induction false} TenApartInOrder(rows: seq<OutboxRow>, cycles: seq<CycleRun>, rows': seq<OutboxRow>, i: nat, j: nat)
    requires Cycles(rows, cycles, rows') && Consistently(cycles, {}) && ArriveInOrder(rows, cycles)
    requires i + 10 <= j < |PublishOrder(cycles)|
    ensures PublishOrder(cycles)[i] < |rows'| && PublishOrder(cycles)[j] < |rows'|
    ensures rows'[PublishOrder(cycles)[i]].createdAt <= rows'[PublishOrder(cycles)[j]].createdAt
    decreases |cycles|
  {
    var c, rest, mid := cycles[0], cycles[1..], AfterRun(rows, cycles[0]);
    var n, later := |c.batch|, PublishOrder(rest);
    ConsistentlyLater(cycles, {});
    assert PublishOrder(cycles)[j] == later[j - n];
    if i < n {
      OrderIsOfOpenRows(mid, rest, rows');
      assert later[j - n] in later;
      BatchIsOldest(rows, cycles, rows', c.batch[i], later[j - n]);
    } else {
      TenApartInOrder(mid, rest, rows', i - n, j - n);
      assert PublishOrder(cycles)[i] == later[i - n];
    }
  }

  /** Whatever leaves is not newer than what is left behind. */
  lemma {:induction false} OldestLeaveFirst(rows: seq<OutboxRow>, cycles: seq<CycleRun>, rows': seq<OutboxRow>, i: nat, y: nat)
    requires Cycles(rows, cycles, rows') && Consistently(cycles, {}) && ArriveInOrder(rows, cycles)
    requires i < |PublishOrder(cycles)| && y < |rows'| && !rows'[y].published
    ensures PublishOrder(cycles)[i] < |rows'| && rows'[PublishOrder(cycles)[i]].createdAt <= rows'[y].createdAt
    decreases |cycles|
  {
    var c, rest, mid := cycles[0], cycles[1..], AfterRun(rows, cycles[0]);
    ConsistentlyLater(cycles, {});
    if i < |c.batch| {
      RowsStay(mid, rest, rows');
      BatchIsOldest(rows, cycles, rows', c.batch[i], y);
    } else {
      OldestLeaveFirst(mid, rest, rows', i - |c.batch|, y);
      assert PublishOrder(cycles)[i] == PublishOrder(rest)[i - |c.batch|];
    }
  }

  /** Of the rows a run had open, those created before v, and up to v. */
  function Earlier(rows: seq<OutboxRow>, rows': seq<OutboxRow>, v: int): set<nat> {
    set y: nat | y < |rows'| && OpenAt(rows, rows', y) && rows'[y].createdAt < v
  }

  function UpTo(rows: seq<OutboxRow>, rows': seq<OutboxRow>, v: int): set<nat> {
    set y: nat | y < |rows'| && OpenAt(rows, rows', y) && rows'[y].createdAt <= v
  }

  lemma EarlierIsNear(rows: seq<OutboxRow>, cycles: seq<CycleRun>, rows': seq<OutboxRow>, i: nat, y: nat)
    requires Cycles(rows, cycles, rows') && Consistently(cycles, {}) && ArriveInOrder(rows, cycles)
    requires i < |PublishOrder(cycles)| && PublishOrder(cycles)[i] < |rows'|
    requires y in Earlier(rows, rows', rows'[PublishOrder(cycles)[i]].createdAt)
    ensures exists j :: 0 <= j < |PublishOrder(cycles)| && j != i && j < i + BATCH && PublishOrder(cycles)[j] == y
  {
    OrderIsOfOpenRows(rows, cycles, rows');
    if !rows'[y].published {
      OldestLeaveFirst(rows, cycles, rows', i, y);
    }
    var j :| 0 <= j < |PublishOrder(cycles)| && PublishOrder(cycles)[j] == y;
    if j >= i + BATCH {
      TenApartInOrder(rows, cycles, rows', i, j);
    }
  }

  /** Ids found at other positions before end are fewer than end. */
  lemma FewNear(ids: set<nat>, order: seq<nat>, i: nat, end: nat)
    requires i < |order| && i < end
    requires forall y | y in ids :: exists j :: 0 <= j < |order| && j != i && j < end && order[j] == y
    ensures |ids| <= end - 1
  {
    var last := Least(end, |order|);
    var near := order[..i] + order[i + 1..last];
    forall y | y in ids ensures y in near {
      var j :| 0 <= j < |order| && j != i && j < end && order[j] == y;
      assert if j < i then near[j] == y else near[j - 1] == y;
    }
    SmallerSubset(ids, Ids(near));
    SetOfDistinct(near);
  }

  lemma EarlierLeaveSoon(rows: seq<OutboxRow>, cycles: seq<CycleRun>, rows': seq<OutboxRow>, i: nat)
    requires Cycles(rows, cycles, rows') && Consistently(cycles, {}) && ArriveInOrder(rows, cycles) && i < |PublishOrder(cycles)|
    ensures PublishOrder(cycles)[i] < |rows'|
    ensures |Earlier(rows, rows', rows'[PublishOrder(cycles)[i]].createdAt)| <= i + (BATCH - 1)
  {
    OrderIsOfOpenRows(rows, cycles, rows');
    assert PublishOrder(cycles)[i] in PublishOrder(cycles);
    var earlier := Earlier(rows, rows', rows'[PublishOrder(cycles)[i]].createdAt);
    forall y | y in earlier ensures exists j :: 0 <= j < |PublishOrder(cycles)| && j != i && j < i + BATCH && PublishOrder(cycles)[j] == y {
      EarlierIsNear(rows, cycles, rows', i, y);
    }
    FewNear(earlier, PublishOrder(cycles), i, i + BATCH);
  }

  lemma LaterLeaveLate(rows: seq<OutboxRow>, cycles: seq<CycleRun>, rows': seq<OutboxRow>, i: nat)
    requires Cycles(rows, cycles, rows') && Consistently(cycles, {}) && ArriveInOrder(rows, cycles) && i < |PublishOrder(cycles)|
    ensures PublishOrder(cycles)[i] < |rows'|
    ensures i <= |UpTo(rows, rows', rows'[PublishOrder(cycles)[i]].createdAt)| - 1 + (BATCH - 1)
  {
    var order := PublishOrder(cycles);
    OrderIsOfOpenRows(rows, cycles, rows');
    assert order[i] in order;
    var upTo, n := UpTo(rows, rows', rows'[order[i]].createdAt), (if i < BATCH then 0 else i - BATCH + 1);
    var far := order[..n] + [order[i]];
    forall j | 0 <= j < n ensures order[j] in upTo {
      assert order[j] in order;
      TenApartInOrder(rows, cycles, rows', j, i);
    }
    SetOfDistinct(far);
    SmallerSubset(Ids(far), upTo);
  }

  /** Over any run without failures, a row leaves at most nine places before or
      after its turn by created_at; rows created at one instant share a range of
      turns. */
  lemma BoundedDisorder(rows: seq<OutboxRow>, cycles: seq<CycleRun>, rows': seq<OutboxRow>, i: nat)
    requires Cycles(rows, cycles, rows') && Consistently(cycles, {}) && ArriveInOrder(rows, cycles) && i < |PublishOrder(cycles)|
    ensures PublishOrder(cycles)[i] < |rows'|
    ensures var v := rows'[PublishOrder(cycles)[i]].createdAt;
      |Earlier(rows, rows', v)| - 9 <= i <= |UpTo(rows, rows', v)| - 1 + 9
  {
    EarlierLeaveSoon(rows, cycles, rows', i);
    LaterLeaveLate(rows, cycles, rows', i);
  }
}
