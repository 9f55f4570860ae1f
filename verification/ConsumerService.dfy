/** The consumer as it stands: an object over the custody tables and its view of
    the broker, with the transaction of _process_message and the body of the
    delivery loop (services/chain-of-custody/consumer.py). PassIsRun ties
    one pass of the loop to the steps of module Pipeline. */
module ConsumerService {
  import opened Basics
  import opened CanonicalJson
  import opened HashChain
  import opened Custody
  import opened Pipeline

  /** Where, if anywhere, the database raises: before the commit takes effect, or
      after it, when only the reply is lost. */
  datatype Failure = Never | BeforeCommit | AfterCommit

  /** The custody tables after one attempt at a message. */
  function CustodyAfterAttempt(h: Sha256, clock: Clock, t: Custody.Tables, body: Json, id: nat, failure: Failure): Custody.Tables {
    if failure.BeforeCommit? then t else CustodyAfter(h, clock, t, body, id)
  }

  /** Whether the attempt raises: a duplicate is skipped before any write. */
  function AttemptRaises(h: Sha256, clock: Clock, t: Custody.Tables, body: Json, id: nat, failure: Failure): bool {
    match Process(h, clock, t, body, id)
    case Raised => true
    case Skipped => failure.BeforeCommit?
    case Persisted(_) => !failure.Never?
  }

  lemma LatestOfArtifact(t: Custody.Tables, a: string)
    ensures Timeline(t, a) == [] <==> forall e | e in t.events :: e.artifactId != a
    ensures Timeline(t, a) != [] ==>
      var last := Timeline(t, a)[|Timeline(t, a)| - 1];
      last in t.events && last.artifactId == a &&
      forall x | x in t.events && x.artifactId == a :: !Before(EventKey(last), EventKey(x))
  {
    forall e: Event ensures e in Timeline(t, a) <==> e in t.events && e.artifactId == a {
      SortByMember(EventKey, Consumed(t, a), e);
      FilterMember(OfArtifact(a), t.events, e);
    }
    forall x | x in t.events && x.artifactId == a
      ensures Timeline(t, a) != [] && !Before(EventKey(Timeline(t, a)[|Timeline(t, a)| - 1]), EventKey(x))
    {
      FilterMember(OfArtifact(a), t.events, x);
      LastIsGreatest(EventKey, Consumed(t, a), x);
    }
  }

  class Consumer {
    var events: seq<Event>
    var processed: set<string>
    var queue: seq<Message>
    var dlq: seq<Message>

    function Tables(): Custody.Tables
      reads this
    {
      Custody.Tables(events, processed)
    }

    constructor ()
      ensures Tables() == EMPTY_TABLES && queue == [] && dlq == []
    {
      events, processed, queue, dlq := [], {}, [], [];
    }

    method IsAlreadyProcessed(eventId: string) returns (known: bool)
      ensures known <==> eventId in processed
    {
      known := eventId in processed;
    }

    /** The hash of an event of the artifact that no other of its events comes
        after by (timestamp, id), and none only if it has no event. */
    method GetLastEventHash(artifactId: string) returns (hash: Option<string>)
      ensures hash == LatestHash(Consumed(Tables(), artifactId))
      ensures hash.None? <==> forall e | e in events :: e.artifactId != artifactId
      ensures hash.Some? ==>
        (exists e :: e in events && e.artifactId == artifactId && hash == Some(e.eventHash) &&
                     forall x | x in events && x.artifactId == artifactId :: !Before(EventKey(e), EventKey(x)))
    {
      var rows := Timeline(Tables(), artifactId);
      LatestOfArtifact(Tables(), artifactId);
      hash := if rows == [] then None else Some(rows[|rows| - 1].eventHash);
    }

    /** One transaction over a message. */
    method ProcessMessage(h: Sha256, clock: Clock, body: Json, id: nat, failure: Failure) returns (raised: bool)
      modifies this`events, this`processed
      ensures raised <==> AttemptRaises(h, clock, old(Tables()), body, id, failure)
      ensures Tables() == CustodyAfterAttempt(h, clock, old(Tables()), body, id, failure)
    {
      if !Identified(body) {
        return true;
      }
      var eventId := TextOf(body, "event_id");
      var known := IsAlreadyProcessed(eventId);
      if known {
        return failure.BeforeCommit?;
      }
      if !Readable(clock, body) || failure.BeforeCommit? {
        return true;
      }
      var previous := GetLastEventHash(TextOf(body, "artifact_id"));
      var event := MakeEvent(h, clock, body, id, previous);
      events := events + [event];
      processed := processed + {eventId};
      raised := failure.AfterCommit?;
    }

    /** One pass of the delivery loop over the message at i. ackRaises says that
        the acknowledgement of a processed message fails, which lands in the same
        handler as a failure to process it. */
    method ConsumeOne(h: Sha256, clock: Clock, i: nat, id: nat, failure: Failure, ackRaises: bool)
      requires i < |queue|
      modifies this
      ensures Tables() == CustodyAfterAttempt(h, clock, old(Tables()), old(queue[i].body), id, failure)
      ensures var m := old(queue[i]);
        var failed := PassFails(h, clock, old(Tables()), m.body, id, failure, ackRaises);
        && queue == Without(old(queue), i) + (if failed && m.retry < MAX_RETRIES then [Retried(m)] else [])
        && dlq == old(dlq) + if failed && m.retry >= MAX_RETRIES then [m] else []
    {
      var m := queue[i];
      var raised := ProcessMessage(h, clock, m.body, id, failure);
      if !raised && !ackRaises {
        queue := queue[..i] + queue[i + 1..];
        return;
      }
      if m.retry < MAX_RETRIES {
        queue := queue + [Retried(m)];
        assert queue[..i] + queue[i + 1..] == Without(old(queue), i) + [Retried(m)];
        queue := queue[..i] + queue[i + 1..];
      } else {
        queue := queue[..i] + queue[i + 1..];
        dlq := dlq + [m];
      }
    }
  }

  /** The steps of the pipeline that one attempt at a message takes. */
  function AttemptSteps(h: Sha256, clock: Clock, t: Custody.Tables, body: Json, id: nat, failure: Failure, ackRaises: bool): seq<Step> {
    if !AttemptRaises(h, clock, t, body, id, failure) then (if ackRaises then [Finish(id), AckRaises] else [Finish(id)])
    else if failure.AfterCommit? && Process(h, clock, t, body, id).Persisted? then [RaiseAfterCommit(id)]
    else [Raise]
  }

  predicate PassFails(h: Sha256, clock: Clock, t: Custody.Tables, body: Json, id: nat, failure: Failure, ackRaises: bool) {
    AttemptRaises(h, clock, t, body, id, failure) || ackRaises
  }

  function AfterAttempt(h: Sha256, clock: Clock, s: State, m: Message, id: nat, failure: Failure, ackRaises: bool): State {
    s.(custody := CustodyAfterAttempt(h, clock, s.custody, m.body, id, failure),
       consumer := if PassFails(h, clock, s.custody, m.body, id, failure, ackRaises) then Failing(m) else Handled(m),
       failed := s.failed + if PassFails(h, clock, s.custody, m.body, id, failure, ackRaises) then multiset{m.tag} else multiset{})
  }

  function AfterEnding(s: State, m: Message, i: nat, failed: bool): State
    requires i < |s.queue|
  {
    s.(queue := Without(s.queue, i) + (if failed && m.retry < MAX_RETRIES then [Retried(m)] else []),
       dlq := s.dlq + (if failed && m.retry >= MAX_RETRIES then [m] else []),
       consumer := Waiting,
       completed := s.completed + if failed then multiset{} else multiset{m.tag})
  }

  /** Where one pass of the loop leaves the pipeline. */
  function AfterPass(h: Sha256, clock: Clock, s: State, i: nat, id: nat, failure: Failure, ackRaises: bool): State
    requires i < |s.queue|
  {
    var m := s.queue[i];
    var held := s.(consumer := Handling(m), delivered := s.delivered + multiset{m.tag});
    AfterEnding(AfterAttempt(h, clock, held, m, id, failure, ackRaises), m, i,
                PassFails(h, clock, s.custody, m.body, id, failure, ackRaises))
  }

  /** How a pass ends: acknowledge, or requeue and acknowledge, or reject. */
  function Ending(m: Message, i: nat, failed: bool): seq<Step> {
    if !failed then [Ack(i)] else if m.retry < MAX_RETRIES then [PublishRetry, Ack(i)] else [Reject(i)]
  }

  function PassSteps(h: Sha256, clock: Clock, s: State, i: nat, id: nat, failure: Failure, ackRaises: bool): seq<Step>
    requires i < |s.queue|
  {
    var m := s.queue[i];
    [Deliver(i)] + (AttemptSteps(h, clock, s.custody, m.body, id, failure, ackRaises) +
                    Ending(m, i, PassFails(h, clock, s.custody, m.body, id, failure, ackRaises)))
  }

  /** An attempt runs from holding the message to having handled or failed it. */
  lemma AttemptIsRun(h: Sha256, clock: Clock, s: State, m: Message, id: nat, failure: Failure, ackRaises: bool)
    requires Bounded(s) && s.consumer == Handling(m) && NewId(s.custody, id)
    ensures Run(h, clock, s, AttemptSteps(h, clock, s.custody, m.body, id, failure, ackRaises),
                AfterAttempt(h, clock, s, m, id, failure, ackRaises))
  {
    var steps := AttemptSteps(h, clock, s.custody, m.body, id, failure, ackRaises);
    RunOne(h, clock, s, steps[0]);
    if |steps| == 2 {
      var mid := Next(h, clock, s, steps[0]);
      RunOne(h, clock, mid, AckRaises);
      RunConcat(h, clock, s, [steps[0]], mid, [AckRaises], Next(h, clock, mid, AckRaises));
      assert steps == [steps[0]] + [AckRaises];
    } else {
      assert steps == [steps[0]];
    }
  }

  /** One pass of the loop is a run of the pipeline, so everything proved of all
      runs holds of the object too. */
  lemma PassIsRun(h: Sha256, clock: Clock, s: State, i: nat, id: nat, failure: Failure, ackRaises: bool)
    requires Bounded(s) && s.consumer.Waiting? && i < |s.queue| && NewId(s.custody, id)
    ensures Run(h, clock, s, PassSteps(h, clock, s, i, id, failure, ackRaises), AfterPass(h, clock, s, i, id, failure, ackRaises))
  {
    var m := s.queue[i];
    var failed := PassFails(h, clock, s.custody, m.body, id, failure, ackRaises);
    var held := Next(h, clock, s, Deliver(i));
    var attempt := AttemptSteps(h, clock, s.custody, m.body, id, failure, ackRaises);
    var done := AfterAttempt(h, clock, held, m, id, failure, ackRaises);
    RunOne(h, clock, s, Deliver(i));
    AttemptIsRun(h, clock, held, m, id, failure, ackRaises);
    EndingIsRun(h, clock, done, m, i, failed);
    RunThree(h, clock, s, [Deliver(i)], held, attempt, done, Ending(m, i, failed), AfterEnding(done, m, i, failed));
  }

  lemma RunThree(h: Sha256, clock: Clock, s: State, xs: seq<Step>, s1: State, ys: seq<Step>, s2: State, zs: seq<Step>, s3: State)
    requires Run(h, clock, s, xs, s1) && Run(h, clock, s1, ys, s2) && Run(h, clock, s2, zs, s3)
    ensures Run(h, clock, s, xs + (ys + zs), s3)
  {
    RunConcat(h, clock, s1, ys, s2, zs, s3);
    RunConcat(h, clock, s, xs, s1, ys + zs, s3);
  }

  lemma EndingIsRun(h: Sha256, clock: Clock, s: State, m: Message, i: nat, failed: bool)
    requires Bounded(s) && i < |s.queue| && s.queue[i] == m && s.consumer == if failed then Failing(m) else Handled(m)
    ensures Run(h, clock, s, Ending(m, i, failed), AfterEnding(s, m, i, failed))
  {
    var ending := Ending(m, i, failed);
    RunOne(h, clock, s, ending[0]);
    if failed && m.retry < MAX_RETRIES {
      var mid := Next(h, clock, s, PublishRetry);
      RunOne(h, clock, mid, Ack(i));
      RunConcat(h, clock, s, [PublishRetry], mid, [Ack(i)], Next(h, clock, mid, Ack(i)));
      assert ending == [PublishRetry] + [Ack(i)];
      assert Without(mid.queue, i) == Without(s.queue, i) + [Retried(m)];
    } else {
      assert Without(s.queue, i) + [] == Without(s.queue, i);
      assert s.dlq + [] == s.dlq;
    }
  }

  /** Every pass uses up at least one of the attempts left over all messages. */
  lemma PassDecreases(h: Sha256, clock: Clock, s: State, i: nat, id: nat, failure: Failure, ackRaises: bool)
    requires i < |s.queue| && s.queue[i].retry <= MAX_RETRIES
    ensures Potential(AfterPass(h, clock, s, i, id, failure, ackRaises).queue) < Potential(s.queue)
  {
    var m, rest := s.queue[i], Without(s.queue, i);
    PotentialWithout(s.queue, i);
    PotentialConcat(rest, [Retried(m)]);
    PotentialOfOne(Retried(m));
    assert rest + [] == rest;
  }

  datatype Pass = Pass(i: nat, id: nat, failure: Failure, ackRaises: bool)

  /** Passes one after the other, with nothing published in between. */
  ghost predicate Passes(h: Sha256, clock: Clock, s: State, passes: seq<Pass>, s': State)
    decreases |passes|
  {
    if passes == [] then s' == s
    else
      var p := passes[0];
      p.i < |s.queue| && Passes(h, clock, AfterPass(h, clock, s, p.i, p.id, p.failure, p.ackRaises), passes[1..], s')
  }

  lemma PassKeepsHeaders(h: Sha256, clock: Clock, s: State, p: Pass)
    requires p.i < |s.queue| && forall m | m in s.queue :: m.retry <= MAX_RETRIES
    ensures forall m | m in AfterPass(h, clock, s, p.i, p.id, p.failure, p.ackRaises).queue :: m.retry <= MAX_RETRIES
  {
    WithoutMembers(s.queue, p.i);
  }

  /** The loop comes to an end: without new messages there are at most as many
      passes as attempts are left, whatever fails. */
  lemma {:induction false} PassesEnd(h: Sha256, clock: Clock, s: State, passes: seq<Pass>, s': State)
    requires Passes(h, clock, s, passes, s') && forall m | m in s.queue :: m.retry <= MAX_RETRIES
    ensures |passes| + Potential(s'.queue) <= Potential(s.queue) && 0 <= Potential(s'.queue)
    decreases |passes|
  {
    if passes == [] {
      PotentialBounds(s.queue);
    } else {
      var p := passes[0];
      assert s.queue[p.i] in s.queue;
      PassDecreases(h, clock, s, p.i, p.id, p.failure, p.ackRaises);
      PassKeepsHeaders(h, clock, s, p);
      PassesEnd(h, clock, AfterPass(h, clock, s, p.i, p.id, p.failure, p.ackRaises), passes[1..], s');
    }
  }
}
