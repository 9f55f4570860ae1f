/** The whole of ForensicChain's evidence path: the collector with its ledger
    (module Evidence) writing the outbox that the relay, the broker and the
    custody consumer drain (module Pipeline). */
module Whole {
  import opened Basics
  import opened CanonicalJson
  import opened HashChain
  import opened LedgerValidator
  import opened Custody
  import opened Ledger
  import opened OutboxWorker
  import Pipeline
  import Evidence

  // ---------------------------------------------------------------- envelopes

  /** How record ids are written: different ids differently, and none as the
      empty text that stands for no record. */
  ghost predicate Naming(f: nat -> string) {
    (forall a, b | f(a) == f(b) :: a == b) && forall a :: f(a) != ""
  }

  type Uuid = f: nat -> string | Naming(f) ghost witness Decimal()

  ghost function Decimal(): nat -> string
    ensures Naming(Decimal())
  {
    assert Naming((n: nat) => Digits(n)) by {
      forall a: nat, b: nat | Digits(a) == Digits(b) ensures a == b {
        DigitsInjective(a, b);
      }
      forall a: nat ensures Digits(a) != "" {
        DigitsShape(a);
      }
    }
    (n: nat) => Digits(n)
  }

  /** What an envelope holds besides the event: the caller, the clock reading as
      text, and file metadata. */
  datatype Meta = Meta(caseId: string, actorId: string, actorRole: string, timestamp: string, correlationId: string,
                       reason: string, ip: Option<string>, fileName: string, fileSize: int, artifactType: string)

  const ENVELOPE_KEYS: seq<string> := ["event_id", "event_type", "routing_key", "artifact_id", "case_id", "actor_id",
                                       "actor_role", "timestamp", "correlation_id", "reason", "payload"]

  const INGESTED_KEYS: seq<string> := ["file_name", "file_size", "artifact_type", "hash_algorithm", "hash_value",
                                       "ledger_record_id", "ip_address"]

  const VERIFIED_KEYS: seq<string> := ["verification_result", "original_hash", "current_hash", "ledger_record_id", "ip_address"]

  const ACCESS_KEYS: seq<string> := ["ip_address"]

  function NullableText(o: Option<string>): Json {
    if o.Some? then Str(o.value) else Null
  }

  function EventPayload(u: Uuid, e: Evidence.DomainEvent, m: Meta): Json {
    match e
    case EvidenceIngested(_, _, hash, record) =>
      Dict(INGESTED_KEYS, [Str(m.fileName), Int(m.fileSize), Str(m.artifactType), Str("SHA-256"), Str(hash),
                           Str(u(record)), NullableText(m.ip)])
    case VerificationDone(_, _, _, result, original, current, record) =>
      Dict(VERIFIED_KEYS, [Str(Evidence.VerdictText(result)), Str(original), Str(current),
                           Str(if record.Some? then u(record.value) else ""), NullableText(m.ip)])
    case _ => Dict(ACCESS_KEYS, [NullableText(m.ip)])
  }

  /** Event type and routing key; a verification has three, an access two. */
  function EventType(e: Evidence.DomainEvent): (string, string) {
    match e
    case EvidenceIngested(_, _, _, _) => ("EvidenceIngested", "forensicchain.evidence.ingested")
    case VerificationRequested(_, _) => ("VerificationRequested", "forensicchain.verification.requested")
    case VerificationDone(_, _, passed, _, _, _, _) =>
      if passed then ("VerificationPassed", "forensicchain.verification.passed")
      else ("VerificationFailed", "forensicchain.verification.failed")
    case Accessed(_, _, downloaded) =>
      if downloaded then ("EvidenceDownloaded", "forensicchain.evidence.downloaded")
      else ("EvidenceViewed", "forensicchain.evidence.viewed")
  }

  function Envelope(u: Uuid, e: Evidence.DomainEvent, m: Meta): Json {
    Dict(ENVELOPE_KEYS,
         [Str(e.eventId), Str(EventType(e).0), Str(EventType(e).1), Str(e.artifactId), Str(m.caseId), Str(m.actorId),
          Str(m.actorRole), Str(m.timestamp), Str(m.correlationId), Str(m.reason), EventPayload(u, e, m)])
  }

  lemma KeysDistinct()
    ensures forall i, j | 0 <= i < j < |ENVELOPE_KEYS| :: ENVELOPE_KEYS[i] != ENVELOPE_KEYS[j]
    ensures forall i, j | 0 <= i < j < |INGESTED_KEYS| :: INGESTED_KEYS[i] != INGESTED_KEYS[j]
    ensures forall i, j | 0 <= i < j < |VERIFIED_KEYS| :: VERIFIED_KEYS[i] != VERIFIED_KEYS[j]
  {
    assert ENVELOPE_KEYS[1][0] == 'e' && ENVELOPE_KEYS[6][0] == 'a';
    assert ENVELOPE_KEYS[0][0] == 'e' && ENVELOPE_KEYS[5][0] == 'a';
    assert ENVELOPE_KEYS[2][0] == 'r' && ENVELOPE_KEYS[3][0] == 'a';
    assert ENVELOPE_KEYS[4][0] == 'c' && ENVELOPE_KEYS[10][0] == 'p';
    assert INGESTED_KEYS[0][5] == 'n' && INGESTED_KEYS[1][5] == 's';
    assert INGESTED_KEYS[4][0] == 'h' && INGESTED_KEYS[6][0] == 'i';
  }

  lemma PayloadShape(u: Uuid, e: Evidence.DomainEvent, m: Meta)
    ensures EventPayload(u, e, m).Obj? && UniqueKeys(EventPayload(u, e, m))
    ensures Get(EventPayload(u, e, m), "ip_address") == Some(NullableText(m.ip))
  {
    KeysDistinct();
    match e
    case EvidenceIngested(_, _, hash, record) =>
      DictShape(INGESTED_KEYS, [Str(m.fileName), Int(m.fileSize), Str(m.artifactType), Str("SHA-256"), Str(hash),
                                Str(u(record)), NullableText(m.ip)]);
      assert INGESTED_KEYS[6] == "ip_address";
    case VerificationDone(_, _, _, result, original, current, record) =>
      DictShape(VERIFIED_KEYS, [Str(Evidence.VerdictText(result)), Str(original), Str(current),
                                Str(if record.Some? then u(record.value) else ""), NullableText(m.ip)]);
      assert VERIFIED_KEYS[4] == "ip_address";
    case _ =>
      DictShape(ACCESS_KEYS, [NullableText(m.ip)]);
      assert ACCESS_KEYS[0] == "ip_address";
  }

  /** Every key of an ingestion's payload. */
  lemma IngestedPayload(u: Uuid, e: Evidence.DomainEvent, m: Meta)
    requires e.EvidenceIngested?
    ensures var p := EventPayload(u, e, m);
      && Get(p, "file_name") == Some(Str(m.fileName)) && Get(p, "file_size") == Some(Int(m.fileSize))
      && Get(p, "artifact_type") == Some(Str(m.artifactType)) && Get(p, "hash_algorithm") == Some(Str("SHA-256"))
      && Get(p, "hash_value") == Some(Str(e.hashValue)) && Get(p, "ledger_record_id") == Some(Str(u(e.ledgerRecordId)))
      && Get(p, "ip_address") == Some(if m.ip.Some? then Str(m.ip.value) else Null)
  {
    var values := [Str(m.fileName), Int(m.fileSize), Str(m.artifactType), Str("SHA-256"), Str(e.hashValue),
                   Str(u(e.ledgerRecordId)), NullableText(m.ip)];
    KeysDistinct();
    DictShape(INGESTED_KEYS, values);
    assert forall i | 0 <= i < 7 :: Get(EventPayload(u, e, m), INGESTED_KEYS[i]) == Some(values[i]);
    assert INGESTED_KEYS[0] == "file_name" && INGESTED_KEYS[1] == "file_size" && INGESTED_KEYS[2] == "artifact_type";
    assert INGESTED_KEYS[3] == "hash_algorithm" && INGESTED_KEYS[4] == "hash_value";
    assert INGESTED_KEYS[5] == "ledger_record_id" && INGESTED_KEYS[6] == "ip_address";
  }

  /** Every key of a verification's payload; the record it names is written as an
      empty text, which names no row, exactly if there is none. */
  lemma VerifiedPayload(u: Uuid, e: Evidence.DomainEvent, m: Meta)
    requires e.VerificationDone?
    ensures var p := EventPayload(u, e, m);
      && Get(p, "verification_result") == Some(Str(
           if e.result.Valid? then "VALID" else if e.result.Tampered? then "TAMPERED"
           else if e.result.InvalidSignature? then "INVALID_SIGNATURE" else "LEDGER_CORRUPTED"))
      && Get(p, "original_hash") == Some(Str(e.originalHash)) && Get(p, "current_hash") == Some(Str(e.currentHash))
      && (Get(p, "ledger_record_id") == Some(Str("")) <==> e.verifiedRecordId == None)
      && (forall n: nat :: Get(p, "ledger_record_id") == Some(Str(u(n))) <==> e.verifiedRecordId == Some(n))
      && Get(p, "ip_address") == Some(if m.ip.Some? then Str(m.ip.value) else Null)
  {
    var values := [Str(Evidence.VerdictText(e.result)), Str(e.originalHash), Str(e.currentHash),
                   Str(if e.verifiedRecordId.Some? then u(e.verifiedRecordId.value) else ""), NullableText(m.ip)];
    KeysDistinct();
    DictShape(VERIFIED_KEYS, values);
    assert forall i | 0 <= i < 5 :: Get(EventPayload(u, e, m), VERIFIED_KEYS[i]) == Some(values[i]);
    assert VERIFIED_KEYS[0] == "verification_result" && VERIFIED_KEYS[1] == "original_hash";
    assert VERIFIED_KEYS[2] == "current_hash" && VERIFIED_KEYS[3] == "ledger_record_id" && VERIFIED_KEYS[4] == "ip_address";
  }

  lemma EnvelopeFields(u: Uuid, e: Evidence.DomainEvent, m: Meta)
    ensures UniqueKeys(Envelope(u, e, m))
    ensures Get(Envelope(u, e, m), "event_id") == Some(Str(e.eventId)) && Get(Envelope(u, e, m), "event_type") == Some(Str(EventType(e).0))
    ensures Get(Envelope(u, e, m), "artifact_id") == Some(Str(e.artifactId)) && Get(Envelope(u, e, m), "case_id") == Some(Str(m.caseId))
    ensures Get(Envelope(u, e, m), "actor_id") == Some(Str(m.actorId)) && Get(Envelope(u, e, m), "actor_role") == Some(Str(m.actorRole))
    ensures Get(Envelope(u, e, m), "routing_key") == Some(Str(EventType(e).1))
    ensures Get(Envelope(u, e, m), "timestamp") == Some(Str(m.timestamp)) && Get(Envelope(u, e, m), "reason") == Some(Str(m.reason))
    ensures Get(Envelope(u, e, m), "correlation_id") == Some(Str(m.correlationId)) && Get(Envelope(u, e, m), "payload") == Some(EventPayload(u, e, m))
  {
    KeysDistinct();
    PayloadShape(u, e, m);
    var values := [Str(e.eventId), Str(EventType(e).0), Str(EventType(e).1), Str(e.artifactId), Str(m.caseId), Str(m.actorId),
                   Str(m.actorRole), Str(m.timestamp), Str(m.correlationId), Str(m.reason), EventPayload(u, e, m)];
    DictShape(ENVELOPE_KEYS, values);
    assert forall i | 0 <= i < 11 :: Get(Envelope(u, e, m), ENVELOPE_KEYS[i]) == Some(values[i]);
    assert ENVELOPE_KEYS[0] == "event_id" && ENVELOPE_KEYS[1] == "event_type" && ENVELOPE_KEYS[2] == "routing_key";
    assert ENVELOPE_KEYS[3] == "artifact_id";
    assert ENVELOPE_KEYS[4] == "case_id" && ENVELOPE_KEYS[5] == "actor_id" && ENVELOPE_KEYS[6] == "actor_role";
    assert ENVELOPE_KEYS[7] == "timestamp" && ENVELOPE_KEYS[8] == "correlation_id" && ENVELOPE_KEYS[9] == "reason";
    assert ENVELOPE_KEYS[10] == "payload";
  }

  /** The envelope has this event type and this routing key. */
  predicate Typed(body: Json, eventType: string, routingKey: string) {
    Get(body, "event_type") == Some(Str(eventType)) && Get(body, "routing_key") == Some(Str(routingKey))
  }

  /** Each event has a type and a routing key of its own; a verification whose
      verdict is VALID is a VerificationPassed, and one with any other verdict a
      VerificationFailed. */
  lemma EnvelopeTypes(u: Uuid, e: Evidence.DomainEvent, m: Meta)
    requires e.VerificationDone? ==> (e.passed <==> e.result.Valid?)
    ensures var body := Envelope(u, e, m);
      && (Typed(body, "EvidenceIngested", "forensicchain.evidence.ingested") <==> e.EvidenceIngested?)
      && (Typed(body, "VerificationRequested", "forensicchain.verification.requested") <==> e.VerificationRequested?)
      && (Typed(body, "VerificationPassed", "forensicchain.verification.passed") <==> e.VerificationDone? && e.result.Valid?)
      && (Typed(body, "VerificationFailed", "forensicchain.verification.failed") <==> e.VerificationDone? && !e.result.Valid?)
      && (Typed(body, "EvidenceViewed", "forensicchain.evidence.viewed") <==> e.Accessed? && !e.downloaded)
      && (Typed(body, "EvidenceDownloaded", "forensicchain.evidence.downloaded") <==> e.Accessed? && e.downloaded)
  {
    hide Envelope, EventType, Get, UniqueKeys;
    EnvelopeFields(u, e, m);
    TypeTexts(e);
  }

  lemma TypeTexts(e: Evidence.DomainEvent)
    ensures EventType(e) == ("EvidenceIngested", "forensicchain.evidence.ingested") <==> e.EvidenceIngested?
    ensures EventType(e) == ("VerificationRequested", "forensicchain.verification.requested") <==> e.VerificationRequested?
    ensures EventType(e) == ("VerificationPassed", "forensicchain.verification.passed") <==> e.VerificationDone? && e.passed
    ensures EventType(e) == ("VerificationFailed", "forensicchain.verification.failed") <==> e.VerificationDone? && !e.passed
    ensures EventType(e) == ("EvidenceViewed", "forensicchain.evidence.viewed") <==> e.Accessed? && !e.downloaded
    ensures EventType(e) == ("EvidenceDownloaded", "forensicchain.evidence.downloaded") <==> e.Accessed? && e.downloaded
  {
    assert |"EvidenceIngested"| == 16 && |"VerificationRequested"| == 21 && |"VerificationPassed"| == |"VerificationFailed"| == 18;
    assert |"EvidenceViewed"| == 14 && |"EvidenceDownloaded"| == 18;
    assert "VerificationPassed"[12] == 'P' && "VerificationFailed"[12] == 'F' && "EvidenceDownloaded"[12] == 'l';
  }

  /** Every envelope the collector writes is one the consumer can read, as long as
      its timestamp parses. */
  lemma EnvelopeIsReadable(u: Uuid, clock: Clock, e: Evidence.DomainEvent, m: Meta)
    requires clock(m.timestamp).Some?
    ensures Readable(clock, Envelope(u, e, m)) && TextOf(Envelope(u, e, m), "event_id") == e.eventId
    ensures TextOf(Envelope(u, e, m), "artifact_id") == e.artifactId && PayloadOf(Envelope(u, e, m)) == EventPayload(u, e, m)
  {
    EnvelopeFields(u, e, m);
    PayloadShape(u, e, m);
  }

  // ---------------------------------------------------------------- the system

  datatype State = State(collector: Evidence.State, pipe: Pipeline.State)

  /** A collector step, with the outbox row of the event it writes if it writes
      one, or a step of the relay, the broker, the consumer or the reporter. */
  datatype Step = Collect(step: Evidence.Step, meta: Meta, createdAt: int) | Deliver(relay: Pipeline.Step)

  const START := State(Evidence.START, Pipeline.START)

  function RowOf(u: Uuid, e: Evidence.DomainEvent, m: Meta, createdAt: int): OutboxRow {
    OutboxRow(e.eventId, Envelope(u, e, m), createdAt, false, None, 0, None)
  }

  ghost predicate Enabled(h: Sha256, k: Evidence.HashSign, u: Uuid, clock: Clock, s: State, step: Step) {
    match step
    case Collect(c, m, at) =>
      Evidence.Enabled(s.collector, c) && clock(m.timestamp).Some? &&
      var events := Evidence.Next(h, k, s.collector, c).events;
      |events| > |s.collector.events| ==> Pipeline.FreshId(s.pipe, events[|events| - 1].eventId)
    case Deliver(r) => !r.WriteOutbox? && Pipeline.Enabled(h, clock, s.pipe, r) && Pipeline.Bounded(s.pipe)
  }

  /** The event and its outbox row are one commit. */
  ghost function Next(h: Sha256, k: Evidence.HashSign, u: Uuid, clock: Clock, s: State, step: Step): State
    requires Enabled(h, k, u, clock, s, step)
  {
    match step
    case Collect(c, m, at) =>
      var collector := Evidence.Next(h, k, s.collector, c);
      var n := |collector.events|;
      if n > |s.collector.events| then
        State(collector, s.pipe.(outbox := s.pipe.outbox + [RowOf(u, collector.events[n - 1], m, at)]))
      else State(collector, s.pipe)
    case Deliver(r) => State(s.collector, Pipeline.Next(h, clock, s.pipe, r))
  }

  ghost predicate Run(h: Sha256, k: Evidence.HashSign, u: Uuid, clock: Clock, s: State, steps: seq<Step>, s': State)
    decreases |steps|
  {
    if steps == [] then s' == s
    else Enabled(h, k, u, clock, s, steps[0]) && Run(h, k, u, clock, Next(h, k, u, clock, s, steps[0]), steps[1..], s')
  }

  /** The row carries the envelope of the event. */
  ghost predicate Carries(u: Uuid, clock: Clock, row: OutboxRow, e: Evidence.DomainEvent) {
    row.eventId == e.eventId && exists m: Meta :: clock(m.timestamp).Some? && row.payload == Envelope(u, e, m)
  }

  /** Row i of the outbox carries event i of the collector. */
  ghost predicate Mirrors(u: Uuid, clock: Clock, s: State) {
    |s.pipe.outbox| == |s.collector.events| &&
    forall i | 0 <= i < |s.pipe.outbox| :: Carries(u, clock, s.pipe.outbox[i], s.collector.events[i])
  }

  ghost predicate Safe(h: Sha256, k: Evidence.HashSign, u: Uuid, clock: Clock, s: State) {
    && Evidence.Safe(h, k, s.collector) && Pipeline.Safe(h, s.pipe) && Mirrors(u, clock, s)
    && Pipeline.Genuine(h, clock, s.pipe) && Pipeline.SourcesNamed(s.pipe)
  }

  lemma EventsGrowByOne(h: Sha256, k: Evidence.HashSign, s: Evidence.State, step: Evidence.Step)
    requires Evidence.Enabled(s, step)
    ensures var events := Evidence.Next(h, k, s, step).events;
      events == s.events || (|events| == |s.events| + 1 && events == s.events + [events[|s.events|]])
  {
    Evidence.StepFrame(h, k, s, step);
  }

  /** The collector's part of a step, as a step of the pipeline. */
  lemma WriteIsPipelineStep(h: Sha256, k: Evidence.HashSign, u: Uuid, clock: Clock, s: State, e: Evidence.DomainEvent, m: Meta, at: int)
    requires Pipeline.Safe(h, s.pipe) && Pipeline.Genuine(h, clock, s.pipe) && Pipeline.SourcesNamed(s.pipe)
    requires clock(m.timestamp).Some? && Pipeline.FreshId(s.pipe, e.eventId)
    ensures var pipe := s.pipe.(outbox := s.pipe.outbox + [RowOf(u, e, m, at)]);
      Pipeline.Safe(h, pipe) && Pipeline.Genuine(h, clock, pipe) && Pipeline.SourcesNamed(pipe)
  {
    EnvelopeIsReadable(u, clock, e, m);
    var step := Pipeline.WriteOutbox(RowOf(u, e, m, at));
    assert Pipeline.Enabled(h, clock, s.pipe, step);
    Pipeline.RunOne(h, clock, s.pipe, step);
    Pipeline.RunIsSafe(h, clock, s.pipe, [step], Pipeline.Next(h, clock, s.pipe, step));
    Pipeline.RunIsGenuine(h, clock, s.pipe, [step], Pipeline.Next(h, clock, s.pipe, step));
  }

  lemma MirrorsExtended(u: Uuid, clock: Clock, s: State, s': State, e: Evidence.DomainEvent, m: Meta, at: int)
    requires Mirrors(u, clock, s) && clock(m.timestamp).Some?
    requires s'.pipe.outbox == s.pipe.outbox + [RowOf(u, e, m, at)] && s'.collector.events == s.collector.events + [e]
    ensures Mirrors(u, clock, s')
  {
    assert Carries(u, clock, RowOf(u, e, m, at), e);
  }

  lemma CollectKeepsSafe(h: Sha256, k: Evidence.HashSign, u: Uuid, clock: Clock, s: State, step: Step)
    requires Safe(h, k, u, clock, s) && Enabled(h, k, u, clock, s, step) && step.Collect?
    ensures Safe(h, k, u, clock, Next(h, k, u, clock, s, step))
  {
    hide Evidence.Safe, Pipeline.Safe, Pipeline.Genuine, Pipeline.SourcesNamed, Carries;
    var s' := Next(h, k, u, clock, s, step);
    var events := s'.collector.events;
    Evidence.StepIsSafe(h, k, s.collector, step.step);
    EventsGrowByOne(h, k, s.collector, step.step);
    if events != s.collector.events {
      var e := events[|s.collector.events|];
      WriteIsPipelineStep(h, k, u, clock, s, e, step.meta, step.createdAt);
      MirrorsExtended(u, clock, s, s', e, step.meta, step.createdAt);
    }
  }

  lemma DeliverKeepsSafe(h: Sha256, k: Evidence.HashSign, u: Uuid, clock: Clock, s: State, step: Step)
    requires Safe(h, k, u, clock, s) && Enabled(h, k, u, clock, s, step) && step.Deliver?
    ensures Safe(h, k, u, clock, Next(h, k, u, clock, s, step))
  {
    hide Evidence.Safe, Pipeline.Safe, Pipeline.Genuine, Pipeline.SourcesNamed;
    var pipe := Pipeline.Next(h, clock, s.pipe, step.relay);
    Pipeline.RunOne(h, clock, s.pipe, step.relay);
    Pipeline.RunIsSafe(h, clock, s.pipe, [step.relay], pipe);
    Pipeline.RunIsGenuine(h, clock, s.pipe, [step.relay], pipe);
    Pipeline.StepSourcesGrow(h, clock, s.pipe, step.relay);
    SameLength(h, clock, s.pipe, step.relay);
    forall i | 0 <= i < |pipe.outbox| ensures Carries(u, clock, pipe.outbox[i], s.collector.events[i]) {
      assert Carries(u, clock, s.pipe.outbox[i], s.collector.events[i]);
    }
  }

  lemma SameLength(h: Sha256, clock: Clock, s: Pipeline.State, step: Pipeline.Step)
    requires Pipeline.Bounded(s) && Pipeline.Enabled(h, clock, s, step) && !step.WriteOutbox?
    ensures |Pipeline.Next(h, clock, s, step).outbox| == |s.outbox|
  {
  }

  lemma {:induction false} RunIsSafe(h: Sha256, k: Evidence.HashSign, u: Uuid, clock: Clock, s: State, steps: seq<Step>, s': State)
    requires Safe(h, k, u, clock, s) && Run(h, k, u, clock, s, steps, s')
    ensures Safe(h, k, u, clock, s')
    decreases |steps|
  {
    hide Safe, Next, Enabled;
    if steps != [] {
      if steps[0].Collect? {
        CollectKeepsSafe(h, k, u, clock, s, steps[0]);
      } else {
        DeliverKeepsSafe(h, k, u, clock, s, steps[0]);
      }
      RunIsSafe(h, k, u, clock, Next(h, k, u, clock, s, steps[0]), steps[1..], s');
    }
  }

  /** The one event of an INGESTED artifact's ingestion. */
  lemma IngestionEvent(h: Sha256, k: Evidence.HashSign, c: Evidence.State, a: string) returns (i: nat)
    requires Evidence.Safe(h, k, c) && a in c.artifacts && c.artifacts[a].status.Ingested?
    ensures i < |c.events| && c.events[i].EvidenceIngested? && c.events[i].artifactId == a
    ensures forall j | 0 <= j < |c.events| && c.events[j].EvidenceIngested? && c.events[j].artifactId == a :: j == i
  {
    assert Evidence.ArtifactSound(k, c, a);
    i :| 0 <= i < |c.events| && c.events[i].EvidenceIngested? && c.events[i].artifactId == a;
  }

  lemma EventProof(h: Sha256, k: Evidence.HashSign, c: Evidence.State, e: Evidence.DomainEvent) returns (proof: Row)
    requires Evidence.Safe(h, k, c) && e in c.events && e.EvidenceIngested?
    ensures e.artifactId in c.artifacts && Evidence.NamedProof(k, c, e, proof)
  {
    assert Evidence.EventSound(k, c, e);
    proof := Evidence.CommittedProof(h, k, c, e.artifactId);
  }

  /** From upload to custody, over every interleaving, crash and redelivery: an
      INGESTED artifact has a committed ledger proof with its hash and signature,
      named by exactly one EvidenceIngested event. That event is still unpublished,
      or queued, or dead-lettered, or recorded in custody. It is recorded at most
      once, and what is recorded is made from exactly the envelope the collector
      wrote: under its own artifact, with its hash, and naming that proof and no
      other row of the ledger. */
  lemma IngestedIsAccountedFor(h: Sha256, k: Evidence.HashSign, u: Uuid, clock: Clock, steps: seq<Step>, s: State, a: string)
    returns (i: nat, proof: Row)
    requires Run(h, k, u, clock, START, steps, s)
    requires a in s.collector.artifacts && s.collector.artifacts[a].status.Ingested?
    ensures i < |s.collector.events| == |s.pipe.outbox|
    ensures s.collector.events[i].EvidenceIngested? && s.collector.events[i].artifactId == a
    ensures forall j | 0 <= j < |s.collector.events| && s.collector.events[j].EvidenceIngested? && s.collector.events[j].artifactId == a :: j == i
    ensures Evidence.NamedProof(k, s.collector, s.collector.events[i], proof)
    ensures !s.pipe.outbox[i].published || Pipeline.Secured(s.pipe, s.pipe.outbox[i])
    ensures s.collector.events[i].eventId in s.pipe.custody.processed <==>
      exists n :: 0 <= n < |s.pipe.custody.events| && s.pipe.custody.events[n].eventId == s.collector.events[i].eventId
    ensures forall n | 0 <= n < |s.pipe.custody.events| && s.pipe.custody.events[n].eventId == s.collector.events[i].eventId ::
      RecordsIngestion(h, u, clock, s.pipe.custody.events[n], s.pipe.outbox[i], s.collector.events[i]) &&
      NamesOnly(u, s.collector.ledger.rows, s.pipe.custody.events[n], proof)
    ensures forall m, n | 0 <= m < n < |s.pipe.custody.events| :: s.pipe.custody.events[m].eventId != s.pipe.custody.events[n].eventId
  {
    hide Evidence.Safe, Evidence.NamedProof, Pipeline.Genuine, Pipeline.SourcesNamed, RecordsIngestion, NamesOnly;
    StartIsSafe(h, k, u, clock);
    RunIsSafe(h, k, u, clock, START, steps, s);
    i := IngestionEvent(h, k, s.collector, a);
    var e, row := s.collector.events[i], s.pipe.outbox[i];
    proof := EventProof(h, k, s.collector, e);
    assert Carries(u, clock, row, e);
    forall n | 0 <= n < |s.pipe.custody.events| && s.pipe.custody.events[n].eventId == e.eventId
      ensures RecordsIngestion(h, u, clock, s.pipe.custody.events[n], row, e)
      ensures NamesOnly(u, s.collector.ledger.rows, s.pipe.custody.events[n], proof)
    {
      RowRecorded(h, u, clock, s, row, e, s.pipe.custody.events[n]);
      OneRowNamed(h, k, u, s.collector, s.pipe.custody.events[n], e, proof);
    }
    ProcessedIffRecorded(s.pipe.custody, e.eventId);
  }

  /** The custody row was made from the outbox row, and names artifact, hash and
      ledger record of the ingestion. */
  ghost predicate RecordsIngestion(h: Sha256, u: Uuid, clock: Clock, c: Event, row: OutboxRow, e: Evidence.DomainEvent)
    requires e.EvidenceIngested?
  {
    && Pipeline.Records(h, clock, c, row.payload)
    && c.artifactId == e.artifactId && c.eventType == "EvidenceIngested"
    && Get(c.payload, "hash_value") == Some(Str(e.hashValue))
    && Get(c.payload, "ledger_record_id") == Some(Str(u(e.ledgerRecordId)))
  }

  lemma RowRecorded(h: Sha256, u: Uuid, clock: Clock, s: State, row: OutboxRow, e: Evidence.DomainEvent, c: Event)
    requires Pipeline.Genuine(h, clock, s.pipe) && Pipeline.SourcesNamed(s.pipe) && Carries(u, clock, row, e)
    requires row in s.pipe.outbox && c in s.pipe.custody.events && c.eventId == e.eventId && e.EvidenceIngested?
    ensures RecordsIngestion(h, u, clock, c, row, e)
    ensures Get(c.payload, "ledger_record_id") == Some(Str(u(e.ledgerRecordId)))
  {
    Pipeline.RecordedFaithfully(h, clock, s.pipe, row, c);
    var m: Meta :| clock(m.timestamp).Some? && row.payload == Envelope(u, e, m);
    EnvelopeIsReadable(u, clock, e, m);
    EnvelopeFields(u, e, m);
    IngestedPayload(u, e, m);
  }

  /** The custody row names this row of the ledger and no other. */
  ghost predicate NamesOnly(u: Uuid, rows: seq<Row>, c: Event, proof: Row) {
    && Get(c.payload, "ledger_record_id") == Some(Str(u(proof.recordId)))
    && forall r | r in rows && Get(c.payload, "ledger_record_id") == Some(Str(u(r.recordId))) :: r == proof
  }

  lemma OneRowNamed(h: Sha256, k: Evidence.HashSign, u: Uuid, s: Evidence.State, c: Event, e: Evidence.DomainEvent, proof: Row)
    requires Evidence.Safe(h, k, s) && e.EvidenceIngested? && e.artifactId in s.artifacts && Evidence.NamedProof(k, s, e, proof)
    requires Get(c.payload, "ledger_record_id") == Some(Str(u(e.ledgerRecordId)))
    ensures NamesOnly(u, s.ledger.rows, c, proof)
  {
    forall r | r in s.ledger.rows && u(r.recordId) == u(proof.recordId) ensures r == proof {
      Evidence.SameIdSameRow(s.ledger.rows, r, proof);
    }
  }

  // ------------------------------------------------ verdicts and their records

  /** The custody row was made from the outbox row, and says of the artifact what
      the verification found. */
  ghost predicate RecordsVerification(h: Sha256, clock: Clock, c: Event, row: OutboxRow, e: Evidence.DomainEvent)
    requires e.VerificationDone?
  {
    && Pipeline.Records(h, clock, c, row.payload)
    && c.artifactId == e.artifactId
    && c.eventType == (if e.result.Valid? then "VerificationPassed" else "VerificationFailed")
    && Get(c.payload, "verification_result") == Some(Str(
         if e.result.Valid? then "VALID" else if e.result.Tampered? then "TAMPERED"
         else if e.result.InvalidSignature? then "INVALID_SIGNATURE" else "LEDGER_CORRUPTED"))
    && Get(c.payload, "original_hash") == Some(Str(e.originalHash))
    && Get(c.payload, "current_hash") == Some(Str(e.currentHash))
  }

  /** The custody row names the committed ledger row that holds the same verdict
      and no other row, or, if the append was not known to have succeeded, none. */
  ghost predicate NamesVerdict(u: Uuid, s: Evidence.State, c: Event, e: Evidence.DomainEvent)
    requires e.VerificationDone?
  {
    if e.verifiedRecordId.Some? then exists r :: Evidence.RecordsVerdict(s, r, e) && NamesOnly(u, s.ledger.rows, c, r)
    else
      Get(c.payload, "ledger_record_id") == Some(Str("")) &&
      forall r | r in s.ledger.rows :: Get(c.payload, "ledger_record_id") != Some(Str(u(r.recordId)))
  }

  /** From verdict to custody, over every interleaving, crash and redelivery: the
      event of a verification is still unpublished, or queued, or dead-lettered,
      or recorded in custody. It is recorded at most once, and what is recorded is
      made from exactly the envelope the collector wrote: a VerificationPassed if
      and only if the verdict was VALID, with the verdict and both digests, naming
      the ledger's own record of the same verdict and no other row. */
  lemma VerificationIsAccountedFor(h: Sha256, k: Evidence.HashSign, u: Uuid, clock: Clock, steps: seq<Step>, s: State, i: nat)
    requires Run(h, k, u, clock, START, steps, s)
    requires i < |s.collector.events| && s.collector.events[i].VerificationDone?
    ensures i < |s.pipe.outbox| && (!s.pipe.outbox[i].published || Pipeline.Secured(s.pipe, s.pipe.outbox[i]))
    ensures s.collector.events[i].eventId in s.pipe.custody.processed <==>
      exists n :: 0 <= n < |s.pipe.custody.events| && s.pipe.custody.events[n].eventId == s.collector.events[i].eventId
    ensures forall n | 0 <= n < |s.pipe.custody.events| && s.pipe.custody.events[n].eventId == s.collector.events[i].eventId ::
      RecordsVerification(h, clock, s.pipe.custody.events[n], s.pipe.outbox[i], s.collector.events[i]) &&
      NamesVerdict(u, s.collector, s.pipe.custody.events[n], s.collector.events[i])
    ensures forall m, n | 0 <= m < n < |s.pipe.custody.events| :: s.pipe.custody.events[m].eventId != s.pipe.custody.events[n].eventId
  {
    hide Evidence.Safe, Pipeline.Genuine, Pipeline.SourcesNamed, RecordsVerification, NamesVerdict;
    StartIsSafe(h, k, u, clock);
    RunIsSafe(h, k, u, clock, START, steps, s);
    var e, row := s.collector.events[i], s.pipe.outbox[i];
    assert Carries(u, clock, row, e);
    forall n | 0 <= n < |s.pipe.custody.events| && s.pipe.custody.events[n].eventId == e.eventId
      ensures RecordsVerification(h, clock, s.pipe.custody.events[n], row, e)
      ensures NamesVerdict(u, s.collector, s.pipe.custody.events[n], e)
    {
      VerdictRecorded(h, k, u, clock, s, row, e, s.pipe.custody.events[n]);
      VerdictNamed(h, k, u, s.collector, s.pipe.custody.events[n], e);
    }
    ProcessedIffRecorded(s.pipe.custody, e.eventId);
  }

  lemma VerdictRecorded(h: Sha256, k: Evidence.HashSign, u: Uuid, clock: Clock, s: State, row: OutboxRow, e: Evidence.DomainEvent, c: Event)
    requires Evidence.Safe(h, k, s.collector) && e in s.collector.events && e.VerificationDone?
    requires Pipeline.Genuine(h, clock, s.pipe) && Pipeline.SourcesNamed(s.pipe) && Carries(u, clock, row, e)
    requires row in s.pipe.outbox && c in s.pipe.custody.events && c.eventId == e.eventId
    ensures RecordsVerification(h, clock, c, row, e)
    ensures forall n: nat :: Get(c.payload, "ledger_record_id") == Some(Str(u(n))) <==> e.verifiedRecordId == Some(n)
    ensures Get(c.payload, "ledger_record_id") == Some(Str("")) <==> e.verifiedRecordId == None
  {
    assert Evidence.EventSound(k, s.collector, e);
    Pipeline.RecordedFaithfully(h, clock, s.pipe, row, c);
    var m: Meta :| clock(m.timestamp).Some? && row.payload == Envelope(u, e, m);
    EnvelopeIsReadable(u, clock, e, m);
    EnvelopeFields(u, e, m);
    VerifiedPayload(u, e, m);
  }

  lemma VerdictNamed(h: Sha256, k: Evidence.HashSign, u: Uuid, s: Evidence.State, c: Event, e: Evidence.DomainEvent)
    requires Evidence.Safe(h, k, s) && e in s.events && e.VerificationDone?
    requires forall n: nat :: Get(c.payload, "ledger_record_id") == Some(Str(u(n))) <==> e.verifiedRecordId == Some(n)
    requires Get(c.payload, "ledger_record_id") == Some(Str("")) <==> e.verifiedRecordId == None
    ensures NamesVerdict(u, s, c, e)
  {
    if e.verifiedRecordId.Some? {
      Evidence.VerdictOnLedger(h, k, s, e);
      var r :| Evidence.RecordsVerdict(s, r, e);
      forall q | q in s.ledger.rows && q.recordId == r.recordId ensures q == r {
        Evidence.SameIdSameRow(s.ledger.rows, q, r);
      }
      assert NamesOnly(u, s.ledger.rows, c, r);
    }
  }

  /** A run in which the ledger's clock moves on between commits to a case and
      validation does not fail on the server. */
  ghost predicate HonestRun(h: Sha256, k: Evidence.HashSign, u: Uuid, clock: Clock, s: State, steps: seq<Step>, s': State)
    decreases |steps|
  {
    if steps == [] then s' == s
    else
      Enabled(h, k, u, clock, s, steps[0]) && (steps[0].Collect? ==> Evidence.Honest(s.collector, steps[0].step)) &&
      HonestRun(h, k, u, clock, Next(h, k, u, clock, s, steps[0]), steps[1..], s')
  }

  /** The collector's own steps. */
  function Collected(steps: seq<Step>): seq<Evidence.Step> {
    if steps == [] then []
    else if steps[0].Collect? then [steps[0].step] + Collected(steps[1..])
    else Collected(steps[1..])
  }

  /** Relay, broker and consumer leave the collector alone: leaving their steps
      out gives a run of module Evidence. */
  lemma {:induction false} HonestRunProjects(h: Sha256, k: Evidence.HashSign, u: Uuid, clock: Clock, s: State, steps: seq<Step>, s': State)
    requires HonestRun(h, k, u, clock, s, steps, s')
    ensures Run(h, k, u, clock, s, steps, s')
    ensures Evidence.HonestRun(h, k, s.collector, Collected(steps), s'.collector)
    decreases |steps|
  {
    hide Evidence.Enabled, Evidence.Next, Evidence.Honest, Pipeline.Enabled, Pipeline.Next, Pipeline.Bounded;
    if steps != [] {
      HonestRunProjects(h, k, u, clock, Next(h, k, u, clock, s, steps[0]), steps[1..], s');
      assert steps[0].Collect? ==> Collected(steps)[1..] == Collected(steps[1..]);
    }
  }

  /** The verdict end to end: whatever uploads, verifications, crashes and
      redeliveries interleave, what custody says of a verification is that it
      passed if and only if the file had the digest of the stored original and the
      case id is not blank; and otherwise that the file was tampered with, unless
      the case id is blank. */
  lemma CustodyTellsTheTruth(h: Sha256, k: Evidence.HashSign, u: Uuid, clock: Clock, steps: seq<Step>, s: State, i: nat, n: nat)
    requires HonestRun(h, k, u, clock, START, steps, s)
    requires i < |s.collector.events| && s.collector.events[i].VerificationDone?
    requires n < |s.pipe.custody.events| && s.pipe.custody.events[n].eventId == s.collector.events[i].eventId
    ensures var c, e := s.pipe.custody.events[n], s.collector.events[i];
      && c.artifactId == e.artifactId && e.artifactId in s.collector.artifacts
      && var art := s.collector.artifacts[e.artifactId];
         var named, same := Strip(art.caseId) != "", e.currentHash == k.digest(art.content);
      && Get(c.payload, "original_hash") == Some(Str(k.digest(art.content))) && Get(c.payload, "current_hash") == Some(Str(e.currentHash))
      && (c.eventType == "VerificationPassed" <==> named && same) && (c.eventType == "VerificationFailed" <==> !(named && same))
      && (Get(c.payload, "verification_result") == Some(Str("VALID")) <==> named && same)
      && (Get(c.payload, "verification_result") == Some(Str("TAMPERED")) <==> named && !same)
      && (Get(c.payload, "verification_result") == Some(Str("LEDGER_CORRUPTED")) <==> !named)
  {
    hide Evidence.HonestRun, Run, HonestRun, Pipeline.Records, NamesVerdict, Pipeline.Secured;
    HonestRunProjects(h, k, u, clock, START, steps, s);
    VerificationIsAccountedFor(h, k, u, clock, steps, s, i);
    Evidence.HonestVerdicts(h, k, Collected(steps), s.collector, s.collector.events[i]);
    assert RecordsVerification(h, clock, s.pipe.custody.events[n], s.pipe.outbox[i], s.collector.events[i]);
    assert "VALID"[0] == 'V' && "TAMPERED"[0] == 'T' && "LEDGER_CORRUPTED"[0] == 'L';
    assert "VerificationPassed"[12] == 'P' && "VerificationFailed"[12] == 'F';
  }

  lemma ProcessedIffRecorded(t: Custody.Tables, id: string)
    requires OnceEach(t)
    ensures id in t.processed <==> exists n :: 0 <= n < |t.events| && t.events[n].eventId == id
  {
    if id in t.processed {
      var e :| e in t.events && e.eventId == id;
    }
    if exists n :: 0 <= n < |t.events| && t.events[n].eventId == id {
      var n :| 0 <= n < |t.events| && t.events[n].eventId == id;
      assert t.events[n] in t.events;
    }
  }

  lemma StartIsSafe(h: Sha256, k: Evidence.HashSign, u: Uuid, clock: Clock)
    ensures Safe(h, k, u, clock, START)
  {
    Evidence.StartIsSafe(h, k);
  }
}
