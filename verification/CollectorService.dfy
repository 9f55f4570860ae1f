/** The collector as it stands: an object over its two tables that calls the
    ledger service, with the handlers of
    services/evidence-collector/routers/evidence.py run from end to end.
    UploadIsRun and VerificationIsRun tie them to the steps of module Evidence,
    whose results cover every interleaving. */
module CollectorService {
  import opened Basics
  import opened CanonicalJson
  import opened HashChain
  import opened LedgerValidator
  import opened Ledger
  import opened LedgerStore
  import opened Evidence

  const CHUNK := 1024 * 1024

  /** What goes wrong during an upload, if anything does. ReplyLost: the ledger
      commits but the caller is told it failed. RefreshFails: the finalising
      commit took effect and a later statement raised. */
  datatype UploadFault =
    NoTrouble | StorageFails | SaveFails | SignFails | LedgerRefuses | ReplyLost | FinaliseFails | RefreshFailed

  /** What the caller sends and what the handler draws: a fresh artifact id and
      event id, and the ledger's record id and clock. noted: if it comes to
      writing INGESTION_FAILED, that write takes effect. */
  datatype UploadInput = UploadInput(a: string, caseId: string, body: Bytes, at: string,
                                     eventId: string, recordId: nat, now: int, noted: bool)

  datatype Stores = Stores(artifacts: map<string, Artifact>, events: seq<DomainEvent>, ledger: Db)

  function ProofEntry(k: Keys, i: UploadInput): Entry {
    Entry(ProofRequest(i.a, i.caseId, k.digest(i.body), k.sign(k.digest(i.body)), i.at), i.recordId, i.now)
  }

  predicate Refused(st: Stores, i: UploadInput, fault: UploadFault) {
    fault.LedgerRefuses? || exists r | r in st.ledger.rows :: r.recordId == i.recordId
  }

  /** What an upload leaves behind, for each way it can go. */
  function AfterUpload(h: Sha256, k: Keys, st: Stores, i: UploadInput, fault: UploadFault): Stores {
    var hash := k.digest(i.body);
    var failed := PendingArtifact(i.caseId, i.body).(status := if i.noted then IngestionFailed else Pending);
    var complete := Artifact(i.caseId, i.body, |i.body|, if fault.RefreshFailed? && i.noted then IngestionFailed else Ingested,
                             Some(hash), Some(k.sign(hash)), Some(i.recordId));
    if fault.StorageFails? || fault.SaveFails? then st
    else if fault.SignFails? || Refused(st, i, fault) then st.(artifacts := st.artifacts[i.a := failed])
    else if fault.ReplyLost? || fault.FinaliseFails? then
      st.(artifacts := st.artifacts[i.a := failed], ledger := Append(h, st.ledger, ProofEntry(k, i)))
    else
      Stores(st.artifacts[i.a := complete], st.events + [EvidenceIngested(i.eventId, i.a, hash, i.recordId)],
             Append(h, st.ledger, ProofEntry(k, i)))
  }

  /** The request body arrives in chunks of at most a mebibyte and is stored as
      it is, with its size counted along the way. */
  method ReceiveFile(body: Bytes) returns (stored: Bytes, size: nat)
    ensures stored == body && size == |body|
  {
    stored, size := [], 0;
    var position := 0;
    while true
      invariant 0 <= position <= |body| && stored == body[..position] && size == position
      decreases |body| - position
    {
      var end := if position + CHUNK < |body| then position + CHUNK else |body|;
      var chunk := body[position..end];
      if chunk == [] {
        break;
      }
      stored := stored + chunk;
      size := size + |chunk|;
      position := end;
    }
  }

  /** What the caller of a verification sends and what the handler draws. */
  datatype VerifyInput = VerifyInput(a: string, file: Bytes, requestId: string, eventId: string,
                                     verifier: string, at: string, recordId: nat, now: int)

  /** What goes wrong during a verification: either outbox write may be lost,
      each of the four calls may fail, the ledger may report an error of its own
      as an invalid chain, and the append of the result may fail. */
  datatype VerifyTrouble = VerifyTrouble(requestLost: bool, hashFails: bool, proofFails: bool, signatureFails: bool,
                                         validationFails: bool, serverError: bool, append: Failure, eventLost: bool)

  predicate CallsSucceed(t: VerifyTrouble) {
    !t.hashFails && !t.proofFails && !t.signatureFails && !t.validationFails
  }

  function ResultRequest(i: VerifyInput, caseId: string, verdict: Verdict, original: string, current: string): Request {
    VerificationRequest(i.a, caseId, verdict, original, current, i.verifier, i.at)
  }

  function Requested(i: VerifyInput, t: VerifyTrouble): seq<DomainEvent> {
    if t.requestLost then [] else [VerificationRequested(i.requestId, i.a)]
  }

  /** The state a verification judged on proof r leaves, and its verdict. */
  ghost predicate AfterVerification(h: Sha256, k: Keys, st: Stores, i: VerifyInput, t: VerifyTrouble, r: Row,
                                    st': Stores, verdict: Verdict)
    requires i.a in st.artifacts && r.hashValue.Some? && r.signatureValue.Some?
  {
    var caseId, original, current := st.artifacts[i.a].caseId, r.hashValue.value, k.digest(i.file);
    var commits := Commits(st.ledger.rows, i.recordId, t.append);
    var done := VerificationDone(i.eventId, i.a, verdict.Valid?, verdict, original, current,
                                 if commits && t.append.Never? then Some(i.recordId) else None);
    && Fits(ReportsValid(h, st.ledger, caseId, t.serverError), k.verify(original, r.signatureValue.value), original, current, verdict)
    && st'.artifacts == st.artifacts
    && st'.ledger == (if commits then Append(h, st.ledger, Entry(ResultRequest(i, caseId, verdict, original, current), i.recordId, i.now))
                      else st.ledger)
    && st'.events == st.events + Requested(i, t) + (if t.eventLost then [] else [done])
  }

  class Collector {
    var artifacts: map<string, Artifact>
    var events: seq<DomainEvent>
    const ledger: LedgerService

    ghost function State(): Stores
      reads this, ledger
    {
      Stores(artifacts, events, ledger.Tables())
    }

    constructor (ledger: LedgerService)
      ensures this.ledger == ledger && artifacts == map[] && events == []
    {
      this.ledger := ledger;
      artifacts, events := map[], [];
    }

    /** The write of INGESTION_FAILED, if it takes effect. */
    method MarkFailed(a: string, noted: bool)
      requires a in artifacts
      modifies this`artifacts
      ensures artifacts == if noted then old(artifacts)[a := old(artifacts)[a].(status := IngestionFailed)] else old(artifacts)
    {
      if noted {
        artifacts := artifacts[a := artifacts[a].(status := IngestionFailed)];
      }
    }

    /** upload_evidence. The answer is the HTTP status. The caller is told 201
        only for an INGESTED artifact, and told of a failure for such a one only
        if the failure could not be written over it. 503 says that the hash-sign
        service or the ledger failed and that INGESTION_FAILED has been written. */
    method UploadEvidence(h: Sha256, k: HashSign, i: UploadInput, fault: UploadFault) returns (status: int)
      requires i.a !in artifacts
      modifies this, ledger
      ensures State() == AfterUpload(h, k, old(State()), i, fault)
      ensures status == 201 <==> i.a in artifacts && artifacts[i.a].status.Ingested? && !(fault.RefreshFailed? && !i.noted)
      ensures status == 503 <==> i.noted && !fault.StorageFails? && !fault.SaveFails? &&
                                 (fault.SignFails? || fault.ReplyLost? || Refused(old(State()), i, fault))
      ensures status == 201 || status == 503 || status == 500
    {
      var stored, size := ReceiveFile(i.body);
      if fault.StorageFails? || fault.SaveFails? {
        return 500;
      }
      artifacts := artifacts[i.a := Artifact(i.caseId, stored, size, Pending, None, None, None)];
      if fault.SignFails? {
        MarkFailed(i.a, i.noted);
        assert artifacts == old(artifacts)[i.a := artifacts[i.a]];
        return if i.noted then 503 else 500;
      }
      status := RecordAndFinalise(h, i, k.digest(stored), k.sign(k.digest(stored)), fault);
      assert artifacts == old(artifacts)[i.a := artifacts[i.a]];
    }

    /** The part of the handler after hashing and signing. */
    method RecordAndFinalise(h: Sha256, i: UploadInput, hash: string, signature: string, fault: UploadFault) returns (status: int)
      requires i.a in artifacts && artifacts[i.a] == PendingArtifact(i.caseId, i.body)
      modifies this, ledger
      ensures var refused := fault.LedgerRefuses? || exists r | r in old(ledger.rows) :: r.recordId == i.recordId;
        var entry := Entry(ProofRequest(i.a, i.caseId, hash, signature, i.at), i.recordId, i.now);
        var completed := !refused && !fault.ReplyLost? && !fault.FinaliseFails?;
        && ledger.Tables() == (if refused then old(ledger.Tables()) else Append(h, old(ledger.Tables()), entry))
        && events == old(events) + (if completed then [EvidenceIngested(i.eventId, i.a, hash, i.recordId)] else [])
        && artifacts == old(artifacts)[i.a := Artifact(i.caseId, i.body, |i.body|,
             if completed && !(fault.RefreshFailed? && i.noted) then Ingested else if i.noted then IngestionFailed else Pending,
             if completed then Some(hash) else None, if completed then Some(signature) else None,
             if completed then Some(i.recordId) else None)]
        && (status == 201 <==> completed && !fault.RefreshFailed?)
        && (status == 503 <==> i.noted && (refused || fault.ReplyLost?))
        && (status == 201 || status == 503 || status == 500)
    {
      var reply := ledger.AppendRecord(h, ProofRequest(i.a, i.caseId, hash, signature, i.at), i.recordId, i.now,
                                       if fault.LedgerRefuses? then OnCommit else Never);
      if reply.NotAppended? || fault.ReplyLost? || fault.FinaliseFails? {
        MarkFailed(i.a, i.noted);
        return if i.noted && !(fault.FinaliseFails? && reply.Appended?) then 503 else 500;
      }
      artifacts := artifacts[i.a := artifacts[i.a].(hashValue := Some(hash), signatureValue := Some(signature),
                                                    ledgerRecordId := Some(reply.recordId), status := Ingested)];
      events := events + [EvidenceIngested(i.eventId, i.a, hash, reply.recordId)];
      status := 201;
      if fault.RefreshFailed? {
        MarkFailed(i.a, i.noted);
        status := 500;
      }
    }

    /** verify_evidence. There is a verdict if the artifact exists, no call fails
        and the ledger has a proof to fetch; without it nothing but the request is
        recorded. A verdict is judged on a latest proof and on the ledger as it
        was; the verification record is appended if the ledger is willing, and the
        event says whether it was known to be. */
    method VerifyEvidence(h: Sha256, k: HashSign, i: VerifyInput, t: VerifyTrouble) returns (verdict: Option<Verdict>)
      modifies this`events, ledger
      ensures i.a in artifacts && CallsSucceed(t) && (exists r | r in old(ledger.rows) :: ProofOf(i.a)(r)) &&
              (forall r | IsLatestProof(old(ledger.Tables()), i.a, r) :: r.hashValue.Some? && r.signatureValue.Some?) ==>
                verdict.Some?
      ensures verdict.Some? ==> i.a in artifacts && CallsSucceed(t)
      ensures verdict.None? ==>
        ledger.Tables() == old(ledger.Tables()) && events == old(events) + if i.a in artifacts then Requested(i, t) else []
      ensures verdict.Some? ==>
        (exists r :: IsLatestProof(old(ledger.Tables()), i.a, r) && r.hashValue.Some? && r.signatureValue.Some? &&
                     AfterVerification(h, k, old(State()), i, t, r, State(), verdict.value))
      ensures verdict == Some(Valid) ==>
        ReportsValid(h, old(ledger.Tables()), artifacts[i.a].caseId, t.serverError) &&
        (exists r :: IsLatestProof(old(ledger.Tables()), i.a, r) && r.hashValue == Some(k.digest(i.file)) &&
                     r.signatureValue.Some? && k.verify(k.digest(i.file), r.signatureValue.value))
    {
      hide Judge, ReportsValid, Append;
      if i.a !in artifacts {
        return None;
      }
      if !t.requestLost {
        events := events + [VerificationRequested(i.requestId, i.a)];
      }
      var stored, size := ReceiveFile(i.file);
      if t.hashFails {
        return None;
      }
      var current := k.digest(stored);
      var proof := ledger.GetProofByArtifactId(i.a);
      if t.proofFails || proof.NoProof? || proof.hashValue.None? || proof.signatureValue.None? {
        return None;
      }
      var original, signature := proof.hashValue.value, proof.signatureValue.value;
      if t.signatureFails {
        return None;
      }
      var signatureValid := k.verify(original, signature);
      if t.validationFails {
        return None;
      }
      var result := JudgeAndRecord(h, i, t, original, current, signatureValid);
      verdict := Some(result);
    }

    /** The part of the handler after the proof has been checked. */
    method JudgeAndRecord(h: Sha256, i: VerifyInput, t: VerifyTrouble, original: string, current: string, signatureValid: bool)
      returns (result: Verdict)
      requires i.a in artifacts
      modifies this`events, ledger
      ensures Fits(ReportsValid(h, old(ledger.Tables()), artifacts[i.a].caseId, t.serverError), signatureValid, original, current, result)
      ensures var commits := Commits(old(ledger.rows), i.recordId, t.append);
        && ledger.Tables() == (if commits
             then Append(h, old(ledger.Tables()),
                         Entry(ResultRequest(i, artifacts[i.a].caseId, result, original, current), i.recordId, i.now))
             else old(ledger.Tables()))
        && events == old(events) + if t.eventLost then [] else
             [VerificationDone(i.eventId, i.a, result.Valid?, result, original, current,
                               if commits && t.append.Never? then Some(i.recordId) else None)]
    {
      var chain := ledger.ValidateLedgerChain(h, artifacts[i.a].caseId, t.serverError);
      result := Judge(chain.chainValid, signatureValid, original, current);
      JudgeFits(chain.chainValid, signatureValid, original, current);
      var reply := ledger.AppendRecord(h, ResultRequest(i, artifacts[i.a].caseId, result, original, current), i.recordId, i.now, t.append);
      if !t.eventLost {
        events := events + [VerificationDone(i.eventId, i.a, result.Valid?, result, original, current,
                                             if reply.Appended? then Some(reply.recordId) else None)];
      }
    }
  }

  /** In every state module Evidence can reach, what VerifyEvidence asks for is
      there for an INGESTED artifact, so if no call fails it gives a verdict. */
  lemma IngestedIsAnswered(h: Sha256, k: HashSign, s: Evidence.State, a: string)
    requires Evidence.Safe(h, k, s) && IsIngested(s, a)
    ensures a in s.artifacts && exists r | r in s.ledger.rows :: ProofOf(a)(r)
    ensures forall r | IsLatestProof(s.ledger, a, r) :: r.hashValue.Some? && r.signatureValue.Some?
  {
    var r := IngestedHasProof(h, k, s, a);
    FilterMember(ProofOf(a), s.ledger.rows, r);
  }

  /** The proof an upload has recorded, under the literal keys of its payload. */
  lemma ProofPayload(k: Keys, i: UploadInput)
    ensures var p := Payload(ProofEntry(k, i).request);
      && Get(p, "artifact_id") == Some(Str(i.a)) && Get(p, "case_id") == Some(Str(i.caseId))
      && Get(p, "record_type") == Some(Str("EVIDENCE_PROOF_CREATED"))
      && Get(p, "hash_algorithm") == Some(Str("SHA-256")) && Get(p, "hash_value") == Some(Str(k.digest(i.body)))
      && Get(p, "signature_algorithm") == Some(Str("RSA-SHA256"))
      && Get(p, "signature_value") == Some(Str(k.sign(k.digest(i.body))))
      && Get(p, "signer_id") == Some(Str("hash-sign-service")) && Get(p, "created_at") == Some(Str(i.at))
  {
    PayloadFields(ProofEntry(k, i).request);
  }

  /** The record a verification appends names the case, the verifier and the time
      as well as verdict and hashes, and no signature. */
  lemma ResultPayload(i: VerifyInput, caseId: string, verdict: Verdict, original: string, current: string)
    ensures var p := Payload(ResultRequest(i, caseId, verdict, original, current));
      && Get(p, "artifact_id") == Some(Str(i.a)) && Get(p, "case_id") == Some(Str(caseId))
      && Get(p, "record_type") == Some(Str("VERIFICATION_RESULT_RECORDED"))
      && (Get(p, "verification_result") == Some(Str("VALID")) <==> verdict.Valid?)
      && (Get(p, "verification_result") == Some(Str("TAMPERED")) <==> verdict.Tampered?)
      && (Get(p, "verification_result") == Some(Str("INVALID_SIGNATURE")) <==> verdict.InvalidSignature?)
      && (Get(p, "verification_result") == Some(Str("LEDGER_CORRUPTED")) <==> verdict.LedgerCorrupted?)
      && Get(p, "original_hash") == Some(Str(original)) && Get(p, "current_hash") == Some(Str(current))
      && Get(p, "verified_by") == Some(Str(i.verifier)) && Get(p, "verified_at") == Some(Str(i.at))
      && Get(p, "hash_value") == None
  {
    PayloadFields(ResultRequest(i, caseId, verdict, original, current));
    assert "VALID"[0] == 'V' && "TAMPERED"[0] == 'T' && "INVALID_SIGNATURE"[0] == 'I' && "LEDGER_CORRUPTED"[0] == 'L';
  }

  /** Whoever rewrites the stored signature of a proof, in any state module
      Evidence can reach, has every later verification of the artifact answered
      with INVALID_SIGNATURE if and only if the ledger reports the case as valid
      and the new text does not verify, whatever file is submitted; the replay of
      the chain has the same outcome as before. */
  lemma RewrittenProofJudged(h: Sha256, k: HashSign, s: Evidence.State, n: nat, text: string, i: VerifyInput, t: VerifyTrouble, r: Row,
                             st': Stores, verdict: Verdict)
    requires Evidence.Safe(h, k, s) && n < |s.ledger.rows| && s.ledger.rows[n].recordType == EVIDENCE_PROOF
    requires i.a == s.ledger.rows[n].artifactId && i.a in s.artifacts
    requires IsLatestProof(Rewritten(s.ledger, n, text), i.a, r) && r.hashValue.Some? && r.signatureValue.Some?
    requires AfterVerification(h, k, StoresOf(s).(ledger := Rewritten(s.ledger, n, text)), i, t, r, st', verdict)
    ensures verdict.InvalidSignature? <==>
      ReportsValid(h, s.ledger, s.artifacts[i.a].caseId, t.serverError) && !k.verify(k.digest(s.artifacts[i.a].content), text)
    ensures verdict.LedgerCorrupted? <==> !ReportsValid(h, s.ledger, s.artifacts[i.a].caseId, t.serverError)
  {
    hide Evidence.Safe, ReportsValid, IsLatestProof;
    RewrittenSignature(h, k, s, n, text, r, k.digest(i.file), t.serverError, verdict);
    RewrittenAccepted(h, s.ledger, n, text, s.artifacts[i.a].caseId, t.serverError);
  }

  // ----------------------------------------------- handlers as runs of Evidence

  function StoresOf(s: Evidence.State): Stores {
    Stores(s.artifacts, s.events, s.ledger)
  }

  /** The statements of an upload up to the stored file, up to the request to
      the ledger, and up to the ledger's commit. */
  function StartSteps(i: UploadInput): seq<Step> {
    [StartUpload(i.a, i.caseId, i.body)]
  }

  function SignedSteps(i: UploadInput): seq<Step> {
    StartSteps(i) + [SignOk(i.a, i.at)]
  }

  function ServedSteps(i: UploadInput): seq<Step> {
    SignedSteps(i) + [Serve(ForUpload(i.a), i.recordId, i.now)]
  }

  /** The statements an upload executes, as steps of module Evidence. */
  function UploadSteps(st: Stores, i: UploadInput, fault: UploadFault): seq<Step> {
    if fault.StorageFails? || fault.SaveFails? then []
    else if fault.SignFails? then StartSteps(i) + [UploadFails(i.a, i.noted)]
    else if Refused(st, i, fault) then SignedSteps(i) + [Drop(ForUpload(i.a))] + [UploadFails(i.a, i.noted)]
    else if fault.ReplyLost? || fault.FinaliseFails? then ServedSteps(i) + [UploadFails(i.a, i.noted)]
    else ServedSteps(i) + [UploadAnswered(i.a)] + [Finalise(i.a, i.eventId)] +
         [if fault.RefreshFailed? then RefreshFails(i.a, i.noted) else UploadEnds(i.a)]
  }

  ghost predicate MayStart(s: Evidence.State, i: UploadInput) {
    i.a !in s.artifacts && i.a !in s.uploads && FreshEvent(s, i.eventId)
  }

  /** s' is s with the artifact committed as PENDING. */
  ghost predicate Begun(s: Evidence.State, s': Evidence.State, i: UploadInput) {
    && s'.artifacts == s.artifacts[i.a := PendingArtifact(i.caseId, i.body)]
    && s'.events == s.events && i.a in s'.uploads
  }

  ghost predicate IsCalling(k: HashSign, s: Evidence.State, i: UploadInput) {
    i.a in s.uploads && s.uploads[i.a] == Calling(k.digest(i.body), k.sign(k.digest(i.body)))
  }

  /** Where an upload stands after StartSteps, SignedSteps and ServedSteps. */
  ghost predicate Started(h: Sha256, k: HashSign, s: Evidence.State, i: UploadInput, s': Evidence.State) {
    && Run(h, k, s, StartSteps(i), s') && Begun(s, s', i) && s'.ledger == s.ledger
    && s'.uploads[i.a].Stored?
  }

  ghost predicate Signed(h: Sha256, k: HashSign, s: Evidence.State, i: UploadInput, s': Evidence.State) {
    && Run(h, k, s, SignedSteps(i), s') && Begun(s, s', i) && s'.ledger == s.ledger && IsCalling(k, s', i)
    && ForUpload(i.a) in s'.calls && s'.calls[ForUpload(i.a)] == Open(ProofEntry(k, i).request)
  }

  ghost predicate Served(h: Sha256, k: HashSign, s: Evidence.State, i: UploadInput, s': Evidence.State) {
    && Run(h, k, s, ServedSteps(i), s') && Begun(s, s', i) && s'.ledger == Append(h, s.ledger, ProofEntry(k, i)) && IsCalling(k, s', i)
    && ForUpload(i.a) in s'.calls && s'.calls[ForUpload(i.a)] == Committed(ProofEntry(k, i).request, i.recordId)
  }

  lemma {:induction false} RunThen(h: Sha256, k: HashSign, s: Evidence.State, xs: seq<Step>, mid: Evidence.State, ys: seq<Step>,
                                   s': Evidence.State)
    requires Run(h, k, s, xs, mid) && Run(h, k, mid, ys, s')
    ensures Run(h, k, s, xs + ys, s')
    decreases |xs|
  {
    if xs == [] {
      assert xs + ys == ys;
    } else {
      assert (xs + ys)[1..] == xs[1..] + ys;
      RunThen(h, k, Next(h, k, s, xs[0]), xs[1..], mid, ys, s');
    }
  }

  lemma StartAndSign(h: Sha256, k: HashSign, s: Evidence.State, i: UploadInput) returns (s1: Evidence.State, s2: Evidence.State)
    requires MayStart(s, i)
    ensures Started(h, k, s, i, s1) && Signed(h, k, s, i, s2)
  {
    s1 := Next(h, k, s, StartUpload(i.a, i.caseId, i.body));
    RunOne(h, k, s, StartUpload(i.a, i.caseId, i.body));
    s2 := Next(h, k, s1, SignOk(i.a, i.at));
    RunMore(h, k, s, StartSteps(i), s1, SignOk(i.a, i.at));
  }

  lemma FinaliseAfter(h: Sha256, k: HashSign, s: Evidence.State, steps: seq<Step>, served: Evidence.State, i: UploadInput,
                      hash: string, signature: string) returns (s': Evidence.State)
    requires Run(h, k, s, steps, served) && FreshEvent(served, i.eventId)
    requires Uploading(served, i.a) && served.uploads[i.a] == Calling(hash, signature)
    requires ForUpload(i.a) in served.calls && served.calls[ForUpload(i.a)].Committed?
    requires served.calls[ForUpload(i.a)].recordId == i.recordId
    ensures Run(h, k, s, steps + [UploadAnswered(i.a)] + [Finalise(i.a, i.eventId)], s')
    ensures Uploading(s', i.a) && s'.uploads[i.a].Finalised?
    ensures s'.artifacts == served.artifacts[i.a := served.artifacts[i.a].(
      status := Ingested, hashValue := Some(hash), signatureValue := Some(signature), ledgerRecordId := Some(i.recordId))]
    ensures s'.events == served.events + [EvidenceIngested(i.eventId, i.a, hash, i.recordId)] && s'.ledger == served.ledger
  {
    var answered := Next(h, k, served, UploadAnswered(i.a));
    assert answered.uploads[i.a] == Recorded(hash, signature, i.recordId);
    s' := Next(h, k, answered, Finalise(i.a, i.eventId));
    RunMore(h, k, s, steps, served, UploadAnswered(i.a));
    RunMore(h, k, s, steps + [UploadAnswered(i.a)], answered, Finalise(i.a, i.eventId));
  }

  lemma EndAfter(h: Sha256, k: HashSign, s: Evidence.State, steps: seq<Step>, mid: Evidence.State, i: UploadInput, fails: bool)
    returns (s': Evidence.State)
    requires Run(h, k, s, steps, mid) && Uploading(mid, i.a) && mid.uploads[i.a].Finalised?
    ensures Run(h, k, s, steps + [if fails then RefreshFails(i.a, i.noted) else UploadEnds(i.a)], s')
    ensures s'.events == mid.events && s'.ledger == mid.ledger
    ensures s'.artifacts == if fails && i.noted then mid.artifacts[i.a := mid.artifacts[i.a].(status := IngestionFailed)] else mid.artifacts
  {
    var last := if fails then RefreshFails(i.a, i.noted) else UploadEnds(i.a);
    s' := Next(h, k, mid, last);
    RunMore(h, k, s, steps, mid, last);
  }

  /** From the committed append to the end of a handler that gets its answer. */
  lemma AnswerAndFinalise(h: Sha256, k: HashSign, s: Evidence.State, steps: seq<Step>, served: Evidence.State, i: UploadInput,
                          hash: string, signature: string, fails: bool)
    returns (s': Evidence.State)
    requires Run(h, k, s, steps, served) && FreshEvent(served, i.eventId)
    requires i.a in served.artifacts && i.a in served.uploads && served.uploads[i.a] == Calling(hash, signature)
    requires ForUpload(i.a) in served.calls && served.calls[ForUpload(i.a)].Committed?
    requires served.calls[ForUpload(i.a)].recordId == i.recordId
    ensures Run(h, k, s, steps + [UploadAnswered(i.a)] + [Finalise(i.a, i.eventId)] +
                         [if fails then RefreshFails(i.a, i.noted) else UploadEnds(i.a)], s')
    ensures s'.artifacts == served.artifacts[i.a := served.artifacts[i.a].(
      status := if fails && i.noted then IngestionFailed else Ingested,
      hashValue := Some(hash), signatureValue := Some(signature), ledgerRecordId := Some(i.recordId))]
    ensures s'.events == served.events + [EvidenceIngested(i.eventId, i.a, hash, i.recordId)] && s'.ledger == served.ledger
  {
    hide Next, Enabled;
    var soFar := steps + [UploadAnswered(i.a)] + [Finalise(i.a, i.eventId)];
    var finalised := FinaliseAfter(h, k, s, steps, served, i, hash, signature);
    s' := EndAfter(h, k, s, soFar, finalised, i, fails);
  }

  lemma FailAfter(h: Sha256, k: HashSign, s: Evidence.State, steps: seq<Step>, mid: Evidence.State, a: string, noted: bool)
    returns (s': Evidence.State)
    requires Run(h, k, s, steps, mid) && Uploading(mid, a) && (mid.uploads[a].Stored? || mid.uploads[a].Calling?)
    ensures Run(h, k, s, steps + [UploadFails(a, noted)], s')
    ensures s'.artifacts == if noted then mid.artifacts[a := mid.artifacts[a].(status := IngestionFailed)] else mid.artifacts
    ensures s'.events == mid.events && s'.ledger == mid.ledger
  {
    s' := Next(h, k, mid, UploadFails(a, noted));
    RunMore(h, k, s, steps, mid, UploadFails(a, noted));
  }

  lemma ServeAfter(h: Sha256, k: HashSign, s: Evidence.State, steps: seq<Step>, mid: Evidence.State, i: UploadInput)
    returns (s': Evidence.State)
    requires Run(h, k, s, steps, mid) && ForUpload(i.a) in mid.calls && mid.calls[ForUpload(i.a)] == Open(ProofEntry(k, i).request)
    requires forall r | r in mid.ledger.rows :: r.recordId != i.recordId
    ensures Run(h, k, s, steps + [Serve(ForUpload(i.a), i.recordId, i.now)], s')
    ensures s'.artifacts == mid.artifacts && s'.events == mid.events && s'.uploads == mid.uploads
    ensures s'.ledger == Append(h, mid.ledger, ProofEntry(k, i))
    ensures ForUpload(i.a) in s'.calls && s'.calls[ForUpload(i.a)] == Committed(ProofEntry(k, i).request, i.recordId)
  {
    s' := Next(h, k, mid, Serve(ForUpload(i.a), i.recordId, i.now));
    RunMore(h, k, s, steps, mid, Serve(ForUpload(i.a), i.recordId, i.now));
  }

  lemma DropAfter(h: Sha256, k: HashSign, s: Evidence.State, steps: seq<Step>, mid: Evidence.State, a: string)
    returns (s': Evidence.State)
    requires Run(h, k, s, steps, mid) && ForUpload(a) in mid.calls && mid.calls[ForUpload(a)].Open?
    ensures Run(h, k, s, steps + [Drop(ForUpload(a))], s')
    ensures StoresOf(s') == StoresOf(mid) && s'.uploads == mid.uploads
  {
    s' := Next(h, k, mid, Drop(ForUpload(a)));
    RunMore(h, k, s, steps, mid, Drop(ForUpload(a)));
  }

  lemma ServedIsRun(h: Sha256, k: HashSign, s: Evidence.State, i: UploadInput) returns (served: Evidence.State)
    requires MayStart(s, i) && !Refused(StoresOf(s), i, NoTrouble)
    ensures Served(h, k, s, i, served)
  {
    hide Next, Enabled;
    var s1, s2 := StartAndSign(h, k, s, i);
    served := ServeAfter(h, k, s, SignedSteps(i), s2, i);
  }

  /** The upload goes wrong or right in this way, as a run. */
  ghost predicate IsRunOf(h: Sha256, k: HashSign, s: Evidence.State, i: UploadInput, fault: UploadFault, s': Evidence.State) {
    Run(h, k, s, UploadSteps(StoresOf(s), i, fault), s') && StoresOf(s') == AfterUpload(h, k, StoresOf(s), i, fault)
  }

  lemma UnsignedIsRun(h: Sha256, k: HashSign, s: Evidence.State, i: UploadInput) returns (s': Evidence.State)
    requires MayStart(s, i)
    ensures IsRunOf(h, k, s, i, SignFails, s')
  {
    hide Next, Enabled;
    var s1, s2 := StartAndSign(h, k, s, i);
    s' := FailAfter(h, k, s, StartSteps(i), s1, i.a, i.noted);
  }

  lemma RefusedIsRun(h: Sha256, k: HashSign, s: Evidence.State, i: UploadInput, fault: UploadFault) returns (s': Evidence.State)
    requires MayStart(s, i) && !fault.StorageFails? && !fault.SaveFails? && !fault.SignFails? && Refused(StoresOf(s), i, fault)
    ensures IsRunOf(h, k, s, i, fault, s')
  {
    hide Next, Enabled;
    var s1, s2 := StartAndSign(h, k, s, i);
    var dropped := DropAfter(h, k, s, SignedSteps(i), s2, i.a);
    s' := FailAfter(h, k, s, SignedSteps(i) + [Drop(ForUpload(i.a))], dropped, i.a, i.noted);
  }

  lemma LostIsRun(h: Sha256, k: HashSign, s: Evidence.State, i: UploadInput, fault: UploadFault) returns (s': Evidence.State)
    requires MayStart(s, i) && (fault.ReplyLost? || fault.FinaliseFails?) && !Refused(StoresOf(s), i, fault)
    ensures IsRunOf(h, k, s, i, fault, s')
  {
    hide Next, Enabled;
    var served := ServedIsRun(h, k, s, i);
    s' := FailAfter(h, k, s, ServedSteps(i), served, i.a, i.noted);
  }

  lemma CompletedIsRun(h: Sha256, k: HashSign, s: Evidence.State, i: UploadInput, fault: UploadFault) returns (s': Evidence.State)
    requires MayStart(s, i) && (fault.NoTrouble? || fault.RefreshFailed?) && !Refused(StoresOf(s), i, fault)
    ensures IsRunOf(h, k, s, i, fault, s')
  {
    hide Next, Enabled;
    var served := ServedIsRun(h, k, s, i);
    s' := AnswerAndFinalise(h, k, s, ServedSteps(i), served, i, k.digest(i.body), k.sign(k.digest(i.body)), fault.RefreshFailed?);
  }

  /** Each way an upload can go is a run of module Evidence from the same stores
      to the same stores. */
  lemma UploadIsRun(h: Sha256, k: HashSign, s: Evidence.State, i: UploadInput, fault: UploadFault)
    returns (s': Evidence.State)
    requires MayStart(s, i)
    ensures Run(h, k, s, UploadSteps(StoresOf(s), i, fault), s')
    ensures StoresOf(s') == AfterUpload(h, k, StoresOf(s), i, fault)
  {
    if fault.StorageFails? || fault.SaveFails? {
      s' := s;
    } else if fault.SignFails? {
      s' := UnsignedIsRun(h, k, s, i);
    } else if Refused(StoresOf(s), i, fault) {
      s' := RefusedIsRun(h, k, s, i, fault);
    } else if fault.ReplyLost? || fault.FinaliseFails? {
      s' := LostIsRun(h, k, s, i, fault);
    } else {
      s' := CompletedIsRun(h, k, s, i, fault);
    }
  }

  /** Where a verification stands when its verdict has been found on proof r. */
  ghost predicate JudgedOn(h: Sha256, k: HashSign, s: Evidence.State, v: nat, i: VerifyInput, t: VerifyTrouble, r: Row,
                           verdict: Verdict, s': Evidence.State)
    requires i.a in s.artifacts && r.hashValue.Some? && r.signatureValue.Some?
  {
    var caseId, original, current := s.artifacts[i.a].caseId, r.hashValue.value, k.digest(i.file);
    && Fits(ReportsValid(h, s.ledger, caseId, t.serverError), k.verify(original, r.signatureValue.value), original, current, verdict)
    && s'.artifacts == s.artifacts && s'.ledger == s.ledger && s'.events == s.events + Requested(i, t)
    && AwaitsRecord(k, s', v, ResultRequest(i, caseId, verdict, original, current), i.a, i.file, original, verdict)
  }

  ghost predicate AwaitsRecord(k: HashSign, s: Evidence.State, v: nat, q: Request, a: string, file: Bytes, original: string, verdict: Verdict) {
    && v in s.verifications && s.verifications[v] == Judged(a, file, original, verdict)
    && ForVerification(v) in s.calls && s.calls[ForVerification(v)] == Open(q)
  }

  lemma FetchIsRun(h: Sha256, k: HashSign, s: Evidence.State, v: nat, i: VerifyInput, t: VerifyTrouble, r: Row)
    returns (steps: seq<Step>, s': Evidence.State)
    requires v !in s.verifications && i.a in s.artifacts && FreshEvent(s, i.requestId)
    requires IsLatestProof(s.ledger, i.a, r) && r.hashValue.Some? && r.signatureValue.Some?
    ensures Run(h, k, s, steps, s') && s'.artifacts == s.artifacts && s'.ledger == s.ledger && s'.events == s.events + Requested(i, t)
    ensures v in s'.verifications && s'.verifications[v] == Fetched(i.a, i.file, r.hashValue.value, r.signatureValue.value)
  {
    var step1, step2 := StartVerification(v, i.a, i.file, i.requestId, !t.requestLost), FetchProof(v, r);
    var s1 := Next(h, k, s, step1);
    assert s1.verifications[v] == Hashed(i.a, i.file) && s1.ledger == s.ledger;
    s' := Next(h, k, s1, step2);
    RunOne(h, k, s, step1);
    RunMore(h, k, s, [step1], s1, step2);
    steps := [step1] + [step2];
  }

  lemma CheckIsRun(h: Sha256, k: HashSign, s: Evidence.State, v: nat, i: VerifyInput, t: VerifyTrouble, original: string, signature: string)
    returns (steps: seq<Step>, s': Evidence.State, verdict: Verdict)
    requires v in s.verifications && s.verifications[v] == Fetched(i.a, i.file, original, signature) && i.a in s.artifacts
    ensures Run(h, k, s, steps, s') && s'.artifacts == s.artifacts && s'.ledger == s.ledger && s'.events == s.events
    ensures var caseId, current := s.artifacts[i.a].caseId, k.digest(i.file);
      Fits(ReportsValid(h, s.ledger, caseId, t.serverError), k.verify(original, signature), original, current, verdict) &&
      AwaitsRecord(k, s', v, ResultRequest(i, caseId, verdict, original, current), i.a, i.file, original, verdict)
  {
    var step1, step2 := CheckSignature(v), CheckLedger(v, t.serverError, i.verifier, i.at);
    var s1 := Next(h, k, s, step1);
    assert s1.verifications[v] == Checked(i.a, i.file, original, k.verify(original, signature)) && s1.artifacts == s.artifacts;
    s' := Next(h, k, s1, step2);
    verdict := s'.verifications[v].verdict;
    RunOne(h, k, s, step1);
    RunMore(h, k, s, [step1], s1, step2);
    steps := [step1] + [step2];
  }

  /** A handler up to its verdict. */
  lemma JudgeIsRun(h: Sha256, k: HashSign, s: Evidence.State, v: nat, i: VerifyInput, t: VerifyTrouble, r: Row)
    returns (steps: seq<Step>, s': Evidence.State, verdict: Verdict)
    requires v !in s.verifications && i.a in s.artifacts && FreshEvent(s, i.requestId)
    requires IsLatestProof(s.ledger, i.a, r) && r.hashValue.Some? && r.signatureValue.Some?
    ensures Run(h, k, s, steps, s') && JudgedOn(h, k, s, v, i, t, r, verdict, s')
  {
    hide Next, Enabled;
    var first, mid := FetchIsRun(h, k, s, v, i, t, r);
    var second;
    second, s', verdict := CheckIsRun(h, k, mid, v, i, t, r.hashValue.value, r.signatureValue.value);
    RunThen(h, k, s, first, mid, second, s');
    steps := first + second;
  }

  /** The ledger's side of a call, and what it leaves the caller to see. */
  lemma CallEnds(h: Sha256, k: HashSign, s: Evidence.State, c: CallId, q: Request, recordId: nat, now: int, commits: bool)
    returns (step: Step, s': Evidence.State)
    requires c in s.calls && s.calls[c] == Open(q) && (commits ==> forall x | x in s.ledger.rows :: x.recordId != recordId)
    ensures Run(h, k, s, [step], s') && s' == s.(ledger := s'.ledger, calls := s'.calls)
    ensures s'.ledger == (if commits then Append(h, s.ledger, Entry(q, recordId, now)) else s.ledger)
    ensures c in s'.calls && s'.calls[c] == if commits then Committed(q, recordId) else Dropped(q)
  {
    step := if commits then Serve(c, recordId, now) else Drop(c);
    s' := Next(h, k, s, step);
    RunOne(h, k, s, step);
  }

  lemma AnswerIsRun(h: Sha256, k: HashSign, s: Evidence.State, v: nat, known: bool) returns (step: Step, s': Evidence.State)
    requires v in s.verifications && s.verifications[v].Judged?
    requires known ==> ForVerification(v) in s.calls && s.calls[ForVerification(v)].Committed?
    ensures Run(h, k, s, [step], s') && s' == s.(verifications := s'.verifications) && v in s'.verifications
    ensures var x := s.verifications[v];
      s'.verifications[v] == Reported(x.artifactId, x.file, x.original, x.verdict,
                                      if known then Some(s.calls[ForVerification(v)].recordId) else None)
  {
    step := if known then VerificationAnswered(v) else VerificationUnrecorded(v);
    s' := Next(h, k, s, step);
    RunOne(h, k, s, step);
  }

  /** The append of the verification record, with or without effect, and what
      the handler is told of it. */
  lemma RecordIsRun(h: Sha256, k: HashSign, s: Evidence.State, v: nat, q: Request, i: VerifyInput, append: Failure)
    returns (steps: seq<Step>, s': Evidence.State)
    requires v in s.verifications && s.verifications[v].Judged?
    requires ForVerification(v) in s.calls && s.calls[ForVerification(v)] == Open(q)
    ensures var commits := Commits(s.ledger.rows, i.recordId, append);
      var x := s.verifications[v];
      && Run(h, k, s, steps, s') && s'.artifacts == s.artifacts && s'.events == s.events
      && s'.ledger == (if commits then Append(h, s.ledger, Entry(q, i.recordId, i.now)) else s.ledger)
      && v in s'.verifications
      && s'.verifications[v] == Reported(x.artifactId, x.file, x.original, x.verdict,
                                         if commits && append.Never? then Some(i.recordId) else None)
  {
    hide Next, Enabled;
    var commits := Commits(s.ledger.rows, i.recordId, append);
    var step1, s1 := CallEnds(h, k, s, ForVerification(v), q, i.recordId, i.now, commits);
    var step2, s2 := AnswerIsRun(h, k, s1, v, commits && append.Never?);
    s' := s2;
    RunThen(h, k, s, [step1], s1, [step2], s2);
    steps := [step1] + [step2];
  }

  lemma EmitIsRun(h: Sha256, k: HashSign, s: Evidence.State, v: nat, i: VerifyInput, lost: bool) returns (step: Step, s': Evidence.State)
    requires v in s.verifications && s.verifications[v].Reported? && FreshEvent(s, i.eventId)
    ensures Run(h, k, s, [step], s') && s'.artifacts == s.artifacts && s'.ledger == s.ledger
    ensures var x := s.verifications[v];
      s'.events == s.events + if lost then [] else
        [VerificationDone(i.eventId, x.artifactId, x.verdict.Valid?, x.verdict, x.original, k.digest(x.file), x.recordId)]
  {
    step := EmitVerdict(v, i.eventId, !lost);
    s' := Next(h, k, s, step);
    RunOne(h, k, s, step);
  }

  /** Each way a verification that reaches a verdict can go is a run of module
      Evidence from the same stores to the same stores. */
  lemma VerificationIsRun(h: Sha256, k: HashSign, s: Evidence.State, v: nat, i: VerifyInput, t: VerifyTrouble, r: Row,
                          st': Stores, verdict: Verdict) returns (steps: seq<Step>, s': Evidence.State)
    requires v !in s.verifications && i.a in s.artifacts
    requires FreshEvent(s, i.requestId) && FreshEvent(s, i.eventId) && i.requestId != i.eventId
    requires IsLatestProof(s.ledger, i.a, r) && r.hashValue.Some? && r.signatureValue.Some?
    requires AfterVerification(h, k, StoresOf(s), i, t, r, st', verdict)
    ensures Run(h, k, s, steps, s') && StoresOf(s') == st'
  {
    hide Next, Enabled;
    var first, judged, found := JudgeIsRun(h, k, s, v, i, t, r);
    var q := ResultRequest(i, s.artifacts[i.a].caseId, verdict, r.hashValue.value, k.digest(i.file));
    var second, reported := RecordIsRun(h, k, judged, v, q, i, t.append);
    var last, end := EmitIsRun(h, k, reported, v, i, t.eventLost);
    s' := end;
    RunThen(h, k, s, first, judged, second, reported);
    RunThen(h, k, s, first + second, reported, [last], s');
    steps := first + second + [last];
  }
}
