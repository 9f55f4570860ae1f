/** The collector's upload and verification handlers
    (services/evidence-collector/routers/evidence.py) against the ledger: any
    number of uploads, verifications and report anchors interleave statement by
    statement; every remote call may be answered, refused, or committed by the
    ledger after the caller has given up; every handler may crash.

    An append is one step here. RunRefines in module ConcurrentLedger shows that
    this is what the statements of concurrent append transactions amount to. */
module Evidence {
  import opened Basics
  import opened CanonicalJson
  import opened HashChain
  import opened LedgerValidator
  import opened Ledger

  // ------------------------------------------------------------ hash and sign

  type Bytes = seq<bv8>

  /** The hash-sign service: file digests and RSA signatures (section 8.2 of RFC
      8017) are any functions such that a signature verifies its own hash. */
  datatype Keys = Keys(digest: Bytes -> string, sign: string -> string, verify: (string, string) -> bool)

  ghost predicate Correct(k: Keys) {
    forall d :: k.verify(d, k.sign(d))
  }

  type HashSign = k: Keys | Correct(k) ghost witness Keys(b => "", d => d, (d, g) => true)

  // ------------------------------------------------------------------- tables

  datatype Status = Pending | Ingested | IngestionFailed

  /** A row of artifacts; content is the stored original. */
  datatype Artifact = Artifact(caseId: string, content: Bytes, fileSize: nat, status: Status,
                               hashValue: Option<string>, signatureValue: Option<string>, ledgerRecordId: Option<nat>)

  /** An artifact as it is first committed. */
  function PendingArtifact(caseId: string, content: Bytes): Artifact {
    Artifact(caseId, content, |content|, Pending, None, None, None)
  }

  datatype Verdict = Valid | Tampered | InvalidSignature | LedgerCorrupted

  function VerdictText(v: Verdict): string {
    match v
    case Valid => "VALID"
    case Tampered => "TAMPERED"
    case InvalidSignature => "INVALID_SIGNATURE"
    case LedgerCorrupted => "LEDGER_CORRUPTED"
  }

  /** What the handlers write to the outbox; ledgerRecordId of a verification is
      None where the code writes an empty string. */
  datatype DomainEvent =
    | EvidenceIngested(eventId: string, artifactId: string, hashValue: string, ledgerRecordId: nat)
    | VerificationRequested(eventId: string, artifactId: string)
    | VerificationDone(eventId: string, artifactId: string, passed: bool, result: Verdict,
                       originalHash: string, currentHash: string, verifiedRecordId: Option<nat>)
    | Accessed(eventId: string, artifactId: string, downloaded: bool)

  // ---------------------------------------------------------- handlers at work

  /** Where the upload of an artifact stands. */
  datatype Upload =
    | Stored                                              // committed as PENDING
    | Calling(hash: string, signature: string)            // AppendProofRecord under way
    | Recorded(hash: string, signature: string, recordId: nat)
    | Finalised                                           // committed, not yet refreshed
    | Closed

  /** Where a verification stands; file is what the caller submitted. */
  datatype Verification =
    | Hashed(artifactId: string, file: Bytes)
    | Fetched(artifactId: string, file: Bytes, original: string, signature: string)
    | Checked(artifactId: string, file: Bytes, original: string, signatureValid: bool)
    | Judged(artifactId: string, file: Bytes, original: string, verdict: Verdict)
    | Reported(artifactId: string, file: Bytes, original: string, verdict: Verdict, recordId: Option<nat>)
    | Over

  datatype CallId = ForUpload(artifactId: string) | ForVerification(v: nat) | ForReport(n: nat)

  /** A ledger append as the ledger sees it. */
  datatype Call = Open(request: Request) | Committed(request: Request, recordId: nat) | Dropped(request: Request)

  datatype State = State(
    artifacts: map<string, Artifact>, events: seq<DomainEvent>, uploads: map<string, Upload>,
    verifications: map<nat, Verification>, calls: map<CallId, Call>, ledger: Db)

  const START := State(map[], [], map[], map[], map[], EMPTY_DB)

  function ProofRequest(artifactId: string, caseId: string, hash: string, signature: string, at: string): Request {
    AppendProof(artifactId, caseId, EVIDENCE_PROOF, "SHA-256", hash, "RSA-SHA256", signature, "hash-sign-service", at)
  }

  const VERIFICATION_RECORD := "VERIFICATION_RESULT_RECORDED"
  const REPORT_RECORD := "REPORT_PROOF_CREATED"

  function VerificationRequest(artifactId: string, caseId: string, verdict: Verdict, original: string, current: string,
                               verifier: string, at: string): Request {
    AppendVerification(artifactId, caseId, VERIFICATION_RECORD, VerdictText(verdict), original, current, verifier, at)
  }

  function ReportRequest(reportId: string, caseId: string, hash: string, author: string, at: string): Request {
    AppendProof(reportId, caseId, REPORT_RECORD, "SHA-256", hash, "", "", author, at)
  }

  /** The most severe condition wins. */
  function Judge(chainValid: bool, signatureValid: bool, original: string, current: string): Verdict {
    if !chainValid then LedgerCorrupted
    else if !signatureValid then InvalidSignature
    else if current != original then Tampered
    else Valid
  }

  /** What each verdict says: the ledger does not report the case as valid; it
      does, but the stored signature does not verify the stored hash; it does, but
      the file has another digest; or none of these. */
  ghost predicate Fits(ledgerValid: bool, verifies: bool, original: string, current: string, v: Verdict) {
    && (v.LedgerCorrupted? <==> !ledgerValid)
    && (v.InvalidSignature? <==> ledgerValid && !verifies)
    && (v.Tampered? <==> ledgerValid && verifies && current != original)
    && (v.Valid? <==> ledgerValid && verifies && current == original)
  }

  lemma JudgeFits(ledgerValid: bool, verifies: bool, original: string, current: string)
    ensures Fits(ledgerValid, verifies, original, current, Judge(ledgerValid, verifies, original, current))
  {
  }

  datatype Step =
    | StartUpload(a: string, caseId: string, file: Bytes)
    | SignOk(a: string, at: string)
    | UploadFails(a: string, saved: bool)       // hashing, the append or the finalising commit failed
    | UploadAnswered(a: string)
    | Finalise(a: string, eventId: string)
    | RefreshFails(a: string, saved: bool)      // after the commit
    | UploadEnds(a: string)                     // responds, or crashes
    | StartVerification(v: nat, a: string, file: Bytes, eventId: string, written: bool)
    | FetchProof(v: nat, row: Row)
    | CheckSignature(v: nat)
    | CheckLedger(v: nat, serverError: bool, verifier: string, at: string)
    | VerificationAnswered(v: nat)
    | VerificationUnrecorded(v: nat)            // the append failed or timed out
    | EmitVerdict(v: nat, eventId: string, written: bool)
    | VerificationEnds(v: nat)                  // an error response, or a crash
    | Access(a: string, eventId: string, downloaded: bool)
    | AnchorReport(n: nat, reportId: string, caseId: string, hash: string, author: string, at: string)
    | Serve(c: CallId, recordId: nat, now: int) // the ledger commits an append
    | Drop(c: CallId)                           // or rolls it back

  predicate FreshEvent(s: State, eventId: string) {
    forall e | e in s.events :: e.eventId != eventId
  }

  predicate Uploading(s: State, a: string) {
    a in s.uploads && a in s.artifacts
  }

  /** Steps of an upload handler. */
  predicate OfUpload(step: Step) {
    step.StartUpload? || step.SignOk? || step.UploadFails? || step.UploadAnswered? || step.Finalise? ||
    step.RefreshFails? || step.UploadEnds?
  }

  /** Steps of a verification handler. */
  predicate OfVerification(step: Step) {
    step.StartVerification? || step.FetchProof? || step.CheckSignature? || step.CheckLedger? ||
    step.VerificationAnswered? || step.VerificationUnrecorded? || step.EmitVerdict? || step.VerificationEnds?
  }

  /** Steps of other users of the stores, and of the ledger itself. */
  predicate Elsewhere(step: Step) {
    step.Access? || step.AnchorReport? || step.Serve? || step.Drop?
  }

  predicate UploadEnabled(s: State, step: Step)
    requires OfUpload(step)
  {
    match step
    case StartUpload(a, _, _) => a !in s.artifacts && a !in s.uploads
    case SignOk(a, _) => Uploading(s, a) && s.uploads[a].Stored?
    case UploadFails(a, _) => Uploading(s, a) && (s.uploads[a].Stored? || s.uploads[a].Calling? || s.uploads[a].Recorded?)
    case UploadAnswered(a) =>
      Uploading(s, a) && s.uploads[a].Calling? && ForUpload(a) in s.calls && s.calls[ForUpload(a)].Committed?
    case Finalise(a, id) => Uploading(s, a) && s.uploads[a].Recorded? && FreshEvent(s, id)
    case RefreshFails(a, _) => Uploading(s, a) && s.uploads[a].Finalised?
    case UploadEnds(a) => Uploading(s, a)
  }

  ghost predicate VerificationEnabled(s: State, step: Step)
    requires OfVerification(step)
  {
    match step
    case StartVerification(v, a, _, id, _) => v !in s.verifications && a in s.artifacts && FreshEvent(s, id)
    case FetchProof(v, row) =>
      v in s.verifications && s.verifications[v].Hashed? &&
      IsLatestProof(s.ledger, s.verifications[v].artifactId, row) &&
      row.hashValue.Some? && row.signatureValue.Some?
    case CheckSignature(v) => v in s.verifications && s.verifications[v].Fetched?
    case CheckLedger(v, _, _, _) =>
      v in s.verifications && s.verifications[v].Checked? && s.verifications[v].artifactId in s.artifacts
    case VerificationAnswered(v) =>
      v in s.verifications && s.verifications[v].Judged? &&
      ForVerification(v) in s.calls && s.calls[ForVerification(v)].Committed?
    case VerificationUnrecorded(v) => v in s.verifications && s.verifications[v].Judged?
    case EmitVerdict(v, id, _) => v in s.verifications && s.verifications[v].Reported? && FreshEvent(s, id)
    case VerificationEnds(v) => v in s.verifications
  }

  predicate ElsewhereEnabled(s: State, step: Step)
    requires Elsewhere(step)
  {
    match step
    case Access(a, id, _) => a in s.artifacts && FreshEvent(s, id)
    case AnchorReport(n, _, _, _, _, _) => ForReport(n) !in s.calls
    case Serve(c, id, _) => c in s.calls && s.calls[c].Open? && forall r | r in s.ledger.rows :: r.recordId != id
    case Drop(c) => c in s.calls && s.calls[c].Open?
  }

  ghost predicate Enabled(s: State, step: Step) {
    if OfUpload(step) then UploadEnabled(s, step)
    else if OfVerification(step) then VerificationEnabled(s, step)
    else ElsewhereEnabled(s, step)
  }

  function SetStatus(s: State, a: string, status: Status, saved: bool): State
    requires a in s.artifacts
  {
    if saved then s.(artifacts := s.artifacts[a := s.artifacts[a].(status := status)]) else s
  }

  function Emit(s: State, e: DomainEvent, written: bool): State {
    if written then s.(events := s.events + [e]) else s
  }

  function NextUpload(k: HashSign, s: State, step: Step): State
    requires OfUpload(step) && UploadEnabled(s, step)
  {
    match step
    case StartUpload(a, caseId, file) =>
      s.(artifacts := s.artifacts[a := PendingArtifact(caseId, file)], uploads := s.uploads[a := Stored])
    case SignOk(a, at) =>
      var hash := k.digest(s.artifacts[a].content);
      var signature := k.sign(hash);
      s.(uploads := s.uploads[a := Calling(hash, signature)],
         calls := s.calls[ForUpload(a) := Open(ProofRequest(a, s.artifacts[a].caseId, hash, signature, at))])
    case UploadFails(a, saved) => SetStatus(s.(uploads := s.uploads[a := Closed]), a, IngestionFailed, saved)
    case UploadAnswered(a) =>
      s.(uploads := s.uploads[a := Recorded(s.uploads[a].hash, s.uploads[a].signature, s.calls[ForUpload(a)].recordId)])
    case Finalise(a, id) =>
      var Recorded(hash, signature, recordId) := s.uploads[a];
      s.(artifacts := s.artifacts[a := s.artifacts[a].(status := Ingested, hashValue := Some(hash),
                                                       signatureValue := Some(signature), ledgerRecordId := Some(recordId))],
         events := s.events + [EvidenceIngested(id, a, hash, recordId)],
         uploads := s.uploads[a := Finalised])
    case RefreshFails(a, saved) => SetStatus(s.(uploads := s.uploads[a := Closed]), a, IngestionFailed, saved)
    case UploadEnds(a) => s.(uploads := s.uploads[a := Closed])
  }

  ghost function NextVerification(h: Sha256, k: HashSign, s: State, step: Step): State
    requires OfVerification(step) && VerificationEnabled(s, step)
  {
    match step
    case StartVerification(v, a, file, id, written) =>
      Emit(s.(verifications := s.verifications[v := Hashed(a, file)]), VerificationRequested(id, a), written)
    case FetchProof(v, row) =>
      var Hashed(a, file) := s.verifications[v];
      s.(verifications := s.verifications[v := Fetched(a, file, row.hashValue.value, row.signatureValue.value)])
    case CheckSignature(v) =>
      var Fetched(a, file, original, signature) := s.verifications[v];
      s.(verifications := s.verifications[v := Checked(a, file, original, k.verify(original, signature))])
    case CheckLedger(v, serverError, verifier, at) =>
      var Checked(a, file, original, signatureValid) := s.verifications[v];
      var caseId, current := s.artifacts[a].caseId, k.digest(file);
      var verdict := Judge(ReportsValid(h, s.ledger, caseId, serverError), signatureValid, original, current);
      s.(verifications := s.verifications[v := Judged(a, file, original, verdict)],
         calls := s.calls[ForVerification(v) := Open(VerificationRequest(a, caseId, verdict, original, current, verifier, at))])
    case VerificationAnswered(v) =>
      var Judged(a, file, original, verdict) := s.verifications[v];
      s.(verifications := s.verifications[v := Reported(a, file, original, verdict, Some(s.calls[ForVerification(v)].recordId))])
    case VerificationUnrecorded(v) =>
      var Judged(a, file, original, verdict) := s.verifications[v];
      s.(verifications := s.verifications[v := Reported(a, file, original, verdict, None)])
    case EmitVerdict(v, id, written) =>
      var Reported(a, file, original, verdict, recordId) := s.verifications[v];
      Emit(s.(verifications := s.verifications[v := Over]),
           VerificationDone(id, a, verdict.Valid?, verdict, original, k.digest(file), recordId), written)
    case VerificationEnds(v) => s.(verifications := s.verifications[v := Over])
  }

  function NextElsewhere(h: Sha256, s: State, step: Step): State
    requires Elsewhere(step) && ElsewhereEnabled(s, step)
  {
    match step
    case Access(a, id, downloaded) => Emit(s, Accessed(id, a, downloaded), true)
    case AnchorReport(n, reportId, caseId, hash, author, at) =>
      s.(calls := s.calls[ForReport(n) := Open(ReportRequest(reportId, caseId, hash, author, at))])
    case Serve(c, recordId, now) =>
      var q := s.calls[c].request;
      s.(ledger := Append(h, s.ledger, Entry(q, recordId, now)), calls := s.calls[c := Committed(q, recordId)])
    case Drop(c) => s.(calls := s.calls[c := Dropped(s.calls[c].request)])
  }

  ghost function Next(h: Sha256, k: HashSign, s: State, step: Step): State
    requires Enabled(s, step)
  {
    if OfUpload(step) then NextUpload(k, s, step)
    else if OfVerification(step) then NextVerification(h, k, s, step)
    else NextElsewhere(h, s, step)
  }

  ghost predicate Run(h: Sha256, k: HashSign, s: State, steps: seq<Step>, s': State)
    decreases |steps|
  {
    if steps == [] then s' == s
    else Enabled(s, steps[0]) && Run(h, k, Next(h, k, s, steps[0]), steps[1..], s')
  }

  lemma RunOne(h: Sha256, k: HashSign, s: State, step: Step)
    requires Enabled(s, step)
    ensures Run(h, k, s, [step], Next(h, k, s, step))
  {
    assert [step][1..] == [];
  }

  lemma {:induction false} RunMore(h: Sha256, k: HashSign, s: State, steps: seq<Step>, mid: State, step: Step)
    requires Run(h, k, s, steps, mid) && Enabled(mid, step)
    ensures Run(h, k, s, steps + [step], Next(h, k, mid, step))
    decreases |steps|
  {
    if steps == [] {
      assert steps + [step] == [step];
      RunOne(h, k, s, step);
    } else {
      assert (steps + [step])[1..] == steps[1..] + [step];
      RunMore(h, k, Next(h, k, s, steps[0]), steps[1..], mid, step);
    }
  }

  // --------------------------------------------------------------- invariants

  /** The row was made from the request: its columns and its payload say the same. */
  ghost predicate MadeFrom(r: Row, q: Request) {
    && r.artifactId == q.artifactId && r.caseId == q.caseId && r.recordType == q.recordType && r.rawPayload == Payload(q)
    && r.hashValue == (if q.AppendProof? then Some(q.hashValue) else None)
    && r.signatureValue == (if q.AppendProof? then Some(q.signatureValue) else None)
  }

  ghost predicate IsProofRequest(k: HashSign, s: State, a: string, q: Request) {
    a in s.artifacts && q.AppendProof? &&
    var hash := k.digest(s.artifacts[a].content);
    q == ProofRequest(a, s.artifacts[a].caseId, hash, k.sign(hash), q.createdAt)
  }

  ghost predicate HasRow(s: State, recordId: nat, q: Request) {
    exists r | r in s.ledger.rows :: r.recordId == recordId && MadeFrom(r, q)
  }

  predicate PastCheck(x: Verification) {
    x.Judged? || x.Reported? || x.Over?
  }

  ghost predicate CallSound(k: HashSign, s: State, c: CallId)
    requires c in s.calls
  {
    && (c.ForUpload? ==> IsProofRequest(k, s, c.artifactId, s.calls[c].request))
    && (c.ForUpload? ==> c.artifactId in s.uploads && !s.uploads[c.artifactId].Stored?)
    && (c.ForVerification? ==> s.calls[c].request.recordType == VERIFICATION_RECORD)
    && (c.ForVerification? ==> c.v in s.verifications && PastCheck(s.verifications[c.v]))
    && (c.ForReport? ==> s.calls[c].request.recordType == REPORT_RECORD)
    && (s.calls[c].Committed? ==> HasRow(s, s.calls[c].recordId, s.calls[c].request))
  }

  ghost predicate UploadSound(k: HashSign, s: State, a: string)
    requires a in s.uploads
  {
    && a in s.artifacts
    && var hash := k.digest(s.artifacts[a].content);
    match s.uploads[a]
    case Stored => s.artifacts[a].status.Pending? && ForUpload(a) !in s.calls
    case Calling(d, g) => s.artifacts[a].status.Pending? && d == hash && g == k.sign(hash) && ForUpload(a) in s.calls
    case Recorded(d, g, id) => s.artifacts[a].status.Pending? && d == hash && g == k.sign(hash) &&
                               ForUpload(a) in s.calls && s.calls[ForUpload(a)].Committed? && s.calls[ForUpload(a)].recordId == id
    case _ => true
  }

  /** Every artifact keeps the trace of its upload. */
  ghost predicate ArtifactSound(k: HashSign, s: State, a: string)
    requires a in s.artifacts
  {
    && a in s.uploads
    && (s.artifacts[a].status.Ingested? ==> exists e | e in s.events :: e.EvidenceIngested? && e.artifactId == a)
  }

  ghost predicate EventSound(k: HashSign, s: State, e: DomainEvent) {
    && (e.EvidenceIngested? ==>
          && e.artifactId in s.artifacts && e.artifactId in s.uploads && ForUpload(e.artifactId) in s.calls
          && (s.uploads[e.artifactId].Finalised? || s.uploads[e.artifactId].Closed?)
          && s.calls[ForUpload(e.artifactId)].Committed? && s.calls[ForUpload(e.artifactId)].recordId == e.ledgerRecordId
          && var art := s.artifacts[e.artifactId];
             e.hashValue == k.digest(art.content) && art.hashValue == Some(e.hashValue) &&
             art.signatureValue == Some(k.sign(e.hashValue)) && art.ledgerRecordId == Some(e.ledgerRecordId))
    && (e.VerificationDone? ==>
          && (e.passed <==> e.result.Valid?)
          && (e.verifiedRecordId.Some? ==> VerificationOnRecord(s, e.verifiedRecordId.value, e.artifactId, e.result, e.originalHash, e.currentHash)))
  }

  /** A committed VERIFICATION_RESULT_RECORDED row with this content. */
  ghost predicate VerificationOnRecord(s: State, recordId: nat, a: string, verdict: Verdict, original: string, current: string) {
    exists q: Request :: HasRow(s, recordId, q) && q.recordType == VERIFICATION_RECORD && Reports(s, q, a, verdict, original, current)
  }

  /** The request records this verdict in the artifact's own case. */
  predicate Reports(s: State, q: Request, a: string, verdict: Verdict, original: string, current: string) {
    && q.AppendVerification? && q.artifactId == a && a in s.artifacts && q.caseId == s.artifacts[a].caseId
    && q.verificationResult == VerdictText(verdict) && q.originalHash == original && q.currentHash == current
  }

  ghost predicate VerificationSound(k: HashSign, s: State, v: nat)
    requires v in s.verifications
  {
    var x := s.verifications[v];
    && (!x.Over? ==> x.artifactId in s.artifacts)
    && (x.Fetched? || x.Checked? || x.Judged? || x.Reported? ==> x.original == k.digest(s.artifacts[x.artifactId].content))
    && (x.Fetched? ==> x.signature == k.sign(x.original))
    && (x.Checked? ==> x.signatureValid)
    && (x.Judged? ==>
          ForVerification(v) in s.calls &&
          Reports(s, s.calls[ForVerification(v)].request, x.artifactId, x.verdict, x.original, k.digest(x.file)))
    && (x.Reported? && x.recordId.Some? ==>
          VerificationOnRecord(s, x.recordId.value, x.artifactId, x.verdict, x.original, k.digest(x.file)))
  }

  /** An evidence proof row is the one its artifact's upload committed. */
  ghost predicate ProofRowSound(s: State, r: Row) {
    r.recordType == EVIDENCE_PROOF ==>
      ForUpload(r.artifactId) in s.calls && s.calls[ForUpload(r.artifactId)].Committed? &&
      s.calls[ForUpload(r.artifactId)].recordId == r.recordId && MadeFrom(r, s.calls[ForUpload(r.artifactId)].request)
  }

  ghost predicate OneIngestion(s: State) {
    forall i, j | 0 <= i < j < |s.events| :: s.events[i].eventId != s.events[j].eventId &&
      !(s.events[i].EvidenceIngested? && s.events[j].EvidenceIngested? && s.events[i].artifactId == s.events[j].artifactId)
  }

  ghost predicate CallsSound(k: HashSign, s: State) {
    forall c | c in s.calls :: CallSound(k, s, c)
  }

  ghost predicate UploadsSound(k: HashSign, s: State) {
    forall a | a in s.uploads :: UploadSound(k, s, a)
  }

  ghost predicate ArtifactsSound(k: HashSign, s: State) {
    forall a | a in s.artifacts :: ArtifactSound(k, s, a)
  }

  ghost predicate EventsSound(k: HashSign, s: State) {
    forall e | e in s.events :: EventSound(k, s, e)
  }

  ghost predicate VerificationsSound(k: HashSign, s: State) {
    forall v | v in s.verifications :: VerificationSound(k, s, v)
  }

  ghost predicate ProofRowsSound(s: State) {
    forall r | r in s.ledger.rows :: ProofRowSound(s, r)
  }

  ghost predicate Safe(h: Sha256, k: HashSign, s: State) {
    && Consistent(h, s.ledger) && UniqueIds(s.ledger.rows) && OneIngestion(s)
    && UploadsSound(k, s) && ArtifactsSound(k, s) && CallsSound(k, s)
    && EventsSound(k, s) && VerificationsSound(k, s) && ProofRowsSound(s)
  }

  // -------------------------------------------- what a step can have changed

  ghost predicate SameUpload(s: State, s': State, a: string) {
    && (a in s.artifacts <==> a in s'.artifacts) && (a in s.artifacts ==> s'.artifacts[a] == s.artifacts[a])
    && (a in s.uploads <==> a in s'.uploads) && (a in s.uploads ==> s'.uploads[a] == s.uploads[a])
  }

  ghost predicate SameCall(s: State, s': State, c: CallId) {
    (c in s.calls <==> c in s'.calls) && (c in s.calls ==> s'.calls[c] == s.calls[c])
  }

  ghost predicate SameVerification(s: State, s': State, v: nat) {
    (v in s.verifications <==> v in s'.verifications) && (v in s.verifications ==> s'.verifications[v] == s.verifications[v])
  }

  lemma UploadFrame(k: HashSign, s: State, step: Step)
    requires OfUpload(step) && UploadEnabled(s, step)
    ensures var s' := NextUpload(k, s, step);
      && s'.ledger == s.ledger && s'.verifications == s.verifications
      && (!step.Finalise? ==> s'.events == s.events) && (!step.SignOk? ==> s'.calls == s.calls)
      && (forall a | a != step.a :: SameUpload(s, s', a))
      && (forall c | c != ForUpload(step.a) :: SameCall(s, s', c))
  {
  }

  lemma VerificationFrame(h: Sha256, k: HashSign, s: State, step: Step)
    requires OfVerification(step) && VerificationEnabled(s, step)
    ensures var s' := NextVerification(h, k, s, step);
      && s'.ledger == s.ledger && s'.artifacts == s.artifacts && s'.uploads == s.uploads
      && (!step.StartVerification? && !step.EmitVerdict? ==> s'.events == s.events)
      && (!step.CheckLedger? ==> s'.calls == s.calls)
      && (forall v | v != step.v :: SameVerification(s, s', v))
      && (forall c | c != ForVerification(step.v) :: SameCall(s, s', c))
  {
  }

  lemma ElsewhereFrame(h: Sha256, s: State, step: Step)
    requires Elsewhere(step) && ElsewhereEnabled(s, step)
    ensures var s' := NextElsewhere(h, s, step);
      && s'.artifacts == s.artifacts && s'.uploads == s.uploads && s'.verifications == s.verifications
      && (!step.Serve? ==> s'.ledger == s.ledger) && (!step.Access? ==> s'.events == s.events)
  {
  }

  lemma StepFrame(h: Sha256, k: HashSign, s: State, step: Step)
    requires Enabled(s, step)
    ensures var s' := Next(h, k, s, step);
      && (!OfUpload(step) ==> s'.artifacts == s.artifacts && s'.uploads == s.uploads)
      && (!OfVerification(step) ==> s'.verifications == s.verifications)
      && (!step.Serve? ==> s'.ledger == s.ledger)
      && (!step.Finalise? && !step.StartVerification? && !step.EmitVerdict? && !step.Access? ==> s'.events == s.events)
  {
    if OfUpload(step) {
      UploadFrame(k, s, step);
    } else if OfVerification(step) {
      VerificationFrame(h, k, s, step);
    } else {
      ElsewhereFrame(h, s, step);
    }
  }

  /** What no step takes back. */
  ghost predicate Grows(s: State, s': State) {
    && (forall a | a in s.artifacts :: a in s'.artifacts &&
          s'.artifacts[a].caseId == s.artifacts[a].caseId && s'.artifacts[a].content == s.artifacts[a].content)
    && (forall a | a in s.uploads :: a in s'.uploads)
    && (forall a | a in s.uploads && a in s.artifacts && (s.uploads[a].Finalised? || s.uploads[a].Closed?) ::
          (s'.uploads[a].Finalised? || s'.uploads[a].Closed?) &&
          s'.artifacts[a].(status := s.artifacts[a].status) == s.artifacts[a])
    && (forall c | c in s.calls :: c in s'.calls && s'.calls[c].request == s.calls[c].request &&
          (s.calls[c].Committed? ==> s'.calls[c] == s.calls[c]))
    && s.ledger.rows <= s'.ledger.rows
    && s.events <= s'.events
  }

  lemma UploadGrows(k: HashSign, s: State, step: Step)
    requires OfUpload(step) && UploadEnabled(s, step)
    requires step.SignOk? ==> ForUpload(step.a) !in s.calls
    ensures Grows(s, NextUpload(k, s, step))
  {
  }

  lemma VerificationGrows(h: Sha256, k: HashSign, s: State, step: Step)
    requires OfVerification(step) && VerificationEnabled(s, step)
    requires step.CheckLedger? ==> ForVerification(step.v) !in s.calls
    ensures Grows(s, NextVerification(h, k, s, step))
  {
  }

  lemma ElsewhereGrows(h: Sha256, s: State, step: Step)
    requires Elsewhere(step) && ElsewhereEnabled(s, step)
    ensures Grows(s, NextElsewhere(h, s, step))
  {
  }

  /** A handler makes its call once. */
  lemma CallIsNew(k: HashSign, s: State, step: Step)
    requires UploadsSound(k, s) && CallsSound(k, s) && Enabled(s, step)
    ensures step.SignOk? ==> ForUpload(step.a) !in s.calls
    ensures step.CheckLedger? ==> ForVerification(step.v) !in s.calls
  {
    if step.SignOk? {
      assert UploadSound(k, s, step.a);
    }
    if step.CheckLedger? {
      assert ForVerification(step.v) in s.calls ==> CallSound(k, s, ForVerification(step.v));
    }
  }

  lemma StepGrows(h: Sha256, k: HashSign, s: State, step: Step)
    requires UploadsSound(k, s) && CallsSound(k, s) && Enabled(s, step)
    ensures Grows(s, Next(h, k, s, step))
  {
    CallIsNew(k, s, step);
    if OfUpload(step) {
      UploadGrows(k, s, step);
    } else if OfVerification(step) {
      VerificationGrows(h, k, s, step);
    } else {
      ElsewhereGrows(h, s, step);
    }
  }

  /** Handlers do not go back. */
  ghost predicate Advances(s: State, s': State) {
    && (forall a | a in s.uploads && a in s.artifacts :: a in s'.uploads && (s'.uploads[a].Stored? ==> s.uploads[a].Stored?))
    && (forall v | v in s.verifications :: v in s'.verifications && (PastCheck(s.verifications[v]) ==> PastCheck(s'.verifications[v])))
  }

  lemma UploadAdvances(k: HashSign, s: State, step: Step)
    requires OfUpload(step) && UploadEnabled(s, step)
    ensures Advances(s, NextUpload(k, s, step))
  {
  }

  lemma VerificationAdvances(h: Sha256, k: HashSign, s: State, step: Step)
    requires OfVerification(step) && VerificationEnabled(s, step)
    ensures Advances(s, NextVerification(h, k, s, step))
  {
  }

  lemma StepAdvances(h: Sha256, k: HashSign, s: State, step: Step)
    requires Enabled(s, step)
    ensures Advances(s, Next(h, k, s, step))
  {
    if OfUpload(step) {
      UploadAdvances(k, s, step);
    } else if OfVerification(step) {
      VerificationAdvances(h, k, s, step);
    } else {
      ElsewhereFrame(h, s, step);
    }
  }

  // ------------------------------------------------ every step keeps all of it

  lemma RowsKept(s: State, s': State, recordId: nat, q: Request)
    requires s.ledger.rows <= s'.ledger.rows && HasRow(s, recordId, q)
    ensures HasRow(s', recordId, q)
  {
    var r :| r in s.ledger.rows && r.recordId == recordId && MadeFrom(r, q);
    assert r in s'.ledger.rows;
  }

  lemma OnRecordKept(s: State, s': State, recordId: nat, a: string, verdict: Verdict, original: string, current: string)
    requires s.ledger.rows <= s'.ledger.rows && VerificationOnRecord(s, recordId, a, verdict, original, current)
    requires a in s.artifacts ==> a in s'.artifacts && s'.artifacts[a].caseId == s.artifacts[a].caseId
    ensures VerificationOnRecord(s', recordId, a, verdict, original, current)
  {
    var q: Request :| HasRow(s, recordId, q) && q.recordType == VERIFICATION_RECORD && Reports(s, q, a, verdict, original, current);
    RowsKept(s, s', recordId, q);
  }

  lemma ServeKeepsLedger(h: Sha256, s: State, step: Step)
    requires Consistent(h, s.ledger) && UniqueIds(s.ledger.rows) && step.Serve? && ElsewhereEnabled(s, step)
    ensures Consistent(h, NextElsewhere(h, s, step).ledger) && UniqueIds(NextElsewhere(h, s, step).ledger.rows)
  {
    var e := Entry(s.calls[step.c].request, step.recordId, step.now);
    AppendConsistent(h, s.ledger, e);
    forall i | 0 <= i < |s.ledger.rows| ensures s.ledger.rows[i].recordId != step.recordId {
      assert s.ledger.rows[i] in s.ledger.rows;
    }
  }

  lemma LedgerKept(h: Sha256, k: HashSign, s: State, step: Step)
    requires Consistent(h, s.ledger) && UniqueIds(s.ledger.rows) && Enabled(s, step)
    ensures Consistent(h, Next(h, k, s, step).ledger) && UniqueIds(Next(h, k, s, step).ledger.rows)
  {
    StepFrame(h, k, s, step);
    if step.Serve? {
      ServeKeepsLedger(h, s, step);
    }
  }

  lemma ServedRow(h: Sha256, s: State, q: Request, recordId: nat, now: int)
    ensures var rows := Append(h, s.ledger, Entry(q, recordId, now)).rows;
      rows == s.ledger.rows + [rows[|s.ledger.rows|]] && rows[|s.ledger.rows|].recordId == recordId &&
      MadeFrom(rows[|s.ledger.rows|], q) && rows[|s.ledger.rows|] in rows
  {
  }

  lemma CallKept(k: HashSign, s: State, s': State, c: CallId)
    requires Grows(s, s') && Advances(s, s') && c in s.calls && CallSound(k, s, c) && SameCall(s, s', c)
    ensures CallSound(k, s', c)
  {
    if s.calls[c].Committed? {
      RowsKept(s, s', s.calls[c].recordId, s.calls[c].request);
    }
  }

  /** The call a step makes, or the ledger answers, is sound afterwards. */
  lemma MadeCallSound(h: Sha256, k: HashSign, s: State, step: Step)
    requires Enabled(s, step)
    ensures step.SignOk? ==> CallSound(k, NextUpload(k, s, step), ForUpload(step.a))
    ensures step.CheckLedger? ==> CallSound(k, NextVerification(h, k, s, step), ForVerification(step.v))
    ensures step.AnchorReport? ==> CallSound(k, NextElsewhere(h, s, step), ForReport(step.n))
  {
  }

  lemma AnsweredCallSound(h: Sha256, k: HashSign, s: State, step: Step)
    requires CallsSound(k, s) && (step.Serve? || step.Drop?) && ElsewhereEnabled(s, step)
    ensures CallSound(k, NextElsewhere(h, s, step), step.c)
  {
    assert CallSound(k, s, step.c);
    if step.Serve? {
      ServedRow(h, s, s.calls[step.c].request, step.recordId, step.now);
    }
  }

  lemma CallsKept(h: Sha256, k: HashSign, s: State, step: Step)
    requires UploadsSound(k, s) && CallsSound(k, s) && Enabled(s, step)
    ensures CallsSound(k, Next(h, k, s, step))
  {
    hide CallSound, Grows, Advances, NextUpload, NextVerification, NextElsewhere;
    hide UploadEnabled, VerificationEnabled, ElsewhereEnabled, UploadSound;
    var s' := Next(h, k, s, step);
    StepGrows(h, k, s, step);
    StepAdvances(h, k, s, step);
    MadeCallSound(h, k, s, step);
    if step.Serve? || step.Drop? {
      AnsweredCallSound(h, k, s, step);
    }
    forall c | c in s'.calls ensures CallSound(k, s', c) {
      if c in s.calls && SameCall(s, s', c) {
        CallKept(k, s, s', c);
      } else {
        ChangedCall(h, k, s, step, c);
      }
    }
  }

  /** Which call a step can have changed. */
  lemma ChangedCall(h: Sha256, k: HashSign, s: State, step: Step, c: CallId)
    requires Enabled(s, step) && !SameCall(s, Next(h, k, s, step), c)
    ensures (step.SignOk? && c == ForUpload(step.a)) || (step.CheckLedger? && c == ForVerification(step.v)) ||
            (step.AnchorReport? && c == ForReport(step.n)) || ((step.Serve? || step.Drop?) && c == step.c)
  {
    if OfUpload(step) {
      UploadFrame(k, s, step);
    } else if OfVerification(step) {
      VerificationFrame(h, k, s, step);
    }
  }

  lemma UploadStepSound(k: HashSign, s: State, step: Step)
    requires OfUpload(step) && UploadEnabled(s, step)
    requires UploadsSound(k, s) && CallsSound(k, s)
    ensures UploadSound(k, NextUpload(k, s, step), step.a)
  {
    if step.a in s.uploads {
      assert UploadSound(k, s, step.a);
    }
    if ForUpload(step.a) in s.calls {
      assert CallSound(k, s, ForUpload(step.a));
    }
  }

  /** A call that changes under an upload was open, or is its own. */
  lemma UploadKept(k: HashSign, s: State, s': State, a: string)
    requires a in s.uploads && UploadSound(k, s, a) && SameUpload(s, s', a)
    requires ForUpload(a) in s.calls <==> ForUpload(a) in s'.calls
    requires ForUpload(a) in s.calls && s.calls[ForUpload(a)].Committed? ==> s'.calls[ForUpload(a)] == s.calls[ForUpload(a)]
    ensures UploadSound(k, s', a)
  {
  }

  lemma UploadsKept(h: Sha256, k: HashSign, s: State, step: Step)
    requires UploadsSound(k, s) && CallsSound(k, s) && Enabled(s, step)
    ensures UploadsSound(k, Next(h, k, s, step))
  {
    var s' := Next(h, k, s, step);
    StepFrame(h, k, s, step);
    forall a | a in s'.uploads ensures UploadSound(k, s', a) {
      if OfUpload(step) {
        UploadFrame(k, s, step);
        UploadStepSound(k, s, step);
      } else if OfVerification(step) {
        VerificationFrame(h, k, s, step);
        assert SameCall(s, s', ForUpload(a));
      }
      if !OfUpload(step) || a != step.a {
        assert UploadSound(k, s, a) && SameUpload(s, s', a);
        UploadKept(k, s, s', a);
      }
    }
  }

  /** The only step that makes an artifact INGESTED. */
  lemma IngestedBy(h: Sha256, k: HashSign, s: State, step: Step, a: string)
    requires Enabled(s, step) && a in Next(h, k, s, step).artifacts
    requires Next(h, k, s, step).artifacts[a].status.Ingested?
    ensures (a in s.artifacts && s.artifacts[a].status.Ingested?) || (step.Finalise? && step.a == a)
  {
    StepFrame(h, k, s, step);
    if OfUpload(step) {
      UploadFrame(k, s, step);
    }
  }

  lemma ArtifactsKept(h: Sha256, k: HashSign, s: State, step: Step)
    requires UploadsSound(k, s) && CallsSound(k, s) && ArtifactsSound(k, s) && Enabled(s, step)
    ensures ArtifactsSound(k, Next(h, k, s, step))
  {
    hide NextVerification, NextElsewhere, UploadEnabled, VerificationEnabled, ElsewhereEnabled;
    var s' := Next(h, k, s, step);
    StepGrows(h, k, s, step);
    forall a | a in s'.artifacts ensures ArtifactSound(k, s', a) {
      ArtifactIsUploaded(h, k, s, step, a);
      if s'.artifacts[a].status.Ingested? {
        IngestedBy(h, k, s, step, a);
        if step.Finalise? && step.a == a {
          assert s'.events[|s.events|] in s'.events;
        } else {
          assert ArtifactSound(k, s, a);
          var e :| e in s.events && e.EvidenceIngested? && e.artifactId == a;
          assert e in s'.events;
        }
      }
    }
  }

  lemma ArtifactIsUploaded(h: Sha256, k: HashSign, s: State, step: Step, a: string)
    requires ArtifactsSound(k, s) && Enabled(s, step) && a in Next(h, k, s, step).artifacts
    ensures a in Next(h, k, s, step).uploads
  {
    StepFrame(h, k, s, step);
    if a in s.artifacts {
      assert ArtifactSound(k, s, a);
    }
    if OfUpload(step) {
      UploadFrame(k, s, step);
    }
  }

  lemma EventKept(k: HashSign, s: State, s': State, e: DomainEvent)
    requires Grows(s, s') && EventSound(k, s, e)
    ensures EventSound(k, s', e)
  {
    if e.VerificationDone? && e.verifiedRecordId.Some? {
      OnRecordKept(s, s', e.verifiedRecordId.value, e.artifactId, e.result, e.originalHash, e.currentHash);
    }
  }

  lemma FinaliseSound(k: HashSign, s: State, step: Step)
    requires step.Finalise? && UploadEnabled(s, step) && UploadSound(k, s, step.a)
    ensures var events := NextUpload(k, s, step).events;
      events == s.events + [events[|s.events|]] && EventSound(k, NextUpload(k, s, step), events[|s.events|])
  {
  }

  lemma VerificationEventSound(h: Sha256, k: HashSign, s: State, step: Step)
    requires (step.StartVerification? || step.EmitVerdict?) && VerificationEnabled(s, step)
    requires VerificationsSound(k, s)
    ensures var s' := NextVerification(h, k, s, step);
      forall e | e in s'.events :: e in s.events || EventSound(k, s', e)
  {
    if step.EmitVerdict? {
      var s' := NextVerification(h, k, s, step);
      var x := s.verifications[step.v];
      assert VerificationSound(k, s, step.v);
      VerificationFrame(h, k, s, step);
      if x.recordId.Some? {
        OnRecordKept(s, s', x.recordId.value, x.artifactId, x.verdict, x.original, k.digest(x.file));
      }
    }
  }

  lemma EventsKept(h: Sha256, k: HashSign, s: State, step: Step)
    requires UploadsSound(k, s) && CallsSound(k, s) && EventsSound(k, s) && VerificationsSound(k, s) && Enabled(s, step)
    ensures EventsSound(k, Next(h, k, s, step))
  {
    hide Grows, NextUpload, NextVerification;
    var s' := Next(h, k, s, step);
    StepGrows(h, k, s, step);
    StepFrame(h, k, s, step);
    if step.Finalise? {
      FinaliseSound(k, s, step);
    } else if step.StartVerification? || step.EmitVerdict? {
      VerificationEventSound(h, k, s, step);
    }
    forall e | e in s'.events ensures EventSound(k, s', e) {
      if e in s.events {
        EventKept(k, s, s', e);
      }
    }
  }

  lemma FinaliseKeepsOne(k: HashSign, s: State, step: Step)
    requires step.Finalise? && UploadEnabled(s, step) && OneIngestion(s) && EventsSound(k, s)
    ensures OneIngestion(NextUpload(k, s, step))
  {
    forall i | 0 <= i < |s.events|
      ensures s.events[i].eventId != step.eventId && !(s.events[i].EvidenceIngested? && s.events[i].artifactId == step.a)
    {
      assert s.events[i] in s.events && EventSound(k, s, s.events[i]);
    }
  }

  lemma NewEventKeepsOne(s: State, s': State, e: DomainEvent)
    requires OneIngestion(s) && !e.EvidenceIngested? && FreshEvent(s, e.eventId) && s'.events == s.events + [e]
    ensures OneIngestion(s')
  {
    forall i | 0 <= i < |s.events| ensures s.events[i].eventId != e.eventId {
      assert s.events[i] in s.events;
    }
  }

  lemma OneIngestionKept(h: Sha256, k: HashSign, s: State, step: Step)
    requires OneIngestion(s) && EventsSound(k, s) && Enabled(s, step)
    ensures OneIngestion(Next(h, k, s, step))
  {
    var s' := Next(h, k, s, step);
    StepFrame(h, k, s, step);
    if step.Finalise? {
      FinaliseKeepsOne(k, s, step);
    } else if s'.events != s.events {
      NewEventKeepsOne(s, s', s'.events[|s.events|]);
    }
  }

  lemma ServedProofSound(h: Sha256, k: HashSign, s: State, step: Step)
    requires CallsSound(k, s) && ProofRowsSound(s) && step.Serve? && ElsewhereEnabled(s, step)
    ensures ProofRowsSound(NextElsewhere(h, s, step))
  {
    var s' := NextElsewhere(h, s, step);
    assert CallSound(k, s, step.c);
    ServedRow(h, s, s.calls[step.c].request, step.recordId, step.now);
    forall r | r in s'.ledger.rows ensures ProofRowSound(s', r) {
      if r in s.ledger.rows {
        assert ProofRowSound(s, r);
      }
    }
  }

  lemma ProofRowsKept(h: Sha256, k: HashSign, s: State, step: Step)
    requires UploadsSound(k, s) && CallsSound(k, s) && ProofRowsSound(s) && Enabled(s, step)
    ensures ProofRowsSound(Next(h, k, s, step))
  {
    if step.Serve? {
      ServedProofSound(h, k, s, step);
    } else {
      StepGrows(h, k, s, step);
      StepFrame(h, k, s, step);
    }
  }

  lemma VerificationKept(k: HashSign, s: State, s': State, v: nat)
    requires Grows(s, s') && v in s.verifications && VerificationSound(k, s, v) && SameVerification(s, s', v)
    ensures VerificationSound(k, s', v)
  {
    var x := s.verifications[v];
    if x.Reported? && x.recordId.Some? {
      OnRecordKept(s, s', x.recordId.value, x.artifactId, x.verdict, x.original, k.digest(x.file));
    }
  }

  /** The proof a verification fetches is the one its artifact's upload made. */
  lemma FetchSound(h: Sha256, k: HashSign, s: State, step: Step)
    requires CallsSound(k, s) && VerificationsSound(k, s) && ProofRowsSound(s) && step.FetchProof? && VerificationEnabled(s, step)
    ensures VerificationSound(k, NextVerification(h, k, s, step), step.v)
  {
    var x := s.verifications[step.v];
    FilterMember(ProofOf(x.artifactId), s.ledger.rows, step.row);
    assert VerificationSound(k, s, step.v) && ProofRowSound(s, step.row);
    assert CallSound(k, s, ForUpload(x.artifactId));
  }

  lemma AnswerSound(h: Sha256, k: HashSign, s: State, step: Step)
    requires CallsSound(k, s) && VerificationsSound(k, s) && step.VerificationAnswered? && VerificationEnabled(s, step)
    ensures VerificationSound(k, NextVerification(h, k, s, step), step.v)
  {
    var s' := NextVerification(h, k, s, step);
    var call := s.calls[ForVerification(step.v)];
    assert VerificationSound(k, s, step.v) && CallSound(k, s, ForVerification(step.v));
    RowsKept(s, s', call.recordId, call.request);
  }

  /** The verification a step moves on is sound where it stands next. */
  lemma VerificationStepSound(h: Sha256, k: HashSign, s: State, step: Step)
    requires CallsSound(k, s) && VerificationsSound(k, s) && ProofRowsSound(s) && OfVerification(step) && VerificationEnabled(s, step)
    ensures VerificationSound(k, NextVerification(h, k, s, step), step.v)
  {
    if step.FetchProof? {
      FetchSound(h, k, s, step);
    } else if step.VerificationAnswered? {
      AnswerSound(h, k, s, step);
    } else if step.v in s.verifications {
      assert VerificationSound(k, s, step.v);
    }
  }

  lemma VerificationsKept(h: Sha256, k: HashSign, s: State, step: Step)
    requires UploadsSound(k, s) && CallsSound(k, s) && VerificationsSound(k, s) && ProofRowsSound(s) && Enabled(s, step)
    ensures VerificationsSound(k, Next(h, k, s, step))
  {
    hide NextUpload, NextVerification, NextElsewhere, VerificationSound, Grows;
    var s' := Next(h, k, s, step);
    StepGrows(h, k, s, step);
    StepFrame(h, k, s, step);
    if OfVerification(step) {
      VerificationFrame(h, k, s, step);
      VerificationStepSound(h, k, s, step);
    }
    forall v | v in s'.verifications ensures VerificationSound(k, s', v) {
      if !OfVerification(step) || v != step.v {
        assert SameVerification(s, s', v);
        VerificationKept(k, s, s', v);
      }
    }
  }

  lemma StepIsSafe(h: Sha256, k: HashSign, s: State, step: Step)
    requires Safe(h, k, s) && Enabled(s, step)
    ensures Safe(h, k, Next(h, k, s, step))
  {
    LedgerKept(h, k, s, step);
    CallsKept(h, k, s, step);
    UploadsKept(h, k, s, step);
    ArtifactsKept(h, k, s, step);
    EventsKept(h, k, s, step);
    OneIngestionKept(h, k, s, step);
    ProofRowsKept(h, k, s, step);
    VerificationsKept(h, k, s, step);
  }

  lemma {:induction false} RunIsSafe(h: Sha256, k: HashSign, s: State, steps: seq<Step>, s': State)
    requires Safe(h, k, s) && Run(h, k, s, steps, s')
    ensures Safe(h, k, s')
    ensures s.ledger.rows <= s'.ledger.rows && s.events <= s'.events
    ensures forall a | a in s.artifacts :: a in s'.artifacts && s'.artifacts[a].content == s.artifacts[a].content
    decreases |steps|
  {
    if steps != [] {
      StepGrows(h, k, s, steps[0]);
      StepIsSafe(h, k, s, steps[0]);
      RunIsSafe(h, k, Next(h, k, s, steps[0]), steps[1..], s');
    }
  }

  lemma StartIsSafe(h: Sha256, k: HashSign)
    ensures Safe(h, k, START)
  {
    ReplayConsistent(h, []);
  }

  // ---------------------------------------------------------- the upload saga

  /** The committed proof of an artifact: its columns, and the payload that is
      hashed into the chain, carry the digest and signature of the original. */
  ghost predicate IsProofRow(k: HashSign, s: State, a: string, r: Row)
    requires a in s.artifacts
  {
    var hash := k.digest(s.artifacts[a].content);
    && r in s.ledger.rows && r.artifactId == a && r.caseId == s.artifacts[a].caseId && r.recordType == EVIDENCE_PROOF
    && r.hashValue == Some(hash) && r.signatureValue == Some(k.sign(hash))
    && Get(r.rawPayload, "hash_value") == Some(Str(hash)) && Get(r.rawPayload, "signature_value") == Some(Str(k.sign(hash)))
  }

  /** The committed proof an EvidenceIngested event names. */
  ghost predicate NamedProof(k: HashSign, s: State, e: DomainEvent, r: Row)
    requires e.EvidenceIngested? && e.artifactId in s.artifacts
  {
    && IsProofRow(k, s, e.artifactId, r) && r.recordId == e.ledgerRecordId && r.hashValue == Some(e.hashValue)
    && r.hashValue == s.artifacts[e.artifactId].hashValue && r.signatureValue == s.artifacts[e.artifactId].signatureValue
  }

  lemma ProofRowIsProof(h: Sha256, k: HashSign, s: State, r: Row)
    requires Safe(h, k, s) && r in s.ledger.rows && r.recordType == EVIDENCE_PROOF
    ensures r.artifactId in s.artifacts && IsProofRow(k, s, r.artifactId, r)
  {
    assert ProofRowSound(s, r) && CallSound(k, s, ForUpload(r.artifactId));
    PayloadFields(s.calls[ForUpload(r.artifactId)].request);
  }

  lemma CommittedProof(h: Sha256, k: HashSign, s: State, a: string) returns (r: Row)
    requires Safe(h, k, s) && ForUpload(a) in s.calls && s.calls[ForUpload(a)].Committed?
    ensures a in s.artifacts && IsProofRow(k, s, a, r) && r.recordId == s.calls[ForUpload(a)].recordId
  {
    assert CallSound(k, s, ForUpload(a));
    r :| r in s.ledger.rows && r.recordId == s.calls[ForUpload(a)].recordId && MadeFrom(r, s.calls[ForUpload(a)].request);
    ProofRowIsProof(h, k, s, r);
  }

  /** At every point of every run: an INGESTED artifact has exactly one
      EvidenceIngested event, and every such event names a committed proof whose
      hash and signature are the artifact's own. */
  lemma SagaConsistent(h: Sha256, k: HashSign, steps: seq<Step>, s: State)
    requires Run(h, k, START, steps, s)
    ensures forall a | a in s.artifacts && s.artifacts[a].status.Ingested? ::
      exists e :: e in s.events && e.EvidenceIngested? && e.artifactId == a
    ensures forall i, j | 0 <= i < j < |s.events| && s.events[i].EvidenceIngested? && s.events[j].EvidenceIngested? ::
      s.events[i].artifactId != s.events[j].artifactId
    ensures forall e | e in s.events && e.EvidenceIngested? ::
      e.artifactId in s.artifacts && s.artifacts[e.artifactId].ledgerRecordId == Some(e.ledgerRecordId) &&
      exists r :: NamedProof(k, s, e, r)
  {
    StartIsSafe(h, k);
    RunIsSafe(h, k, START, steps, s);
    forall a | a in s.artifacts && s.artifacts[a].status.Ingested?
      ensures exists e :: e in s.events && e.EvidenceIngested? && e.artifactId == a
    {
      assert ArtifactSound(k, s, a);
    }
    forall e | e in s.events && e.EvidenceIngested?
      ensures e.artifactId in s.artifacts && s.artifacts[e.artifactId].ledgerRecordId == Some(e.ledgerRecordId)
      ensures exists r :: NamedProof(k, s, e, r)
    {
      assert EventSound(k, s, e);
      var r := CommittedProof(h, k, s, e.artifactId);
      assert NamedProof(k, s, e, r);
    }
  }

  ghost predicate IsIngested(s: State, a: string) {
    a in s.artifacts && s.artifacts[a].status.Ingested?
  }

  ghost predicate FinalisedBy(steps: seq<Step>, a: string) {
    exists i | 0 <= i < |steps| :: steps[i].Finalise? && steps[i].a == a
  }

  ghost predicate UndoneBy(steps: seq<Step>, a: string) {
    exists i | 0 <= i < |steps| :: steps[i].RefreshFails? && steps[i].a == a && steps[i].saved
  }

  lemma IngestedStep(h: Sha256, k: HashSign, s: State, step: Step, a: string)
    requires UploadsSound(k, s) && Enabled(s, step)
    ensures IsIngested(Next(h, k, s, step), a) <==>
      (IsIngested(s, a) || (step.Finalise? && step.a == a)) && !(step.RefreshFails? && step.a == a && step.saved)
  {
    StepFrame(h, k, s, step);
    if OfUpload(step) {
      UploadFrame(k, s, step);
      if a != step.a {
        assert SameUpload(s, NextUpload(k, s, step), a);
      } else if a in s.uploads {
        assert UploadSound(k, s, a);
      }
    }
  }

  lemma {:induction false} ClosedIsFinal(h: Sha256, k: HashSign, s: State, steps: seq<Step>, s': State, a: string)
    requires Run(h, k, s, steps, s') && a in s.uploads && s.uploads[a].Closed?
    ensures forall i | 0 <= i < |steps| :: !(steps[i].Finalise? && steps[i].a == a)
    decreases |steps|
  {
    if steps != [] {
      ClosedIsFinal(h, k, Next(h, k, s, steps[0]), steps[1..], s', a);
      assert forall i | 0 < i < |steps| :: steps[i] == steps[1..][i - 1];
    }
  }

  lemma ByFirstOrRest(steps: seq<Step>, a: string)
    requires steps != []
    ensures FinalisedBy(steps, a) <==> (steps[0].Finalise? && steps[0].a == a) || FinalisedBy(steps[1..], a)
    ensures UndoneBy(steps, a) <==> (steps[0].RefreshFails? && steps[0].a == a && steps[0].saved) || UndoneBy(steps[1..], a)
  {
    assert forall i | 0 < i < |steps| :: steps[i] == steps[1..][i - 1];
    assert forall i | 0 <= i < |steps| - 1 :: steps[1..][i] == steps[i + 1];
  }

  lemma {:induction false} IngestedOver(h: Sha256, k: HashSign, s: State, steps: seq<Step>, s': State, a: string)
    requires Safe(h, k, s) && Run(h, k, s, steps, s')
    ensures IsIngested(s', a) <==> (IsIngested(s, a) || FinalisedBy(steps, a)) && !UndoneBy(steps, a)
    decreases |steps|
  {
    if steps != [] {
      var first, rest := steps[0], steps[1..];
      var mid := Next(h, k, s, first);
      StepIsSafe(h, k, s, first);
      IngestedStep(h, k, s, first, a);
      IngestedOver(h, k, mid, rest, s', a);
      ByFirstOrRest(steps, a);
      if first.RefreshFails? && first.a == a && first.saved {
        ClosedIsFinal(h, k, mid, rest, s', a);
      }
    }
  }

  /** The converse of the saga's guarantee fails, and this is exactly when an
      artifact is INGESTED: its finalising commit took place, and no failure
      after that commit was written back over it. */
  lemma IngestedIff(h: Sha256, k: HashSign, steps: seq<Step>, s: State, a: string)
    requires Run(h, k, START, steps, s)
    ensures IsIngested(s, a) <==> FinalisedBy(steps, a) && !UndoneBy(steps, a)
  {
    StartIsSafe(h, k);
    IngestedOver(h, k, START, steps, s, a);
  }

  /** A collector that gives up waiting for its append. */
  lemma GivesUp(h: Sha256, k: HashSign, a: string, caseId: string, file: Bytes, at: string) returns (s: State)
    ensures Run(h, k, START, [StartUpload(a, caseId, file), SignOk(a, at)] + [UploadFails(a, true)], s)
    ensures a in s.artifacts && s.artifacts[a].status.IngestionFailed? && s.events == [] && s.ledger == EMPTY_DB
    ensures ForUpload(a) in s.calls && s.calls[ForUpload(a)].Open?
  {
    var s1 := Next(h, k, START, StartUpload(a, caseId, file));
    assert s1.artifacts[a] == PendingArtifact(caseId, file) && s1.uploads[a] == Stored;
    var s2 := Next(h, k, s1, SignOk(a, at));
    assert s2.uploads[a].Calling? && s2.artifacts == s1.artifacts && s2.calls[ForUpload(a)].Open?;
    s := Next(h, k, s2, UploadFails(a, true));
    RunOne(h, k, START, StartUpload(a, caseId, file));
    RunMore(h, k, START, [StartUpload(a, caseId, file)], s1, SignOk(a, at));
    assert [StartUpload(a, caseId, file)] + [SignOk(a, at)] == [StartUpload(a, caseId, file), SignOk(a, at)];
    RunMore(h, k, START, [StartUpload(a, caseId, file), SignOk(a, at)], s2, UploadFails(a, true));
  }

  /** For any upload there is a run that leaves its proof in the ledger and the
      artifact INGESTION_FAILED without an event: the collector gives up waiting
      and the ledger commits afterwards. */
  lemma ProofWithoutIngestion(h: Sha256, k: HashSign, a: string, caseId: string, file: Bytes, at: string, recordId: nat, now: int)
    returns (steps: seq<Step>, s: State)
    ensures Run(h, k, START, steps, s)
    ensures a in s.artifacts && s.artifacts[a].status.IngestionFailed? && s.events == []
    ensures exists r :: IsProofRow(k, s, a, r)
  {
    var waiting := GivesUp(h, k, a, caseId, file, at);
    steps := [StartUpload(a, caseId, file), SignOk(a, at)] + [UploadFails(a, true)] + [Serve(ForUpload(a), recordId, now)];
    s := Next(h, k, waiting, Serve(ForUpload(a), recordId, now));
    RunMore(h, k, START, [StartUpload(a, caseId, file), SignOk(a, at)] + [UploadFails(a, true)], waiting, Serve(ForUpload(a), recordId, now));
    StartIsSafe(h, k);
    RunIsSafe(h, k, START, steps, s);
    var r := CommittedProof(h, k, s, a);
  }

  // ------------------------------------------------------------- proof lookup

  /** Once committed, an artifact's proof is the only row GetProofByArtifactId
      can return, now and in every later state, and what it returns is the
      digest and signature of the stored original. */
  lemma ProofIsStable(h: Sha256, k: HashSign, s: State, steps: seq<Step>, s': State, a: string, r: Row)
    requires Safe(h, k, s) && Run(h, k, s, steps, s') && IsLatestProof(s.ledger, a, r)
    ensures a in s'.artifacts && IsProofRow(k, s', a, r)
    ensures forall q :: IsLatestProof(s'.ledger, a, q) <==> q == r
  {
    RunIsSafe(h, k, s, steps, s');
    FilterMember(ProofOf(a), s.ledger.rows, r);
    assert r in s'.ledger.rows;
    ProofRowIsProof(h, k, s', r);
    forall q ensures q in Filter(ProofOf(a), s'.ledger.rows) <==> q == r {
      FilterMember(ProofOf(a), s'.ledger.rows, q);
      if q in s'.ledger.rows && ProofOf(a)(q) {
        assert ProofRowSound(s', q) && ProofRowSound(s', r);
        SameIdSameRow(s'.ledger.rows, q, r);
      }
    }
  }

  lemma SameIdSameRow(rows: seq<Row>, q: Row, r: Row)
    requires UniqueIds(rows) && q in rows && r in rows && q.recordId == r.recordId
    ensures q == r
  {
    var i :| 0 <= i < |rows| && rows[i] == q;
    var j :| 0 <= j < |rows| && rows[j] == r;
    assert i == j;
  }

  // --------------------------------------------------------------- the verdict

  /** In any reachable state, whatever was appended in between: the verdict is
      LEDGER_CORRUPTED exactly when the ledger does not report the case as valid,
      it is never INVALID_SIGNATURE, and otherwise it is TAMPERED exactly when
      the submitted file has another digest than the stored original. */
  lemma VerdictExact(h: Sha256, k: HashSign, s: State, v: nat, serverError: bool, verifier: string, at: string)
    requires Safe(h, k, s) && Enabled(s, CheckLedger(v, serverError, verifier, at))
    ensures var x := s.verifications[v];
      var art := s.artifacts[x.artifactId];
      Next(h, k, s, CheckLedger(v, serverError, verifier, at)).verifications[v] ==
        Judged(x.artifactId, x.file, k.digest(art.content),
               if !ReportsValid(h, s.ledger, art.caseId, serverError) then LedgerCorrupted
               else if k.digest(x.file) != k.digest(art.content) then Tampered else Valid)
  {
    assert VerificationSound(k, s, v);
  }

  /** What makes the ledger report a case as invalid, for every clock: a blank
      case id, an error on the server, or rows stamped out of commit order. */
  lemma ReportedIff(h: Sha256, k: HashSign, s: State, caseId: string, serverError: bool)
    requires Safe(h, k, s) && CollisionFree(h, HashedTexts(CaseRows(s.ledger, Strip(caseId))))
    ensures ReportsValid(h, s.ledger, caseId, serverError) <==>
      Strip(caseId) != "" && !serverError && StampedInOrder(s.ledger, Strip(caseId))
  {
    AcceptedIffStampedInOrder(h, s.ledger, Strip(caseId));
  }

  /** The ledger's clock moves on between commits to a case, and validation does
      not fail on the server. */
  ghost predicate Honest(s: State, step: Step) {
    && (step.Serve? && step.c in s.calls ==>
          forall r | r in CaseRows(s.ledger, s.calls[step.c].request.caseId) :: r.createdAt < step.now)
    && (step.CheckLedger? ==> !step.serverError)
  }

  ghost predicate HonestRun(h: Sha256, k: HashSign, s: State, steps: seq<Step>, s': State)
    decreases |steps|
  {
    if steps == [] then s' == s
    else Enabled(s, steps[0]) && Honest(s, steps[0]) && HonestRun(h, k, Next(h, k, s, steps[0]), steps[1..], s')
  }

  /** The verdict the caller is promised. */
  function Promised(caseId: string, original: string, current: string): Verdict {
    if Strip(caseId) == "" then LedgerCorrupted else if current != original then Tampered else Valid
  }

  ghost predicate InOrder(s: State) {
    forall c :: StampedInOrder(s.ledger, c)
  }

  ghost predicate JudgedRight(k: HashSign, s: State, x: Verification) {
    x.Judged? || x.Reported? ==>
      (x.artifactId in s.artifacts &&
       var art := s.artifacts[x.artifactId];
       x.verdict == Promised(art.caseId, k.digest(art.content), k.digest(x.file)))
  }

  ghost predicate EventRight(k: HashSign, s: State, e: DomainEvent) {
    e.VerificationDone? ==>
      (e.artifactId in s.artifacts &&
       var art := s.artifacts[e.artifactId];
       e.originalHash == k.digest(art.content) && e.result == Promised(art.caseId, e.originalHash, e.currentHash))
  }

  ghost predicate JudgementsRight(k: HashSign, s: State) {
    forall v | v in s.verifications :: JudgedRight(k, s, s.verifications[v])
  }

  ghost predicate ReportsRight(k: HashSign, s: State) {
    forall e | e in s.events :: EventRight(k, s, e)
  }

  lemma HonestOrderKept(h: Sha256, k: HashSign, s: State, step: Step)
    requires InOrder(s) && Enabled(s, step) && Honest(s, step)
    ensures InOrder(Next(h, k, s, step))
  {
    if step.Serve? {
      forall c ensures StampedInOrder(Next(h, k, s, step).ledger, c) {
        LaterClockKeepsOrder(h, s.ledger, Entry(s.calls[step.c].request, step.recordId, step.now), c);
      }
    }
  }

  /** The ledger is checked under an honest server and clock. */
  lemma CheckedRight(h: Sha256, k: HashSign, s: State, step: Step)
    requires Safe(h, k, s) && InOrder(s) && step.CheckLedger? && Enabled(s, step) && Honest(s, step)
    ensures JudgedRight(k, s, Next(h, k, s, step).verifications[step.v])
  {
    VerdictExact(h, k, s, step.v, step.serverError, step.verifier, step.at);
    StampedInOrderAccepted(h, s.ledger, Strip(s.artifacts[s.verifications[step.v].artifactId].caseId));
    assert VerificationSound(k, s, step.v);
  }

  /** Every other step leaves a verdict as it was. */
  lemma SameVerdict(h: Sha256, k: HashSign, s: State, step: Step, v: nat)
    requires Enabled(s, step) && v in Next(h, k, s, step).verifications && !(step.CheckLedger? && step.v == v)
    requires v in s.verifications ==> JudgedRight(k, s, s.verifications[v])
    ensures JudgedRight(k, s, Next(h, k, s, step).verifications[v])
  {
    StepFrame(h, k, s, step);
    if OfVerification(step) {
      VerificationFrame(h, k, s, step);
      if v != step.v {
        assert SameVerification(s, NextVerification(h, k, s, step), v);
      }
    }
  }

  lemma JudgementsKept(h: Sha256, k: HashSign, s: State, step: Step)
    requires Safe(h, k, s) && InOrder(s) && JudgementsRight(k, s) && Enabled(s, step) && Honest(s, step)
    ensures JudgementsRight(k, Next(h, k, s, step))
  {
    var s' := Next(h, k, s, step);
    StepGrows(h, k, s, step);
    forall v | v in s'.verifications ensures JudgedRight(k, s', s'.verifications[v]) {
      if step.CheckLedger? && step.v == v {
        CheckedRight(h, k, s, step);
      } else {
        SameVerdict(h, k, s, step, v);
      }
    }
  }

  lemma VerdictEventRight(h: Sha256, k: HashSign, s: State, step: Step)
    requires Safe(h, k, s) && JudgementsRight(k, s) && step.EmitVerdict? && VerificationEnabled(s, step)
    ensures forall e | e in NextVerification(h, k, s, step).events :: e in s.events || EventRight(k, s, e)
  {
    assert VerificationSound(k, s, step.v) && JudgedRight(k, s, s.verifications[step.v]);
  }

  lemma ReportsKept(h: Sha256, k: HashSign, s: State, step: Step)
    requires Safe(h, k, s) && JudgementsRight(k, s) && ReportsRight(k, s) && Enabled(s, step)
    ensures ReportsRight(k, Next(h, k, s, step))
  {
    var s' := Next(h, k, s, step);
    StepGrows(h, k, s, step);
    StepFrame(h, k, s, step);
    if step.EmitVerdict? {
      VerdictEventRight(h, k, s, step);
    }
    forall e | e in s'.events ensures EventRight(k, s', e) {
      assert e in s.events || step.EmitVerdict? || !e.VerificationDone?;
      assert e in s.events ==> EventRight(k, s, e);
    }
  }

  lemma {:induction false} HonestRunKeeps(h: Sha256, k: HashSign, s: State, steps: seq<Step>, s': State)
    requires Safe(h, k, s) && InOrder(s) && JudgementsRight(k, s) && ReportsRight(k, s) && HonestRun(h, k, s, steps, s')
    ensures Safe(h, k, s') && InOrder(s') && JudgementsRight(k, s') && ReportsRight(k, s')
    decreases |steps|
  {
    if steps != [] {
      StepIsSafe(h, k, s, steps[0]);
      HonestOrderKept(h, k, s, steps[0]);
      JudgementsKept(h, k, s, steps[0]);
      ReportsKept(h, k, s, steps[0]);
      HonestRunKeeps(h, k, Next(h, k, s, steps[0]), steps[1..], s');
    }
  }

  /** In every state of every honest run: a verification that has been judged
      carries the promised verdict on the file it was given. */
  lemma HonestJudgements(h: Sha256, k: HashSign, steps: seq<Step>, s: State, v: nat)
    requires HonestRun(h, k, START, steps, s)
    requires v in s.verifications && (s.verifications[v].Judged? || s.verifications[v].Reported?)
    ensures var x := s.verifications[v];
      x.artifactId in s.artifacts &&
      var art := s.artifacts[x.artifactId];
      x.verdict == Promised(art.caseId, k.digest(art.content), k.digest(x.file))
  {
    StartIsSafe(h, k);
    HonestRunKeeps(h, k, START, steps, s);
    assert JudgedRight(k, s, s.verifications[v]);
  }

  /** End to end, over every honest run: whatever uploads, verifications and
      anchors interleave, a file with the original's digest is judged VALID, any
      other TAMPERED, and only a blank case id gives another verdict. */
  lemma HonestVerdicts(h: Sha256, k: HashSign, steps: seq<Step>, s: State, e: DomainEvent)
    requires HonestRun(h, k, START, steps, s) && e in s.events && e.VerificationDone?
    ensures e.artifactId in s.artifacts && e.originalHash == k.digest(s.artifacts[e.artifactId].content)
    ensures e.result == Promised(s.artifacts[e.artifactId].caseId, e.originalHash, e.currentHash)
    ensures e.passed <==> Strip(s.artifacts[e.artifactId].caseId) != "" && e.currentHash == e.originalHash
  {
    StartIsSafe(h, k);
    HonestRunKeeps(h, k, START, steps, s);
    assert EventSound(k, s, e);
  }

  // ---------------------------------------------- verdicts on a changed ledger

  /** In any state, sound or not, a judged verification has the verdict that fits
      the ledger's report, the check of the signature and the two digests. */
  lemma CheckedFits(h: Sha256, k: HashSign, s: State, v: nat, serverError: bool, verifier: string, at: string)
    requires Enabled(s, CheckLedger(v, serverError, verifier, at))
    ensures var x := s.verifications[v];
      var s' := Next(h, k, s, CheckLedger(v, serverError, verifier, at));
      v in s'.verifications && s'.verifications[v].Judged? &&
      Fits(ReportsValid(h, s.ledger, s.artifacts[x.artifactId].caseId, serverError), x.signatureValid, x.original, k.digest(x.file),
           s'.verifications[v].verdict)
  {
  }

  /** The table with the signature column of row n rewritten. */
  function Rewritten(db: Db, n: nat, text: string): Db
    requires n < |db.rows|
  {
    Db(db.rows[n := db.rows[n].(signatureValue := Some(text))], db.heads)
  }

  lemma RewrittenAccepted(h: Sha256, db: Db, n: nat, text: string, caseId: string, serverError: bool)
    requires n < |db.rows|
    ensures ReportsValid(h, Rewritten(db, n, text), caseId, serverError) <==> ReportsValid(h, db, caseId, serverError)
  {
    ColumnEditUnnoticed(h, db, n, db.rows[n].(signatureValue := Some(text)), Strip(caseId));
  }

  /** An artifact has one proof, so it is the rewritten row that is fetched. */
  lemma RewrittenFetched(h: Sha256, k: HashSign, s: State, n: nat, text: string, q: Row)
    requires Safe(h, k, s) && n < |s.ledger.rows| && s.ledger.rows[n].recordType == EVIDENCE_PROOF
    ensures IsLatestProof(Rewritten(s.ledger, n, text), s.ledger.rows[n].artifactId, q) <==> q == Rewritten(s.ledger, n, text).rows[n]
  {
    var rows, edited, a := s.ledger.rows, Rewritten(s.ledger, n, text).rows, s.ledger.rows[n].artifactId;
    assert rows[n] in rows && ProofRowSound(s, rows[n]);
    forall p ensures p in Filter(ProofOf(a), edited) <==> p == edited[n] {
      FilterMember(ProofOf(a), edited, p);
      assert edited[n] in edited;
      if p in edited && ProofOf(a)(p) {
        var m :| 0 <= m < |edited| && edited[m] == p;
        assert m != n ==> rows[m] == p && ProofRowSound(s, rows[m]);
      }
    }
  }

  /** Rewriting the signature of a proof leaves every case accepted as it was,
      and whoever verifies the artifact is told INVALID_SIGNATURE exactly when the
      ledger reports its case as valid and the new text does not verify. */
  lemma RewrittenSignature(h: Sha256, k: HashSign, s: State, n: nat, text: string, r: Row, current: string, serverError: bool, v: Verdict)
    requires Safe(h, k, s) && n < |s.ledger.rows| && s.ledger.rows[n].recordType == EVIDENCE_PROOF
    requires IsLatestProof(Rewritten(s.ledger, n, text), s.ledger.rows[n].artifactId, r)
    ensures s.ledger.rows[n].artifactId in s.artifacts && r.hashValue.Some? && r.signatureValue.Some?
    ensures var art := s.artifacts[s.ledger.rows[n].artifactId];
      Fits(ReportsValid(h, Rewritten(s.ledger, n, text), art.caseId, serverError), k.verify(r.hashValue.value, r.signatureValue.value),
           r.hashValue.value, current, v) ==>
        (v.InvalidSignature? <==> ReportsValid(h, s.ledger, art.caseId, serverError) && !k.verify(k.digest(art.content), text))
  {
    RewrittenFetched(h, k, s, n, text, r);
    assert s.ledger.rows[n] in s.ledger.rows;
    ProofRowIsProof(h, k, s, s.ledger.rows[n]);
    RewrittenAccepted(h, s.ledger, n, text, s.artifacts[s.ledger.rows[n].artifactId].caseId, serverError);
  }

  // ------------------------------------------------- every verdict can be had

  /** An INGESTED artifact has a proof to fetch, with a hash and a signature. */
  lemma IngestedHasProof(h: Sha256, k: HashSign, s: State, a: string) returns (r: Row)
    requires Safe(h, k, s) && IsIngested(s, a)
    ensures IsLatestProof(s.ledger, a, r)
    ensures forall q | IsLatestProof(s.ledger, a, q) :: q.hashValue.Some? && q.signatureValue.Some?
  {
    assert ArtifactSound(k, s, a);
    var e :| e in s.events && e.EvidenceIngested? && e.artifactId == a;
    assert EventSound(k, s, e);
    var row := CommittedProof(h, k, s, a);
    var proofs := Filter(ProofOf(a), s.ledger.rows);
    FilterMember(ProofOf(a), s.ledger.rows, row);
    var i := LatestExists(proofs);
    r := proofs[i];
    assert r in proofs && forall p | p in proofs :: p.createdAt <= r.createdAt;
    forall q | IsLatestProof(s.ledger, a, q) ensures q.hashValue.Some? && q.signatureValue.Some? {
      FilterMember(ProofOf(a), s.ledger.rows, q);
      ProofRowIsProof(h, k, s, q);
    }
  }

  lemma {:induction false} HonestMore(h: Sha256, k: HashSign, s: State, steps: seq<Step>, mid: State, step: Step)
    requires HonestRun(h, k, s, steps, mid) && Enabled(mid, step) && Honest(mid, step)
    ensures HonestRun(h, k, s, steps + [step], Next(h, k, mid, step))
    decreases |steps|
  {
    if steps == [] {
      assert [step][1..] == [] && steps + [step] == [step];
    } else {
      assert (steps + [step])[1..] == steps[1..] + [step];
      HonestMore(h, k, Next(h, k, s, steps[0]), steps[1..], mid, step);
    }
  }

  /** How far a verification is from its verdict. */
  function Left(x: Verification): nat {
    match x
    case Hashed(_, _) => 5
    case Fetched(_, _, _, _) => 4
    case Checked(_, _, _, _) => 3
    case Judged(_, _, _, _) => 2
    case Reported(_, _, _, _, _) => 1
    case Over => 0
  }

  /** What a verification does next, if nothing fails. */
  function NextOf(v: nat, x: Verification, proof: Option<Row>, eventId: string, verifier: string, at: string): Step
    requires x.Hashed? ==> proof.Some?
  {
    match x
    case Hashed(_, _) => FetchProof(v, proof.value)
    case Fetched(_, _, _, _) => CheckSignature(v)
    case Checked(_, _, _, _) => CheckLedger(v, false, verifier, at)
    case Judged(_, _, _, _) => VerificationUnrecorded(v)
    case Reported(_, _, _, _, _) => EmitVerdict(v, eventId, true)
    case Over => VerificationEnds(v)
  }

  ghost predicate CanGoOn(s: State, v: nat, proof: Option<Row>) {
    v in s.verifications && !s.verifications[v].Over? && s.verifications[v].artifactId in s.artifacts &&
    (s.verifications[v].Hashed? ==>
       proof.Some? && IsLatestProof(s.ledger, s.verifications[v].artifactId, proof.value) &&
       proof.value.hashValue.Some? && proof.value.signatureValue.Some?)
  }

  /** The run has added one event, on this artifact and file. */
  ghost predicate Emitted(k: HashSign, s: State, s': State, a: string, file: Bytes, eventId: string) {
    |s'.events| == |s.events| + 1 && s'.events[..|s.events|] == s.events &&
    var e := s'.events[|s.events|];
    e.VerificationDone? && e.eventId == eventId && e.artifactId == a && e.currentHash == k.digest(file)
  }

  /** One step closer to its verdict. */
  ghost predicate Closer(k: HashSign, s: State, s': State, v: nat, eventId: string)
    requires v in s.verifications && !s.verifications[v].Over?
  {
    var x := s.verifications[v];
    && s'.artifacts == s.artifacts && v in s'.verifications && Left(s'.verifications[v]) == Left(x) - 1
    && (Left(x) > 1 ==> s'.events == s.events && s'.verifications[v].artifactId == x.artifactId && s'.verifications[v].file == x.file)
    && (Left(x) == 1 ==> Emitted(k, s, s', x.artifactId, x.file, eventId))
  }

  lemma GoOn(h: Sha256, k: HashSign, s: State, v: nat, proof: Option<Row>, eventId: string, verifier: string, at: string)
    requires CanGoOn(s, v, proof) && FreshEvent(s, eventId)
    ensures var step := NextOf(v, s.verifications[v], proof, eventId, verifier, at);
      Enabled(s, step) && Honest(s, step) && Closer(k, s, Next(h, k, s, step), v, eventId)
  {
  }

  /** From any state of an honest run a verification under way can be carried on,
      honestly, to its event. */
  lemma {:induction false} CarryOn(h: Sha256, k: HashSign, steps: seq<Step>, s: State, v: nat, proof: Option<Row>, eventId: string,
                                   verifier: string, at: string, n: nat) returns (more: seq<Step>, s': State)
    requires HonestRun(h, k, START, steps, s) && CanGoOn(s, v, proof) && FreshEvent(s, eventId)
    requires n == Left(s.verifications[v])
    ensures HonestRun(h, k, START, steps + more, s') && s'.artifacts == s.artifacts
    ensures Emitted(k, s, s', s.verifications[v].artifactId, s.verifications[v].file, eventId)
    decreases n, 1
  {
    var step := NextOf(v, s.verifications[v], proof, eventId, verifier, at);
    GoOn(h, k, s, v, proof, eventId, verifier, at);
    HonestMore(h, k, START, steps, s, step);
    more, s' := CarryOnFrom(h, k, steps, s, v, eventId, verifier, at, n, step, Next(h, k, s, step));
  }

  lemma {:induction false} CarryOnFrom(h: Sha256, k: HashSign, steps: seq<Step>, s: State, v: nat, eventId: string,
                                       verifier: string, at: string, n: nat, step: Step, mid: State)
    returns (more: seq<Step>, s': State)
    requires HonestRun(h, k, START, steps + [step], mid) && FreshEvent(s, eventId)
    requires v in s.verifications && !s.verifications[v].Over? && s.verifications[v].artifactId in s.artifacts
    requires n == Left(s.verifications[v]) && Closer(k, s, mid, v, eventId)
    ensures HonestRun(h, k, START, steps + more, s') && s'.artifacts == s.artifacts
    ensures Emitted(k, s, s', s.verifications[v].artifactId, s.verifications[v].file, eventId)
    decreases n, 0
  {
    hide Enabled, Next;
    if n == 1 {
      more, s' := [step], mid;
    } else {
      var rest;
      rest, s' := CarryOn(h, k, steps + [step], mid, v, None, eventId, verifier, at, n - 1);
      more := [step] + rest;
      assert steps + more == steps + [step] + rest;
    }
  }

  lemma HonestStateSound(h: Sha256, k: HashSign, steps: seq<Step>, s: State)
    requires HonestRun(h, k, START, steps, s)
    ensures Safe(h, k, s)
  {
    StartIsSafe(h, k);
    HonestRunKeeps(h, k, START, steps, s);
  }

  /** The other half of HonestVerdicts. A verification under way, whatever was
      appended since it began, can go on to an event with the promised verdict
      once its artifact is INGESTED, or as soon as it has fetched a proof. */
  lemma StartedGetsVerdict(h: Sha256, k: HashSign, steps: seq<Step>, s: State, v: nat, eventId: string, verifier: string, at: string)
    returns (more: seq<Step>, s': State)
    requires HonestRun(h, k, START, steps, s) && v in s.verifications && !s.verifications[v].Over? && FreshEvent(s, eventId)
    requires s.verifications[v].Hashed? ==> IsIngested(s, s.verifications[v].artifactId)
    ensures HonestRun(h, k, START, steps + more, s') && s'.artifacts == s.artifacts
    ensures |s'.events| == |s.events| + 1 && s'.events[..|s.events|] == s.events
    ensures var e, x := s'.events[|s.events|], s.verifications[v];
      x.artifactId in s.artifacts && e.VerificationDone? && e.eventId == eventId && e.artifactId == x.artifactId &&
      e.currentHash == k.digest(x.file) &&
      e.result == Promised(s.artifacts[x.artifactId].caseId, k.digest(s.artifacts[x.artifactId].content), k.digest(x.file))
  {
    HonestStateSound(h, k, steps, s);
    assert VerificationSound(k, s, v);
    var proof := None;
    if s.verifications[v].Hashed? {
      var r := IngestedHasProof(h, k, s, s.verifications[v].artifactId);
      proof := Some(r);
    }
    more, s' := CarryOn(h, k, steps, s, v, proof, eventId, verifier, at, Left(s.verifications[v]));
    HonestVerdicts(h, k, steps + more, s', s'.events[|s.events|]);
  }

  lemma BeginHonestly(h: Sha256, k: HashSign, steps: seq<Step>, s: State, a: string, file: Bytes, v: nat, requestId: string)
    returns (s': State)
    requires HonestRun(h, k, START, steps, s) && a in s.artifacts && v !in s.verifications && FreshEvent(s, requestId)
    ensures HonestRun(h, k, START, steps + [StartVerification(v, a, file, requestId, true)], s')
    ensures s'.artifacts == s.artifacts && s'.events == s.events + [VerificationRequested(requestId, a)]
    ensures v in s'.verifications && s'.verifications[v] == Hashed(a, file)
  {
    s' := Next(h, k, s, StartVerification(v, a, file, requestId, true));
    HonestMore(h, k, START, steps, s, StartVerification(v, a, file, requestId, true));
  }

  /** So wherever an honest run has got to, an INGESTED artifact can be verified
      with any file, to an event with the promised verdict on it. */
  lemma IngestedGetsVerdict(h: Sha256, k: HashSign, steps: seq<Step>, s: State, a: string, file: Bytes, v: nat, requestId: string,
                            eventId: string, verifier: string, at: string) returns (more: seq<Step>, s': State)
    requires HonestRun(h, k, START, steps, s) && IsIngested(s, a) && v !in s.verifications
    requires FreshEvent(s, requestId) && FreshEvent(s, eventId) && requestId != eventId
    ensures HonestRun(h, k, START, steps + more, s') && s'.artifacts == s.artifacts
    ensures |s'.events| == |s.events| + 2 && s'.events[..|s.events|] == s.events
    ensures s'.events[|s.events|] == VerificationRequested(requestId, a)
    ensures var e, art := s'.events[|s.events| + 1], s.artifacts[a];
      e.VerificationDone? && e.eventId == eventId && e.artifactId == a && e.currentHash == k.digest(file) &&
      e.result == Promised(art.caseId, k.digest(art.content), k.digest(file))
  {
    hide Promised, Enabled, Next;
    var mid := BeginHonestly(h, k, steps, s, a, file, v, requestId);
    var begin, rest := [StartVerification(v, a, file, requestId, true)], [];
    rest, s' := StartedGetsVerdict(h, k, steps + begin, mid, v, eventId, verifier, at);
    more := begin + rest;
    assert steps + more == steps + begin + rest;
    assert s'.events[..|s.events|] == s'.events[..|mid.events|][..|s.events|];
    assert s'.events[|s.events|] == s'.events[..|mid.events|][|s.events|];
  }

  /** The committed row that holds the verdict of an event, in the case of its
      artifact. */
  ghost predicate RecordsVerdict(s: State, r: Row, e: DomainEvent)
    requires e.VerificationDone?
  {
    && r in s.ledger.rows && e.verifiedRecordId == Some(r.recordId) && r.recordType == "VERIFICATION_RESULT_RECORDED"
    && r.artifactId == e.artifactId && e.artifactId in s.artifacts && r.caseId == s.artifacts[e.artifactId].caseId
    && Get(r.rawPayload, "case_id") == Some(Str(s.artifacts[e.artifactId].caseId))
    && Get(r.rawPayload, "verification_result") == Some(Str(
         if e.result.Valid? then "VALID" else if e.result.Tampered? then "TAMPERED"
         else if e.result.InvalidSignature? then "INVALID_SIGNATURE" else "LEDGER_CORRUPTED"))
    && Get(r.rawPayload, "original_hash") == Some(Str(e.originalHash))
    && Get(r.rawPayload, "current_hash") == Some(Str(e.currentHash))
  }

  /** The ledger row a verification event names holds the event's verdict. */
  lemma VerdictOnLedger(h: Sha256, k: HashSign, s: State, e: DomainEvent)
    requires Safe(h, k, s) && e in s.events && e.VerificationDone? && e.verifiedRecordId.Some?
    ensures exists r :: RecordsVerdict(s, r, e)
  {
    assert EventSound(k, s, e);
    var q: Request :| HasRow(s, e.verifiedRecordId.value, q) && q.recordType == VERIFICATION_RECORD &&
      Reports(s, q, e.artifactId, e.result, e.originalHash, e.currentHash);
    PayloadFields(q);
    var r :| r in s.ledger.rows && r.recordId == e.verifiedRecordId.value && MadeFrom(r, q);
    assert RecordsVerdict(s, r, e);
  }

  /** A verification event passes exactly when its verdict is VALID, and if it
      names a ledger record, that record is committed and holds the same verdict
      and both hashes, although the append is only best effort. */
  lemma VerificationTrace(h: Sha256, k: HashSign, steps: seq<Step>, s: State, e: DomainEvent)
    requires Run(h, k, START, steps, s) && e in s.events && e.VerificationDone?
    ensures e.passed <==> e.result.Valid?
    ensures e.verifiedRecordId.Some? ==> exists r :: RecordsVerdict(s, r, e)
  {
    StartIsSafe(h, k);
    RunIsSafe(h, k, START, steps, s);
    assert EventSound(k, s, e);
    if e.verifiedRecordId.Some? {
      VerdictOnLedger(h, k, s, e);
    }
  }
}
