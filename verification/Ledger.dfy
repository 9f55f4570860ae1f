/** The ledger's tables and the append transaction of
    services/immutable-ledger/servicer.py, executed on its own: the requests
    and the payloads hashed for them, one append as a function of the tables,
    and what every history of appends keeps. */
module Ledger {
  import opened Basics
  import opened CanonicalJson
  import opened HashChain
  import opened LedgerValidator

  // ---------------------------------------------------------------- requests

  datatype Request =
    | AppendProof(artifactId: string, caseId: string, recordType: string,
                  hashAlgorithm: string, hashValue: string, signatureAlgorithm: string,
                  signatureValue: string, signerId: string, createdAt: string)
    | AppendVerification(artifactId: string, caseId: string, recordType: string,
                         verificationResult: string, originalHash: string, currentHash: string,
                         verifiedBy: string, verifiedAt: string)

  const PROOF_KEYS: seq<string> := ["artifact_id", "case_id", "record_type", "hash_algorithm", "hash_value",
                                    "signature_algorithm", "signature_value", "signer_id", "created_at"]

  const VERIFICATION_KEYS: seq<string> := ["artifact_id", "case_id", "record_type", "verification_result",
                                           "original_hash", "current_hash", "verified_by", "verified_at"]

  /** The dictionary that is stored and hashed. */
  function Payload(q: Request): Json {
    match q
    case AppendProof(artifact, cas, kind, algorithm, hash, signing, signature, signer, created) =>
      Dict(PROOF_KEYS, [Str(artifact), Str(cas), Str(kind), Str(algorithm), Str(hash),
                        Str(signing), Str(signature), Str(signer), Str(created)])
    case AppendVerification(artifact, cas, kind, result, original, current, verifier, at) =>
      Dict(VERIFICATION_KEYS, [Str(artifact), Str(cas), Str(kind), Str(result),
                               Str(original), Str(current), Str(verifier), Str(at)])
  }

  lemma PayloadKeysDistinct()
    ensures forall i, j | 0 <= i < j < |PROOF_KEYS| :: PROOF_KEYS[i] != PROOF_KEYS[j]
    ensures forall i, j | 0 <= i < j < |VERIFICATION_KEYS| :: VERIFICATION_KEYS[i] != VERIFICATION_KEYS[j]
  {
    assert PROOF_KEYS[0][0] != PROOF_KEYS[2][0] && PROOF_KEYS[4][0] != PROOF_KEYS[8][0];
    assert VERIFICATION_KEYS[0][0] != VERIFICATION_KEYS[2][0] && VERIFICATION_KEYS[6][9] != VERIFICATION_KEYS[7][9];
  }

  /** The hashed payload carries each field of the request under its own key. */
  lemma PayloadFields(q: Request)
    ensures UniqueKeys(Payload(q))
    ensures Get(Payload(q), "artifact_id") == Some(Str(q.artifactId))
    ensures Get(Payload(q), "case_id") == Some(Str(q.caseId))
    ensures Get(Payload(q), "record_type") == Some(Str(q.recordType))
    ensures Get(Payload(q), "hash_value") == if q.AppendProof? then Some(Str(q.hashValue)) else None
    ensures q.AppendProof? ==>
      Get(Payload(q), "hash_algorithm") == Some(Str(q.hashAlgorithm)) &&
      Get(Payload(q), "signature_algorithm") == Some(Str(q.signatureAlgorithm)) &&
      Get(Payload(q), "signature_value") == Some(Str(q.signatureValue)) &&
      Get(Payload(q), "signer_id") == Some(Str(q.signerId)) &&
      Get(Payload(q), "created_at") == Some(Str(q.createdAt))
    ensures q.AppendVerification? ==>
      Get(Payload(q), "verification_result") == Some(Str(q.verificationResult)) &&
      Get(Payload(q), "original_hash") == Some(Str(q.originalHash)) &&
      Get(Payload(q), "current_hash") == Some(Str(q.currentHash)) &&
      Get(Payload(q), "verified_by") == Some(Str(q.verifiedBy)) &&
      Get(Payload(q), "verified_at") == Some(Str(q.verifiedAt))
  {
    if q.AppendProof? {
      ProofFields(q);
    } else {
      VerificationFields(q);
    }
  }

  lemma ProofFields(q: Request)
    requires q.AppendProof?
    ensures UniqueKeys(Payload(q))
    ensures var values := [Str(q.artifactId), Str(q.caseId), Str(q.recordType), Str(q.hashAlgorithm), Str(q.hashValue),
                           Str(q.signatureAlgorithm), Str(q.signatureValue), Str(q.signerId), Str(q.createdAt)];
      forall i | 0 <= i < 9 :: Get(Payload(q), PROOF_KEYS[i]) == Some(values[i])
    ensures PROOF_KEYS[0] == "artifact_id" && PROOF_KEYS[1] == "case_id" && PROOF_KEYS[2] == "record_type"
    ensures PROOF_KEYS[3] == "hash_algorithm" && PROOF_KEYS[4] == "hash_value" && PROOF_KEYS[5] == "signature_algorithm"
    ensures PROOF_KEYS[6] == "signature_value" && PROOF_KEYS[7] == "signer_id" && PROOF_KEYS[8] == "created_at"
  {
    PayloadKeysDistinct();
    DictShape(PROOF_KEYS, [Str(q.artifactId), Str(q.caseId), Str(q.recordType), Str(q.hashAlgorithm), Str(q.hashValue),
                           Str(q.signatureAlgorithm), Str(q.signatureValue), Str(q.signerId), Str(q.createdAt)]);
  }

  lemma VerificationFields(q: Request)
    requires q.AppendVerification?
    ensures UniqueKeys(Payload(q)) && Get(Payload(q), "hash_value") == None
    ensures var values := [Str(q.artifactId), Str(q.caseId), Str(q.recordType), Str(q.verificationResult),
                           Str(q.originalHash), Str(q.currentHash), Str(q.verifiedBy), Str(q.verifiedAt)];
      forall i | 0 <= i < 8 :: Get(Payload(q), VERIFICATION_KEYS[i]) == Some(values[i])
    ensures VERIFICATION_KEYS[0] == "artifact_id" && VERIFICATION_KEYS[1] == "case_id" && VERIFICATION_KEYS[2] == "record_type"
    ensures VERIFICATION_KEYS[3] == "verification_result" && VERIFICATION_KEYS[4] == "original_hash"
    ensures VERIFICATION_KEYS[5] == "current_hash" && VERIFICATION_KEYS[6] == "verified_by" && VERIFICATION_KEYS[7] == "verified_at"
  {
    var values := [Str(q.artifactId), Str(q.caseId), Str(q.recordType), Str(q.verificationResult),
                   Str(q.originalHash), Str(q.currentHash), Str(q.verifiedBy), Str(q.verifiedAt)];
    PayloadKeysDistinct();
    DictShape(VERIFICATION_KEYS, values);
    ZipKeys(VERIFICATION_KEYS, values);
    NoHashValueKey();
  }

  lemma NoHashValueKey()
    ensures "hash_value" !in VERIFICATION_KEYS
  {
    assert forall k | k in VERIFICATION_KEYS :: |k| != 10;
  }

  /** A proof and a verification never hash the same text, whatever they hold. */
  lemma ProofIsNoVerification(p: Request, v: Request)
    requires p.AppendProof? && v.AppendVerification?
    ensures Dumps(Payload(p)) != Dumps(Payload(v))
  {
    PayloadFields(p);
    PayloadFields(v);
    FieldTellsApart(Payload(p), Payload(v), "hash_value");
  }

  // ------------------------------------------------------------------ tables

  /** ledger_records in commit order, and ledger_state. */
  datatype Db = Db(rows: seq<Row>, heads: map<string, Option<string>>)

  const EMPTY_DB := Db([], map[])

  function Head(db: Db, caseId: string): Option<string> {
    if caseId in db.heads then db.heads[caseId] else None
  }

  function InCase(caseId: string): Row -> bool {
    (r: Row) => r.caseId == caseId
  }

  /** The rows of a case, in commit order. */
  function CaseRows(db: Db, caseId: string): seq<Row> {
    Filter(InCase(caseId), db.rows)
  }

  /** What one successful append is given besides the tables: the request, the
      fresh record id and the clock reading. */
  datatype Entry = Entry(request: Request, recordId: nat, now: int)

  function MakeRow(h: Sha256, e: Entry, previous: Option<string>): Row {
    var q := e.request;
    var payloadHash := PayloadHash(h, Payload(q));
    if q.AppendProof? then
      Row(e.recordId, q.artifactId, q.caseId, q.recordType, Some(q.hashAlgorithm), Some(q.hashValue),
          Some(q.signatureAlgorithm), Some(q.signatureValue), Some(q.signerId),
          payloadHash, previous, RecordHash(h, payloadHash, previous), Payload(q), e.now)
    else
      Row(e.recordId, q.artifactId, q.caseId, q.recordType, None, None, None, None, None,
          payloadHash, previous, RecordHash(h, payloadHash, previous), Payload(q), e.now)
  }

  /** One append transaction run alone and committed. */
  function Append(h: Sha256, db: Db, e: Entry): Db {
    var row := MakeRow(h, e, Head(db, e.request.caseId));
    Db(db.rows + [row], db.heads[e.request.caseId := Some(row.recordHash)])
  }

  /** The tables after a history of appends. */
  function Replay(h: Sha256, log: seq<Entry>): Db {
    if log == [] then EMPTY_DB else Append(h, Replay(h, log[..|log| - 1]), log[|log| - 1])
  }

  ghost predicate FreshRecordIds(log: seq<Entry>) {
    forall i, j | 0 <= i < j < |log| :: log[i].recordId != log[j].recordId
  }

  function LastHash(rows: seq<Row>): Option<string> {
    ExpectedPrevious(rows, |rows|)
  }

  /** Every case's rows form one chain in commit order, and its state row, if
      any, holds the hash of the last of them. */
  ghost predicate Consistent(h: Sha256, db: Db) {
    forall c :: IsChain(h, CaseRows(db, c)) && Head(db, c) == LastHash(CaseRows(db, c))
  }

  lemma AppendToCase(h: Sha256, db: Db, e: Entry, c: string)
    ensures CaseRows(Append(h, db, e), c) == CaseRows(db, c) +
      if e.request.caseId == c then [MakeRow(h, e, Head(db, c))] else []
  {
    FilterAppend(InCase(c), db.rows, MakeRow(h, e, Head(db, e.request.caseId)));
  }

  lemma AppendConsistent(h: Sha256, db: Db, e: Entry)
    requires Consistent(h, db)
    ensures Consistent(h, Append(h, db, e))
  {
    var next := Append(h, db, e);
    forall c ensures IsChain(h, CaseRows(next, c)) && Head(next, c) == LastHash(CaseRows(next, c)) {
      AppendToCase(h, db, e, c);
      if e.request.caseId == c {
        ChainExtends(h, CaseRows(db, c), MakeRow(h, e, Head(db, c)));
      }
    }
  }

  lemma ChainExtends(h: Sha256, rows: seq<Row>, row: Row)
    requires IsChain(h, rows) && row.previousRecordHash == LastHash(rows)
    requires row.payloadHash == PayloadHash(h, row.rawPayload)
    requires row.recordHash == RecordHash(h, row.payloadHash, row.previousRecordHash)
    ensures IsChain(h, rows + [row])
  {
    assert (rows + [row])[..|rows|] == rows;
    assert Linked(h, rows + [row], |rows|);
    ChainGrows(h, rows + [row], |rows|);
    assert (rows + [row])[..|rows| + 1] == rows + [row];
  }

  lemma {:induction false} ReplayConsistent(h: Sha256, log: seq<Entry>)
    ensures Consistent(h, Replay(h, log))
  {
    if log != [] {
      ReplayConsistent(h, log[..|log| - 1]);
      AppendConsistent(h, Replay(h, log[..|log| - 1]), log[|log| - 1]);
    }
  }

  /** Row i of the table was made from entry i of the history. */
  lemma {:induction false} ReplayRows(h: Sha256, log: seq<Entry>)
    ensures |Replay(h, log).rows| == |log|
    ensures forall i | 0 <= i < |log| ::
      Replay(h, log).rows[i] == MakeRow(h, log[i], Replay(h, log).rows[i].previousRecordHash)
  {
    if log != [] {
      ReplayRows(h, log[..|log| - 1]);
    }
  }

  // --------------------------------------------------- columns and what is hashed

  function TextOrNone(o: Option<string>): Option<Json> {
    if o.Some? then Some(Str(o.value)) else None
  }

  /** Every column says what the hashed payload says under its name, and a column
      is null exactly when the payload has no such key. */
  ghost predicate ColumnsAgree(r: Row) {
    && Get(r.rawPayload, "artifact_id") == Some(Str(r.artifactId)) && Get(r.rawPayload, "case_id") == Some(Str(r.caseId))
    && Get(r.rawPayload, "record_type") == Some(Str(r.recordType))
    && Get(r.rawPayload, "hash_algorithm") == TextOrNone(r.hashAlgorithm)
    && Get(r.rawPayload, "hash_value") == TextOrNone(r.hashValue)
    && Get(r.rawPayload, "signature_algorithm") == TextOrNone(r.signatureAlgorithm)
    && Get(r.rawPayload, "signature_value") == TextOrNone(r.signatureValue)
    && Get(r.rawPayload, "signer_id") == TextOrNone(r.signerId)
  }

  lemma VerificationKeyShapes()
    ensures forall k | k in VERIFICATION_KEYS :: |k| in {7, 11, 12, 13} || (|k| == 19 && k[0] == 'v')
  {
    forall i | 0 <= i < |VERIFICATION_KEYS|
      ensures |VERIFICATION_KEYS[i]| in {7, 11, 12, 13} || (|VERIFICATION_KEYS[i]| == 19 && VERIFICATION_KEYS[i][0] == 'v')
    {
    }
  }

  lemma VerificationHasNoKey(q: Request, key: string)
    requires q.AppendVerification? && |key| !in {7, 11, 12, 13} && key != "" && key[0] != 'v'
    ensures Get(Payload(q), key) == None
  {
    VerificationKeyShapes();
    assert key !in VERIFICATION_KEYS;
    ZipKeys(VERIFICATION_KEYS, [Str(q.artifactId), Str(q.caseId), Str(q.recordType), Str(q.verificationResult),
                                Str(q.originalHash), Str(q.currentHash), Str(q.verifiedBy), Str(q.verifiedAt)]);
  }

  lemma MadeColumnsAgree(h: Sha256, e: Entry, previous: Option<string>)
    ensures ColumnsAgree(MakeRow(h, e, previous)) && UniqueKeys(MakeRow(h, e, previous).rawPayload)
    ensures MakeRow(h, e, previous).recordId == e.recordId && MakeRow(h, e, previous).createdAt == e.now
  {
    PayloadFields(e.request);
    if e.request.AppendVerification? {
      VerificationHasNoKey(e.request, "hash_algorithm");
      VerificationHasNoKey(e.request, "signature_algorithm");
      VerificationHasNoKey(e.request, "signature_value");
      VerificationHasNoKey(e.request, "signer_id");
    }
  }

  /** In every history, the columns of every row agree with its hashed payload. */
  lemma {:induction false} ReplayColumns(h: Sha256, log: seq<Entry>)
    ensures forall r | r in Replay(h, log).rows :: ColumnsAgree(r) && UniqueKeys(r.rawPayload)
  {
    if log != [] {
      var front, e := log[..|log| - 1], log[|log| - 1];
      ReplayColumns(h, front);
      MadeColumnsAgree(h, e, Head(Replay(h, front), e.request.caseId));
    }
  }

  /** The columns are not hashed. A row may be rewritten in any of them but its
      case and clock reading, and its case is accepted as it was. */
  lemma ColumnEditUnnoticed(h: Sha256, db: Db, n: nat, row: Row, caseId: string)
    requires n < |db.rows| && row.caseId == db.rows[n].caseId && RowKey(row) == RowKey(db.rows[n])
    requires row.rawPayload == db.rows[n].rawPayload && row.payloadHash == db.rows[n].payloadHash
    requires row.previousRecordHash == db.rows[n].previousRecordHash && row.recordHash == db.rows[n].recordHash
    ensures Accepted(h, Db(db.rows[n := row], db.heads), caseId) <==> Accepted(h, db, caseId)
  {
    var edited := Db(db.rows[n := row], db.heads);
    if row.caseId == caseId {
      var m := FilterEdit(InCase(caseId), db.rows, n, row);
      var p := SortByEdit(RowKey, CaseRows(db, caseId), m, row);
      SameLinks(h, ValidatorRows(db, caseId), p, row);
    } else {
      FilterSkips(InCase(caseId), db.rows, n, row);
    }
  }

  lemma {:induction false} FilterSkips(p: Row -> bool, rows: seq<Row>, n: nat, row: Row)
    requires n < |rows| && !p(rows[n]) && !p(row)
    ensures Filter(p, rows[n := row]) == Filter(p, rows)
  {
    var front := rows[..|rows| - 1];
    if n == |rows| - 1 {
      assert rows[n := row][..|rows| - 1] == front;
    } else {
      FilterSkips(p, front, n, row);
      assert rows[n := row][..|rows| - 1] == front[n := row];
    }
  }

  lemma SameLinks(h: Sha256, rows: seq<Row>, p: nat, row: Row)
    requires p < |rows| && row.rawPayload == rows[p].rawPayload && row.payloadHash == rows[p].payloadHash
    requires row.previousRecordHash == rows[p].previousRecordHash && row.recordHash == rows[p].recordHash
    ensures IsChain(h, rows[p := row]) <==> IsChain(h, rows)
  {
    var edited := rows[p := row];
    forall i | 0 <= i < |rows| ensures Linked(h, edited, i) <==> Linked(h, rows, i) {
      assert ExpectedPrevious(edited, i) == ExpectedPrevious(rows, i);
    }
  }

  // -------------------------------------------------- acceptance, characterised

  /** The rows in the order the validator reads them. */
  function ValidatorRows(db: Db, caseId: string): seq<Row> {
    SortBy(RowKey, CaseRows(db, caseId))
  }

  ghost predicate Accepted(h: Sha256, db: Db, caseId: string) {
    IsChain(h, ValidatorRows(db, caseId))
  }

  /** The case's rows were stamped in the order they were committed. */
  ghost predicate StampedInOrder(db: Db, caseId: string) {
    Ascending(RowKey, CaseRows(db, caseId))
  }

  ghost predicate UniqueIds(rows: seq<Row>) {
    forall i, j | 0 <= i < j < |rows| :: rows[i].recordId != rows[j].recordId
  }

  lemma {:induction false} FilterUniqueIds(p: Row -> bool, rows: seq<Row>)
    requires UniqueIds(rows)
    ensures UniqueIds(Filter(p, rows))
  {
    if rows != [] {
      var front, last := rows[..|rows| - 1], rows[|rows| - 1];
      FilterUniqueIds(p, front);
      forall r | r in Filter(p, front) ensures r.recordId != last.recordId {
        FilterMember(p, front, r);
      }
    }
  }

  lemma CaseKeysDistinct(db: Db, caseId: string)
    requires UniqueIds(db.rows)
    ensures DistinctKeys(RowKey, CaseRows(db, caseId))
  {
    FilterUniqueIds(InCase(caseId), db.rows);
  }

  lemma AcceptedIsUnsorted(h: Sha256, db: Db, caseId: string)
    requires Consistent(h, db) && Accepted(h, db, caseId)
    requires CollisionFree(h, HashedTexts(CaseRows(db, caseId)))
    ensures ValidatorRows(db, caseId) == CaseRows(db, caseId)
  {
    var rows := CaseRows(db, caseId);
    var sorted := ValidatorRows(db, caseId);
    SortByKeepsRows(RowKey, rows);
    forall r | r in sorted ensures r in rows {
      SortByMember(RowKey, rows, r);
    }
    OneOrderAccepted(h, rows, sorted, |rows|);
    assert sorted[..|rows|] == sorted && rows[..|rows|] == rows;
  }

  /** After any history of appends the validator accepts a case exactly when
      sorting by (created_at, record_id) gives back the commit order, unless
      texts hashed in that case collide. */
  lemma AcceptedIffStampedInOrder(h: Sha256, db: Db, caseId: string)
    requires Consistent(h, db) && UniqueIds(db.rows)
    requires CollisionFree(h, HashedTexts(CaseRows(db, caseId)))
    ensures Accepted(h, db, caseId) <==> StampedInOrder(db, caseId)
  {
    CaseKeysDistinct(db, caseId);
    SortByFixpoint(RowKey, CaseRows(db, caseId));
    if Accepted(h, db, caseId) {
      AcceptedIsUnsorted(h, db, caseId);
    }
  }

  /** In that direction nothing is assumed about the hash. */
  lemma StampedInOrderAccepted(h: Sha256, db: Db, caseId: string)
    requires Consistent(h, db) && UniqueIds(db.rows) && StampedInOrder(db, caseId)
    ensures Accepted(h, db, caseId)
  {
    SortByAscending(RowKey, CaseRows(db, caseId));
  }

  /** A clock that reads later than every row of the case keeps the case in order. */
  lemma LaterClockKeepsOrder(h: Sha256, db: Db, e: Entry, c: string)
    requires StampedInOrder(db, c)
    requires e.request.caseId == c ==> forall r | r in CaseRows(db, c) :: r.createdAt < e.now
    ensures StampedInOrder(Append(h, db, e), c)
  {
    AppendToCase(h, db, e, c);
  }

  /** A clock tie with a smaller record id, or a clock set back, breaks the
      case: the validator rejects it from then on, whatever is appended. */
  lemma OutOfOrderForGood(h: Sha256, db: Db, e: Entry, c: string)
    requires !StampedInOrder(db, c) ||
             (e.request.caseId == c && exists r | r in CaseRows(db, c) :: !Before(RowKey(r), Key(e.now, e.recordId)))
    ensures !StampedInOrder(Append(h, db, e), c)
  {
    AppendToCase(h, db, e, c);
    var rows, more := CaseRows(db, c), CaseRows(Append(h, db, e), c);
    if !StampedInOrder(db, c) {
      var i, j :| 0 <= i < j < |rows| && !Before(RowKey(rows[i]), RowKey(rows[j]));
      assert more[i] == rows[i] && more[j] == rows[j];
    } else {
      var r :| r in rows && !Before(RowKey(r), Key(e.now, e.recordId));
      var i :| 0 <= i < |rows| && rows[i] == r;
      assert more[i] == r && RowKey(more[|rows|]) == Key(e.now, e.recordId);
    }
  }

  lemma NewerFirstRejected(h: Sha256, row: Row, newer: Row)
    requires newer.previousRecordHash.Some? && !Before(RowKey(row), RowKey(newer))
    ensures !IsChain(h, SortBy(RowKey, [row, newer]))
  {
    SortOfTwo(RowKey, row, newer);
    assert !Linked(h, [newer, row], 0);
  }

  /** Two appends to a new case are enough, whatever the hash: if the clock does
      not move on and the second record id is the smaller one, the case is
      rejected. */
  lemma TieRejected(h: Sha256, db: Db, first: Entry, second: Entry, c: string)
    requires CaseRows(db, c) == [] && first.request.caseId == c == second.request.caseId
    requires second.now == first.now && second.recordId < first.recordId
    ensures !Accepted(h, Append(h, Append(h, db, first), second), c)
  {
    var mid := Append(h, db, first);
    AppendToCase(h, db, first, c);
    AppendToCase(h, mid, second, c);
    NewerFirstRejected(h, MakeRow(h, first, Head(db, c)), MakeRow(h, second, Head(mid, c)));
    assert CaseRows(Append(h, mid, second), c) == [MakeRow(h, first, Head(db, c)), MakeRow(h, second, Head(mid, c))];
  }

  /** What ValidateLedgerChain reports for a case id as the caller gave it: the
      rows replayed are those of the stripped id, and a blank id or an error on
      the server is reported as an invalid chain. */
  ghost predicate ReportsValid(h: Sha256, db: Db, caseId: string, serverError: bool) {
    Strip(caseId) != "" && !serverError && Accepted(h, db, Strip(caseId))
  }

  // ------------------------------------------------------------ proof look-up

  const EVIDENCE_PROOF := "EVIDENCE_PROOF_CREATED"

  function ProofOf(artifactId: string): Row -> bool {
    (r: Row) => r.artifactId == artifactId && r.recordType == EVIDENCE_PROOF
  }

  /** A first row of the artifact's proofs ordered by created_at descending.
      Rows with equal times come in no particular order. */
  ghost predicate IsLatestProof(db: Db, artifactId: string, r: Row) {
    var proofs := Filter(ProofOf(artifactId), db.rows);
    r in proofs && forall p | p in proofs :: p.createdAt <= r.createdAt
  }

  lemma {:induction false} LatestExists(rows: seq<Row>) returns (i: nat)
    requires rows != []
    ensures i < |rows| && forall j | 0 <= j < |rows| :: rows[j].createdAt <= rows[i].createdAt
  {
    var last := |rows| - 1;
    if last == 0 {
      i := 0;
    } else {
      i := LatestExists(rows[..last]);
      i := if rows[i].createdAt < rows[last].createdAt then last else i;
    }
  }
}
