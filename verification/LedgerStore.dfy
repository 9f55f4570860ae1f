/** The ledger service as it stands: an object over its two tables, with the
    gRPC methods of services/immutable-ledger/servicer.py. */
module LedgerStore {
  import opened Basics
  import opened CanonicalJson
  import opened HashChain
  import opened LedgerValidator
  import opened Ledger

  /** Where, if anywhere, the database raises during an append. AfterCommit: the
      commit takes effect and raises all the same. */
  datatype Failure = Never | OnEnsure | OnInsert | OnCommit | AfterCommit

  /** The append takes effect. */
  predicate Commits(rows: seq<Row>, recordId: nat, failure: Failure) {
    (failure.Never? || failure.AfterCommit?) && forall x | x in rows :: x.recordId != recordId
  }

  datatype ProofResponse =
    | Appended(recordId: nat, payloadHash: string, previousRecordHash: string, recordHash: string, createdAt: int)
    | NotAppended

  datatype ProofAnswer =
    | Proof(recordId: nat, caseId: string, hashValue: Option<string>, signatureValue: Option<string>, recordHash: string)
    | NoProof

  class LedgerService {
    var rows: seq<Row>
    var heads: map<string, Option<string>>

    function Tables(): Db
      reads this
    {
      Db(rows, heads)
    }

    constructor ()
      ensures Tables() == EMPTY_DB
    {
      rows, heads := [], map[];
    }

    /** One append. It has the whole effect of a serial append or none; a record
        id already in the table makes it fail. The caller is told of success only
        if it took effect, but not always then. */
    method AppendRecord(h: Sha256, q: Request, recordId: nat, now: int, failure: Failure) returns (r: ProofResponse)
      modifies this
      ensures r.Appended? <==> failure.Never? && Commits(old(rows), recordId, failure)
      ensures Tables() == if Commits(old(rows), recordId, failure) then Append(h, old(Tables()), Entry(q, recordId, now)) else old(Tables())
      ensures r.Appended? ==>
        var row := rows[|rows| - 1];
        r == Appended(recordId, row.payloadHash, if row.previousRecordHash.Some? then row.previousRecordHash.value else "",
                      row.recordHash, now)
    {
      var rowsBefore, headsBefore := rows, heads;
      if q.caseId !in heads {
        heads := heads[q.caseId := None];
      }
      var previous := heads[q.caseId];
      if failure.OnEnsure? {
        rows, heads := rowsBefore, headsBefore;
        return NotAppended;
      }
      var row := MakeRow(h, Entry(q, recordId, now), previous);
      rows := rows + [row];
      heads := heads[q.caseId := Some(row.recordHash)];
      if !Commits(rowsBefore, recordId, failure) {
        rows, heads := rowsBefore, headsBefore;
        return NotAppended;
      }
      assert heads == headsBefore[q.caseId := Some(row.recordHash)];
      if failure.AfterCommit? {
        return NotAppended;
      }
      r := Appended(recordId, row.payloadHash, if previous.Some? then previous.value else "", row.recordHash, now);
    }

    method ValidateLedgerChain(h: Sha256, caseId: string, serverError: bool) returns (r: Validation)
      ensures r.chainValid <==> ReportsValid(h, Tables(), caseId, serverError)
      ensures r.chainValid ==> r.checkedRecords == |CaseRows(Tables(), Strip(caseId))|
      ensures r.fault.CaseRequired? <==> Strip(caseId) == ""
      ensures r.fault.ServerError? <==> Strip(caseId) != "" && serverError
      ensures Strip(caseId) != "" && !serverError ==>
        LongestChain(h, ValidatorRows(Tables(), Strip(caseId)), r.checkedRecords)
    {
      var stripped := Strip(caseId);
      if stripped == "" {
        return Validation(false, 0, CaseRequired);
      }
      if serverError {
        return Validation(false, 0, ServerError);
      }
      SortByKeepsRows(RowKey, CaseRows(Tables(), stripped));
      r := ReplayChain(h, ValidatorRows(Tables(), stripped));
    }

    /** The answer is one of the artifact's latest proofs, and there is none
        only if the artifact has no proof. */
    method GetProofByArtifactId(artifactId: string) returns (a: ProofAnswer)
      ensures a.NoProof? <==> forall r | r in rows :: !ProofOf(artifactId)(r)
      ensures a.Proof? ==>
        (exists r :: IsLatestProof(Tables(), artifactId, r) &&
                     a == Proof(r.recordId, r.caseId, r.hashValue, r.signatureValue, r.recordHash))
    {
      var proofs := Filter(ProofOf(artifactId), rows);
      forall r ensures r in proofs <==> r in rows && ProofOf(artifactId)(r) {
        FilterMember(ProofOf(artifactId), rows, r);
      }
      if proofs == [] {
        forall r | r in rows ensures !ProofOf(artifactId)(r) {
          assert r !in proofs;
        }
        return NoProof;
      }
      ghost var i := LatestExists(proofs);
      assert proofs[i] in proofs && forall p | p in proofs :: p.createdAt <= proofs[i].createdAt;
      var r: Row :| r in proofs && forall p | p in proofs :: p.createdAt <= r.createdAt;
      assert IsLatestProof(Tables(), artifactId, r);
      a := Proof(r.recordId, r.caseId, r.hashValue, r.signatureValue, r.recordHash);
    }
  }
}
