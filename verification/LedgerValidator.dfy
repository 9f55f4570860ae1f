/** ValidateLedgerChain (services/immutable-ledger/servicer.py): the replay of
    a list of rows, and what its acceptance says about the rows. */
module LedgerValidator {
  import opened Basics
  import opened CanonicalJson
  import opened HashChain

  datatype Fault = NoFault | BrokenChain(recordId: nat) | CorruptedPayload(recordId: nat) |
                   CorruptedRecord(recordId: nat) | CaseRequired | ServerError

  datatype Validation = Validation(chainValid: bool, checkedRecords: nat, fault: Fault)

  /** n rows from the start form a chain, and n + 1 do not. */
  ghost predicate LongestChain(h: Sha256, rows: seq<Row>, n: nat) {
    && n <= |rows|
    && IsChain(h, rows[..n])
    && (n < |rows| ==> !Linked(h, rows, n))
  }

  lemma LongestChainUnique(h: Sha256, rows: seq<Row>, m: nat, n: nat)
    requires LongestChain(h, rows, m) && LongestChain(h, rows, n)
    ensures m == n
  {
    if m < n {
      assert Linked(h, rows[..n], m);
      LinkedInPrefix(h, rows, n, m);
    } else if n < m {
      assert Linked(h, rows[..m], n);
      LinkedInPrefix(h, rows, m, n);
    }
  }

  lemma LinkedInPrefix(h: Sha256, rows: seq<Row>, n: nat, i: nat)
    requires i < n <= |rows|
    ensures Linked(h, rows[..n], i) <==> Linked(h, rows, i)
  {
    assert ExpectedPrevious(rows[..n], i) == ExpectedPrevious(rows, i);
  }

  /** The loop over the records, with its three tests in order. */
  method ReplayChain(h: Sha256, records: seq<Row>) returns (r: Validation)
    ensures LongestChain(h, records, r.checkedRecords)
    ensures r.chainValid <==> r.checkedRecords == |records|
    ensures r.chainValid <==> r.fault == NoFault
    ensures r.chainValid <==> IsChain(h, records)
    ensures !r.chainValid ==>
      var bad := records[r.checkedRecords];
      r.fault == (if bad.previousRecordHash != ExpectedPrevious(records, r.checkedRecords) then BrokenChain(bad.recordId)
                  else if bad.payloadHash != PayloadHash(h, bad.rawPayload) then CorruptedPayload(bad.recordId)
                  else CorruptedRecord(bad.recordId))
  {
    var checked := 0;
    var expected: Option<string> := None;
    while checked < |records|
      invariant 0 <= checked <= |records|
      invariant IsChain(h, records[..checked])
      invariant expected == ExpectedPrevious(records, checked)
    {
      var record := records[checked];
      LinkedInPrefix(h, records, checked + 1, checked);
      if record.previousRecordHash != expected {
        NotAChain(h, records, checked);
        return Validation(false, checked, BrokenChain(record.recordId));
      }
      var payloadHash := PayloadHash(h, record.rawPayload);
      if payloadHash != record.payloadHash {
        NotAChain(h, records, checked);
        return Validation(false, checked, CorruptedPayload(record.recordId));
      }
      if RecordHash(h, payloadHash, record.previousRecordHash) != record.recordHash {
        NotAChain(h, records, checked);
        return Validation(false, checked, CorruptedRecord(record.recordId));
      }
      ChainGrows(h, records, checked);
      expected := Some(record.recordHash);
      checked := checked + 1;
    }
    assert records[..checked] == records;
    r := Validation(true, checked, NoFault);
  }

  lemma NotAChain(h: Sha256, rows: seq<Row>, i: nat)
    requires i < |rows| && !Linked(h, rows, i)
    ensures !IsChain(h, rows)
  {
  }

  lemma ChainGrows(h: Sha256, rows: seq<Row>, n: nat)
    requires n < |rows| && IsChain(h, rows[..n]) && Linked(h, rows, n)
    ensures IsChain(h, rows[..n + 1])
  {
    var longer := rows[..n + 1];
    forall i | 0 <= i < n + 1 ensures Linked(h, longer, i) {
      LinkedInPrefix(h, rows, n + 1, i);
      if i < n {
        LinkedInPrefix(h, rows, n, i);
        assert Linked(h, rows[..n], i);
      }
    }
  }

  /** Cutting an accepted list short leaves it accepted: the replay alone does
      not notice the removal of the newest rows. */
  lemma PrefixOfChain(h: Sha256, rows: seq<Row>, n: nat)
    requires IsChain(h, rows) && n <= |rows|
    ensures LongestChain(h, rows[..n], n)
  {
    forall i | 0 <= i < n ensures Linked(h, rows[..n], i) {
      assert Linked(h, rows, i);
      LinkedInPrefix(h, rows, n, i);
    }
    assert rows[..n][..n] == rows[..n];
  }

  /** Changing a list from position i on leaves the chain before i standing. */
  lemma ChainBefore(h: Sha256, rows: seq<Row>, changed: seq<Row>, i: nat)
    requires IsChain(h, rows) && i < |rows| && i < |changed| && rows[..i] == changed[..i]
    requires !Linked(h, changed, i)
    ensures LongestChain(h, changed, i)
  {
    PrefixOfChain(h, rows, i);
    assert rows[..i][..i] == changed[..i];
  }

  /** An edited payload is reported at its own row, unless the new text and the
      old one collide. */
  lemma PayloadEditDetected(h: Sha256, rows: seq<Row>, i: nat, payload: Json)
    requires IsChain(h, rows) && i < |rows| && UniqueKeys(payload) && UniqueKeys(rows[i].rawPayload)
    requires Meaning(payload) != Meaning(rows[i].rawPayload)
    requires CollisionFree(h, {Dumps(payload), Dumps(rows[i].rawPayload)})
    ensures LongestChain(h, rows[i := rows[i].(rawPayload := payload)], i)
  {
    DumpsIsCanonical(payload, rows[i].rawPayload);
    assert Linked(h, rows, i);
    assert Dumps(payload) in {Dumps(payload), Dumps(rows[i].rawPayload)};
    ChainBefore(h, rows, rows[i := rows[i].(rawPayload := payload)], i);
  }

  /** A row removed from before the end is reported at the row that took its
      place, unless two of the texts hashed in the chain collide. */
  lemma DeletionDetected(h: Sha256, rows: seq<Row>, i: nat)
    requires IsChain(h, rows) && i + 1 < |rows| && CollisionFree(h, HashedTexts(rows))
    ensures LongestChain(h, rows[..i] + rows[i + 1..], i)
  {
    var shorter := rows[..i] + rows[i + 1..];
    assert shorter[i] == rows[i + 1] && (i > 0 ==> shorter[i - 1] == rows[i - 1]);
    PreviousIsExpected(h, rows, i + 1);
    if i > 0 {
      RecordHashesDistinct(h, rows, i - 1, i);
    }
    assert !Linked(h, shorter, i);
    ChainBefore(h, rows, shorter, i);
  }

  /** jsonb does not keep the order of members. Reading payloads back in
      another order does not change the outcome at any row. */
  lemma MemberOrderIrrelevant(h: Sha256, rows: seq<Row>, i: nat, payload: Json, k: nat)
    requires i < |rows| && k < |rows| && UniqueKeys(payload) && UniqueKeys(rows[i].rawPayload)
    requires Meaning(payload) == Meaning(rows[i].rawPayload)
    ensures Linked(h, rows[i := rows[i].(rawPayload := payload)], k) <==> Linked(h, rows, k)
  {
    DumpsIsCanonical(payload, rows[i].rawPayload);
    var reread := rows[i := rows[i].(rawPayload := payload)];
    assert ExpectedPrevious(reread, k) == ExpectedPrevious(rows, k);
  }

  lemma SameHeadSamePayloads(h: Sha256, a: seq<Row>, b: seq<Row>)
    requires a != [] && b != [] && IsChain(h, a) && IsChain(h, b)
    requires CollisionFree(h, HashedTexts(a) + HashedTexts(b))
    requires forall r | r in a || r in b :: UniqueKeys(r.rawPayload)
    requires a[|a| - 1].recordHash == b[|b| - 1].recordHash
    ensures |a| == |b| && forall k | 0 <= k < |a| :: Meaning(a[k].rawPayload) == Meaning(b[k].rawPayload)
  {
    HashCommitsToHistory(h, a, |a| - 1, b, |b| - 1);
    forall k | 0 <= k < |a| ensures Meaning(a[k].rawPayload) == Meaning(b[k].rawPayload) {
      assert a[k] in a && b[k] in b;
      DumpsIsCanonical(a[k].rawPayload, b[k].rawPayload);
    }
  }

  /** The final hash of an accepted list stands for the whole list of payloads:
      two accepted lists end in the same hash exactly when they have the same
      length and payloads of the same meaning. */
  lemma HeadCommitsToPayloads(h: Sha256, a: seq<Row>, b: seq<Row>)
    requires a != [] && b != [] && IsChain(h, a) && IsChain(h, b)
    requires CollisionFree(h, HashedTexts(a) + HashedTexts(b))
    requires forall r | r in a || r in b :: UniqueKeys(r.rawPayload)
    ensures a[|a| - 1].recordHash == b[|b| - 1].recordHash <==>
      |a| == |b| && forall k | 0 <= k < |a| :: Meaning(a[k].rawPayload) == Meaning(b[k].rawPayload)
  {
    hide Meaning, UniqueKeys, IsChain, HashedTexts, CollisionFree;
    if a[|a| - 1].recordHash == b[|b| - 1].recordHash {
      SameHeadSamePayloads(h, a, b);
    }
    if |a| == |b| && forall k | 0 <= k < |a| :: Meaning(a[k].rawPayload) == Meaning(b[k].rawPayload) {
      SamePayloadsSameHashes(h, a, b, |a| - 1);
    }
  }

  lemma {:induction false} SamePayloadsSameHashes(h: Sha256, a: seq<Row>, b: seq<Row>, k: nat)
    requires IsChain(h, a) && IsChain(h, b) && k < |a| && k < |b|
    requires forall i | 0 <= i <= k :: UniqueKeys(a[i].rawPayload) && UniqueKeys(b[i].rawPayload)
    requires forall i | 0 <= i <= k :: Meaning(a[i].rawPayload) == Meaning(b[i].rawPayload)
    ensures a[k].payloadHash == b[k].payloadHash && a[k].recordHash == b[k].recordHash
    ensures a[k].previousRecordHash == b[k].previousRecordHash
  {
    assert Linked(h, a, k) && Linked(h, b, k);
    DumpsIsCanonical(a[k].rawPayload, b[k].rawPayload);
    if k > 0 {
      SamePayloadsSameHashes(h, a, b, k - 1);
    }
  }

  /** Only one order of a chain's rows is accepted. */
  lemma {:induction false} OneOrderAccepted(h: Sha256, chain: seq<Row>, other: seq<Row>, n: nat)
    requires IsChain(h, chain) && IsChain(h, other) && CollisionFree(h, HashedTexts(chain))
    requires |other| == |chain| && (forall r | r in other :: r in chain) && n <= |chain|
    ensures other[..n] == chain[..n]
  {
    hide Linked, CollisionFree, HashedTexts;
    if n > 0 {
      var i := n - 1;
      OneOrderAccepted(h, chain, other, i);
      PreviousIsExpected(h, other, i);
      PreviousIsExpected(h, chain, i);
      if i > 0 { assert other[i - 1] == other[..i][i - 1] == chain[i - 1]; }
      assert other[i] in chain;
      var j :| 0 <= j < |chain| && chain[j] == other[i];
      PredecessorsDistinct(h, chain, i, j);
      assert other[..n] == other[..i] + [other[i]] && chain[..n] == chain[..i] + [chain[i]];
    }
  }

  // ------------------------------------------------------------- the case id

  /** Python's white space. */
  predicate IsSpace(c: char) {
    var u := c as int;
    9 <= u <= 13 || 28 <= u <= 32 || u in {0x85, 0xA0, 0x1680, 0x2028, 0x2029, 0x202F, 0x205F, 0x3000} ||
    0x2000 <= u <= 0x200A
  }

  function StripLeft(s: string): string {
    if s != [] && IsSpace(s[0]) then StripLeft(s[1..]) else s
  }

  function StripRight(s: string): string {
    if s != [] && IsSpace(s[|s| - 1]) then StripRight(s[..|s| - 1]) else s
  }

  function Strip(s: string): string {
    StripRight(StripLeft(s))
  }

  lemma {:induction false} StripRightCut(s: string)
    ensures StripRight(s) <= s
    ensures StripRight(s) != [] ==> !IsSpace(StripRight(s)[|StripRight(s)| - 1])
  {
    if s != [] && IsSpace(s[|s| - 1]) {
      StripRightCut(s[..|s| - 1]);
    }
  }

  lemma {:induction false} StripLeftCut(s: string)
    ensures |StripLeft(s)| <= |s| && (StripLeft(s) != [] ==> !IsSpace(StripLeft(s)[0]))
    ensures s != [] && IsSpace(s[0]) ==> |StripLeft(s)| < |s|
  {
    if s != [] && IsSpace(s[0]) {
      StripLeftCut(s[1..]);
    }
  }

  lemma {:induction false} LeftIsSpace(s: string) returns (left: string)
    ensures s == left + StripLeft(s) && forall c | c in left :: IsSpace(c)
  {
    if s != [] && IsSpace(s[0]) {
      left := LeftIsSpace(s[1..]);
      left := [s[0]] + left;
    } else {
      left := [];
    }
  }

  lemma {:induction false} RightIsSpace(s: string) returns (right: string)
    ensures s == StripRight(s) + right && forall c | c in right :: IsSpace(c)
  {
    if s != [] && IsSpace(s[|s| - 1]) {
      var front := s[..|s| - 1];
      right := RightIsSpace(front);
      assert s == front + [s[|s| - 1]];
      right := right + [s[|s| - 1]];
    } else {
      right := [];
    }
  }

  /** A stripped id is what stands between white space at both ends, and has none
      at its own ends. */
  lemma StripIsMiddle(s: string) returns (left: string, right: string)
    ensures s == left + Strip(s) + right && forall c | c in left || c in right :: IsSpace(c)
    ensures Strip(s) == [] || (!IsSpace(Strip(s)[0]) && !IsSpace(Strip(s)[|Strip(s)| - 1]))
  {
    left := LeftIsSpace(s);
    right := RightIsSpace(StripLeft(s));
    StripLeftCut(s);
    StripRightCut(StripLeft(s));
    assert left + Strip(s) + right == left + (Strip(s) + right);
  }

  /** A case id is looked up under its own name exactly when it has no white
      space at either end. Rows are stored under the name as given, so the rows
      of any other case id are never the ones replayed for it. */
  lemma StripKeeps(s: string)
    ensures Strip(s) == s <==> s == [] || (!IsSpace(s[0]) && !IsSpace(s[|s| - 1]))
  {
    StripLeftCut(s);
    StripRightCut(StripLeft(s));
  }
}
