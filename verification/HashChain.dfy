/** services/immutable-ledger/chain/hash_chain.py, and the rows it stamps.

    SHA-256 (section 6.2 of FIPS 180-4) is any function from texts to 64
    hexadecimal characters. It is never assumed injective on all texts: results
    that need it assume CollisionFree on the finite set of texts actually hashed
    by the chains they talk about. */
module HashChain {
  import opened Basics
  import opened CanonicalJson

  ghost predicate IsDigest(d: string) {
    |d| == 64 && forall c | c in d :: '0' <= c <= '9' || 'a' <= c <= 'f'
  }

  ghost predicate MakesDigests(h: string -> string) {
    forall s :: IsDigest(h(s))
  }

  type Sha256 = h: string -> string | MakesDigests(h) ghost witness ConstantDigest()

  ghost function ConstantDigest(): string -> string
    ensures MakesDigests(ConstantDigest())
  {
    s => seq(64, i => '0')
  }

  /** No two of these texts have the same digest. */
  ghost predicate CollisionFree(h: Sha256, texts: set<string>) {
    forall x, y | x in texts && y in texts && h(x) == h(y) :: x == y
  }

  function PayloadHash(h: Sha256, payload: Json): string {
    h(Dumps(payload))
  }

  /** An empty previous hash counts as none, as Python's truth test has it. */
  function LinkText(payloadHash: string, previous: Option<string>): string {
    if previous.Some? && previous.value != "" then payloadHash + previous.value else payloadHash + "GENESIS"
  }

  function RecordHash(h: Sha256, payloadHash: string, previous: Option<string>): string {
    h(LinkText(payloadHash, previous))
  }

  /** The text hashed for a record: 64 characters of payload hash, and then the
      previous record hash, or GENESIS if there is none or an empty one. */
  lemma LinkTextParts(payloadHash: string, previous: Option<string>)
    requires IsDigest(payloadHash)
    ensures LinkText(payloadHash, previous)[..64] == payloadHash
    ensures previous.None? || previous.value == "" ==> LinkText(payloadHash, previous)[64..] == "GENESIS"
    ensures previous.Some? && previous.value != "" ==> LinkText(payloadHash, previous)[64..] == previous.value
  {
  }

  /** The concatenation is unambiguous because digests have one length: a first
      record hashes 71 characters, every later one 128. */
  lemma LinkTextInjective(p: string, a: Option<string>, q: string, b: Option<string>)
    requires IsDigest(p) && IsDigest(q)
    requires a.Some? ==> IsDigest(a.value)
    requires b.Some? ==> IsDigest(b.value)
    ensures LinkText(p, a) == LinkText(q, b) <==> p == q && a == b
  {
    assert p == LinkText(p, a)[..64] && q == LinkText(q, b)[..64];
    assert LinkText(p, a)[64..] == if a.Some? then a.value else "GENESIS";
    assert LinkText(q, b)[64..] == if b.Some? then b.value else "GENESIS";
  }

  /** A row of ledger_records (services/immutable-ledger/db/models.py). */
  datatype Row = Row(
    recordId: nat, artifactId: string, caseId: string, recordType: string,
    hashAlgorithm: Option<string>, hashValue: Option<string>,
    signatureAlgorithm: Option<string>, signatureValue: Option<string>, signerId: Option<string>,
    payloadHash: string, previousRecordHash: Option<string>, recordHash: string,
    rawPayload: Json, createdAt: int)

  function RowKey(r: Row): Key {
    Key(r.createdAt, r.recordId)
  }

  /** What the validator expects as the previous hash of the row at i. */
  function ExpectedPrevious(rows: seq<Row>, i: nat): Option<string>
    requires i <= |rows|
  {
    if i == 0 then None else Some(rows[i - 1].recordHash)
  }

  /** The row at i links to its predecessor and both its hashes recompute. */
  ghost predicate Linked(h: Sha256, rows: seq<Row>, i: nat)
    requires i < |rows|
  {
    && rows[i].previousRecordHash == ExpectedPrevious(rows, i)
    && rows[i].payloadHash == PayloadHash(h, rows[i].rawPayload)
    && rows[i].recordHash == RecordHash(h, rows[i].payloadHash, rows[i].previousRecordHash)
  }

  ghost predicate IsChain(h: Sha256, rows: seq<Row>) {
    forall i | 0 <= i < |rows| :: Linked(h, rows, i)
  }

  /** Every text that is hashed when these rows are appended or validated. */
  function HashedTexts(rows: seq<Row>): set<string> {
    (set i | 0 <= i < |rows| :: Dumps(rows[i].rawPayload)) +
    (set i | 0 <= i < |rows| :: LinkText(rows[i].payloadHash, rows[i].previousRecordHash))
  }

  lemma HashedText(rows: seq<Row>, i: nat)
    requires i < |rows|
    ensures Dumps(rows[i].rawPayload) in HashedTexts(rows)
    ensures LinkText(rows[i].payloadHash, rows[i].previousRecordHash) in HashedTexts(rows)
  {
  }

  /** Two chain rows with the same record hash have the same payload text and
      the same predecessor, unless two of the hashed texts collide. */
  lemma SameHashSameLink(h: Sha256, texts: set<string>, a: seq<Row>, i: nat, b: seq<Row>, j: nat)
    requires i < |a| && j < |b| && IsChain(h, a) && IsChain(h, b)
    requires CollisionFree(h, texts) && HashedTexts(a) <= texts && HashedTexts(b) <= texts
    requires a[i].recordHash == b[j].recordHash
    ensures Dumps(a[i].rawPayload) == Dumps(b[j].rawPayload)
    ensures ExpectedPrevious(a, i) == ExpectedPrevious(b, j)
  {
    assert Linked(h, a, i) && Linked(h, b, j);
    if i > 0 { assert Linked(h, a, i - 1); }
    if j > 0 { assert Linked(h, b, j - 1); }
    HashedText(a, i);
    HashedText(b, j);
    LinkTextInjective(a[i].payloadHash, a[i].previousRecordHash, b[j].payloadHash, b[j].previousRecordHash);
  }

  /** Equal hashes one step further down. */
  lemma StepDown(h: Sha256, texts: set<string>, a: seq<Row>, i: nat, b: seq<Row>, j: nat)
    requires i < |a| && j < |b| && IsChain(h, a) && IsChain(h, b)
    requires CollisionFree(h, texts) && HashedTexts(a) <= texts && HashedTexts(b) <= texts
    requires a[i].recordHash == b[j].recordHash
    ensures i == 0 <==> j == 0
    ensures i > 0 ==> a[i - 1].recordHash == b[j - 1].recordHash
  {
    SameHashSameLink(h, texts, a, i, b, j);
  }

  lemma {:induction false} SameHashSameDepth(h: Sha256, texts: set<string>, a: seq<Row>, i: nat, b: seq<Row>, j: nat, k: nat)
    requires i < |a| && j < |b| && IsChain(h, a) && IsChain(h, b)
    requires CollisionFree(h, texts) && HashedTexts(a) <= texts && HashedTexts(b) <= texts
    requires a[i].recordHash == b[j].recordHash && k <= i
    ensures i == j && a[k].recordHash == b[k].recordHash
  {
    hide Linked, CollisionFree, HashedTexts;
    StepDown(h, texts, a, i, b, j);
    if k < i {
      SameHashSameDepth(h, texts, a, i - 1, b, j - 1, k);
    } else if i > 0 {
      SameHashSameDepth(h, texts, a, i - 1, b, j - 1, k - 1);
    }
  }

  /** A record hash commits to its position and to every payload up to it: in
      two chains without collisions, equal hashes stand at equal depth on top
      of equal histories. */
  lemma HashCommitsToHistory(h: Sha256, a: seq<Row>, i: nat, b: seq<Row>, j: nat)
    requires i < |a| && j < |b| && IsChain(h, a) && IsChain(h, b)
    requires CollisionFree(h, HashedTexts(a) + HashedTexts(b))
    requires a[i].recordHash == b[j].recordHash
    ensures i == j
    ensures forall k | 0 <= k <= i ::
      Dumps(a[k].rawPayload) == Dumps(b[k].rawPayload) && a[k].recordHash == b[k].recordHash
  {
    var texts := HashedTexts(a) + HashedTexts(b);
    SameHashSameDepth(h, texts, a, i, b, j, i);
    forall k | 0 <= k <= i ensures Dumps(a[k].rawPayload) == Dumps(b[k].rawPayload) && a[k].recordHash == b[k].recordHash {
      SameHashSameDepth(h, texts, a, i, b, j, k);
      SameHashSameLink(h, texts, a, k, b, k);
    }
  }

  /** No cycle: along a chain the record hashes are pairwise distinct. */
  lemma RecordHashesDistinct(h: Sha256, rows: seq<Row>, i: nat, j: nat)
    requires i < |rows| && j < |rows| && IsChain(h, rows) && CollisionFree(h, HashedTexts(rows))
    ensures rows[i].recordHash == rows[j].recordHash <==> i == j
  {
    if rows[i].recordHash == rows[j].recordHash {
      assert HashedTexts(rows) + HashedTexts(rows) == HashedTexts(rows);
      HashCommitsToHistory(h, rows, i, rows, j);
    }
  }

  /** No fork: no two rows of a chain share a predecessor. */
  lemma PredecessorsDistinct(h: Sha256, rows: seq<Row>, i: nat, j: nat)
    requires i < |rows| && j < |rows| && IsChain(h, rows) && CollisionFree(h, HashedTexts(rows))
    ensures rows[i].previousRecordHash == rows[j].previousRecordHash <==> i == j
  {
    hide Linked, CollisionFree, HashedTexts;
    PreviousIsExpected(h, rows, i);
    PreviousIsExpected(h, rows, j);
    if i > 0 && j > 0 {
      RecordHashesDistinct(h, rows, i - 1, j - 1);
    }
  }

  lemma PreviousIsExpected(h: Sha256, rows: seq<Row>, i: nat)
    requires i < |rows| && IsChain(h, rows)
    ensures rows[i].previousRecordHash == ExpectedPrevious(rows, i)
  {
    assert Linked(h, rows, i);
  }
}
