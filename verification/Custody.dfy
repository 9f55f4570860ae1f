/** The custody service's tables and the processing of one message:
    services/chain-of-custody/consumer.py (_process_message), db/repository.py,
    chain/custody_chain.py and the check in routers/custody.py.

    Each new event links to the event that is latest by (timestamp, id) when it
    is consumed, while the timeline is checked after sorting by the same key.
    CustodyValidIff says exactly when the two agree. */
module Custody {
  import opened Basics
  import opened CanonicalJson
  import opened HashChain

  // ----------------------------------------------------------------- messages

  const CONTENT_KEYS: seq<string> := ["event_id", "event_type", "artifact_id", "case_id", "actor_id", "actor_role",
                                      "timestamp", "reason", "ip_address", "correlation_id", "payload", "previous_event_hash"]

  /** Python's body.get(key): a missing key reads as None. */
  function Optional(j: Json, key: string): Json {
    if Get(j, key).Some? then Get(j, key).value else Null
  }

  predicate HasText(j: Json, key: string) {
    Get(j, key).Some? && Get(j, key).value.Str?
  }

  predicate HasNullableText(j: Json, key: string) {
    Optional(j, key).Null? || Optional(j, key).Str?
  }

  function TextOf(j: Json, key: string): string
    requires HasText(j, key)
  {
    Get(j, key).value.s
  }

  function ColumnOf(j: Json): Option<string> {
    if j.Str? then Some(j.s) else None
  }

  function HashColumn(previous: Option<string>): Json {
    if previous.Some? then Str(previous.value) else Null
  }

  /** body.get("payload", {}). */
  function PayloadOf(body: Json): Json {
    if Get(body, "payload").Some? then Get(body, "payload").value else Obj(Empty)
  }

  /** The parser of ISO timestamps: microseconds, or None where it raises. */
  type Clock = string -> Option<int>

  /** What is read before the duplicate check; without it a KeyError is raised. */
  predicate Identified(body: Json) {
    UniqueKeys(body) && HasText(body, "event_id") && Get(body, "artifact_id").Some?
  }

  /** Everything the rest of the processing reads, at the types its columns take. */
  predicate Readable(clock: Clock, body: Json) {
    && Identified(body)
    && HasText(body, "artifact_id") && HasText(body, "event_type")
    && HasText(body, "actor_id") && HasText(body, "actor_role") && HasText(body, "timestamp")
    && HasNullableText(body, "case_id") && HasNullableText(body, "reason") && HasNullableText(body, "correlation_id")
    && PayloadOf(body).Obj? && HasNullableText(PayloadOf(body), "ip_address")
    && clock(TextOf(body, "timestamp")).Some?
  }

  /** The dictionary that compute_event_hash serialises. */
  function EventContent(body: Json, previous: Option<string>): Json {
    Dict(CONTENT_KEYS, ContentValues(body, previous))
  }

  function ContentValues(body: Json, previous: Option<string>): (values: seq<Json>)
    ensures |values| == |CONTENT_KEYS|
  {
    [Optional(body, "event_id"), Optional(body, "event_type"), Optional(body, "artifact_id"), Optional(body, "case_id"),
     Optional(body, "actor_id"), Optional(body, "actor_role"), Optional(body, "timestamp"), Optional(body, "reason"),
     Optional(PayloadOf(body), "ip_address"), Optional(body, "correlation_id"), PayloadOf(body), HashColumn(previous)]
  }

  // ------------------------------------------------------------------- tables

  /** A row of custody_events. content is what was hashed; it is kept for the
      proofs and is no column. */
  datatype Event = Event(
    id: nat, eventId: string, artifactId: string, caseId: Option<string>, actorId: string, actorRole: string,
    eventType: string, timestamp: int, reason: Option<string>, ipAddress: Option<string>,
    correlationId: Option<string>, payload: Json, previousEventHash: Option<string>, eventHash: string,
    content: Json)

  /** custody_events in order of insertion, and processed_event_ids. */
  datatype Tables = Tables(events: seq<Event>, processed: set<string>)

  const EMPTY_TABLES := Tables([], {})

  function EventKey(e: Event): Key {
    Key(e.timestamp, e.id)
  }

  function OfArtifact(artifactId: string): Event -> bool {
    (e: Event) => e.artifactId == artifactId
  }

  /** The events of an artifact in the order they were consumed. */
  function Consumed(t: Tables, artifactId: string): seq<Event> {
    Filter(OfArtifact(artifactId), t.events)
  }

  /** get_timeline. */
  function Timeline(t: Tables, artifactId: string): seq<Event> {
    SortBy(EventKey, Consumed(t, artifactId))
  }

  /** get_last_event_hash, over the artifact's events. */
  function LatestHash(events: seq<Event>): Option<string> {
    var sorted := SortBy(EventKey, events);
    if sorted == [] then None else Some(sorted[|sorted| - 1].eventHash)
  }

  function MakeEvent(h: Sha256, clock: Clock, body: Json, id: nat, previous: Option<string>): Event
    requires Readable(clock, body)
  {
    var content := EventContent(body, previous);
    Event(id, TextOf(body, "event_id"), TextOf(body, "artifact_id"), ColumnOf(Optional(body, "case_id")),
          TextOf(body, "actor_id"), TextOf(body, "actor_role"), TextOf(body, "event_type"),
          clock(TextOf(body, "timestamp")).value, ColumnOf(Optional(body, "reason")),
          ColumnOf(Optional(PayloadOf(body), "ip_address")), ColumnOf(Optional(body, "correlation_id")),
          PayloadOf(body), previous, h(Dumps(content)), content)
  }

  /** The event a message becomes, linked to the artifact's latest event. */
  function NewEvent(h: Sha256, clock: Clock, t: Tables, body: Json, id: nat): Event
    requires Readable(clock, body)
  {
    MakeEvent(h, clock, body, id, LatestHash(Consumed(t, TextOf(body, "artifact_id"))))
  }

  datatype Outcome = Raised | Skipped | Persisted(tables: Tables)

  /** _process_message when the database does not fail. */
  function Process(h: Sha256, clock: Clock, t: Tables, body: Json, id: nat): Outcome {
    if !Identified(body) then Raised
    else if TextOf(body, "event_id") in t.processed then Skipped
    else if !Readable(clock, body) then Raised
    else Persisted(Tables(t.events + [NewEvent(h, clock, t, body, id)], t.processed + {TextOf(body, "event_id")}))
  }

  // --------------------------------------------------------------- invariants

  ghost predicate LinkedToLatest(events: seq<Event>) {
    forall k | 0 <= k < |events| :: events[k].previousEventHash == LatestHash(events[..k])
  }

  function TextOrNull(o: Option<string>): Option<Json> {
    Some(if o.Some? then Str(o.value) else Null)
  }

  /** What was hashed for an event says what its columns say; its timestamp is
      hashed as the text it came in. */
  ghost predicate ContentAgrees(e: Event) {
    && e.content.Obj? && UniqueKeys(e.content)
    && Get(e.content, "event_id") == Some(Str(e.eventId)) && Get(e.content, "event_type") == Some(Str(e.eventType))
    && Get(e.content, "artifact_id") == Some(Str(e.artifactId)) && Get(e.content, "case_id") == TextOrNull(e.caseId)
    && Get(e.content, "actor_id") == Some(Str(e.actorId)) && Get(e.content, "actor_role") == Some(Str(e.actorRole))
    && Get(e.content, "timestamp").Some? && Get(e.content, "timestamp").value.Str?
    && Get(e.content, "reason") == TextOrNull(e.reason) && Get(e.content, "ip_address") == TextOrNull(e.ipAddress)
    && Get(e.content, "correlation_id") == TextOrNull(e.correlationId) && Get(e.content, "payload") == Some(e.payload)
    && Get(e.content, "previous_event_hash") == TextOrNull(e.previousEventHash)
  }

  ghost predicate SoundEvent(h: Sha256, e: Event) {
    ContentAgrees(e) && e.eventHash == h(Dumps(e.content))
  }

  ghost predicate OnceEach(t: Tables) {
    && (forall i, j | 0 <= i < j < |t.events| :: t.events[i].eventId != t.events[j].eventId)
    && t.processed == set e | e in t.events :: e.eventId
  }

  ghost predicate SerialIds(events: seq<Event>) {
    forall i, j | 0 <= i < j < |events| :: events[i].id < events[j].id
  }

  ghost predicate Invariant(h: Sha256, t: Tables) {
    && OnceEach(t) && SerialIds(t.events)
    && (forall e | e in t.events :: SoundEvent(h, e))
    && (forall a :: LinkedToLatest(Consumed(t, a)))
  }

  lemma ContentKeysDistinct()
    ensures forall i, j | 0 <= i < j < |CONTENT_KEYS| :: CONTENT_KEYS[i] != CONTENT_KEYS[j]
  {
    assert forall i | i in {1, 5, 8} :: |CONTENT_KEYS[i]| == 10;
    assert CONTENT_KEYS[1][0] != CONTENT_KEYS[5][0] && CONTENT_KEYS[1][0] != CONTENT_KEYS[8][0];
    assert CONTENT_KEYS[5][0] != CONTENT_KEYS[8][0] && CONTENT_KEYS[0][0] != CONTENT_KEYS[4][0];
    assert CONTENT_KEYS[3][0] != CONTENT_KEYS[10][0];
  }

  lemma {:induction false} UniqueKeysOfMember(ms: Members, key: string)
    requires UniqueMembers(ms) && key in Keys(ms)
    ensures UniqueKeys(Lookup(ms, key))
  {
    if ms.key != key {
      UniqueKeysOfMember(ms.rest, key);
    }
  }

  lemma OptionalUniqueKeys(j: Json, key: string)
    requires UniqueKeys(j)
    ensures UniqueKeys(Optional(j, key))
  {
    if Get(j, key).Some? {
      UniqueKeysOfMember(j.members, key);
    }
  }

  lemma ContentValuesUnique(body: Json, previous: Option<string>)
    requires UniqueKeys(body)
    ensures forall v | v in ContentValues(body, previous) :: UniqueKeys(v)
  {
    forall key ensures UniqueKeys(Optional(body, key)) {
      OptionalUniqueKeys(body, key);
    }
    OptionalUniqueKeys(body, "payload");
    OptionalUniqueKeys(PayloadOf(body), "ip_address");
  }

  lemma ContentAt(body: Json, previous: Option<string>, i: nat)
    requires UniqueKeys(body) && i < |CONTENT_KEYS|
    ensures UniqueKeys(EventContent(body, previous))
    ensures Get(EventContent(body, previous), CONTENT_KEYS[i]) == Some(ContentValues(body, previous)[i])
  {
    ContentValuesUnique(body, previous);
    ContentKeysDistinct();
    DictShape(CONTENT_KEYS, ContentValues(body, previous));
  }

  function OrNull(o: Option<Json>): Option<Json> {
    if o.Some? then o else Some(Null)
  }

  lemma KeyNames()
    ensures CONTENT_KEYS[0] == "event_id" && CONTENT_KEYS[1] == "event_type" && CONTENT_KEYS[2] == "artifact_id"
    ensures CONTENT_KEYS[3] == "case_id" && CONTENT_KEYS[4] == "actor_id" && CONTENT_KEYS[5] == "actor_role"
    ensures CONTENT_KEYS[6] == "timestamp" && CONTENT_KEYS[7] == "reason" && CONTENT_KEYS[8] == "ip_address"
    ensures CONTENT_KEYS[9] == "correlation_id" && CONTENT_KEYS[10] == "payload" && CONTENT_KEYS[11] == "previous_event_hash"
  {
  }

  /** Each of the twelve fields that are hashed is the message's own value under
      its own name, null where the message has none; the payload is an empty
      dictionary if it has none, the address is the payload's, and the previous
      hash is the one given. */
  lemma ContentFields(body: Json, previous: Option<string>)
    requires UniqueKeys(body)
    ensures var c := EventContent(body, previous);
      && c.Obj? && UniqueKeys(c) && |KeysOf(c)| == 12
      && Get(c, "event_id") == OrNull(Get(body, "event_id")) && Get(c, "event_type") == OrNull(Get(body, "event_type"))
      && Get(c, "artifact_id") == OrNull(Get(body, "artifact_id")) && Get(c, "case_id") == OrNull(Get(body, "case_id"))
      && Get(c, "actor_id") == OrNull(Get(body, "actor_id")) && Get(c, "actor_role") == OrNull(Get(body, "actor_role"))
      && Get(c, "timestamp") == OrNull(Get(body, "timestamp")) && Get(c, "reason") == OrNull(Get(body, "reason"))
      && Get(c, "correlation_id") == OrNull(Get(body, "correlation_id"))
      && Get(c, "payload") == (if Get(body, "payload").Some? then Get(body, "payload") else Some(Obj(Empty)))
      && Get(c, "ip_address") == OrNull(Get(Get(c, "payload").value, "ip_address"))
      && Get(c, "previous_event_hash") == (if previous.Some? then Some(Str(previous.value)) else Some(Null))
  {
    hide Get, UniqueKeys, EventContent;
    forall i: nat | i < 12 ensures Get(EventContent(body, previous), CONTENT_KEYS[i]) == Some(ContentValues(body, previous)[i]) {
      ContentAt(body, previous, i);
    }
    ContentAt(body, previous, 0);
    TwelveKeys(body, previous);
    KeyNames();
  }

  function KeysOf(j: Json): set<string>
    requires j.Obj?
  {
    Keys(j.members)
  }

  lemma TwelveKeys(body: Json, previous: Option<string>)
    ensures EventContent(body, previous).Obj? && |KeysOf(EventContent(body, previous))| == 12
  {
    ZipKeys(CONTENT_KEYS, ContentValues(body, previous));
    ContentKeysDistinct();
    CountDistinct(CONTENT_KEYS);
    assert KeysOf(EventContent(body, previous)) == set k | k in CONTENT_KEYS;
  }

  lemma {:induction false} CountDistinct(keys: seq<string>)
    requires forall i, j | 0 <= i < j < |keys| :: keys[i] != keys[j]
    ensures |set k | k in keys| == |keys|
  {
    if keys != [] {
      var front, last := keys[..|keys| - 1], keys[|keys| - 1];
      CountDistinct(front);
      assert last !in front && keys == front + [last];
      assert (set k | k in keys) == (set k | k in front) + {last};
    }
  }

  /** The columns of a recorded event, from its message. */
  lemma EventColumns(h: Sha256, clock: Clock, body: Json, id: nat, previous: Option<string>)
    requires Readable(clock, body)
    ensures var e := MakeEvent(h, clock, body, id, previous);
      && e.id == id && e.previousEventHash == previous && e.content == EventContent(body, previous) && e.eventHash == h(Dumps(e.content))
      && Get(body, "event_id") == Some(Str(e.eventId)) && Get(body, "artifact_id") == Some(Str(e.artifactId))
      && Get(body, "event_type") == Some(Str(e.eventType))
      && Get(body, "actor_id") == Some(Str(e.actorId)) && Get(body, "actor_role") == Some(Str(e.actorRole))
      && (exists text :: Get(body, "timestamp") == Some(Str(text)) && clock(text) == Some(e.timestamp))
      && (e.caseId.Some? ==> Get(body, "case_id") == Some(Str(e.caseId.value)))
      && (e.caseId.None? ==> Get(body, "case_id") in {None, Some(Null)})
      && (e.reason.Some? ==> Get(body, "reason") == Some(Str(e.reason.value)))
      && (e.reason.None? ==> Get(body, "reason") in {None, Some(Null)})
      && (e.correlationId.Some? ==> Get(body, "correlation_id") == Some(Str(e.correlationId.value)))
      && (e.correlationId.None? ==> Get(body, "correlation_id") in {None, Some(Null)})
      && e.payload == (if Get(body, "payload").Some? then Get(body, "payload").value else Obj(Empty))
      && (e.ipAddress.Some? ==> Get(e.payload, "ip_address") == Some(Str(e.ipAddress.value)))
      && (e.ipAddress.None? ==> Get(e.payload, "ip_address") in {None, Some(Null)})
  {
    hide Get, Dumps, UniqueKeys, EventContent;
    assert Get(body, "timestamp") == Some(Str(TextOf(body, "timestamp")));
  }

  /** So what is hashed for an event is what its columns say. */
  lemma MakeEventSound(h: Sha256, clock: Clock, body: Json, id: nat, previous: Option<string>)
    requires Readable(clock, body)
    ensures SoundEvent(h, MakeEvent(h, clock, body, id, previous))
  {
    hide EventContent, MakeEvent, Get, UniqueKeys, Dumps;
    ContentFields(body, previous);
    EventColumns(h, clock, body, id, previous);
  }

  lemma DictMap(keys: seq<string>, values: seq<Json>)
    requires |keys| == |values| && forall i, j | 0 <= i < j < |keys| :: keys[i] != keys[j]
    requires forall v | v in values :: UniqueKeys(v)
    ensures var m := MeaningMembers(Zip(keys, values));
      (forall k :: k in m <==> k in keys) && forall i | 0 <= i < |keys| :: keys[i] in m && m[keys[i]] == Meaning(values[i])
  {
    var d := Dict(keys, values);
    DictShape(keys, values);
    ZipKeys(keys, values);
    MeaningLookup(d.members);
    forall i | 0 <= i < |keys| ensures MeaningMembers(d.members)[keys[i]] == Meaning(values[i]) {
      assert Get(d, keys[i]) == Some(values[i]);
    }
  }

  /** The values mean the same, one by one. */
  ghost predicate Agree(x: seq<Json>, y: seq<Json>) {
    |x| == |y| && forall i | 0 <= i < |x| :: Meaning(x[i]) == Meaning(y[i])
  }

  lemma DictMeaning(keys: seq<string>, some: seq<Json>, other: seq<Json>)
    requires |keys| == |some| == |other| && forall i, j | 0 <= i < j < |keys| :: keys[i] != keys[j]
    requires (forall v | v in some :: UniqueKeys(v)) && forall v | v in other :: UniqueKeys(v)
    ensures Meaning(Dict(keys, some)) == Meaning(Dict(keys, other)) <==> Agree(some, other)
  {
    hide MeaningMembers, Zip, UniqueKeys;
    DictMap(keys, some);
    DictMap(keys, other);
    var m, n := MeaningMembers(Zip(keys, some)), MeaningMembers(Zip(keys, other));
    if Agree(some, other) {
      forall k | k in m ensures k in n && m[k] == n[k] {
        var i :| 0 <= i < |keys| && keys[i] == k;
      }
      assert m.Keys == n.Keys;
    } else {
      var i :| 0 <= i < |keys| && Meaning(some[i]) != Meaning(other[i]);
      assert m[keys[i]] != n[keys[i]];
    }
  }

  ghost predicate SameUnder(a: Json, b: Json, key: string) {
    Meaning(Optional(a, key)) == Meaning(Optional(b, key))
  }

  /** The two messages say the same, field by field. */
  ghost predicate SayTheSame(a: Json, b: Json) {
    && SameUnder(a, b, "event_id") && SameUnder(a, b, "event_type") && SameUnder(a, b, "artifact_id") && SameUnder(a, b, "case_id")
    && SameUnder(a, b, "actor_id") && SameUnder(a, b, "actor_role") && SameUnder(a, b, "timestamp") && SameUnder(a, b, "reason")
    && SameUnder(a, b, "correlation_id") && SameUnder(PayloadOf(a), PayloadOf(b), "ip_address")
    && Meaning(PayloadOf(a)) == Meaning(PayloadOf(b))
  }

  lemma SameHashColumn(p: Option<string>, q: Option<string>)
    ensures Meaning(HashColumn(p)) == Meaning(HashColumn(q)) <==> p == q
  {
  }

  lemma TwelveAgree(x: seq<Json>, y: seq<Json>)
    requires |x| == |y| == 12
    ensures Agree(x, y) <==>
      && Meaning(x[0]) == Meaning(y[0]) && Meaning(x[1]) == Meaning(y[1]) && Meaning(x[2]) == Meaning(y[2])
      && Meaning(x[3]) == Meaning(y[3]) && Meaning(x[4]) == Meaning(y[4]) && Meaning(x[5]) == Meaning(y[5])
      && Meaning(x[6]) == Meaning(y[6]) && Meaning(x[7]) == Meaning(y[7]) && Meaning(x[8]) == Meaning(y[8])
      && Meaning(x[9]) == Meaning(y[9]) && Meaning(x[10]) == Meaning(y[10]) && Meaning(x[11]) == Meaning(y[11])
  {
    hide Meaning;
  }

  lemma EarlierValuesSameUnder(a: Json, p: Option<string>, b: Json, q: Option<string>)
    ensures var x, y := ContentValues(a, p), ContentValues(b, q);
      && |x| == |y| == 12
      && (Meaning(x[0]) == Meaning(y[0]) <==> SameUnder(a, b, "event_id"))
      && (Meaning(x[1]) == Meaning(y[1]) <==> SameUnder(a, b, "event_type"))
      && (Meaning(x[2]) == Meaning(y[2]) <==> SameUnder(a, b, "artifact_id"))
      && (Meaning(x[3]) == Meaning(y[3]) <==> SameUnder(a, b, "case_id"))
      && (Meaning(x[4]) == Meaning(y[4]) <==> SameUnder(a, b, "actor_id"))
      && (Meaning(x[5]) == Meaning(y[5]) <==> SameUnder(a, b, "actor_role"))
  {
    hide Meaning, Optional, PayloadOf, HashColumn, CONTENT_KEYS;
  }

  lemma LaterValuesSameUnder(a: Json, p: Option<string>, b: Json, q: Option<string>)
    ensures var x, y := ContentValues(a, p), ContentValues(b, q);
      && |x| == |y| == 12
      && (Meaning(x[6]) == Meaning(y[6]) <==> SameUnder(a, b, "timestamp"))
      && (Meaning(x[7]) == Meaning(y[7]) <==> SameUnder(a, b, "reason"))
      && (Meaning(x[8]) == Meaning(y[8]) <==> SameUnder(PayloadOf(a), PayloadOf(b), "ip_address"))
      && (Meaning(x[9]) == Meaning(y[9]) <==> SameUnder(a, b, "correlation_id"))
      && (Meaning(x[10]) == Meaning(y[10]) <==> Meaning(PayloadOf(a)) == Meaning(PayloadOf(b)))
      && (Meaning(x[11]) == Meaning(y[11]) <==> p == q)
  {
    hide Meaning, Optional, PayloadOf, HashColumn, CONTENT_KEYS;
    SameHashColumn(p, q);
  }

  lemma SameValues(a: Json, p: Option<string>, b: Json, q: Option<string>)
    ensures Agree(ContentValues(a, p), ContentValues(b, q)) <==> SayTheSame(a, b) && p == q
  {
    hide Agree, Meaning, SameUnder, PayloadOf, ContentValues;
    EarlierValuesSameUnder(a, p, b, q);
    LaterValuesSameUnder(a, p, b, q);
    TwelveAgree(ContentValues(a, p), ContentValues(b, q));
  }

  /** The same text is hashed for two messages exactly when they say the same in
      every field and follow the same event. */
  lemma SameTextIff(a: Json, p: Option<string>, b: Json, q: Option<string>)
    requires UniqueKeys(a) && UniqueKeys(b)
    ensures Dumps(EventContent(a, p)) == Dumps(EventContent(b, q)) <==> SayTheSame(a, b) && p == q
  {
    ContentAt(a, p, 0);
    ContentAt(b, q, 0);
    ContentValuesUnique(a, p);
    ContentValuesUnique(b, q);
    ContentKeysDistinct();
    DumpsIsCanonical(EventContent(a, p), EventContent(b, q));
    DictMeaning(CONTENT_KEYS, ContentValues(a, p), ContentValues(b, q));
    SameValues(a, p, b, q);
  }

  /** Two stored events are one and the same statement; only their position in
      the table may differ. */
  ghost predicate SameRecord(a: Event, b: Event) {
    && a.eventId == b.eventId && a.artifactId == b.artifactId && a.caseId == b.caseId
    && a.actorId == b.actorId && a.actorRole == b.actorRole && a.eventType == b.eventType && a.reason == b.reason
    && a.ipAddress == b.ipAddress && a.correlationId == b.correlationId && a.previousEventHash == b.previousEventHash
    && Meaning(a.payload) == Meaning(b.payload) && Get(a.content, "timestamp") == Get(b.content, "timestamp")
  }

  lemma FieldOfSame(a: Json, b: Json, key: string)
    requires a.Obj? && b.Obj? && UniqueKeys(a) && UniqueKeys(b) && Dumps(a) == Dumps(b)
    requires Get(a, key).Some? && Get(b, key).Some?
    ensures Meaning(Get(a, key).value) == Meaning(Get(b, key).value)
  {
    if Meaning(Get(a, key).value) != Meaning(Get(b, key).value) {
      FieldTellsApart(a, b, key);
    }
  }

  lemma SameTextField(a: Json, b: Json, key: string)
    requires a.Obj? && b.Obj? && UniqueKeys(a) && UniqueKeys(b) && Dumps(a) == Dumps(b)
    requires Get(a, key).Some? && (Get(a, key).value.Str? || Get(a, key).value.Null?)
    requires Get(b, key).Some? && (Get(b, key).value.Str? || Get(b, key).value.Null?)
    ensures Get(a, key) == Get(b, key)
  {
    FieldOfSame(a, b, key);
  }

  /** An event hash commits to everything its event says and to the event it
      follows, unless the two texts collide. */
  lemma HashCommitsToEvent(h: Sha256, a: Event, b: Event)
    requires SoundEvent(h, a) && SoundEvent(h, b) && CollisionFree(h, {Dumps(a.content), Dumps(b.content)})
    ensures a.eventHash == b.eventHash ==> SameRecord(a, b)
  {
    hide Meaning, Dumps, Get, UniqueKeys;
    if a.eventHash == b.eventHash {
      assert Dumps(a.content) in {Dumps(a.content), Dumps(b.content)} && Dumps(b.content) in {Dumps(a.content), Dumps(b.content)};
      SameTextField(a.content, b.content, "event_id");
      SameTextField(a.content, b.content, "event_type");
      SameTextField(a.content, b.content, "artifact_id");
      SameTextField(a.content, b.content, "case_id");
      SameTextField(a.content, b.content, "actor_id");
      SameTextField(a.content, b.content, "actor_role");
      SameTextField(a.content, b.content, "timestamp");
      SameTextField(a.content, b.content, "reason");
      SameTextField(a.content, b.content, "ip_address");
      SameTextField(a.content, b.content, "correlation_id");
      SameTextField(a.content, b.content, "previous_event_hash");
      FieldOfSame(a.content, b.content, "payload");
    }
  }

  lemma NewEventFacts(h: Sha256, clock: Clock, t: Tables, body: Json, id: nat)
    requires Readable(clock, body)
    ensures var e := NewEvent(h, clock, t, body, id);
      SoundEvent(h, e) && e.id == id && e.eventId == TextOf(body, "event_id") &&
      e.artifactId == TextOf(body, "artifact_id") && e.timestamp == clock(TextOf(body, "timestamp")).value &&
      e.previousEventHash == LatestHash(Consumed(t, e.artifactId))
  {
    MakeEventSound(h, clock, body, id, LatestHash(Consumed(t, TextOf(body, "artifact_id"))));
  }

  /** A consumed message adds its event to its own artifact's events only. */
  lemma ProcessAppends(h: Sha256, clock: Clock, t: Tables, body: Json, id: nat, a: string)
    requires Process(h, clock, t, body, id).Persisted?
    ensures Consumed(Process(h, clock, t, body, id).tables, a) ==
      Consumed(t, a) + if TextOf(body, "artifact_id") == a then [NewEvent(h, clock, t, body, id)] else []
  {
    var e := NewEvent(h, clock, t, body, id);
    NewEventFacts(h, clock, t, body, id);
    FilterAppend(OfArtifact(a), t.events, e);
  }

  lemma OnceEachExtends(t: Tables, e: Event)
    requires OnceEach(t) && e.eventId !in t.processed
    ensures OnceEach(Tables(t.events + [e], t.processed + {e.eventId}))
  {
    var more := t.events + [e];
    forall i | 0 <= i < |t.events| ensures t.events[i].eventId != e.eventId {
      assert t.events[i] in t.events;
    }
    assert forall x :: x in more <==> x in t.events || x == e;
    assert t.processed + {e.eventId} == set x | x in more :: x.eventId;
  }

  lemma LinkedExtends(events: seq<Event>, e: Event)
    requires LinkedToLatest(events) && e.previousEventHash == LatestHash(events)
    ensures LinkedToLatest(events + [e])
  {
    var more := events + [e];
    forall k | 0 <= k < |more| ensures more[k].previousEventHash == LatestHash(more[..k]) {
      assert more[..k] == events[..k];
      assert events[..|events|] == events;
    }
  }

  lemma PersistedTables(h: Sha256, clock: Clock, t: Tables, body: Json, id: nat)
    requires Process(h, clock, t, body, id).Persisted?
    ensures Readable(clock, body) && TextOf(body, "event_id") !in t.processed
    ensures Process(h, clock, t, body, id).tables ==
      Tables(t.events + [NewEvent(h, clock, t, body, id)], t.processed + {TextOf(body, "event_id")})
  {
  }

  lemma LinksKept(h: Sha256, clock: Clock, t: Tables, body: Json, id: nat, a: string)
    requires Process(h, clock, t, body, id).Persisted? && LinkedToLatest(Consumed(t, a))
    ensures LinkedToLatest(Consumed(Process(h, clock, t, body, id).tables, a))
  {
    hide Process, NewEvent, Consumed, LinkedToLatest, Readable;
    PersistedTables(h, clock, t, body, id);
    ProcessAppends(h, clock, t, body, id, a);
    NewEventFacts(h, clock, t, body, id);
    assert Consumed(t, a) + [] == Consumed(t, a);
    if NewEvent(h, clock, t, body, id).artifactId == a {
      LinkedExtends(Consumed(t, a), NewEvent(h, clock, t, body, id));
    }
  }

  /** Consuming a message keeps the tables sound and records its event once. */
  lemma ProcessKeeps(h: Sha256, clock: Clock, t: Tables, body: Json, id: nat)
    requires Invariant(h, t) && Process(h, clock, t, body, id).Persisted?
    requires forall e | e in t.events :: e.id < id
    ensures Invariant(h, Process(h, clock, t, body, id).tables)
  {
    hide Process, NewEvent, Consumed, LinkedToLatest, Readable, SoundEvent;
    PersistedTables(h, clock, t, body, id);
    NewEventFacts(h, clock, t, body, id);
    OnceEachExtends(t, NewEvent(h, clock, t, body, id));
    forall a ensures LinkedToLatest(Consumed(Process(h, clock, t, body, id).tables, a)) {
      LinksKept(h, clock, t, body, id, a);
    }
  }

  // ---------------------------------------------------- the check on the timeline

  predicate LinkChecks(events: seq<Event>, i: nat)
    requires i < |events|
  {
    events[i].previousEventHash == if i > 0 then Some(events[i - 1].eventHash) else None
  }

  ghost predicate ChainValid(events: seq<Event>) {
    forall i | 0 <= i < |events| :: LinkChecks(events, i)
  }

  /** _validate_chain: links only; event hashes are not recomputed. */
  method ValidateChain(events: seq<Event>) returns (valid: bool)
    ensures valid <==> ChainValid(events)
  {
    for i := 0 to |events|
      invariant forall k | 0 <= k < i :: LinkChecks(events, k)
    {
      var expected := if i > 0 then Some(events[i - 1].eventHash) else None;
      if events[i].previousEventHash != expected {
        assert !LinkChecks(events, i);
        return false;
      }
    }
    valid := true;
  }

  /** Exactly which edits of one event of a valid timeline the check notices:
      those of its link, and those of its hash if another event follows. */
  lemma EditNoticedIff(timeline: seq<Event>, i: nat, e: Event)
    requires ChainValid(timeline) && i < |timeline|
    ensures ChainValid(timeline[i := e]) <==>
      e.previousEventHash == timeline[i].previousEventHash &&
      (i + 1 < |timeline| ==> e.eventHash == timeline[i].eventHash)
  {
    var edited := timeline[i := e];
    assert LinkChecks(timeline, i);
    assert LinkChecks(edited, i) <==> e.previousEventHash == timeline[i].previousEventHash;
    if i + 1 < |timeline| {
      assert LinkChecks(timeline, i + 1);
      assert LinkChecks(edited, i + 1) <==> e.eventHash == timeline[i].eventHash;
    }
    forall k | 0 <= k < |timeline| && k != i && k != i + 1 ensures LinkChecks(edited, k) {
      assert LinkChecks(timeline, k);
    }
  }

  /** So in the table: a row of custody_events may be rewritten in every column
      but its id, artifact, timestamp and two hashes, and the timeline still
      checks. */
  lemma ContentEditUnnoticed(t: Tables, n: nat, e: Event)
    requires n < |t.events| && ChainValid(Timeline(t, t.events[n].artifactId))
    requires e.artifactId == t.events[n].artifactId && EventKey(e) == EventKey(t.events[n])
    requires e.previousEventHash == t.events[n].previousEventHash && e.eventHash == t.events[n].eventHash
    ensures ChainValid(Timeline(Tables(t.events[n := e], t.processed), e.artifactId))
  {
    var a := e.artifactId;
    var m := FilterEdit(OfArtifact(a), t.events, n, e);
    var p := SortByEdit(EventKey, Consumed(t, a), m, e);
    EditNoticedIff(Timeline(t, a), p, e);
  }

  ghost predicate InTimeOrder(events: seq<Event>) {
    forall i, j | 0 <= i < j < |events| :: events[i].timestamp <= events[j].timestamp
  }

  function ContentTexts(events: seq<Event>): set<string> {
    set i | 0 <= i < |events| :: Dumps(events[i].content)
  }

  ghost predicate DistinctHashes(events: seq<Event>) {
    forall i, j | 0 <= i < j < |events| :: events[i].eventHash != events[j].eventHash
  }

  lemma OtherIdOtherText(h: Sha256, a: Event, b: Event)
    requires SoundEvent(h, a) && SoundEvent(h, b) && a.eventId != b.eventId
    ensures Dumps(a.content) != Dumps(b.content) && a.eventHash == h(Dumps(a.content)) && b.eventHash == h(Dumps(b.content))
  {
    FieldTellsApart(a.content, b.content, "event_id");
  }

  /** Events differ in their event id, hence in the text hashed, hence in their
      hash unless two of those texts collide. */
  lemma EventHashesDistinct(h: Sha256, events: seq<Event>)
    requires forall e | e in events :: SoundEvent(h, e)
    requires forall i, j | 0 <= i < j < |events| :: events[i].eventId != events[j].eventId
    requires CollisionFree(h, ContentTexts(events))
    ensures DistinctHashes(events)
  {
    forall i, j | 0 <= i < j < |events| ensures events[i].eventHash != events[j].eventHash {
      hide SoundEvent, Dumps;
      var a, b := events[i], events[j];
      assert a in events && b in events;
      OtherIdOtherText(h, a, b);
      assert Dumps(a.content) in ContentTexts(events) && Dumps(b.content) in ContentTexts(events);
    }
  }

  /** The latest event by (timestamp, id) comes after all others in the timeline. */
  lemma LatestIsLast(events: seq<Event>) returns (m: nat)
    requires events != [] && SerialIds(events)
    ensures m < |events| && LatestHash(events) == Some(events[m].eventHash)
    ensures forall i | 0 <= i < |events| && i != m :: Before(EventKey(events[i]), EventKey(events[m]))
  {
    var sorted, n := SortBy(EventKey, events), |events|;
    SortByKeepsRows(EventKey, events);
    SortByAscends(EventKey, events);
    var last := sorted[n - 1];
    SortByMember(EventKey, events, last);
    m :| 0 <= m < n && events[m] == last;
    forall i | 0 <= i < n && i != m ensures Before(EventKey(events[i]), EventKey(last)) {
      assert events[i] in events;
      SortByMember(EventKey, events, events[i]);
      var p :| 0 <= p < n && sorted[p] == events[i];
      assert p != n - 1;
    }
  }

  lemma StepBack(h: Sha256, texts: set<string>, a: seq<Event>, i: nat, b: seq<Event>, j: nat)
    requires i < |a| && j < |b| && ChainValid(a) && ChainValid(b) && a[i].eventHash == b[j].eventHash
    requires SoundEvent(h, a[i]) && SoundEvent(h, b[j]) && CollisionFree(h, texts)
    requires Dumps(a[i].content) in texts && Dumps(b[j].content) in texts
    ensures SameRecord(a[i], b[j]) && (i == 0 <==> j == 0)
    ensures i > 0 ==> a[i - 1].eventHash == b[j - 1].eventHash
  {
    hide SoundEvent, SameRecord, Dumps, Meaning;
    HashCommitsToEvent(h, a[i], b[j]);
    assert LinkChecks(a, i) && LinkChecks(b, j);
    SamePrevious(a[i], b[j]);
  }

  lemma SamePrevious(a: Event, b: Event)
    requires SameRecord(a, b)
    ensures a.previousEventHash == b.previousEventHash
  {
  }

  lemma {:induction false} SameHistory(h: Sha256, texts: set<string>, a: seq<Event>, i: nat, b: seq<Event>, j: nat, k: nat)
    requires i < |a| && j < |b| && ChainValid(a) && ChainValid(b) && a[i].eventHash == b[j].eventHash && k <= i
    requires (forall e | e in a || e in b :: SoundEvent(h, e) && Dumps(e.content) in texts) && CollisionFree(h, texts)
    ensures i == j && SameRecord(a[k], b[k])
    decreases i
  {
    hide SoundEvent, SameRecord, ChainValid, CollisionFree, Dumps;
    StepBack(h, texts, a, i, b, j);
    if k < i {
      SameHistory(h, texts, a, i - 1, b, j - 1, k);
    } else if i > 0 {
      SameHistory(h, texts, a, i - 1, b, j - 1, k - 1);
    }
  }

  /** The last hash of a timeline that checks commits to the whole timeline: two
      such timelines that end in the same hash tell the same story, event by
      event, unless two of the texts hashed for them collide. */
  lemma TimelineCommits(h: Sha256, a: seq<Event>, b: seq<Event>)
    requires a != [] && b != [] && ChainValid(a) && ChainValid(b) && forall e | e in a || e in b :: SoundEvent(h, e)
    requires CollisionFree(h, ContentTexts(a) + ContentTexts(b)) && a[|a| - 1].eventHash == b[|b| - 1].eventHash
    ensures |a| == |b| && forall k | 0 <= k < |a| :: SameRecord(a[k], b[k])
  {
    hide SoundEvent, SameRecord, Dumps, CollisionFree;
    var texts := ContentTexts(a) + ContentTexts(b);
    forall e | e in a || e in b ensures Dumps(e.content) in texts {
      if e in a {
        TextOfMember(a, e);
      } else {
        TextOfMember(b, e);
      }
    }
    SameHistory(h, texts, a, |a| - 1, b, |b| - 1, |a| - 1);
    forall k | 0 <= k < |a| ensures SameRecord(a[k], b[k]) {
      SameHistory(h, texts, a, |a| - 1, b, |b| - 1, k);
    }
  }

  /** The same of two custody services, or of one at two times. */
  lemma TablesCommit(h: Sha256, t: Tables, other: Tables, a: string, b: string)
    requires Invariant(h, t) && Invariant(h, other) && Timeline(t, a) != [] && Timeline(other, b) != []
    requires ChainValid(Timeline(t, a)) && ChainValid(Timeline(other, b))
    requires CollisionFree(h, ContentTexts(Timeline(t, a)) + ContentTexts(Timeline(other, b)))
    requires Timeline(t, a)[|Timeline(t, a)| - 1].eventHash == Timeline(other, b)[|Timeline(other, b)| - 1].eventHash
    ensures a == b && |Timeline(t, a)| == |Timeline(other, b)|
    ensures forall k | 0 <= k < |Timeline(t, a)| :: SameRecord(Timeline(t, a)[k], Timeline(other, b)[k])
  {
    hide Invariant, Timeline, CollisionFree, ChainValid, SoundEvent, ContentTexts;
    TimelineSound(h, t, a);
    TimelineSound(h, other, b);
    TimelineCommits(h, Timeline(t, a), Timeline(other, b));
    assert Timeline(t, a)[0] in Timeline(t, a) && Timeline(other, b)[0] in Timeline(other, b);
    assert SameRecord(Timeline(t, a)[0], Timeline(other, b)[0]);
  }

  lemma TimelineSound(h: Sha256, t: Tables, a: string)
    requires Invariant(h, t)
    ensures forall e | e in Timeline(t, a) :: SoundEvent(h, e) && e.artifactId == a
  {
    forall e | e in Timeline(t, a) ensures SoundEvent(h, e) && e.artifactId == a {
      SortByMember(EventKey, Consumed(t, a), e);
      FilterMember(OfArtifact(a), t.events, e);
    }
  }

  lemma TextOfMember(events: seq<Event>, e: Event)
    requires e in events
    ensures Dumps(e.content) in ContentTexts(events)
  {
    var i :| 0 <= i < |events| && events[i] == e;
  }

  lemma InOrderAscends(events: seq<Event>)
    requires SerialIds(events)
    ensures InTimeOrder(events) <==> Ascending(EventKey, events)
  {
  }

  lemma LatestInOrder(events: seq<Event>, k: nat)
    requires Ascending(EventKey, events) && 0 < k <= |events|
    ensures LatestHash(events[..k]) == Some(events[k - 1].eventHash)
  {
    var front := events[..k];
    forall i, j | 0 <= i < j < k ensures Before(EventKey(front[i]), EventKey(front[j])) {
      assert front[i] == events[i] && front[j] == events[j];
    }
    SortByAscending(EventKey, front);
  }

  /** Consumed in time order, every event links to the one before it. */
  lemma InOrderIsValid(events: seq<Event>)
    requires SerialIds(events) && LinkedToLatest(events) && InTimeOrder(events)
    ensures ChainValid(SortBy(EventKey, events))
  {
    InOrderAscends(events);
    SortByAscending(EventKey, events);
    forall k | 0 <= k < |events| ensures LinkChecks(events, k) {
      if k > 0 {
        LatestInOrder(events, k);
      }
    }
  }

  /** In a timeline that checks, the event an event names as its previous one
      has a smaller key. */
  lemma LinkGoesBack(events: seq<Event>, k: nat) returns (q: nat)
    requires SerialIds(events) && ChainValid(SortBy(EventKey, events))
    requires k < |events| && events[k].previousEventHash.Some?
    ensures q < |events| && events[k].previousEventHash == Some(events[q].eventHash)
    ensures Before(EventKey(events[q]), EventKey(events[k]))
  {
    var sorted := SortBy(EventKey, events);
    SortByAscends(EventKey, events);
    SortByMember(EventKey, events, events[k]);
    var p :| 0 <= p < |sorted| && sorted[p] == events[k];
    assert LinkChecks(sorted, p);
    SortByMember(EventKey, events, sorted[p - 1]);
    q :| 0 <= q < |events| && events[q] == sorted[p - 1];
    assert Before(EventKey(sorted[p - 1]), EventKey(sorted[p]));
  }

  /** What the event at k is linked to. */
  lemma LatestBefore(events: seq<Event>, k: nat) returns (m: nat)
    requires SerialIds(events) && LinkedToLatest(events) && 0 < k < |events|
    ensures m < k && events[k].previousEventHash == Some(events[m].eventHash)
    ensures forall i | 0 <= i < k :: events[i].timestamp <= events[m].timestamp
  {
    m := LatestIsLast(events[..k]);
    forall i | 0 <= i < k ensures events[i].timestamp <= events[m].timestamp {
      assert events[..k][i] == events[i] && events[..k][m] == events[m];
      assert i == m || Before(EventKey(events[..k][i]), EventKey(events[..k][m]));
    }
  }

  /** An event consumed after one with a later timestamp is linked to an event
      that stands after it in the timeline, where its link cannot check. */
  lemma ValidIsInOrder(events: seq<Event>)
    requires SerialIds(events) && LinkedToLatest(events) && DistinctHashes(events)
    requires ChainValid(SortBy(EventKey, events))
    ensures InTimeOrder(events)
  {
    forall i, k | 0 <= i < k < |events| ensures events[i].timestamp <= events[k].timestamp {
      var m := LatestBefore(events, k);
      var q := LinkGoesBack(events, k);
      assert q == m;
    }
  }

  lemma {:induction false} FilterKeepsIds(p: Event -> bool, events: seq<Event>)
    ensures SerialIds(events) ==> SerialIds(Filter(p, events))
    ensures (forall i, j | 0 <= i < j < |events| :: events[i].eventId != events[j].eventId) ==>
      forall i, j | 0 <= i < j < |Filter(p, events)| :: Filter(p, events)[i].eventId != Filter(p, events)[j].eventId
  {
    if events != [] {
      var front, last := events[..|events| - 1], events[|events| - 1];
      FilterKeepsIds(p, front);
      var kept := Filter(p, front);
      forall i | 0 <= i < |kept| ensures kept[i] in front {
        FilterMember(p, front, kept[i]);
      }
    }
  }

  lemma ConsumedSound(h: Sha256, t: Tables, a: string)
    requires Invariant(h, t)
    ensures SerialIds(Consumed(t, a)) && LinkedToLatest(Consumed(t, a))
    ensures CollisionFree(h, ContentTexts(Consumed(t, a))) ==> DistinctHashes(Consumed(t, a))
  {
    var events := Consumed(t, a);
    FilterKeepsIds(OfArtifact(a), t.events);
    if CollisionFree(h, ContentTexts(events)) {
      forall e | e in events ensures SoundEvent(h, e) {
        FilterMember(OfArtifact(a), t.events, e);
      }
      EventHashesDistinct(h, events);
    }
  }

  /** The timeline of an artifact checks as valid exactly when its events were
      consumed in non-decreasing order of timestamp, given that no two of the
      texts hashed for it collide. */
  lemma CustodyValidIff(h: Sha256, t: Tables, a: string)
    requires Invariant(h, t) && CollisionFree(h, ContentTexts(Consumed(t, a)))
    ensures ChainValid(Timeline(t, a)) <==> InTimeOrder(Consumed(t, a))
  {
    ConsumedSound(h, t, a);
    if InTimeOrder(Consumed(t, a)) {
      InOrderIsValid(Consumed(t, a));
    }
    if ChainValid(Timeline(t, a)) {
      ValidIsInOrder(Consumed(t, a));
    }
  }

  /** Once the check fails it fails for good, whatever is consumed later. */
  lemma InvalidForGood(h: Sha256, t: Tables, later: Tables, a: string)
    requires Invariant(h, t) && Invariant(h, later) && Consumed(t, a) <= Consumed(later, a)
    requires CollisionFree(h, ContentTexts(Consumed(later, a)))
    requires !ChainValid(Timeline(t, a))
    ensures !ChainValid(Timeline(later, a))
  {
    hide SoundEvent, LinkedToLatest, Consumed, Timeline, ChainValid;
    var events, more := Consumed(t, a), Consumed(later, a);
    forall x | x in ContentTexts(events) ensures x in ContentTexts(more) {
      var i :| 0 <= i < |events| && x == Dumps(events[i].content);
      assert more[i] == events[i];
    }
    CustodyValidIff(h, t, a);
    CustodyValidIff(h, later, a);
    var i, j :| 0 <= i < j < |events| && !(events[i].timestamp <= events[j].timestamp);
    assert more[i] == events[i] && more[j] == events[j];
  }

  lemma InTimeOrderExtends(events: seq<Event>, e: Event)
    requires events != [] && InTimeOrder(events)
    ensures InTimeOrder(events + [e]) <==> events[|events| - 1].timestamp <= e.timestamp
  {
    var more, n := events + [e], |events|;
    assert more[n - 1] == events[n - 1] && more[n] == e;
    if events[n - 1].timestamp <= e.timestamp {
      forall i, j | 0 <= i < j < |more| ensures more[i].timestamp <= more[j].timestamp {
        assert more[i] == events[i];
        if j < n { assert more[j] == events[j]; }
      }
    }
  }

  /** One more event keeps a valid timeline valid exactly when it is not
      stamped earlier than the newest event before it. */
  lemma NextEventKeepsValid(h: Sha256, clock: Clock, t: Tables, body: Json, id: nat, a: string)
    requires Invariant(h, t) && Process(h, clock, t, body, id).Persisted? && TextOf(body, "artifact_id") == a
    requires forall e | e in t.events :: e.id < id
    requires CollisionFree(h, ContentTexts(Consumed(Process(h, clock, t, body, id).tables, a)))
    requires Consumed(t, a) != [] && InTimeOrder(Consumed(t, a))
    ensures ChainValid(Timeline(Process(h, clock, t, body, id).tables, a)) <==>
      Consumed(t, a)[|Consumed(t, a)| - 1].timestamp <= clock(TextOf(body, "timestamp")).value
  {
    ProcessKeeps(h, clock, t, body, id);
    ProcessAppends(h, clock, t, body, id, a);
    NewEventFacts(h, clock, t, body, id);
    CustodyValidIff(h, Process(h, clock, t, body, id).tables, a);
    InTimeOrderExtends(Consumed(t, a), NewEvent(h, clock, t, body, id));
  }

  lemma LateEventBreaks(e: Event, late: Event)
    requires e.previousEventHash == LatestHash([]) && late.previousEventHash == LatestHash([e]) && late.timestamp < e.timestamp
    ensures !ChainValid(SortBy(EventKey, [e, late]))
  {
    SortByAscending(EventKey, [e]);
    SortOfTwo(EventKey, e, late);
    assert !LinkChecks([late, e], 0);
  }

  lemma SecondConsumed(h: Sha256, clock: Clock, t: Tables, body: Json, id: nat, e: Event)
    requires Process(h, clock, t, body, id).Persisted? && Consumed(t, e.artifactId) == [e]
    requires TextOf(body, "artifact_id") == e.artifactId && clock(TextOf(body, "timestamp")).value < e.timestamp
    requires e.previousEventHash == LatestHash([])
    ensures !ChainValid(Timeline(Process(h, clock, t, body, id).tables, e.artifactId))
  {
    ProcessAppends(h, clock, t, body, id, e.artifactId);
    NewEventFacts(h, clock, t, body, id);
    LateEventBreaks(e, NewEvent(h, clock, t, body, id));
  }

  lemma NewIsPersisted(h: Sha256, clock: Clock, t: Tables, body: Json, id: nat)
    requires Readable(clock, body) && TextOf(body, "event_id") !in t.processed
    ensures Process(h, clock, t, body, id).Persisted?
    ensures Process(h, clock, t, body, id).tables.processed == t.processed + {TextOf(body, "event_id")}
  {
  }

  /** Two messages are enough to break the timeline of an artifact, whatever the
      hash: the one stamped earlier is consumed second and links to an event that
      stands after it. */
  lemma LateArrivalBreaks(h: Sha256, clock: Clock, t: Tables, first: Json, second: Json, id: nat, later: nat, a: string)
    returns (t1: Tables, t2: Tables)
    requires Readable(clock, first) && Readable(clock, second) && Consumed(t, a) == []
    requires TextOf(first, "artifact_id") == a == TextOf(second, "artifact_id") && TextOf(first, "event_id") != TextOf(second, "event_id")
    requires TextOf(first, "event_id") !in t.processed && TextOf(second, "event_id") !in t.processed
    requires clock(TextOf(second, "timestamp")).value < clock(TextOf(first, "timestamp")).value
    ensures Process(h, clock, t, first, id) == Persisted(t1) && Process(h, clock, t1, second, later) == Persisted(t2)
    ensures !ChainValid(Timeline(t2, a))
  {
    hide Process, NewEvent, Consumed, ChainValid, Timeline;
    NewIsPersisted(h, clock, t, first, id);
    t1 := Process(h, clock, t, first, id).tables;
    NewIsPersisted(h, clock, t1, second, later);
    t2 := Process(h, clock, t1, second, later).tables;
    ProcessAppends(h, clock, t, first, id, a);
    NewEventFacts(h, clock, t, first, id);
    SecondConsumed(h, clock, t1, second, later, NewEvent(h, clock, t, first, id));
  }

  /** The reporter stamps whole seconds, the collector microseconds. */
  function WholeSecond(now: int): int {
    now - now % 1_000_000
  }

  lemma SecondsApart(last: int, now: int)
    requires last <= now
    ensures last <= WholeSecond(now) <==> WholeSecond(last) < WholeSecond(now) || last % 1_000_000 == 0
  {
  }

  /** So a report event made after the newest event, and consumed next, keeps a
      valid timeline valid exactly when it falls in a later second or that event
      was stamped on the second itself. */
  lemma ReportKeepsValid(h: Sha256, clock: Clock, t: Tables, body: Json, id: nat, last: Event, now: int)
    requires Invariant(h, t) && Process(h, clock, t, body, id).Persisted?
    requires forall e | e in t.events :: e.id < id
    requires TextOf(body, "artifact_id") == last.artifactId && clock(TextOf(body, "timestamp")) == Some(WholeSecond(now))
    requires CollisionFree(h, ContentTexts(Consumed(Process(h, clock, t, body, id).tables, last.artifactId)))
    requires Consumed(t, last.artifactId) != [] && InTimeOrder(Consumed(t, last.artifactId))
    requires Consumed(t, last.artifactId)[|Consumed(t, last.artifactId)| - 1] == last && last.timestamp <= now
    ensures ChainValid(Timeline(Process(h, clock, t, body, id).tables, last.artifactId)) <==>
      WholeSecond(last.timestamp) < WholeSecond(now) || last.timestamp % 1_000_000 == 0
  {
    NextEventKeepsValid(h, clock, t, body, id, last.artifactId);
    SecondsApart(last.timestamp, now);
  }
}
