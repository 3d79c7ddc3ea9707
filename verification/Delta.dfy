/** Incremental synchronisation between two hash-chained stores. */
module Replication {
  import opened JsonRecords

  const DELTA_FORMAT := "curunir-operational-delta-v1"

  /**
   * A chain digest. The constructor is the free collision-free hash: two entries have the same digest
   * exactly when they agree on sequence number, type, time, actor, record and predecessor digest.
   */
  datatype Hash =
    | Genesis
    | Entry(seqNo: int, eventType: string, time: int, actor: string, record: Record, prev: Hash)

  datatype EventId = EventId(seqNo: int, digest: Hash)

  datatype Event = Event(
    seqNo: int, id: EventId, eventType: string, time: int, actor: string,
    record: Record, prevHash: Hash, entryHash: Hash)

  function HashOf(e: Event): Hash {
    Entry(e.seqNo, e.eventType, e.time, e.actor, e.record, e.prevHash)
  }

  // ---------------------------------------------------------------- the chain

  /** One envelope stands at position `seqNo` after an entry whose digest is `prev`. */
  predicate EnvelopeAt(e: Event, seqNo: int, prev: Hash) {
    && e.seqNo == seqNo
    && e.prevHash == prev
    && e.entryHash == HashOf(e)
    && e.id == EventId(e.seqNo, e.entryHash)
    && e.actor != ""
  }

  function HashBefore(prev: Hash, events: seq<Event>, i: nat): Hash
    requires i <= |events|
  {
    if i == 0 then prev else events[i - 1].entryHash
  }

  predicate LinkedAt(base: int, prev: Hash, events: seq<Event>, i: nat)
    requires i < |events|
  {
    EnvelopeAt(events[i], base + 1 + i, HashBefore(prev, events, i))
  }

  predicate Chained(base: int, prev: Hash, events: seq<Event>) {
    forall i :: 0 <= i < |events| ==> LinkedAt(base, prev, events, i)
  }

  predicate TimeOrdered(events: seq<Event>) {
    forall i :: 0 < i < |events| ==> events[i - 1].time <= events[i].time
  }

  /** A record of a versioned family, with its id and version. */
  datatype Versioned = Unversioned | InFamily(family: string, id: string, version: int)

  /** The versioned families of the store, each keyed by one id field. */
  function IdField(recordType: string): string {
    match recordType
    case "hypothesis" => "hypothesis_id"
    case "discriminator" => "discriminator_id"
    case "collection_route" => "route_id"
    case "review_item" => "item_id"
    case "semantic_claim" => "claim_id"
    case "information_requirement" => "requirement_id"
    case "object_version" => "object_id"
    case "relationship_version" => "relationship_id"
    case "analytic_theme" => "theme_id"
    case "analytic_narrative" => "narrative_id"
    case "narrative_variant" => "variant_id"
    case "propagation_edge" => "edge_id"
    case "stakeholder_assessment" => "assessment_id"
    case "influence_assertion" => "influence_id"
    case "mission_objective" => "objective_id"
    case "analytic_assumption" => "assumption_id"
    case "impact_path" => "path_id"
    case "response_option" => "option_id"
    case "historical_episode" => "episode_id"
    case "historical_analogue" => "analogue_id"
    case "analytic_forecast" => "forecast_id"
    case "forecast_indicator" => "indicator_id"
    case "strategic_warning" => "warning_id"
    case "workbench_annotation" => "annotation_id"
    case "workbench_report" => "report_id"
    case "workbench_saved_view" => "view_id"
    case "actor_key" => "key_id"
    case _ => ""
  }

  function StringField(record: Record, field: string): string {
    if field in record && record[field].Str? then record[field].s else ""
  }

  function VersionOf(record: Record): Versioned {
    var family := StringField(record, "record_type");
    if IdField(family) == "" then Unversioned
    else
      // a missing version counts as the first, except for objects and relationships
      var version := if "version" !in record then
          (if family == "object_version" || family == "relationship_version" then -1 else 1)
                     else if record["version"].Num? then record["version"].n else -1;
      InFamily(family, StringField(record, IdField(family)), version)
  }

  function LastVersion(events: seq<Event>, family: string, id: string): int {
    if events == [] then 0
    else
      var v := VersionOf(events[|events| - 1].record);
      if v.InFamily? && v.family == family && v.id == id then v.version
      else LastVersion(events[..|events| - 1], family, id)
  }

  /** An ingestion that is not marked a duplicate claims its idempotency key. */
  predicate ClaimsKey(record: Record) {
    StringField(record, "record_type") == "ingestion" && StringField(record, "validation") != "DUPLICATE"
  }

  predicate KeyClaimed(events: seq<Event>, key: string) {
    exists i :: 0 <= i < |events| && ClaimsKey(events[i].record)
      && StringField(events[i].record, "idempotency_key") == key
  }

  /** A versioned record comes as the next version of its id, and an idempotency key is ingested once. */
  predicate Progresses(events: seq<Event>, record: Record) {
    var v, key := VersionOf(record), StringField(record, "idempotency_key");
    && (v.InFamily? ==> v.id != "" && v.version == LastVersion(events, v.family, v.id) + 1)
    && (ClaimsKey(record) ==> key != "" && !KeyClaimed(events, key))
  }

  predicate ProgressesAt(events: seq<Event>, i: nat)
    requires i < |events|
  {
    Progresses(events[..i], events[i].record)
  }

  predicate VersionsProgress(events: seq<Event>) {
    forall i :: 0 <= i < |events| ==> ProgressesAt(events, i)
  }

  /** What a store's log satisfies, and what an import re-checks before it installs anything. */
  predicate ValidLog(events: seq<Event>) {
    Chained(0, Genesis, events) && TimeOrdered(events) && VersionsProgress(events)
  }

  function HashAt(events: seq<Event>, n: nat): Hash
    requires n <= |events|
  {
    HashBefore(Genesis, events, n)
  }

  // ---------------------------------------------------------------- what progression means over a whole log

  /** The versions recorded of one id of a family, in order. */
  function VersionsIn(events: seq<Event>, family: string, id: string): seq<int> {
    if events == [] then []
    else
      var v := VersionOf(events[|events| - 1].record);
      VersionsIn(events[..|events| - 1], family, id)
      + (if v.InFamily? && v.family == family && v.id == id then [v.version] else [])
  }

  lemma {:induction false} LastVersionIsLast(events: seq<Event>, family: string, id: string)
    ensures LastVersion(events, family, id) ==
            var versions := VersionsIn(events, family, id);
            if versions == [] then 0 else versions[|versions| - 1]
  {
    if events != [] { LastVersionIsLast(events[..|events| - 1], family, id); }
  }

  /** In a valid log the versions of an id are numbered 1, 2, 3 and so on. */
  lemma {:induction false} VersionsAreNumbered(events: seq<Event>, family: string, id: string)
    requires VersionsProgress(events)
    ensures forall i :: 0 <= i < |VersionsIn(events, family, id)| ==> VersionsIn(events, family, id)[i] == i + 1
  {
    if events != [] {
      var front, last := events[..|events| - 1], |events| - 1;
      forall i | 0 <= i < last ensures ProgressesAt(front, i) {
        assert ProgressesAt(events, i);
        assert front[..i] == events[..i];
      }
      VersionsAreNumbered(front, family, id);
      LastVersionIsLast(front, family, id);
      assert ProgressesAt(events, last);
    }
  }

  predicate Ingests(record: Record) {
    && "record_type" in record && record["record_type"] == Str("ingestion")
    && !("validation" in record && record["validation"] == Str("DUPLICATE"))
  }

  /** Two ingestions of a valid log that are not marked duplicates state different keys, neither of them empty. */
  lemma KeyIsIngestedOnce(events: seq<Event>, i: nat, j: nat)
    requires VersionsProgress(events) && i < j < |events|
    requires Ingests(events[i].record) && Ingests(events[j].record)
    ensures var one, two := events[i].record, events[j].record;
            && "idempotency_key" in one && one["idempotency_key"].Str? && one["idempotency_key"].s != ""
            && "idempotency_key" in two && two["idempotency_key"].Str? && two["idempotency_key"].s != ""
            && one["idempotency_key"] != two["idempotency_key"]
  {
    assert ProgressesAt(events, i) && ProgressesAt(events, j);
    assert events[..j][i] == events[i];
  }

  /** What a record counts as a version of, read off its fields. */
  lemma VersionOfMeans(record: Record)
    ensures var v := VersionOf(record);
            && (v.InFamily? <==>
                  "record_type" in record && record["record_type"].Str? && IdField(record["record_type"].s) != "")
            && (v.InFamily? ==>
                  && record["record_type"] == Str(v.family)
                  && v.id == StringField(record, IdField(v.family))
                  && ("version" in record ==>
                        v.version == if record["version"].Num? then record["version"].n else -1)
                  && ("version" !in record ==>
                        v.version == if v.family in {"object_version", "relationship_version"} then -1 else 1))
  {
  }

  // ---------------------------------------------------------------- equal digests, equal histories

  /** With a collision-free digest, agreeing at one position is agreeing on the whole history up to it. */
  lemma {:induction false} EqualHashesForceEqualPrefixes(a: seq<Event>, b: seq<Event>, n: nat)
    requires Chained(0, Genesis, a) && Chained(0, Genesis, b)
    requires n <= |a| && n <= |b|
    requires HashAt(a, n) == HashAt(b, n)
    ensures a[..n] == b[..n]
  {
    if n > 0 {
      assert LinkedAt(0, Genesis, a, n - 1) && LinkedAt(0, Genesis, b, n - 1);
      EqualHashesForceEqualPrefixes(a, b, n - 1);
      assert a[..n] == a[..n - 1] + [a[n - 1]];
      assert b[..n] == b[..n - 1] + [b[n - 1]];
    }
  }

  lemma ValidPrefix(log: seq<Event>, n: nat)
    requires ValidLog(log) && n <= |log|
    ensures ValidLog(log[..n])
  {
    var p := log[..n];
    forall i | 0 <= i < |p| ensures LinkedAt(0, Genesis, p, i) && ProgressesAt(p, i) {
      assert LinkedAt(0, Genesis, log, i) && ProgressesAt(log, i);
      assert p[..i] == log[..i];
    }
  }

  // ---------------------------------------------------------------- payload references

  const DIGEST_LENGTH := 64

  predicate IsDigest(s: string) {
    |s| == DIGEST_LENGTH && forall c :: c in s ==> c in "0123456789abcdef"
  }

  /** Sixty-four hexadecimal digits. */
  method CheckDigest(s: string) returns (ok: bool)
    ensures ok == IsDigest(s)
  {
    if |s| != 64 { return false; }
    for i := 0 to |s|
      invariant forall k :: 0 <= k < i ==> s[k] in "0123456789abcdef"
    {
      var c := s[i];
      assert c in s;
      if c !in "0123456789abcdef" { return false; }
    }
    return true;
  }

  function PayloadFields(recordType: string): seq<string> {
    match recordType
    case "ingestion" => ["payload_ref"]
    case "fabric_manifestation" => ["content_sha256"]
    case "semantic_document" => ["content_sha256", "normalized_sha256", "fields_sha256"]
    case _ => []
  }

  predicate Truthy(value: Json) {
    match value
    case Null => false
    case Bool(b) => b
    case Num(n) => n != 0
    case Str(s) => s != ""
    case Arr(items) => items != []
    case Obj(fields) => fields != map[]
  }

  /** A declared payload field that is set names a payload; anything else in it is malformed. */
  predicate FieldNames(record: Record, field: string) {
    field in record && Truthy(record[field])
  }

  predicate FieldWellFormed(record: Record, field: string) {
    FieldNames(record, field) ==> record[field].Str? && IsDigest(record[field].s)
  }

  /** A field may be left out or hold an empty value of any kind; otherwise it must hold a digest. */
  lemma WellFormedMeans(record: Record, field: string)
    ensures FieldWellFormed(record, field) <==>
              || field !in record
              || record[field] == Null || record[field] == Bool(false) || record[field] == Num(0)
              || record[field] == Str("") || record[field] == Arr([]) || record[field] == Obj(map[])
              || (record[field].Str? && IsDigest(record[field].s))
  {
  }

  predicate DeclaresProperly(record: Record) {
    forall field :: field in PayloadFields(StringField(record, "record_type")) ==> FieldWellFormed(record, field)
  }

  function DeclaredIn(record: Record, fields: seq<string>): set<string> {
    set field | field in fields && FieldNames(record, field) && record[field].Str? :: record[field].s
  }

  function Declared(record: Record): set<string> {
    DeclaredIn(record, PayloadFields(StringField(record, "record_type")))
  }

  function DeclaredBy(events: seq<Event>): set<string> {
    set e, ref | e in events && ref in Declared(e.record) :: ref
  }

  predicate AllDeclareProperly(events: seq<Event>) {
    forall e :: e in events ==> DeclaresProperly(e.record)
  }

  /** Every string in the records of some events. */
  function Mentioned(events: seq<Event>): set<string> {
    set e, s | e in events && s in Strings(Obj(e.record)) :: s
  }

  /** The scan that decides which payloads travel with an event finds every declared one. */
  lemma DeclaredIsMentioned(events: seq<Event>)
    ensures DeclaredBy(events) <= Mentioned(events)
  {
    forall ref | ref in DeclaredBy(events) ensures ref in Mentioned(events) {
      var e :| e in events && ref in Declared(e.record);
      var field :| field in PayloadFields(StringField(e.record, "record_type"))
                   && FieldNames(e.record, field) && e.record[field].Str? && e.record[field].s == ref;
      FieldStringIsWalked(e.record, field);
    }
  }

  predicate Sets(record: Record, field: string, name: string) {
    field in record && record[field] == Str(name) && name != ""
  }

  /** The record's type declares payloads, and one of the fields that do is set to the name. */
  predicate Names(record: Record, name: string) {
    var family := StringField(record, "record_type");
    || (family == "ingestion" && Sets(record, "payload_ref", name))
    || (family == "fabric_manifestation" && Sets(record, "content_sha256", name))
    || (family == "semantic_document" &&
        (Sets(record, "content_sha256", name) || Sets(record, "normalized_sha256", name)
         || Sets(record, "fields_sha256", name)))
  }

  lemma DeclaredIsNamed(record: Record, name: string)
    ensures name in Declared(record) <==> Names(record, name)
  {
    var family := StringField(record, "record_type");
    var fields := PayloadFields(family);
    if name in Declared(record) {
      var field :| field in fields && FieldNames(record, field) && record[field].Str? && record[field].s == name;
      assert Sets(record, field, name);
    } else if family == "ingestion" {
      assert fields[0] == "payload_ref";
    } else if family == "fabric_manifestation" {
      assert fields[0] == "content_sha256";
    } else if family == "semantic_document" {
      assert fields[0] == "content_sha256" && fields[1] == "normalized_sha256" && fields[2] == "fields_sha256";
    }
  }

  lemma DeclaredAreNamed(events: seq<Event>, name: string)
    ensures name in DeclaredBy(events) <==> exists e :: e in events && Names(e.record, name)
  {
    forall e: Event { DeclaredIsNamed(e.record, name); }
  }

  /** What the walk over some records meets is what stands somewhere in one of them, however deep. */
  lemma MentionedAreSaid(events: seq<Event>, name: string)
    ensures name in Mentioned(events) <==> exists e, path :: e in events && SaysAt(Obj(e.record), path, name)
  {
    forall e | e in events
      ensures name in Strings(Obj(e.record)) <==> exists path :: SaysAt(Obj(e.record), path, name)
    {
      WalkIsEveryPath(Obj(e.record), name);
    }
  }

  datatype Refs = Malformed | Refs(names: set<string>)

  lemma DeclaredByMore(events: seq<Event>, i: nat)
    requires i < |events|
    ensures DeclaredBy(events[..i + 1]) == DeclaredBy(events[..i]) + Declared(events[i].record)
    ensures AllDeclareProperly(events[..i + 1]) <==>
              AllDeclareProperly(events[..i]) && DeclaresProperly(events[i].record)
  {
    assert events[..i + 1] == events[..i] + [events[i]];
  }

  /** One record's scan over the fields its type declares. */
  method RecordRefs(record: Record) returns (r: Refs)
    ensures r == if DeclaresProperly(record) then Refs(Declared(record)) else Malformed
  {
    var refs: set<string> := {};
    var fields := PayloadFields(StringField(record, "record_type"));
    for j := 0 to |fields|
      invariant forall k :: 0 <= k < j ==> FieldWellFormed(record, fields[k])
      invariant refs == DeclaredIn(record, fields[..j])
    {
      var field := fields[j];
      assert fields[..j + 1] == fields[..j] + [field];
      if field in record && Truthy(record[field]) {
        var digest := false;
        if record[field].Str? { digest := CheckDigest(record[field].s); }
        if !digest {
          assert field in fields && !FieldWellFormed(record, field);
          return Malformed;
        }
        refs := refs + {record[field].s};
      }
    }
    assert fields[..|fields|] == fields;
    assert DeclaredIn(record, fields) == Declared(record);
    r := Refs(refs);
  }

  method DeclaredPayloadRefs(events: seq<Event>) returns (r: Refs)
    ensures r == if AllDeclareProperly(events) then Refs(DeclaredBy(events)) else Malformed
  {
    var refs: set<string> := {};
    for i := 0 to |events|
      invariant AllDeclareProperly(events[..i])
      invariant refs == DeclaredBy(events[..i])
    {
      DeclaredByMore(events, i);
      var one := RecordRefs(events[i].record);
      if one.Malformed? { return Malformed; }
      refs := refs + one.names;
    }
    assert events[..|events|] == events;
    r := Refs(refs);
  }

  // ---------------------------------------------------------------- bundles

  datatype Manifest = Manifest(
    format: string, baseSeq: int, baseHash: Hash, endSeq: int, endHash: Hash,
    eventCount: int, eventsDigest: seq<Event>, payloads: seq<string>)

  /**
   * A bundle as it arrives: nothing in it is trusted. `manifestDigest` and `manifest.eventsDigest` stand for
   * the two content digests (the digested value itself, so equal digests mean equal content), and `payloads`
   * maps each payload file to the digest of its body.
   */
  datatype Bundle = Bundle(
    manifest: Manifest, manifestDigest: Manifest, events: seq<Event>, payloads: map<string, string>)

  predicate NoRepeats(names: seq<string>) {
    forall i, j :: 0 <= i < j < |names| ==> names[i] != names[j]
  }

  predicate PayloadsIntact(b: Bundle) {
    && NoRepeats(b.manifest.payloads)
    && forall i :: 0 <= i < |b.manifest.payloads| ==>
         var name := b.manifest.payloads[i];
         IsDigest(name) && name in b.payloads && b.payloads[name] == name
  }

  predicate EventsMatchManifest(events: seq<Event>, m: Manifest) {
    && Chained(m.baseSeq, m.baseHash, events)
    && TimeOrdered(events)
    && |events| == m.eventCount
    && m.endSeq == m.baseSeq + |events|
    && m.endHash == HashBefore(m.baseHash, events, |events|)
  }

  function NameSet(names: seq<string>): set<string> {
    set name | name in names
  }

  /** Everything a bundle must satisfy before a store looks at its own history. */
  predicate Verified(b: Bundle) {
    && b.manifest.format == DELTA_FORMAT
    && b.manifestDigest == b.manifest
    && b.manifest.baseSeq >= 0 && b.manifest.endSeq >= 0 && b.manifest.eventCount >= 0
    && b.events == b.manifest.eventsDigest
    && EventsMatchManifest(b.events, b.manifest)
    && PayloadsIntact(b)
    && AllDeclareProperly(b.events)
    && DeclaredBy(b.events) <= NameSet(b.manifest.payloads)
  }

  method ValidateBundleEvents(events: seq<Event>, m: Manifest) returns (ok: bool)
    ensures ok == EventsMatchManifest(events, m)
  {
    var expectedSeq := m.baseSeq + 1;
    var expectedPrev := m.baseHash;
    var lastRecorded: int := 0;
    for i := 0 to |events|
      invariant expectedSeq == m.baseSeq + 1 + i
      invariant expectedPrev == HashBefore(m.baseHash, events, i)
      invariant i > 0 ==> lastRecorded == events[i - 1].time
      invariant forall k :: 0 <= k < i ==> LinkedAt(m.baseSeq, m.baseHash, events, k)
      invariant forall k :: 0 < k < i ==> events[k - 1].time <= events[k].time
    {
      var e := events[i];
      assert LinkedAt(m.baseSeq, m.baseHash, events, i) <==> EnvelopeAt(e, expectedSeq, expectedPrev);
      if e.seqNo != expectedSeq || e.actor == "" { return false; }
      if i > 0 && e.time < lastRecorded { return false; }
      if e.prevHash != expectedPrev { return false; }
      var digest := HashOf(e);
      if e.entryHash != digest || e.id != EventId(e.seqNo, digest) { return false; }
      expectedSeq := expectedSeq + 1;
      expectedPrev := digest;
      lastRecorded := e.time;
    }
    ok := |events| == m.eventCount && m.endSeq == m.baseSeq + |events| && m.endHash == expectedPrev;
  }

  method VerifyDelta(b: Bundle) returns (ok: bool)
    ensures ok == Verified(b)
  {
    var m := b.manifest;
    if m.format != DELTA_FORMAT || b.manifestDigest != m { return false; }
    if m.baseSeq < 0 || m.endSeq < 0 || m.eventCount < 0 { return false; }
    if b.events != m.eventsDigest { return false; }
    var eventsOk := ValidateBundleEvents(b.events, m);
    if !eventsOk || !NoRepeats(m.payloads) { return false; }
    for i := 0 to |m.payloads|
      invariant forall k :: 0 <= k < i ==>
        IsDigest(m.payloads[k]) && m.payloads[k] in b.payloads && b.payloads[m.payloads[k]] == m.payloads[k]
    {
      var name := m.payloads[i];
      var digest := CheckDigest(name);
      if !digest || name !in b.payloads || b.payloads[name] != name { return false; }
    }
    var declared := DeclaredPayloadRefs(b.events);
    ok := declared.Refs? && declared.names <= NameSet(m.payloads);
  }

  // ---------------------------------------------------------------- cutting a bundle

  function Since(log: seq<Event>, base: int): seq<Event>
  {
    if log == [] then []
    else (if log[0].seqNo > base then [log[0]] else []) + Since(log[1..], base)
  }

  /** In a chained log, the events numbered above `base` are exactly the ones after position `base`. */
  lemma {:induction false} SinceIsSuffix(log: seq<Event>, base: int, first: nat)
    requires forall i :: 0 <= i < |log| ==> log[i].seqNo == first + 1 + i
    requires first <= base <= first + |log| || base < first
    ensures Since(log, base) == if base < first then log else log[base - first..]
  {
    if log != [] {
      SinceIsSuffix(log[1..], base, first + 1);
    }
  }

  /** `b` is what the source produces from position `base`: its whole tail, with every payload that tail names. */
  predicate IsCut(log: seq<Event>, held: set<string>, base: nat, b: Bundle)
    requires base <= |log|
  {
    && b.events == log[base..]
    && b.manifest == Manifest(DELTA_FORMAT, base, HashAt(log, base), |log|, HashAt(log, |log|),
                              |log| - base, b.events, b.manifest.payloads)
    && b.manifestDigest == b.manifest
    && NoRepeats(b.manifest.payloads)
    && NameSet(b.manifest.payloads) == DeclaredBy(b.events) + Mentioned(b.events) * held
    && NameSet(b.manifest.payloads) <= held
    && b.payloads == (map name | name in NameSet(b.manifest.payloads) :: name)
    && AllDeclareProperly(b.events)
  }

  lemma TailIsChained(log: seq<Event>, base: nat)
    requires ValidLog(log) && base <= |log|
    ensures Chained(base, HashAt(log, base), log[base..]) && TimeOrdered(log[base..])
    ensures HashBefore(HashAt(log, base), log[base..], |log| - base) == HashAt(log, |log|)
  {
    var tail := log[base..];
    forall i | 0 <= i < |tail| ensures LinkedAt(base, HashAt(log, base), tail, i) {
      assert LinkedAt(0, Genesis, log, base + i);
    }
  }

  /** Round trip: a bundle cut from a valid store always passes the receiver's verification. */
  lemma CutVerifies(log: seq<Event>, held: set<string>, base: nat, b: Bundle)
    requires ValidLog(log) && base <= |log| && IsCut(log, held, base, b)
    requires forall p :: p in held ==> IsDigest(p)
    ensures Verified(b)
  {
    TailIsChained(log, base);
    forall i | 0 <= i < |b.manifest.payloads|
      ensures IsDigest(b.manifest.payloads[i]) && b.manifest.payloads[i] in b.payloads
           && b.payloads[b.manifest.payloads[i]] == b.manifest.payloads[i]
    {
      assert b.manifest.payloads[i] in NameSet(b.manifest.payloads);
    }
  }

  // ---------------------------------------------------------------- importing a bundle

  datatype SyncOutcome =
    | Unverified
    | MissingBase
    | WrongBase
    | DivergedOverlap
    | StoreRefused
    | DuplicateDelta
    | Applied(count: nat)

  predicate OverlapAgrees(log: seq<Event>, events: seq<Event>, i: nat)
    requires i < |events|
  {
    1 <= events[i].seqNo <= |log| ==> HashAt(log, events[i].seqNo) == events[i].entryHash
  }

  function Suffix(log: seq<Event>, b: Bundle): seq<Event> {
    Since(b.events, |log|)
  }

  function ImportOutcome(log: seq<Event>, b: Bundle): SyncOutcome {
    if !Verified(b) then Unverified
    else if |log| < b.manifest.baseSeq then MissingBase
    else if HashAt(log, b.manifest.baseSeq) != b.manifest.baseHash then WrongBase
    else if exists i :: 0 <= i < |b.events| && !OverlapAgrees(log, b.events, i) then DivergedOverlap
    else if !ValidLog(log + Suffix(log, b)) then StoreRefused
    else if Suffix(log, b) == [] then DuplicateDelta
    else Applied(|Suffix(log, b)|)
  }

  function AfterImport(log: seq<Event>, b: Bundle): seq<Event> {
    if ImportOutcome(log, b).Applied? then log + Suffix(log, b) else log
  }

  function HeldAfter(log: seq<Event>, held: set<string>, b: Bundle): set<string> {
    if ImportOutcome(log, b).Applied?
    then held + Mentioned(Suffix(log, b)) * NameSet(b.manifest.payloads)
    else held
  }

  /** The names of a cut, by the fields and paths they stand at. */
  lemma CutNames(tail: seq<Event>, held: set<string>, names: seq<string>)
    requires NameSet(names) == DeclaredBy(tail) + Mentioned(tail) * held
    ensures forall name :: name in names <==>
              || (exists e :: e in tail && Names(e.record, name))
              || (name in held && exists e, path :: e in tail && SaysAt(Obj(e.record), path, name))
  {
    forall name ensures name in names <==>
      || (exists e :: e in tail && Names(e.record, name))
      || (name in held && exists e, path :: e in tail && SaysAt(Obj(e.record), path, name))
    {
      assert name in names <==> name in NameSet(names);
      DeclaredAreNamed(tail, name);
      MentionedAreSaid(tail, name);
    }
  }

  datatype BuildResult = OutOfRange | MalformedReference | PayloadMissing | Built(bundle: Bundle)

  lemma TailSince(log: seq<Event>, base: nat)
    requires ValidLog(log) && base <= |log|
    ensures Since(log, base) == log[base..]
  {
    forall i | 0 <= i < |log| ensures log[i].seqNo == 1 + i { assert LinkedAt(0, Genesis, log, i); }
    SinceIsSuffix(log, base, 0);
  }

  /** The names of a set, each once, in some order. */
  method Listed(refs: set<string>) returns (names: seq<string>)
    ensures NoRepeats(names) && NameSet(names) == refs
  {
    names := [];
    var rest := refs;
    while rest != {}
      invariant NoRepeats(names) && NameSet(names) + rest == refs && NameSet(names) !! rest
      decreases rest
    {
      var name :| name in rest;
      ghost var before := names;
      names := names + [name];
      assert NameSet(names) == NameSet(before) + {name};
      assert forall k :: 0 <= k < |before| ==> before[k] in NameSet(before);
      rest := rest - {name};
    }
  }

  lemma OneMoreIsValid(events: seq<Event>, e: Event)
    requires ValidLog(events) && EnvelopeAt(e, |events| + 1, HashAt(events, |events|)) && Progresses(events, e.record)
    requires events != [] ==> events[|events| - 1].time <= e.time
    ensures ValidLog(events + [e])
  {
    var log := events + [e];
    forall i | 0 <= i < |log| ensures LinkedAt(0, Genesis, log, i) && ProgressesAt(log, i) {
      if i < |events| {
        assert LinkedAt(0, Genesis, events, i) && ProgressesAt(events, i);
        assert log[..i] == events[..i];
      } else {
        assert log[..i] == events;
      }
    }
  }

  /** One store: its event log and the names of the payload files it holds. */
  class MissionDataStore {
    var events: seq<Event>
    var payloads: set<string>

    ghost predicate Valid()
      reads this
    {
      ValidLog(events) && forall p :: p in payloads ==> IsDigest(p)
    }

    constructor ()
      ensures Valid() && events == [] && payloads == {}
    {
      events, payloads := [], {};
    }

    /** The last version of an id, found by replaying the log. */
    method FindLastVersion(family: string, id: string) returns (version: int)
      ensures version == LastVersion(events, family, id)
    {
      version := 0;
      for i := 0 to |events|
        invariant version == LastVersion(events[..i], family, id)
      {
        assert events[..i + 1][..i] == events[..i];
        var v := VersionOf(events[i].record);
        if v.InFamily? && v.family == family && v.id == id { version := v.version; }
      }
      assert events[..|events|] == events;
    }

    method FindKey(key: string) returns (found: bool)
      ensures found == KeyClaimed(events, key)
    {
      for i := 0 to |events|
        invariant !KeyClaimed(events[..i], key)
      {
        var record := events[i].record;
        if StringField(record, "record_type") == "ingestion" && StringField(record, "validation") != "DUPLICATE"
           && StringField(record, "idempotency_key") == key {
          return true;
        }
      }
      assert events[..|events|] == events;
      return false;
    }

    /** The checks that a record continues its family, and that an ingestion brings a new key. */
    method CheckProgress(record: Record) returns (ok: bool)
      ensures ok == Progresses(events, record)
    {
      var v := VersionOf(record);
      if v.InFamily? {
        var last := FindLastVersion(v.family, v.id);
        if |v.id| == 0 || v.version != last + 1 { return false; }
      }
      if StringField(record, "record_type") == "ingestion" && StringField(record, "validation") != "DUPLICATE" {
        var key := StringField(record, "idempotency_key");
        var found := FindKey(key);
        if |key| == 0 || found { return false; }
      }
      return true;
    }

    /** Append one event under the store lock; a stale version or an earlier time is refused. */
    method Append(eventType: string, time: int, actor: string, record: Record) returns (ok: bool)
      requires Valid()
      modifies this`events
      ensures Valid()
      ensures ok == (actor != "" && Progresses(old(events), record)
                     && (old(events) != [] ==> old(events)[|old(events)| - 1].time <= time))
      ensures !ok ==> events == old(events)
      ensures ok ==> |events| == |old(events)| + 1 && events[..|old(events)|] == old(events)
      ensures ok ==> var e := events[|old(events)|];
                     e.eventType == eventType && e.time == time && e.actor == actor && e.record == record
    {
      if actor == "" { return false; }
      var progresses := CheckProgress(record);
      if !progresses { return false; }
      if |events| > 0 && time < events[|events| - 1].time { return false; }
      var seqNo := |events| + 1;
      var prev := HashAt(events, |events|);
      var digest := Entry(seqNo, eventType, time, actor, record, prev);
      var e := Event(seqNo, EventId(seqNo, digest), eventType, time, actor, record, prev, digest);
      OneMoreIsValid(events, e);
      events := events + [e];
      ok := true;
    }

    method BuildDelta(baseSeq: int) returns (r: BuildResult)
      requires Valid()
      ensures r.OutOfRange? <==> !(0 <= baseSeq <= |events|)
      ensures r.MalformedReference? <==> 0 <= baseSeq <= |events| && !AllDeclareProperly(events[baseSeq..])
      ensures r.PayloadMissing? <==> 0 <= baseSeq <= |events| && AllDeclareProperly(events[baseSeq..])
                                     && !(DeclaredBy(events[baseSeq..]) <= payloads)
      ensures r.Built? ==> IsCut(events, payloads, baseSeq, r.bundle) && Verified(r.bundle)
      ensures r.Built? ==> forall name :: name in r.bundle.manifest.payloads <==>
        || (exists e :: e in events[baseSeq..] && Names(e.record, name))
        || (name in payloads && exists e, path :: e in events[baseSeq..] && SaysAt(Obj(e.record), path, name))
    {
      if !(0 <= baseSeq <= |events|) { return OutOfRange; }
      TailSince(events, baseSeq);
      var tail := Since(events, baseSeq);
      var declared := DeclaredPayloadRefs(tail);
      if declared.Malformed? { return MalformedReference; }
      var refs := declared.names + Mentioned(tail) * payloads;
      if !(refs <= payloads) { return PayloadMissing; }
      var names := Listed(refs);
      var m := Manifest(DELTA_FORMAT, baseSeq, HashAt(events, baseSeq), |events|, HashAt(events, |events|),
                        |tail|, tail, names);
      var b := Bundle(m, m, tail, (map name | name in refs :: name));
      CutVerifies(events, payloads, baseSeq, b);
      CutNames(tail, payloads, names);
      r := Built(b);
    }

    method Import(b: Bundle) returns (outcome: SyncOutcome)
      requires Valid()
      modifies this
      ensures Valid()
      ensures outcome == ImportOutcome(old(events), b)
      ensures events == AfterImport(old(events), b)
      ensures payloads == HeldAfter(old(events), old(payloads), b)
      ensures outcome.Applied? ==> forall name :: name in payloads <==>
        || name in old(payloads)
        || (name in b.manifest.payloads &&
            exists e, path :: e in b.events && e.seqNo > |old(events)| && SaysAt(Obj(e.record), path, name))
    {
      var verified := VerifyDelta(b);
      if !verified { return Unverified; }
      if |events| < b.manifest.baseSeq { return MissingBase; }
      if HashAt(events, b.manifest.baseSeq) != b.manifest.baseHash { return WrongBase; }
      var suffix := [];
      for i := 0 to |b.events|
        invariant events == old(events) && payloads == old(payloads)
        invariant forall k :: 0 <= k < i ==> OverlapAgrees(events, b.events, k)
        invariant suffix == Since(b.events[..i], |events|)
      {
        var e := b.events[i];
        assert LinkedAt(b.manifest.baseSeq, b.manifest.baseHash, b.events, i);
        SinceMore(b.events, i, |events|);
        if e.seqNo <= |events| {
          if HashAt(events, e.seqNo) != e.entryHash {
            assert !OverlapAgrees(events, b.events, i);
            return DivergedOverlap;
          }
        } else {
          suffix := suffix + [e];
        }
      }
      assert b.events[..|b.events|] == b.events;
      if !ValidLog(events + suffix) { return StoreRefused; }
      if |suffix| == 0 { return DuplicateDelta; }
      payloads := payloads + Mentioned(suffix) * NameSet(b.manifest.payloads);
      events := events + suffix;
      outcome := Applied(|suffix|);
      Installed(old(events), old(payloads), b);
    }
  }

  lemma {:induction false} SinceAre(events: seq<Event>, base: int)
    ensures forall e :: e in Since(events, base) <==> e in events && e.seqNo > base
  {
    if events != [] { SinceAre(events[1..], base); }
  }

  /** An applied import installs what is listed in the manifest and stands somewhere in a record that is new here. */
  lemma Installed(log: seq<Event>, held: set<string>, b: Bundle)
    requires ImportOutcome(log, b).Applied?
    ensures forall name :: name in HeldAfter(log, held, b) <==>
      || name in held
      || (name in b.manifest.payloads &&
          exists e, path :: e in b.events && e.seqNo > |log| && SaysAt(Obj(e.record), path, name))
  {
    SinceAre(b.events, |log|);
    forall name { MentionedAreSaid(Suffix(log, b), name); }
  }

  lemma {:induction false} SinceMore(events: seq<Event>, i: nat, base: int)
    requires i < |events|
    ensures Since(events[..i + 1], base) ==
            Since(events[..i], base) + (if events[i].seqNo > base then [events[i]] else [])
  {
    if i == 0 {
      assert events[..1] == [events[0]];
      assert events[..1][1..] == [];
    } else {
      SinceMore(events[1..], i - 1, base);
      assert events[..i + 1][1..] == events[1..][..i];
      assert events[..i][1..] == events[1..][..i - 1];
    }
  }
}
