/**
 The store of sealed published versions: one predecessor-linked chain per snapshot and the audit
 that reconstructs it.  Records are keyed by the base key and the version number, which the text
 of a version key determines (`Text.VersionKeyInjective`).
 */
module ImmutablePublication {
  import opened Results
  import opened Text
  import opened Clock
  import opened Publication
  import opened Sorting

  datatype Record = Record(
    tenant: string, snapshot: string, version: nat, payload: Payload, source: SourceRef, approval: Approval,
    window: Window, payloadDigest: string, signature: string, predVersion: int, predDigest: string,
    succVersion: int, succDigest: string, replacement: string, reason: string, storedAt: Time)

  datatype LineageEntry = LineageEntry(
    version: nat, payloadDigest: string, signature: string, predVersion: int, predDigest: string, storedAt: Time)

  type Key = (string, int)

  datatype Store = Store(
      records: map<Key, Record>, versions: map<string, seq<int>>, lineage: map<string, seq<LineageEntry>>)

  const Empty: Store := Store(map[], map[], map[])

  datatype Submission = Submission(
    tenant: string, snapshot: string, version: int, payload: Payload, source: SourceRef, approval: Approval,
    window: Window, predVersion: int, predDigest: string, now: Time)

  function VersionsOf(s: Store, base: string): seq<int> { if base in s.versions then s.versions[base] else [] }

  function LineageOf(s: Store, base: string): seq<LineageEntry> { if base in s.lineage then s.lineage[base] else [] }

  function FieldFault(x: Submission): Option<PublicationError> {
    if Trim(x.tenant) == "" then Some(BlankTenantId)
    else if Trim(x.snapshot) == "" then Some(BlankSnapshotId)
    else if x.version <= 0 then Some(InvalidVersion)
    else if SourceFault(x.source).Some? then SourceFault(x.source)
    else if x.source.tenant != Trim(x.tenant) then Some(SourceMismatch)
    else if !WindowValid(x.window) then Some(InvalidWindow)
    else None
  }

  /** The immutability check and the predecessor checks, in order. */
  function LinkFault(s: Store, base: string, x: Submission): Option<PublicationError> {
    if (base, x.version) in s.records then Some(VersionImmutable)
    else if x.version > 1 then
      if x.predVersion != x.version - 1 then Some(InvalidPredecessor)
      else if (base, x.predVersion) !in s.records then Some(BrokenLineage)
      else if s.records[(base, x.predVersion)].signature != x.predDigest then Some(BrokenLineage)
      else None
    else if x.predVersion != 0 || x.predDigest != "" then Some(InvalidPredecessor)
    else None
  }

  function StoreFault(c: Crypto, s: Store, x: Submission): Option<PublicationError> {
    if FieldFault(x).Some? then FieldFault(x)
    else if LinkFault(s, PairKey(x.tenant, x.snapshot), x).Some? then LinkFault(s, PairKey(x.tenant, x.snapshot), x)
    else if PayloadDigest(c, x.payload).None? then Some(PayloadNotCanonical)
    else None
  }

  function Sealed(c: Crypto, x: Submission, digest: string): Record
    requires x.version > 0
  {
    var signature :=
      Signature(c, Trim(x.tenant), Trim(x.snapshot), x.version, x.source, digest, x.approval.decisionHash);
    Record(Trim(x.tenant), Trim(x.snapshot), x.version, x.payload, x.source, x.approval, x.window, digest, signature,
           x.predVersion, x.predDigest, 0, "", "", "", x.now)
  }

  function Entry(r: Record): LineageEntry {
    LineageEntry(r.version, r.payloadDigest, r.signature, r.predVersion, r.predDigest, r.storedAt)
  }

  function Succeeded(pred: Record, r: Record): Record {
    pred.(succVersion := r.version, succDigest := r.signature, replacement := "SUPERSEDED")
  }

  function AddRecord(records: map<Key, Record>, base: string, r: Record): map<Key, Record> {
    var added := records[(base, r.version) := r];
    if r.predVersion > 0 && (base, r.predVersion) in added
    then added[(base, r.predVersion) := Succeeded(added[(base, r.predVersion)], r)]
    else added
  }

  function Add(s: Store, base: string, r: Record): Store {
    Store(AddRecord(s.records, base, r), s.versions[base := VersionsOf(s, base) + [r.version]],
          s.lineage[base := LineageOf(s, base) + [Entry(r)]])
  }

  datatype Op =
    | StoreOp(x: Submission)
    | ReplaceOp(tenant: string, snapshot: string, oldVersion: int, successor: string, succVersion: int, kind: string,
        reason: string)

  function ReplaceFault(s: Store, op: Op): Option<PublicationError>
    requires op.ReplaceOp?
  {
    if Trim(op.reason) == "" then Some(BlankReplacementReason)
    else if Trim(op.successor) == "" then Some(BlankSuccessorId)
    else if (PairKey(op.tenant, op.snapshot), op.oldVersion) !in s.records then Some(SnapshotNotFound)
    else None
  }

  function Step(c: Crypto, s: Store, op: Op): Store {
    match op
    case StoreOp(x) =>
      if StoreFault(c, s, x).Some? then s
      else Add(s, PairKey(x.tenant, x.snapshot), Sealed(c, x, PayloadDigest(c, x.payload).value))
    case ReplaceOp(tenant, snapshot, oldVersion, _, succVersion, kind, reason) =>
      if ReplaceFault(s, op).Some? then s
      else
        var key := (PairKey(tenant, snapshot), oldVersion);
        s.(records :=
          s.records[key := s.records[key].(succVersion := succVersion, replacement := kind, reason := Trim(reason))])
  }

  function Run(c: Crypto, s: Store, ops: seq<Op>): Store
    decreases |ops|
  {
    if ops == [] then s else Run(c, Step(c, s, ops[0]), ops[1..])
  }

  // ---- what every store keeps ----

  /** The digests of a record are those of its contents. */
  ghost predicate Authentic(c: Crypto, r: Record) {
    && PayloadDigest(c, r.payload) == Some(r.payloadDigest)
    && r.signature == Signature(c, r.tenant, r.snapshot, r.version, r.source, r.payloadDigest, r.approval.decisionHash)
  }

  ghost function PredDigest(s: Store, base: string, i: int): string {
    if (base, i) in s.records then s.records[(base, i)].signature else ""
  }

  /** The version after the first `i` is recorded, authentic, in the lineage, and linked to the one before. */
  ghost predicate LinkAt(c: Crypto, s: Store, base: string, i: nat) {
    && i < |VersionsOf(s, base)| == |LineageOf(s, base)|
    && VersionsOf(s, base)[i] == i + 1
    && (base, i + 1) in s.records
    && var r := s.records[(base, i + 1)];
      && PairKey(r.tenant, r.snapshot) == base && Authentic(c, r)
      && r.version == i + 1 && r.predVersion == i && r.predDigest == PredDigest(s, base, i)
      && LineageOf(s, base)[i] == Entry(r)
  }

  ghost predicate InRange(s: Store, k: Key) { 1 <= k.1 <= |VersionsOf(s, k.0)| }

  /** Every chain holds exactly the versions 1..n, and every record belongs to a chain. */
  ghost predicate Valid(c: Crypto, s: Store) {
    && (forall k | k in s.records :: InRange(s, k))
    && (forall b | b in s.versions :: s.versions[b] != [])
    && s.versions.Keys == s.lineage.Keys
    && (forall b, i | 0 <= i < |VersionsOf(s, b)| :: LinkAt(c, s, b, i))
  }

  /** A record without its successor link. */
  function Seal(r: Record): Record { r.(succVersion := 0, succDigest := "", replacement := "", reason := "") }

  ghost predicate SealKept(s: Store, t: Store, k: Key) {
    k in s.records ==> k in t.records && Seal(t.records[k]) == Seal(s.records[k])
  }

  lemma LinkKept(c: Crypto, s: Store, t: Store, base: string, i: nat)
    requires LinkAt(c, s, base, i)
    requires SealKept(s, t, (base, i + 1)) && SealKept(s, t, (base, i))
      && ((base, i) in t.records ==> (base, i) in s.records)
    requires VersionsOf(s, base) <= VersionsOf(t, base) && LineageOf(s, base) <= LineageOf(t, base)
    requires |VersionsOf(t, base)| == |LineageOf(t, base)|
    ensures LinkAt(c, t, base, i)
  {
    assert Seal(s.records[(base, i + 1)]) == Seal(t.records[(base, i + 1)]);
    assert (base, i) in s.records ==> Seal(s.records[(base, i)]) == Seal(t.records[(base, i)]);
  }

  lemma AddSeals(s: Store, base: string, r: Record, k: Key)
    requires (base, r.version) !in s.records
    ensures SealKept(s, Add(s, base, r), k)
    ensures k in Add(s, base, r).records <==> k in s.records || k == (base, r.version)
    ensures r.predVersion < r.version ==> Add(s, base, r).records[(base, r.version)] == r
  {}

  lemma AddLinks(c: Crypto, s: Store, base: string, r: Record, b: string, i: nat)
    requires Valid(c, s) && (base, r.version) !in s.records
    requires r.version == |VersionsOf(s, base)| + 1 && r.predVersion == |VersionsOf(s, base)|
    requires r.predDigest == PredDigest(s, base, r.predVersion) && Authentic(c, r)
      && PairKey(r.tenant, r.snapshot) == base
    requires i < |VersionsOf(Add(s, base, r), b)|
    ensures LinkAt(c, Add(s, base, r), b, i)
  {
    var t := Add(s, base, r);
    AddSeals(s, base, r, (b, i));
    AddSeals(s, base, r, (b, i + 1));
    ChainLengths(c, s, b);
    if i < |VersionsOf(s, b)| {
      LinkKept(c, s, t, b, i);
    } else {
      assert (b, i) in s.records ==> Seal(s.records[(b, i)]) == Seal(t.records[(b, i)]);
    }
  }

  lemma CountsUp(c: Crypto, s: Store, base: string)
    requires Valid(c, s)
    ensures forall i | 0 <= i < |VersionsOf(s, base)| :: VersionsOf(s, base)[i] == i + 1
  {
    forall i | 0 <= i < |VersionsOf(s, base)| ensures VersionsOf(s, base)[i] == i + 1 {
      assert LinkAt(c, s, base, i);
    }
  }

  lemma ChainLengths(c: Crypto, s: Store, b: string)
    requires Valid(c, s)
    ensures |VersionsOf(s, b)| == |LineageOf(s, b)|
  {
    if b in s.versions {
      assert LinkAt(c, s, b, 0);
    }
  }

  lemma AddValid(c: Crypto, s: Store, base: string, r: Record)
    requires Valid(c, s) && (base, r.version) !in s.records
    requires r.version == |VersionsOf(s, base)| + 1 && r.predVersion == |VersionsOf(s, base)|
    requires r.predDigest == PredDigest(s, base, r.predVersion) && Authentic(c, r)
      && PairKey(r.tenant, r.snapshot) == base
    ensures Valid(c, Add(s, base, r))
  {
    var t := Add(s, base, r);
    forall b, i: nat | i < |VersionsOf(t, b)| ensures LinkAt(c, t, b, i) {
      AddLinks(c, s, base, r, b, i);
    }
    forall k | k in t.records ensures InRange(t, k) {
      AddSeals(s, base, r, k);
      assert k in s.records ==> InRange(s, k);
    }
  }

  /** A submission that passes every check is for the next version and names the last one. */
  lemma NextVersion(c: Crypto, s: Store, base: string, x: Submission)
    requires Valid(c, s) && x.version > 0 && LinkFault(s, base, x).None?
    ensures x.version == |VersionsOf(s, base)| + 1 && x.predVersion == |VersionsOf(s, base)|
    ensures x.predDigest == PredDigest(s, base, x.predVersion)
  {
    var n := |VersionsOf(s, base)|;
    forall v | 1 <= v <= n ensures (base, v) in s.records {
      assert LinkAt(c, s, base, v - 1);
    }
    assert x.version > 1 ==> InRange(s, (base, x.predVersion));
    assert (base, 0) in s.records ==> InRange(s, (base, 0));
  }

  lemma SealedFits(c: Crypto, x: Submission, digest: string)
    requires x.version > 0 && PayloadDigest(c, x.payload) == Some(digest)
    ensures Authentic(c, Sealed(c, x, digest))
    ensures var r := Sealed(c, x, digest); PairKey(r.tenant, r.snapshot) == PairKey(x.tenant, x.snapshot)
  {
    TrimIdempotent(x.tenant);
    TrimIdempotent(x.snapshot);
  }

  lemma StoreValid(c: Crypto, s: Store, x: Submission)
    requires Valid(c, s)
    ensures Valid(c, Step(c, s, StoreOp(x)))
  {
    if StoreFault(c, s, x).None? {
      var base, digest := PairKey(x.tenant, x.snapshot), PayloadDigest(c, x.payload).value;
      NextVersion(c, s, base, x);
      SealedFits(c, x, digest);
      AddValid(c, s, base, Sealed(c, x, digest));
    }
  }

  lemma ReplaceValid(c: Crypto, s: Store, op: Op)
    requires Valid(c, s) && op.ReplaceOp?
    ensures Valid(c, Step(c, s, op))
  {
    var t := Step(c, s, op);
    forall b, i: nat | i < |VersionsOf(t, b)| ensures LinkAt(c, t, b, i) {
      assert LinkAt(c, s, b, i);
      LinkKept(c, s, t, b, i);
    }
    forall k | k in t.records ensures InRange(t, k) {
      assert InRange(s, k);
    }
  }

  lemma StepValid(c: Crypto, s: Store, op: Op)
    requires Valid(c, s)
    ensures Valid(c, Step(c, s, op))
  {
    if op.StoreOp? {
      StoreValid(c, s, op.x);
    } else {
      ReplaceValid(c, s, op);
    }
  }

  lemma {:induction false} RunValid(c: Crypto, s: Store, ops: seq<Op>)
    requires Valid(c, s)
    ensures Valid(c, Run(c, s, ops))
    decreases |ops|
  {
    if ops != [] {
      StepValid(c, s, ops[0]);
      RunValid(c, Step(c, s, ops[0]), ops[1..]);
    }
  }

  /** Apart from its successor link, a stored version never changes. */
  lemma {:induction false} SealedForever(c: Crypto, s: Store, ops: seq<Op>, k: Key)
    requires k in s.records
    ensures k in Run(c, s, ops).records && Seal(Run(c, s, ops).records[k]) == Seal(s.records[k])
    decreases |ops|
  {
    if ops != [] {
      StepSeals(c, s, ops[0], k);
      SealedForever(c, Step(c, s, ops[0]), ops[1..], k);
    }
  }

  /** What was submitted is what every later state holds, under the next version number. */
  lemma SubmittedIsSealed(c: Crypto, s: Store, x: Submission, ops: seq<Op>)
    requires Valid(c, s) && StoreFault(c, s, x).None?
    ensures var t, k := Run(c, Step(c, s, StoreOp(x)), ops),
      (PairKey(x.tenant, x.snapshot), |VersionsOf(s, PairKey(x.tenant, x.snapshot))| + 1);
      && k in t.records && t.records[k].version == x.version == k.1
      && t.records[k].payload == x.payload && t.records[k].source == x.source && t.records[k].approval == x.approval
      && t.records[k].window == x.window && t.records[k].predDigest == x.predDigest
      && t.records[k].tenant == Trim(x.tenant) && t.records[k].snapshot == Trim(x.snapshot)
  {
    var base := PairKey(x.tenant, x.snapshot);
    var r := Sealed(c, x, PayloadDigest(c, x.payload).value);
    NextVersion(c, s, base, x);
    AddSeals(s, base, r, (base, x.version));
    SealedForever(c, Step(c, s, StoreOp(x)), ops, (base, x.version));
    assert Seal(Run(c, Step(c, s, StoreOp(x)), ops).records[(base, x.version)]) == Seal(r);
  }

  lemma StepSeals(c: Crypto, s: Store, op: Op, k: Key)
    requires k in s.records
    ensures k in Step(c, s, op).records && Seal(Step(c, s, op).records[k]) == Seal(s.records[k])
  {
    if op.StoreOp? && StoreFault(c, s, op.x).None? {
      var r := Sealed(c, op.x, PayloadDigest(c, op.x.payload).value);
      AddSeals(s, PairKey(op.x.tenant, op.x.snapshot), r, k);
    }
  }

  /** The lineage index tells, version by version, the numbers and digests of the stored records. */
  lemma LineageTells(c: Crypto, s: Store, base: string, i: nat)
    requires Valid(c, s) && i < |VersionsOf(s, base)|
    ensures i < |LineageOf(s, base)| && (base, i + 1) in s.records
    ensures
      var e, r := LineageOf(s, base)[i], s.records[(base, i + 1)];
      && e.version == i + 1 && e.payloadDigest == r.payloadDigest && e.signature == r.signature
      && e.predVersion == i && e.predDigest == r.predDigest && e.storedAt == r.storedAt
  {
    assert LinkAt(c, s, base, i);
  }

  // ---- successors ----

  /** The successor digest of a version is the signature of the next one, if there is one. */
  ghost predicate Forward(s: Store, base: string, v: int) {
    (base, v) in s.records ==>
      s.records[(base, v)].succDigest == if (base, v + 1) in s.records then s.records[(base, v + 1)].signature else ""
  }

  /** The successor version likewise, with the mark of a superseded version. */
  ghost predicate Onward(s: Store, base: string, v: int) {
    (base, v) in s.records ==>
      && s.records[(base, v)].succVersion == (if (base, v + 1) in s.records then v + 1 else 0)
      && s.records[(base, v)].replacement == (if (base, v + 1) in s.records then "SUPERSEDED" else "")
  }

  ghost predicate NotReplaced(op: Op, base: string, v: int) {
    op.ReplaceOp? ==> (PairKey(op.tenant, op.snapshot), op.oldVersion) != (base, v)
  }

  lemma AddForward(c: Crypto, s: Store, base: string, r: Record, b: string, v: int)
    requires Valid(c, s) && r.version == |VersionsOf(s, base)| + 1 && r.predVersion == |VersionsOf(s, base)|
    requires r.succDigest == "" && r.succVersion == 0 && r.replacement == "" && (base, r.version) !in s.records
    requires Forward(s, b, v)
    ensures Forward(Add(s, base, r), b, v) && (Onward(s, b, v) ==> Onward(Add(s, base, r), b, v))
  {
    assert (base, r.version + 1) in s.records ==> InRange(s, (base, r.version + 1));
    AddSeals(s, base, r, (b, v));
    AddSeals(s, base, r, (b, v + 1));
    if (b, v + 1) in s.records {
      assert SealKept(s, Add(s, base, r), (b, v + 1));
      assert Seal(s.records[(b, v + 1)]) == Seal(Add(s, base, r).records[(b, v + 1)]);
    }
  }

  lemma StepForward(c: Crypto, s: Store, op: Op, base: string, v: int)
    requires Valid(c, s) && Forward(s, base, v)
    ensures Forward(Step(c, s, op), base, v)
    ensures Onward(s, base, v) && NotReplaced(op, base, v) ==> Onward(Step(c, s, op), base, v)
  {
    if op.StoreOp? && StoreFault(c, s, op.x).None? {
      var b := PairKey(op.x.tenant, op.x.snapshot);
      NextVersion(c, s, b, op.x);
      AddForward(c, s, b, Sealed(c, op.x, PayloadDigest(c, op.x.payload).value), base, v);
    }
  }

  /**
   Over every run each version names its successor by that version's signature, and, unless a replacement was registered
   for it, by its number; the last version names none.
   */
  lemma {:induction false} SuccessorsNamed(c: Crypto, s: Store, ops: seq<Op>, base: string, v: int)
    requires Valid(c, s) && Forward(s, base, v)
    ensures Forward(Run(c, s, ops), base, v)
    ensures Onward(s, base, v) && (forall i | 0 <= i < |ops| :: NotReplaced(ops[i], base, v)) ==>
      Onward(Run(c, s, ops), base, v)
    decreases |ops|
  {
    if ops != [] {
      StepForward(c, s, ops[0], base, v);
      StepValid(c, s, ops[0]);
      SuccessorsNamed(c, Step(c, s, ops[0]), ops[1..], base, v);
    }
  }

  /** A registered replacement writes its kind, reason and successor version, on an existing record only. */
  lemma ReplacedExactly(c: Crypto, s: Store, op: Op)
    requires op.ReplaceOp?
    ensures
      var k := (PairKey(op.tenant, op.snapshot), op.oldVersion);
      var u := Step(c, s, op);
      && u.records.Keys == s.records.Keys && u.versions == s.versions && u.lineage == s.lineage
      && (forall j | j in s.records && j != k :: u.records[j] == s.records[j])
      && (k in s.records ==>
            if Trim(op.reason) != "" && Trim(op.successor) != "" then
              u.records[k].succVersion == op.succVersion && u.records[k].replacement == op.kind
              && u.records[k].reason == Trim(op.reason)
            else u.records[k] == s.records[k])
  {}

  /** The submissions that are accepted, exactly: well formed, for the next version, and naming the last signature. */
  lemma StoredExactly(c: Crypto, s: Store, x: Submission)
    requires Valid(c, s)
    ensures StoreFault(c, s, x).None? <==>
      var n := |VersionsOf(s, PairKey(x.tenant, x.snapshot))|;
      && Trim(x.tenant) != "" && Trim(x.snapshot) != "" && Trim(x.source.kind) != "" && Trim(x.source.id) != ""
      && Trim(x.source.digest) != "" && x.source.tenant == Trim(x.tenant)
      && x.window.from != 0 && x.window.expires != 0 && 0 < x.window.expires - x.window.from <= 365 * DAY
      && x.version == n + 1 && x.predVersion == n && x.predDigest == PredDigest(s, PairKey(x.tenant, x.snapshot), n)
      && c.canonical(x.payload).Some?
  {
    var base := PairKey(x.tenant, x.snapshot);
    FieldsExactly(x);
    if x.version > 0 && LinkFault(s, base, x).None? {
      NextVersion(c, s, base, x);
    }
    NextIsLinked(c, s, base, x);
  }

  lemma FieldsExactly(x: Submission)
    ensures FieldFault(x).None? <==>
      && Trim(x.tenant) != "" && Trim(x.snapshot) != "" && x.version > 0 && Trim(x.source.kind) != ""
      && Trim(x.source.id) != "" && Trim(x.source.digest) != "" && x.source.tenant == Trim(x.tenant)
      && x.window.from != 0 && x.window.expires != 0 && 0 < x.window.expires - x.window.from <= 365 * DAY
  {
    TrimIdempotent(x.tenant);
  }

  lemma NextIsLinked(c: Crypto, s: Store, base: string, x: Submission)
    requires Valid(c, s)
    ensures
      var n := |VersionsOf(s, base)|;
      x.version == n + 1 && x.predVersion == n && x.predDigest == PredDigest(s, base, n) ==> LinkFault(s, base, x).None?
  {
    var n := |VersionsOf(s, base)|;
    assert (base, n + 1) in s.records ==> InRange(s, (base, n + 1));
    assert (base, 0) in s.records ==> InRange(s, (base, 0));
    if n > 0 {
      assert LinkAt(c, s, base, n - 1);
    }
  }

  // ---- the audit ----

  /** The version and signature that the record at position `i` must name as its predecessor. */
  ghost function Expected(s: Store, base: string, i: nat): (int, string)
    requires i <= |VersionsOf(s, base)|
  {
    if i > 0 && (base, VersionsOf(s, base)[i - 1]) in s.records then
      var prior := s.records[(base, VersionsOf(s, base)[i - 1])];
      (prior.version, prior.signature)
    else (0, "")
  }

  ghost predicate RecordPasses(c: Crypto, r: Record, i: nat, expected: (int, string)) {
    r.version == i + 1 && r.predVersion == expected.0 && r.predDigest == expected.1 && Authentic(c, r)
  }

  /** What the audit demands of the listed version at position `i`, in any store, tampered with or not. */
  ghost predicate Audited(c: Crypto, s: Store, base: string, i: nat) {
    && i < |VersionsOf(s, base)|
    && (base, VersionsOf(s, base)[i]) in s.records
    && RecordPasses(c, s.records[(base, VersionsOf(s, base)[i])], i, Expected(s, base, i))
  }

  ghost predicate AuditedTo(c: Crypto, s: Store, base: string, n: nat) {
    forall i | 0 <= i < n :: Audited(c, s, base, i)
  }

  ghost predicate Intact(c: Crypto, s: Store, base: string) { AuditedTo(c, s, base, |VersionsOf(s, base)|) }

  /** At position `i` a record of the next number that names the number and signature of the one before it. */
  ghost predicate InChain(c: Crypto, s: Store, base: string, i: nat)
    requires i < |VersionsOf(s, base)|
  {
    var vs := VersionsOf(s, base);
    && (base, vs[i]) in s.records
    && var r := s.records[(base, vs[i])];
       && r.version == i + 1 && r.predVersion == i && Authentic(c, r)
       && (i == 0 ==> r.predDigest == "")
       && (i > 0 ==> (base, vs[i - 1]) in s.records && r.predDigest == s.records[(base, vs[i - 1])].signature)
  }

  lemma AuditedInChain(c: Crypto, s: Store, base: string, i: nat)
    requires i < |VersionsOf(s, base)|
    ensures Audited(c, s, base, i) && (i > 0 ==> Audited(c, s, base, i - 1)) ==> InChain(c, s, base, i)
    ensures InChain(c, s, base, i) && (i > 0 ==> InChain(c, s, base, i - 1)) ==> Audited(c, s, base, i)
  {}

  /** The audit passes exactly for a chain that numbers and links its records from 1 without a gap. */
  lemma IntactExactly(c: Crypto, s: Store, base: string)
    ensures Intact(c, s, base) <==> forall i | 0 <= i < |VersionsOf(s, base)| :: InChain(c, s, base, i)
  {
    var n := |VersionsOf(s, base)|;
    if Intact(c, s, base) {
      forall i | 0 <= i < n ensures InChain(c, s, base, i) {
        assert Audited(c, s, base, i) && (i > 0 ==> Audited(c, s, base, i - 1));
        AuditedInChain(c, s, base, i);
      }
    } else {
      var i :| 0 <= i < n && !Audited(c, s, base, i);
      AuditedInChain(c, s, base, i);
    }
  }

  lemma AuditedNext(c: Crypto, s: Store, base: string, i: nat)
    requires i < |VersionsOf(s, base)|
    ensures AuditedTo(c, s, base, i + 1) <==>
      AuditedTo(c, s, base, i) && (base, VersionsOf(s, base)[i]) in s.records
      && RecordPasses(c, s.records[(base, VersionsOf(s, base)[i])], i, Expected(s, base, i))
  {
    if AuditedTo(c, s, base, i + 1) {
      assert Audited(c, s, base, i);
    }
  }

  /** Every store reachable through the operations audits as intact. */
  lemma ReachableIsIntact(c: Crypto, s: Store, base: string)
    requires Valid(c, s)
    ensures Intact(c, s, base)
  {
    forall i | 0 <= i < |VersionsOf(s, base)| ensures Audited(c, s, base, i) {
      assert LinkAt(c, s, base, i);
      if i > 0 {
        assert LinkAt(c, s, base, i - 1);
      } else {
        assert (base, 0) in s.records ==> InRange(s, (base, 0));
      }
    }
  }

  /** From the empty store, whatever is stored or replaced: versions 1..n, all of them intact. */
  lemma EveryRunAuditsIntact(c: Crypto, ops: seq<Op>, base: string)
    ensures var s := Run(c, Empty, ops);
      && Intact(c, s, base)
      && (forall i | 0 <= i < |VersionsOf(s, base)| :: VersionsOf(s, base)[i] == i + 1)
      && (forall k | k in s.records :: 1 <= k.1 <= |VersionsOf(s, k.0)|)
  {
    RunValid(c, Empty, ops);
    ReachableIsIntact(c, Run(c, Empty, ops), base);
    CountsUp(c, Run(c, Empty, ops), base);
    assert forall k | k in Run(c, Empty, ops).records :: InRange(Run(c, Empty, ops), k);
  }

  /** The signatures the audit chains; a listed version without a record adds nothing. */
  function Signatures(s: Store, base: string): (list: seq<string>)
    ensures |list| == |VersionsOf(s, base)|
  {
    var vs := VersionsOf(s, base);
    seq(|vs|, i requires 0 <= i < |vs| => if (base, vs[i]) in s.records then s.records[(base, vs[i])].signature else "")
  }

  function LineageDigest(c: Crypto, s: Store, base: string): string { c.hash(Concat(Signatures(s, base))) }

  ghost function PartsOf(r: Record): seq<string> {
    SignatureParts(r.tenant, r.snapshot, r.version, r.source, r.payloadDigest, r.approval.decisionHash)
  }

  ghost predicate PipeFree(r: Record) {
    '|' !in Trim(r.tenant) && '|' !in Trim(r.snapshot) && '|' !in Trim(r.source.id) && '|' !in Trim(r.source.digest)
  }

  /** Two records agree on everything that a signature covers. */
  ghost predicate SameSigned(a: Record, b: Record) {
    && Trim(a.tenant) == Trim(b.tenant) && Trim(a.snapshot) == Trim(b.snapshot) && a.version == b.version
    && Trim(a.source.id) == Trim(b.source.id) && Trim(a.source.digest) == Trim(b.source.digest)
    && a.payloadDigest == b.payloadDigest && Trim(a.approval.decisionHash) == Trim(b.approval.decisionHash)
  }

  lemma SignatureBinds(c: Crypto, a: Record, b: Record)
    requires HexHash(c.hash) && Authentic(c, a) && Authentic(c, b) && PipeFree(a) && PipeFree(b)
    requires Distinguishes(c.hash, Join('|', PartsOf(a)), Join('|', PartsOf(b)))
    requires a.signature == b.signature
    ensures SameSigned(a, b)
  {
    var x, y := PartsOf(a), PartsOf(b);
    PartsSplit(c, a);
    PartsSplit(c, b);
    JoinInjective('|', x, y);
    assert x[0] == y[0] && x[1] == y[1] && x[2] == y[2] && x[3] == y[3] && x[4] == y[4] && x[5] == y[5] && x[6] == y[6];
    DecInjective(a.version, b.version);
  }

  lemma PartsSplit(c: Crypto, r: Record)
    requires HexHash(c.hash) && Authentic(c, r) && PipeFree(r)
    ensures Splittable('|', PartsOf(r)) && Trim(r.payloadDigest) == r.payloadDigest
  {
    assert HexDigest(c.hash(c.canonical(r.payload).value));
    HexIsTrimmed(r.payloadDigest);
    assert '|' !in Dec(r.version);
  }

  ghost function RecordAt(s: Store, base: string, i: nat): Record
    requires i < |VersionsOf(s, base)| && (base, VersionsOf(s, base)[i]) in s.records
  {
    s.records[(base, VersionsOf(s, base)[i])]
  }

  /** Position `i` of both chains is free of pipes in its signed fields and free of collisions. */
  ghost predicate Comparable(c: Crypto, s: Store, a: string, t: Store, b: string, i: nat) {
    i < |VersionsOf(s, a)| && i < |VersionsOf(t, b)|
    && (a, VersionsOf(s, a)[i]) in s.records && (b, VersionsOf(t, b)[i]) in t.records ==>
      && PipeFree(RecordAt(s, a, i)) && PipeFree(RecordAt(t, b, i))
      && Distinguishes(c.hash, Join('|', PartsOf(RecordAt(s, a, i))), Join('|', PartsOf(RecordAt(t, b, i))))
  }

  /** Two intact chains with the same lineage digest have the same length and the same signed contents. */
  lemma LineageDigestBinds(c: Crypto, s: Store, a: string, t: Store, b: string)
    requires HexHash(c.hash) && Intact(c, s, a) && Intact(c, t, b)
    requires Distinguishes(c.hash, Concat(Signatures(s, a)), Concat(Signatures(t, b)))
    requires forall i :: Comparable(c, s, a, t, b, i)
    requires LineageDigest(c, s, a) == LineageDigest(c, t, b)
    ensures |VersionsOf(s, a)| == |VersionsOf(t, b)|
    ensures forall i | 0 <= i < |VersionsOf(s, a)| ::
      && Audited(c, s, a, i) && Audited(c, t, b, i)
      && SameSigned(RecordAt(s, a, i), RecordAt(t, b, i))
  {
    SignatureLengths(c, s, a);
    SignatureLengths(c, t, b);
    ConcatInjective(Signatures(s, a), Signatures(t, b));
    forall i | 0 <= i < |VersionsOf(s, a)|
      ensures Audited(c, s, a, i) && Audited(c, t, b, i) && SameSigned(RecordAt(s, a, i), RecordAt(t, b, i))
    {
      assert Audited(c, s, a, i) && Audited(c, t, b, i) && Comparable(c, s, a, t, b, i);
      assert Signatures(s, a)[i] == Signatures(t, b)[i];
      SignatureBinds(c, RecordAt(s, a, i), RecordAt(t, b, i));
    }
  }

  lemma SignatureLengths(c: Crypto, s: Store, base: string)
    requires HexHash(c.hash) && Intact(c, s, base)
    ensures forall i | 0 <= i < |Signatures(s, base)| :: |Signatures(s, base)[i]| == 64
  {
    forall i | 0 <= i < |Signatures(s, base)| ensures |Signatures(s, base)[i]| == 64 {
      assert Audited(c, s, base, i);
      assert HexDigest(c.hash(Join('|', PartsOf(RecordAt(s, base, i)))));
    }
  }

  datatype Finding = MissingVersion | OutOfSequence | WrongPredecessor | WrongPredecessorDigest | PayloadUnreadable
    | PayloadTampered | SignatureTampered

  datatype Report = Report(verified: bool, totalVersions: nat, lineageDigest: string, findings: seq<Finding>)

  method CheckRecord(c: Crypto, r: Record, i: nat, expectedVersion: int, expectedDigest: string)
    returns (findings: seq<Finding>)
    ensures findings == [] <==> RecordPasses(c, r, i, (expectedVersion, expectedDigest))
  {
    findings := [];
    if r.version != i + 1 {
      findings := findings + [OutOfSequence];
    }
    if r.predVersion != expectedVersion {
      findings := findings + [WrongPredecessor];
    }
    if r.predDigest != expectedDigest {
      findings := findings + [WrongPredecessorDigest];
    }
    var digest := PayloadDigest(c, r.payload);
    if digest.None? {
      findings := findings + [PayloadUnreadable];
    } else if digest.value != r.payloadDigest {
      findings := findings + [PayloadTampered];
    }
    var recalculated := if digest.None? then "" else digest.value;
    var signature := Signature(c, r.tenant, r.snapshot, r.version, r.source, recalculated, r.approval.decisionHash);
    if signature != r.signature {
      findings := findings + [SignatureTampered];
    }
  }

  class PublicationStore {
    var store: map<Key, Record>
    var versions: map<string, seq<int>>
    var lineage: map<string, seq<LineageEntry>>

    ghost function Model(): Store
      reads this
    {
      Store(store, versions, lineage)
    }

    constructor ()
      ensures Model() == Empty
    {
      store, versions, lineage := map[], map[], map[];
    }

    /** The writes of a store: the record, the sorted version list, the predecessor's successor link, the lineage. */
    method Insert(base: string, rec: Record)
      requires (base, rec.version) !in store && rec.version == |VersionsOf(Model(), base)| + 1
      requires forall i | 0 <= i < |VersionsOf(Model(), base)| :: VersionsOf(Model(), base)[i] == i + 1
      requires rec.predVersion > 0 ==> (base, rec.predVersion) in store
      modifies this
      ensures Model() == Add(old(Model()), base, rec)
    {
      store := store[(base, rec.version) := rec];
      var list := (if base in versions then versions[base] else []) + [rec.version];
      list := SortVersions(list);
      versions := versions[base := list];
      if rec.predVersion > 0 {
        var key := (base, rec.predVersion);
        store := store[key := Succeeded(store[key], rec)];
      }
      lineage := lineage[base := (if base in lineage then lineage[base] else []) + [Entry(rec)]];
    }

    method StorePublishedVersion(c: Crypto, x: Submission) returns (r: Result<Record, PublicationError>)
      requires Valid(c, Model())
      modifies this
      ensures Model() == Step(c, old(Model()), StoreOp(x)) && Valid(c, Model())
      ensures r.Err? <==> StoreFault(c, old(Model()), x).Some?
      ensures r.Err? ==> Some(r.error) == StoreFault(c, old(Model()), x)
      ensures r.Ok? ==> r.value == Sealed(c, x, PayloadDigest(c, x.payload).value)
    {
      StoreValid(c, Model(), x);
      if FieldFault(x).Some? {
        return Err(FieldFault(x).value);
      }
      var base := PairKey(x.tenant, x.snapshot);
      var fault := LinkFault(Store(store, versions, lineage), base, x);
      if fault.Some? {
        return Err(fault.value);
      }
      var digest := PayloadDigest(c, x.payload);
      if digest.None? {
        return Err(PayloadNotCanonical);
      }
      var rec := Sealed(c, x, digest.value);
      NextVersion(c, Model(), base, x);
      CountsUp(c, Model(), base);
      Insert(base, rec);
      return Ok(rec);
    }

    method RegisterReplacement(ghost c: Crypto, tenant: string, snapshot: string, oldVersion: int, successor: string,
        succVersion: int, kind: string, reason: string)
      returns (fault: Option<PublicationError>)
      modifies this`store
      ensures fault
        == ReplaceFault(old(Model()), ReplaceOp(tenant, snapshot, oldVersion, successor, succVersion, kind, reason))
      ensures Model()
        == Step(c, old(Model()), ReplaceOp(tenant, snapshot, oldVersion, successor, succVersion, kind, reason))
    {
      if Trim(reason) == "" {
        return Some(BlankReplacementReason);
      }
      if Trim(successor) == "" {
        return Some(BlankSuccessorId);
      }
      var key := (PairKey(tenant, snapshot), oldVersion);
      if key !in store {
        return Some(SnapshotNotFound);
      }
      store := store[key := store[key].(succVersion := succVersion, replacement := kind, reason := Trim(reason))];
      return None;
    }

    /** On any contents whatever, the audit verifies exactly the intact chains. */
    method ReconstructAuditTrail(c: Crypto, tenant: string, snapshot: string)
      returns (r: Result<Report, PublicationError>)
      ensures r.Ok? <==>
        Trim(tenant) != "" && Trim(snapshot) != "" && VersionsOf(Model(), PairKey(tenant, snapshot)) != []
      ensures r.Ok? ==>
        && (r.value.verified <==> Intact(c, Model(), PairKey(tenant, snapshot)))
        && (r.value.verified <==> r.value.findings == [])
        && r.value.totalVersions == |VersionsOf(Model(), PairKey(tenant, snapshot))|
        && r.value.lineageDigest == LineageDigest(c, Model(), PairKey(tenant, snapshot))
    {
      if Trim(tenant) == "" {
        return Err(BlankTenantId);
      }
      if Trim(snapshot) == "" {
        return Err(BlankSnapshotId);
      }
      var base := PairKey(tenant, snapshot);
      if base !in versions || versions[base] == [] {
        return Err(SnapshotNotFound);
      }
      var findings, chain := AuditChain(c, base);
      return Ok(Report(findings == [], |versions[base]|, c.hash(chain), findings));
    }

    method AuditChain(c: Crypto, base: string) returns (findings: seq<Finding>, chain: string)
      requires base in versions
      ensures findings == [] <==> Intact(c, Model(), base)
      ensures chain == Concat(Signatures(Model(), base))
    {
      ghost var m, signatures := Model(), Signatures(Model(), base);
      var expectedVersion, expectedDigest := 0, "";
      var list := versions[base];
      findings, chain := [], "";
      for i := 0 to |list|
        invariant m == Model()
        invariant findings == [] <==> AuditedTo(c, m, base, i)
        invariant findings == [] ==> (expectedVersion, expectedDigest) == Expected(m, base, i)
        invariant chain == Concat(signatures[..i])
      {
        ConcatNext(signatures, i);
        AuditedNext(c, m, base, i);
        if (base, list[i]) !in store {
          findings := findings + [MissingVersion];
        } else {
          var rec := store[(base, list[i])];
          var more := CheckRecord(c, rec, i, expectedVersion, expectedDigest);
          findings := findings + more;
          chain := chain + rec.signature;
          expectedVersion, expectedDigest := rec.version, rec.signature;
        }
      }
      assert signatures[..|list|] == signatures;
    }

    method GetLatest(ghost c: Crypto, tenant: string, snapshot: string) returns (r: Result<Record, PublicationError>)
      requires Valid(c, Model())
      ensures r.Ok? <==> VersionsOf(Model(), PairKey(tenant, snapshot)) != []
      ensures r.Ok? ==>
        && r.value.version == |VersionsOf(Model(), PairKey(tenant, snapshot))|
        && (PairKey(tenant, snapshot), r.value.version) in store
        && store[(PairKey(tenant, snapshot), r.value.version)] == r.value
    {
      var base := PairKey(tenant, snapshot);
      if base !in versions || versions[base] == [] {
        return Err(SnapshotNotFound);
      }
      assert LinkAt(c, Model(), base, |versions[base]| - 1);
      return Ok(store[(base, versions[base][|versions[base]| - 1])]);
    }
  }

  /** Sorting a list that is already 1..n leaves it as it is. */
  method SortVersions(list: seq<int>) returns (r: seq<int>)
    requires forall i | 0 <= i < |list| :: list[i] == i + 1
    ensures r == list
  {
    var less := (a: int, b: int) => a < b;
    assert WeakOrder(less) by {
      assert forall x, y, z :: WeakOrderAt(less, x, y, z);
    }
    r := Sort(less, list);
    assert Sorted(less, list) by {
      assert forall i, j | 0 <= i < j < |list| :: InOrder(less, list, i, j);
    }
    SortedUnique(less, list, r);
  }
}
