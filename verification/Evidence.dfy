/**
 Evidence records, originals and objects derived from them, and the operations that register,
 transfer, commit and check them.  SHA-256 and the checks on file names and media types are abstract
 functions.  Records and chains are keyed by tenant and identifier, which stands for the nested maps.
 */
module Evidence {
  import opened Results
  import opened Text
  import opened Clock
  import opened CustodyChain

  newtype Byte = x: int | 0 <= x < 256

  type Payload = seq<Byte>

  /** `digest` hashes a payload, `hash` a text. */
  datatype Env = Env(digest: Payload -> string, hash: Hash, validName: string -> bool, supported: string -> bool)

  const MAX_FILE_SIZE: int := 50 * 1024 * 1024

  datatype UploadState = Initialized | Transferring | Completed | Failed

  datatype Record = Record(
    id: string, tenant: string, original: bool, parent: string, derivation: string, associationType: string,
    associationId: string, name: string, media: string, size: int, digest: string, state: UploadState, committed: bool,
    createdBy: string)

  datatype EvidenceError =
    | EmptyTenantId | EmptyFileId | InvalidFilename | InvalidMediaType | InvalidSize | InvalidDigest
    | MissingAssociation
    | OriginalImmutable | DuplicateConflict | ObjectNotFound | DerivedOriginalConfusion | TamperFound | EmptyParentId
    | InvalidDerivationType | MissingParent | NestedDerivation | NotCommitted | CompletedImmutable | BlankExportId
    | EmptyExport

  datatype Manager = Manager(records: map<Key, Record>, chains: map<Key, seq<Event>>)

  const Empty: Manager := Manager(map[], map[])

  function ChainOf(m: Manager, k: Key): seq<Event> { if k in m.chains then m.chains[k] else [] }

  datatype Op =
    | RegisterOriginal(tenant: string, id: string, actor: string, now: Time, name: string, media: string, size: int,
                       digest: string, associationType: string, associationId: string)
    | RegisterDerived(tenant: string, id: string, actor: string, now: Time, name: string, media: string, size: int,
                      digest: string, parent: string, derivation: string)
    | CommitOriginal(tenant: string, id: string, actor: string, now: Time, payload: Payload)
    | CommitDerived(tenant: string, id: string, actor: string, now: Time, payload: Payload)
    | Interrupt(tenant: string, id: string, actor: string, now: Time, details: string)
    | Resume(tenant: string, id: string, actor: string, now: Time)
    | Duplicate(tenant: string, id: string, actor: string, now: Time, expected: string, payload: Payload)
    | Verify(tenant: string, id: string, actor: string, now: Time, payload: Payload)
    | Export(tenant: string, id: string, actor: string, now: Time, items: seq<string>)

  function KeyOf(op: Op): Key { (Trim(op.tenant), Trim(op.id)) }

  // ---- what one call does to one object ----

  /** The error returned, the record written and the custody events appended. */
  datatype Effect = Effect(error: Option<EvidenceError>, record: Option<Record>, notes: seq<Note>)

  function Refuse(e: EvidenceError): Effect { Effect(Some(e), None, []) }

  function FileFault(env: Env, op: Op): Option<EvidenceError>
    requires op.RegisterOriginal? || op.RegisterDerived?
  {
    if !env.validName(op.name) then Some(InvalidFilename)
    else if !env.supported(op.media) then Some(InvalidMediaType)
    else if op.size <= 0 || op.size > MAX_FILE_SIZE then Some(InvalidSize)
    else if |op.digest| != 64 then Some(InvalidDigest)
    else None
  }

  function RegisterOriginalEffect(env: Env, m: Manager, op: Op): Effect
    requires op.RegisterOriginal?
  {
    var k := KeyOf(op);
    if k.0 == "" then Refuse(EmptyTenantId)
    else if k.1 == "" then Refuse(EmptyFileId)
    else if FileFault(env, op).Some? then Refuse(FileFault(env, op).value)
    else if Trim(op.associationType) == "" || Trim(op.associationId) == "" then Refuse(MissingAssociation)
    else if k in m.records then Refuse(if m.records[k].committed then OriginalImmutable else DuplicateConflict)
    else
      var rec := Record(k.1, k.0, true, "", "NONE", op.associationType, op.associationId, op.name, op.media, op.size,
                        op.digest, Initialized, false, op.actor);
      Effect(None, Some(rec), [Note(CaptureLocal, op.actor, op.digest, "original evidence registered")])
  }

  function RegisterDerivedEffect(env: Env, m: Manager, op: Op): Effect
    requires op.RegisterDerived?
  {
    var k, p := KeyOf(op), (Trim(op.tenant), Trim(op.parent));
    if k.0 == "" then Refuse(EmptyTenantId)
    else if k.1 == "" then Refuse(EmptyFileId)
    else if p.1 == "" then Refuse(EmptyParentId)
    else if op.derivation == "NONE" || op.derivation == "" then Refuse(InvalidDerivationType)
    else if FileFault(env, op).Some? then Refuse(FileFault(env, op).value)
    else if p !in m.records then Refuse(MissingParent)
    else if !m.records[p].original then Refuse(NestedDerivation)
    else if !m.records[p].committed then Refuse(NotCommitted)
    else if k in m.records then Refuse(DuplicateConflict)
    else
      var rec := Record(k.1, k.0, false, p.1, op.derivation, m.records[p].associationType, m.records[p].associationId,
                        op.name, op.media, op.size, op.digest, Initialized, false, op.actor);
      Effect(None, Some(rec), [Note(DerivedGenerated, op.actor, op.digest,
                                    "derived artifact " + op.derivation + " created from parent original " + p.1)])
  }

  function CommitOriginalEffect(env: Env, m: Manager, op: Op): Effect
    requires op.CommitOriginal?
  {
    var k, actual := KeyOf(op), env.digest(op.payload);
    if k !in m.records then Refuse(ObjectNotFound)
    else
      var rec := m.records[k];
      if !rec.original then Refuse(DerivedOriginalConfusion)
      else if rec.committed then Refuse(OriginalImmutable)
      else if actual != rec.digest then
        var details := "integrity verification failed: expected " + rec.digest + ", got " + actual;
        Effect(Some(TamperFound), None, [Note(TamperDetected, op.actor, actual, details)])
      else if |op.payload| != rec.size then Refuse(InvalidSize)
      else Effect(None, Some(rec.(state := Completed, committed := true)),
                  [Note(IntegrityVerified, op.actor, actual, "payload SHA-256 verified successfully"),
                   Note(OriginalCommitted, op.actor, actual, "original committed as authoritative and immutable")])
  }

  function CommitDerivedEffect(env: Env, m: Manager, op: Op): Effect
    requires op.CommitDerived?
  {
    var k, actual := KeyOf(op), env.digest(op.payload);
    if k !in m.records then Refuse(ObjectNotFound)
    else
      var rec := m.records[k];
      if rec.original then Refuse(DerivedOriginalConfusion)
      else if rec.committed then Refuse(CompletedImmutable)
      else if actual != rec.digest then
        Effect(Some(TamperFound), None, [Note(TamperDetected, op.actor, actual, "derived payload digest mismatch")])
      else Effect(None, Some(rec.(state := Completed, committed := true)),
                  [Note(IntegrityVerified, op.actor, actual, "derived artifact payload verified and committed")])
  }

  function TransferEffect(m: Manager, op: Op): Effect
    requires op.Interrupt? || op.Resume?
  {
    var k := KeyOf(op);
    if k !in m.records then Refuse(ObjectNotFound)
    else if m.records[k].committed then Refuse(OriginalImmutable)
    else if op.Interrupt? then
      Effect(None, Some(m.records[k].(state := Failed)),
        [Note(TransferInterrupted, op.actor, m.records[k].digest, op.details)])
    else
      Effect(None, Some(m.records[k].(state := Transferring)),
        [Note(TransferResumed, op.actor, m.records[k].digest, "transfer resumed")])
  }

  /** `HandleDuplicateUpload`, whose boolean is true exactly when it appends an event, and `VerifyTamper`. */
  function CheckEffect(env: Env, m: Manager, op: Op): Effect
    requires op.Duplicate? || op.Verify?
  {
    var k, actual := KeyOf(op), env.digest(op.payload);
    if k !in m.records then Effect(if op.Verify? then Some(ObjectNotFound) else None, None, [])
    else
      var rec := m.records[k];
      if op.Verify? then
        if actual == rec.digest then Effect(None, None, [])
        else
          var details := "tamper detected: candidate digest " + actual + " != committed " + rec.digest;
          Effect(Some(TamperFound), None, [Note(TamperDetected, op.actor, actual, details)])
      else if !rec.committed then Effect(None, None, [])
      else if rec.digest == actual == op.expected then
        var details := "idempotent duplicate upload recognized; original preserved unchanged";
        Effect(None, None, [Note(IntegrityVerified, op.actor, actual, details)])
      else Refuse(DuplicateConflict)
  }

  function Judge(env: Env, m: Manager, op: Op): Effect
    requires !op.Export?
  {
    if op.RegisterOriginal? then RegisterOriginalEffect(env, m, op)
    else if op.RegisterDerived? then RegisterDerivedEffect(env, m, op)
    else if op.CommitOriginal? then CommitOriginalEffect(env, m, op)
    else if op.CommitDerived? then CommitDerivedEffect(env, m, op)
    else if op.Interrupt? || op.Resume? then TransferEffect(m, op)
    else CheckEffect(env, m, op)
  }

  ghost predicate FileAccepted(env: Env, op: Op)
    requires op.RegisterOriginal? || op.RegisterDerived?
  {
    env.validName(op.name) && env.supported(op.media) && 0 < op.size <= 50 * 1024 * 1024 && |op.digest| == 64
  }

  /** The registrations of originals that are accepted, exactly. */
  lemma OriginalRegisteredExactly(env: Env, m: Manager, op: Op)
    requires op.RegisterOriginal?
    ensures RegisterOriginalEffect(env, m, op).error.None? <==>
      && Trim(op.tenant) != "" && Trim(op.id) != "" && FileAccepted(env, op)
      && Trim(op.associationType) != "" && Trim(op.associationId) != "" && KeyOf(op) !in m.records
    ensures
      var e := RegisterOriginalEffect(env, m, op);
      if e.error.None? then |e.notes| == 1 && NoteSays(e.notes[0], CaptureLocal, op, op.digest) else e.notes == []
  {}

  ghost predicate NoteSays(n: Note, kind: EventKind, op: Op, digest: string) {
    n.kind == kind && n.actor == op.actor && n.digest == digest
  }

  /** The registrations of derived objects that are accepted, exactly: from a committed original of the same tenant. */
  lemma DerivedRegisteredExactly(env: Env, m: Manager, op: Op)
    requires op.RegisterDerived?
    ensures RegisterDerivedEffect(env, m, op).error.None? <==>
      && Trim(op.tenant) != "" && Trim(op.id) != "" && FileAccepted(env, op) && op.derivation !in {"", "NONE"}
      && Trim(op.parent) != "" && (Trim(op.tenant), Trim(op.parent)) in m.records
      && m.records[(Trim(op.tenant), Trim(op.parent))].original
         && m.records[(Trim(op.tenant), Trim(op.parent))].committed
      && KeyOf(op) !in m.records
    ensures
      var e, p := RegisterDerivedEffect(env, m, op), (Trim(op.tenant), Trim(op.parent));
      if e.error.None? then
        && |e.notes| == 1 && NoteSays(e.notes[0], DerivedGenerated, op, op.digest) && e.record.Some?
        && e.record.value.associationType == m.records[p].associationType
        && e.record.value.associationId == m.records[p].associationId
      else e.notes == []
  {}

  /** A tamper check passes exactly for an object with the payload's digest, and a mismatch on one leaves an event. */
  lemma TamperCheckExactly(env: Env, m: Manager, op: Op)
    requires op.Verify?
    ensures
      var e := Judge(env, m, op);
      && e.record.None?
      && (e.error.None? <==> KeyOf(op) in m.records && m.records[KeyOf(op)].digest == env.digest(op.payload))
      && (e.notes != [] <==> KeyOf(op) in m.records && m.records[KeyOf(op)].digest != env.digest(op.payload))
      && (forall n | n in e.notes ::
            n.kind == TamperDetected && n.digest == env.digest(op.payload) && n.actor == op.actor)
  {}

  /** A commitment is accepted exactly for an uncommitted object of its kind that the payload fits, and settles it. */
  lemma CommittedExactly(env: Env, m: Manager, op: Op)
    requires op.CommitOriginal? || op.CommitDerived?
    ensures
      var e, k := Judge(env, m, op), KeyOf(op);
      && (e.error.None? <==>
            && k in m.records && m.records[k].original == op.CommitOriginal? && !m.records[k].committed
            && m.records[k].digest == env.digest(op.payload)
            && (op.CommitOriginal? ==> m.records[k].size == |op.payload|))
      && (e.record.Some? <==> e.error.None?)
      && (e.error.None? ==>
            && e.record.value == m.records[k].(committed := true, state := Completed)
            && e.notes != [] && e.notes[0].kind == IntegrityVerified
            && (op.CommitOriginal? <==> exists n | n in e.notes :: n.kind == OriginalCommitted))
      && (forall n | n in e.notes :: n.digest == env.digest(op.payload) && n.actor == op.actor)
  {
    var e := Judge(env, m, op);
    if op.CommitOriginal? && e.error.None? {
      assert e.notes[1] in e.notes;
    }
  }

  /** A duplicate upload changes nothing, conflicts exactly with a committed object of another digest, and is noted. */
  lemma DuplicateExactly(env: Env, m: Manager, op: Op)
    requires op.Duplicate?
    ensures
      var e, k := Judge(env, m, op), KeyOf(op);
      var stored := k in m.records && m.records[k].committed;
      var same := stored && m.records[k].digest == env.digest(op.payload) && m.records[k].digest == op.expected;
      && e.record.None? && (e.error.Some? <==> stored && !same) && (e.notes != [] <==> same)
      && (forall n | n in e.notes :: NoteSays(n, IntegrityVerified, op, env.digest(op.payload)))
  {}

  /** A transfer note is accepted exactly for a known object that is not committed. */
  lemma TransferExactly(m: Manager, op: Op)
    requires op.Interrupt? || op.Resume?
    ensures
      var e := TransferEffect(m, op);
      && (e.error.None? <==> KeyOf(op) in m.records && !m.records[KeyOf(op)].committed)
      && (e.error.None? ==>
            && e.record == Some(m.records[KeyOf(op)].(state := if op.Interrupt? then Failed else Transferring))
            && |e.notes| == 1 && (op.Interrupt? ==> e.notes[0].details == op.details)
            && NoteSays(e.notes[0], if op.Interrupt? then TransferInterrupted else TransferResumed, op,
                        m.records[KeyOf(op)].digest))
  {}

  /** The chain after appending events for the notes in order; one call stamps one time on all of them. */
  function Extend(hash: Hash, k: Key, chain: seq<Event>, notes: seq<Note>, at: Time): seq<Event> {
    if notes == [] then chain
    else
      var before := Extend(hash, k, chain, notes[..|notes| - 1], at);
      before + [NextEvent(hash, k, before, notes[|notes| - 1], at)]
  }

  function Apply(env: Env, m: Manager, k: Key, e: Effect, at: Time): Manager {
    Manager(if e.record.Some? then m.records[k := e.record.value] else m.records,
            if e.notes == [] then m.chains else m.chains[k := Extend(env.hash, k, ChainOf(m, k), e.notes, at)])
  }

  // ---- exports leave custody events ----

  predicate Exportable(m: Manager, tenant: string, id: string) {
    (tenant, id) in m.records && m.records[(tenant, id)].committed
  }

  function PackagedNote(op: Op, digest: string): Note {
    Note(ExportPackaged, op.actor, digest, "included in export package " + Trim(op.id))
  }

  /** The manager after the first `n` items of an export were packaged. */
  function Packaged(env: Env, m: Manager, op: Op, n: nat): Manager
    requires op.Export? && n <= |op.items|
    ensures Packaged(env, m, op, n).records == m.records
  {
    if n == 0 then m
    else
      var k := (Trim(op.tenant), op.items[n - 1]);
      Apply(env, Packaged(env, m, op, n - 1), k, PackagedEffect(m, op, k), op.now)
  }

  function PackagedEffect(m: Manager, op: Op, k: Key): Effect {
    Effect(None, None, [PackagedNote(op, if k in m.records then m.records[k].digest else "")])
  }

  /** Each exported item gets one custody event with its digest and the name of the export. */
  lemma PackagedExactly(m: Manager, op: Op, k: Key)
    requires op.Export? && k in m.records
    ensures
      var e := PackagedEffect(m, op, k);
      && e.error.None? && e.record.None? && |e.notes| == 1
      && NoteSays(e.notes[0], ExportPackaged, op, m.records[k].digest)
      && e.notes[0].details == "included in export package " + Trim(op.id)
  {}

  /** How many items precede the first that cannot be exported. */
  function GoodItems(m: Manager, op: Op, from: nat): (n: nat)
    requires op.Export? && from <= |op.items|
    ensures from <= n <= |op.items|
    ensures forall i | from <= i < n :: Exportable(m, Trim(op.tenant), op.items[i])
    ensures n < |op.items| ==> !Exportable(m, Trim(op.tenant), op.items[n])
    decreases |op.items| - from
  {
    if from < |op.items| && Exportable(m, Trim(op.tenant), op.items[from]) then GoodItems(m, op, from + 1) else from
  }

  function ExportArgumentFault(op: Op): Option<EvidenceError>
    requires op.Export?
  {
    if Trim(op.tenant) == "" then Some(EmptyTenantId)
    else if Trim(op.id) == "" then Some(BlankExportId)
    else if op.items == [] then Some(EmptyExport)
    else None
  }

  /** A failing export keeps the events of the items before the failing one. */
  function Step(env: Env, m: Manager, op: Op): Manager {
    if !op.Export? then Apply(env, m, KeyOf(op), Judge(env, m, op), op.now)
    else if ExportArgumentFault(op).Some? then m
    else Packaged(env, m, op, GoodItems(m, op, 0))
  }

  // ---- runs, with the payloads that were committed ----

  function Paid(env: Env, m: Manager, paid: map<Key, Payload>, op: Op): map<Key, Payload> {
    if (op.CommitOriginal? || op.CommitDerived?) && Judge(env, m, op).error.None? then paid[KeyOf(op) := op.payload]
      else paid
  }

  datatype Trace = Trace(m: Manager, paid: map<Key, Payload>)

  function TraceStep(env: Env, t: Trace, op: Op): Trace { Trace(Step(env, t.m, op), Paid(env, t.m, t.paid, op)) }

  function Run(env: Env, t: Trace, ops: seq<Op>): Trace
    decreases |ops|
  {
    if ops == [] then t else Run(env, TraceStep(env, t, ops[0]), ops[1..])
  }

  // ---- what every manager keeps ----

  ghost predicate ParentValid(m: Manager, p: Key) { p in m.records && m.records[p].original && m.records[p].committed }

  /** A committed object was committed with a payload of its digest, an original also of its size. */
  ghost predicate CommitValid(env: Env, rec: Record, paid: map<Key, Payload>, k: Key) {
    rec.committed ==> k in paid && env.digest(paid[k]) == rec.digest && (rec.original ==> |paid[k]| == rec.size)
  }

  ghost predicate RecordValid(env: Env, t: Trace, k: Key) {
    k in t.m.records ==>
      && t.m.records[k].tenant == k.0 && t.m.records[k].id == k.1
      && CommitValid(env, t.m.records[k], t.paid, k)
      && (!t.m.records[k].original ==> ParentValid(t.m, (k.0, t.m.records[k].parent)))
  }

  /** Everything but the upload state and the commitment is the same. */
  ghost predicate SameObject(a: Record, b: Record) { b == a.(state := b.state, committed := b.committed) }

  ghost predicate ChainValid(env: Env, m: Manager, k: Key) { Linked(env.hash, k, ChainOf(m, k)) }

  ghost predicate Valid(env: Env, t: Trace) {
    (forall k :: RecordValid(env, t, k)) && (forall k :: ChainValid(env, t.m, k))
  }

  /** The record an effect writes fits; committed records are never written. */
  ghost predicate EffectValid(env: Env, t: Trace, k: Key, e: Effect, paid: map<Key, Payload>) {
    && (e.record.None? ==> paid == t.paid)
    && (e.record.Some? ==>
         && e.record.value.tenant == k.0 && e.record.value.id == k.1 && CommitValid(env, e.record.value, paid, k)
         && (k in t.m.records ==> !t.m.records[k].committed && SameObject(t.m.records[k], e.record.value))
         && (!e.record.value.original ==> ParentValid(t.m, (k.0, e.record.value.parent)))
         && (paid == t.paid || (k in paid && paid == t.paid[k := paid[k]])))
  }

  lemma {:induction false} ExtendLinked(hash: Hash, k: Key, chain: seq<Event>, notes: seq<Note>, at: Time)
    requires Linked(hash, k, chain)
    ensures Linked(hash, k, Extend(hash, k, chain, notes, at)) && chain <= Extend(hash, k, chain, notes, at)
    decreases |notes|
  {
    if notes != [] {
      var n := |notes| - 1;
      ExtendLinked(hash, k, chain, notes[..n], at);
      LinkedAppend(hash, k, Extend(hash, k, chain, notes[..n], at), notes[n], at);
    }
  }

  lemma ApplyValid(env: Env, t: Trace, k: Key, e: Effect, at: Time, paid: map<Key, Payload>)
    requires Valid(env, t) && EffectValid(env, t, k, e, paid)
    ensures Valid(env, Trace(Apply(env, t.m, k, e, at), paid))
  {
    var u := Trace(Apply(env, t.m, k, e, at), paid);
    forall j ensures RecordValid(env, u, j) {
      assert RecordValid(env, t, j) && RecordValid(env, t, k);
    }
    forall j ensures ChainValid(env, u.m, j) {
      assert ChainValid(env, t.m, j);
      if j == k {
        ExtendLinked(env.hash, k, ChainOf(t.m, k), e.notes, at);
      }
    }
  }

  lemma OriginalValid(env: Env, t: Trace, op: Op)
    requires op.RegisterOriginal?
    ensures EffectValid(env, t, KeyOf(op), RegisterOriginalEffect(env, t.m, op), t.paid)
  {}

  lemma DerivedValid(env: Env, t: Trace, op: Op)
    requires op.RegisterDerived?
    ensures EffectValid(env, t, KeyOf(op), RegisterDerivedEffect(env, t.m, op), t.paid)
  {}

  lemma OriginalCommitmentValid(env: Env, t: Trace, op: Op)
    requires RecordValid(env, t, KeyOf(op)) && op.CommitOriginal?
    ensures EffectValid(env, t, KeyOf(op), CommitOriginalEffect(env, t.m, op), Paid(env, t.m, t.paid, op))
  {}

  lemma DerivedCommitmentValid(env: Env, t: Trace, op: Op)
    requires RecordValid(env, t, KeyOf(op)) && op.CommitDerived?
    ensures EffectValid(env, t, KeyOf(op), CommitDerivedEffect(env, t.m, op), Paid(env, t.m, t.paid, op))
  {}

  lemma TransferValid(env: Env, t: Trace, op: Op)
    requires RecordValid(env, t, KeyOf(op)) && (op.Interrupt? || op.Resume?)
    ensures EffectValid(env, t, KeyOf(op), TransferEffect(t.m, op), t.paid)
  {}

  lemma JudgeValid(env: Env, t: Trace, op: Op)
    requires Valid(env, t) && !op.Export?
    ensures EffectValid(env, t, KeyOf(op), Judge(env, t.m, op), Paid(env, t.m, t.paid, op))
  {
    assert RecordValid(env, t, KeyOf(op));
    if op.RegisterOriginal? {
      OriginalValid(env, t, op);
    } else if op.RegisterDerived? {
      DerivedValid(env, t, op);
    } else if op.CommitOriginal? {
      OriginalCommitmentValid(env, t, op);
    } else if op.CommitDerived? {
      DerivedCommitmentValid(env, t, op);
    } else if op.Interrupt? || op.Resume? {
      TransferValid(env, t, op);
    }
  }

  lemma {:induction false} PackagedValid(env: Env, t: Trace, op: Op, n: nat)
    requires Valid(env, t) && op.Export? && n <= |op.items|
    ensures Valid(env, Trace(Packaged(env, t.m, op, n), t.paid))
    decreases n
  {
    if n > 0 {
      PackagedValid(env, t, op, n - 1);
      var k := (Trim(op.tenant), op.items[n - 1]);
      ApplyValid(env, Trace(Packaged(env, t.m, op, n - 1), t.paid), k, PackagedEffect(t.m, op, k), op.now, t.paid);
    }
  }

  lemma StepValid(env: Env, t: Trace, op: Op)
    requires Valid(env, t)
    ensures Valid(env, TraceStep(env, t, op))
  {
    if op.Export? {
      if ExportArgumentFault(op).None? {
        PackagedValid(env, t, op, GoodItems(t.m, op, 0));
      }
    } else {
      JudgeValid(env, t, op);
      ApplyValid(env, t, KeyOf(op), Judge(env, t.m, op), op.now, Paid(env, t.m, t.paid, op));
    }
  }

  lemma {:induction false} RunValid(env: Env, t: Trace, ops: seq<Op>)
    requires Valid(env, t)
    ensures Valid(env, Run(env, t, ops))
    decreases |ops|
  {
    if ops != [] {
      StepValid(env, t, ops[0]);
      RunValid(env, TraceStep(env, t, ops[0]), ops[1..]);
    }
  }

  lemma EveryRunValid(env: Env, ops: seq<Op>)
    ensures Valid(env, Run(env, Trace(Empty, map[]), ops))
  {
    var t := Trace(Empty, map[]);
    forall k ensures ChainValid(env, t.m, k) {}
    RunValid(env, t, ops);
  }

  // ---- what never changes ----

  ghost predicate Kept(t: Trace, u: Trace, k: Key) {
    && (k in t.m.chains ==> k in u.m.chains && t.m.chains[k] <= u.m.chains[k])
    && (k in t.m.records ==> k in u.m.records && SameObject(t.m.records[k], u.m.records[k]))
    && (k in t.m.records && t.m.records[k].committed ==>
         && k in u.m.records && u.m.records[k] == t.m.records[k]
         && (k in t.paid ==> k in u.paid && u.paid[k] == t.paid[k]))
  }

  lemma ApplyKeeps(env: Env, t: Trace, k: Key, e: Effect, at: Time, paid: map<Key, Payload>, j: Key)
    requires Valid(env, t) && EffectValid(env, t, k, e, paid)
    ensures Kept(t, Trace(Apply(env, t.m, k, e, at), paid), j)
  {
    if j == k {
      assert ChainValid(env, t.m, k);
      ExtendLinked(env.hash, k, ChainOf(t.m, k), e.notes, at);
    }
  }

  lemma {:induction false} PackagedKeeps(env: Env, t: Trace, op: Op, n: nat, j: Key)
    requires Valid(env, t) && op.Export? && n <= |op.items|
    ensures Kept(t, Trace(Packaged(env, t.m, op, n), t.paid), j)
    decreases n
  {
    if n > 0 {
      PackagedKeeps(env, t, op, n - 1, j);
      PackagedValid(env, t, op, n - 1);
      var k := (Trim(op.tenant), op.items[n - 1]);
      ApplyKeeps(env, Trace(Packaged(env, t.m, op, n - 1), t.paid), k, PackagedEffect(t.m, op, k), op.now, t.paid, j);
    }
  }

  lemma StepKeeps(env: Env, t: Trace, op: Op, j: Key)
    requires Valid(env, t)
    ensures Kept(t, TraceStep(env, t, op), j)
  {
    if op.Export? {
      if ExportArgumentFault(op).None? {
        PackagedKeeps(env, t, op, GoodItems(t.m, op, 0), j);
      }
    } else {
      JudgeValid(env, t, op);
      ApplyKeeps(env, t, KeyOf(op), Judge(env, t.m, op), op.now, Paid(env, t.m, t.paid, op), j);
    }
  }

  /** Committed records never change, the others keep what they were registered with, and custody chains only grow. */
  lemma {:induction false} CommittedForever(env: Env, t: Trace, ops: seq<Op>, k: Key)
    requires Valid(env, t)
    ensures Kept(t, Run(env, t, ops), k)
    decreases |ops|
  {
    if ops != [] {
      StepValid(env, t, ops[0]);
      StepKeeps(env, t, ops[0], k);
      CommittedForever(env, TraceStep(env, t, ops[0]), ops[1..], k);
    }
  }

  ghost predicate AsDeclared(rec: Record, op: Op)
    requires op.RegisterOriginal? || op.RegisterDerived?
  {
    && rec.original == op.RegisterOriginal? && rec.size == op.size && rec.digest == op.digest
    && rec.name == op.name && rec.media == op.media && (rec.tenant, rec.id) == KeyOf(op) && rec.createdBy == op.actor
    && (op.RegisterOriginal? ==>
          && rec.parent == "" && rec.derivation == "NONE"
          && rec.associationType == op.associationType && rec.associationId == op.associationId)
    && (op.RegisterDerived? ==> rec.parent == Trim(op.parent) && rec.derivation == op.derivation)
  }

  /** What was declared at registration is what every later state records, committed or not. */
  lemma RegisteredAsDeclared(env: Env, t: Trace, op: Op, ops: seq<Op>)
    requires Valid(env, t) && (op.RegisterOriginal? || op.RegisterDerived?) && Judge(env, t.m, op).error.None?
    ensures var u := Run(env, TraceStep(env, t, op), ops);
      KeyOf(op) in u.m.records && AsDeclared(u.m.records[KeyOf(op)], op)
  {
    if op.RegisterOriginal? {
      OriginalDeclared(env, t.m, op);
    } else {
      DerivedDeclared(env, t.m, op);
    }
    StepValid(env, t, op);
    CommittedForever(env, TraceStep(env, t, op), ops, KeyOf(op));
  }

  lemma OriginalDeclared(env: Env, m: Manager, op: Op)
    requires op.RegisterOriginal? && RegisterOriginalEffect(env, m, op).error.None?
    ensures RegisterOriginalEffect(env, m, op).record.Some?
      && AsDeclared(RegisterOriginalEffect(env, m, op).record.value, op)
  {}

  lemma DerivedDeclared(env: Env, m: Manager, op: Op)
    requires op.RegisterDerived? && RegisterDerivedEffect(env, m, op).error.None?
    ensures RegisterDerivedEffect(env, m, op).record.Some?
      && AsDeclared(RegisterDerivedEffect(env, m, op).record.value, op)
  {}
}
