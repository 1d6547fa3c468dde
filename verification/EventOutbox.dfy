/**
 The transactional outbox: any number of transactions stage events in private and commit them,
 as whole batches, to one sequenced log.
 */
module EventOutbox {
  import opened Results
  import opened Text
  import opened Clock
  import opened Sorting

  datatype Envelope = Envelope(
    eventId: string, tenant: string, producer: string, eventType: string, envelopeVersion: string,
    schemaVersion: string, correlationId: string, causationId: string, payloadDigest: string,
    sequence: nat, timestamp: Time)

  datatype Input = Input(
    eventId: string, tenant: string, producer: string, eventType: string, envelopeVersion: string,
    schemaVersion: string, correlationId: string, causationId: string, payloadDigest: string, timestamp: Time)

  datatype OutboxError =
    | EmptyId | MalformedId | PrefixMismatch | BlankField | InvalidDigest | UnsupportedEnvelopeVersion
    | IncompatibleSchemaVersion | DuplicateEventId | CrossTenantAssociation | TxClosed

  const CURRENT_VERSION := "1.0.0"

  // ---- validation ----

  predicate IdChar(c: char) { 'a' <= c <= 'z' || '0' <= c <= '9' || c == '_' || c == '-' }

  function IndexOf(s: string, c: char): (i: int)
    ensures -1 <= i < |s|
    ensures i == -1 <==> c !in s
    ensures i >= 0 ==> s[i] == c && c !in s[..i]
  {
    if s == "" then -1
    else if s[0] == c then 0
    else
      var r := IndexOf(s[1..], c);
      assert s == [s[0]] + s[1..];
      if r < 0 then -1 else assert s[..r + 1] == [s[0]] + s[1..][..r]; r + 1
  }

  function IdFault(raw: string, prefix: string): Option<OutboxError> { TrimmedIdFault(Trim(raw), prefix) }

  function TrimmedIdFault(s: string, prefix: string): Option<OutboxError> {
    var i := IndexOf(s, '_');
    if s == "" then Some(EmptyId)
    else if i <= 0 || i == |s| - 1 then Some(MalformedId)
    else if s[..i] != prefix then Some(PrefixMismatch)
    else if !AllIdChars(s[i + 1..]) then Some(MalformedId)
    else None
  }

  predicate AllIdChars(s: string) { forall k | 0 <= k < |s| :: IdChar(s[k]) }

  /** The accepted identifiers are exactly `<prefix>_<payload>` with a non-empty payload of identifier characters. */
  lemma IdAcceptedExactly(s: string, prefix: string)
    requires prefix != "" && '_' !in prefix
    ensures TrimmedIdFault(s, prefix) == None <==>
      exists payload :: payload != "" && s == prefix + "_" + payload && AllIdChars(payload)
  {
    if TrimmedIdFault(s, prefix) == None {
      var i := IndexOf(s, '_');
      assert s == s[..i] + "_" + s[i + 1..];
    }
    if payload :| payload != "" && s == prefix + "_" + payload && AllIdChars(payload) {
      PrefixEndsAtSeparator(s, prefix, payload);
    }
  }

  lemma PrefixEndsAtSeparator(s: string, prefix: string, payload: string)
    requires '_' !in prefix && s == prefix + "_" + payload
    ensures IndexOf(s, '_') == |prefix| && s[..|prefix|] == prefix && s[|prefix| + 1..] == payload
  {
    var i := IndexOf(s, '_');
    assert s[|prefix|] == '_';
    assert s == s[..i] + ['_'] + s[i + 1..];
    SplitUnique('_', s[..i], s[i + 1..], prefix, payload);
  }

  function EnvelopeVersion(input: Input): string {
    if Trim(input.envelopeVersion) == "" then CURRENT_VERSION else Trim(input.envelopeVersion)
  }

  // ---- the outbox and its transactions ----

  datatype Box = Box(committed: seq<Envelope>, eventIds: set<string>, counter: nat)

  datatype Tx = Tx(tenant: string, staged: seq<Envelope>, stagedIds: set<string>, closed: bool)

  const EMPTY_BOX := Box([], {}, 0)

  function Begun(tenant: string): Tx { Tx(Trim(tenant), [], {}, false) }

  function FieldFault(input: Input): Option<OutboxError> {
    if Trim(input.producer) == "" || Trim(input.eventType) == "" then Some(BlankField)
    else if EnvelopeVersion(input) != CURRENT_VERSION then Some(UnsupportedEnvelopeVersion)
    else if Trim(input.schemaVersion) != CURRENT_VERSION then Some(IncompatibleSchemaVersion)
    else if IdFault(input.correlationId, "corr").Some? then IdFault(input.correlationId, "corr")
    else if IdFault(input.causationId, "caus").Some? then IdFault(input.causationId, "caus")
    else if !HexDigest(Trim(input.payloadDigest)) then Some(InvalidDigest)
    else None
  }

  function StageFault(box: Box, tx: Tx, input: Input): Option<OutboxError> {
    if tx.closed then Some(TxClosed)
    else if input.tenant != "" && Trim(input.tenant) != tx.tenant then Some(CrossTenantAssociation)
    else if IdFault(input.eventId, "evt").Some? then IdFault(input.eventId, "evt")
    else if Trim(input.eventId) in tx.stagedIds || Trim(input.eventId) in box.eventIds then Some(DuplicateEventId)
    else FieldFault(input)
  }

  function Sealed(tx: Tx, input: Input, now: Time): Envelope {
    Envelope(Trim(input.eventId), tx.tenant, Trim(input.producer), Trim(input.eventType), EnvelopeVersion(input),
             Trim(input.schemaVersion), Trim(input.correlationId), Trim(input.causationId), Trim(input.payloadDigest),
             0, if input.timestamp == 0 then now else input.timestamp)
  }

  function Staged(tx: Tx, input: Input, now: Time): Tx {
    var e := Sealed(tx, input, now);
    tx.(staged := tx.staged + [e], stagedIds := tx.stagedIds + {e.eventId})
  }

  ghost predicate IsId(s: string, prefix: string) {
    exists payload :: payload != "" && s == prefix + "_" + payload && AllIdChars(payload)
  }

  ghost predicate WellFormed(e: Envelope) {
    && IsId(e.eventId, "evt") && IsId(e.correlationId, "corr") && IsId(e.causationId, "caus")
    && e.producer != "" && e.eventType != "" && e.envelopeVersion == e.schemaVersion == CURRENT_VERSION
    && HexDigest(e.payloadDigest)
  }

  lemma FieldsWellFormed(tx: Tx, input: Input, now: Time)
    requires IsId(Trim(input.eventId), "evt") && FieldFault(input).None?
    ensures WellFormed(Sealed(tx, input, now))
  {
    IdAcceptedExactly(Trim(input.correlationId), "corr");
    IdAcceptedExactly(Trim(input.causationId), "caus");
  }

  /** An accepted event is new, of the transaction's tenant, and well formed in every field. */
  lemma AcceptedIsWellFormed(box: Box, tx: Tx, input: Input, now: Time)
    requires StageFault(box, tx, input).None?
    ensures var e := Sealed(tx, input, now);
      e.eventId !in tx.stagedIds && e.eventId !in box.eventIds && e.tenant == tx.tenant && WellFormed(e)
  {
    IdAcceptedExactly(Trim(input.eventId), "evt");
    FieldsWellFormed(tx, input, now);
  }

  /** The events that can be staged, exactly. */
  lemma StagedExactly(box: Box, tx: Tx, input: Input)
    ensures StageFault(box, tx, input).None? <==>
      && !tx.closed && (input.tenant == "" || Trim(input.tenant) == tx.tenant)
      && IsId(Trim(input.eventId), "evt") && Trim(input.eventId) !in tx.stagedIds
         && Trim(input.eventId) !in box.eventIds
      && Acceptable(input)
  {
    IdAcceptedExactly(Trim(input.eventId), "evt");
    FieldsAcceptedExactly(input);
  }

  /** A staged event carries what was given, trimmed, with the current time where none was given. */
  lemma StagedAsGiven(tx: Tx, input: Input, now: Time)
    ensures
      var u := Staged(tx, input, now);
      var e := u.staged[|u.staged| - 1];
      && u == tx.(staged := tx.staged + [e], stagedIds := tx.stagedIds + {Trim(input.eventId)})
      && e.eventId == Trim(input.eventId) && e.tenant == tx.tenant && e.producer == Trim(input.producer)
      && e.eventType == Trim(input.eventType) && e.schemaVersion == Trim(input.schemaVersion)
      && e.envelopeVersion == (if Trim(input.envelopeVersion) == "" then "1.0.0" else Trim(input.envelopeVersion))
      && e.correlationId == Trim(input.correlationId) && e.causationId == Trim(input.causationId)
      && e.payloadDigest == Trim(input.payloadDigest)
      && e.timestamp == (if input.timestamp == 0 then now else input.timestamp)
  {}

  ghost predicate Acceptable(input: Input) {
    && Trim(input.producer) != "" && Trim(input.eventType) != ""
    && (Trim(input.envelopeVersion) == "" || Trim(input.envelopeVersion) == "1.0.0")
       && Trim(input.schemaVersion) == "1.0.0"
    && IsId(Trim(input.correlationId), "corr") && IsId(Trim(input.causationId), "caus")
    && HexDigest(Trim(input.payloadDigest))
  }

  lemma FieldsAcceptedExactly(input: Input)
    ensures FieldFault(input).None? <==> Acceptable(input)
  {
    IdAcceptedExactly(Trim(input.correlationId), "corr");
    IdAcceptedExactly(Trim(input.causationId), "caus");
  }

  ghost predicate Collides(box: Box, staged: seq<Envelope>) {
    exists i :: 0 <= i < |staged| && staged[i].eventId in box.eventIds
  }

  ghost function CommitFault(box: Box, tx: Tx): Option<OutboxError> {
    if tx.closed then Some(TxClosed) else if Collides(box, tx.staged) then Some(DuplicateEventId) else None
  }

  /** The events with the sequence numbers that follow `last`. */
  function Numbered(staged: seq<Envelope>, last: nat): (es: seq<Envelope>)
    ensures |es| == |staged|
    ensures forall i | 0 <= i < |staged| :: es[i] == staged[i].(sequence := last + i + 1)
  {
    seq(|staged|, i requires 0 <= i < |staged| => staged[i].(sequence := last + i + 1))
  }

  function Ids(es: seq<Envelope>): set<string> { set i | 0 <= i < |es| :: es[i].eventId }

  function Published(box: Box, staged: seq<Envelope>): Box {
    Box(box.committed + Numbered(staged, box.counter), box.eventIds + Ids(staged), box.counter + |staged|)
  }

  function Closed(tx: Tx): Tx { tx.(staged := [], stagedIds := {}, closed := true) }

  // ---- interleaved runs ----

  datatype System = System(box: Box, txs: map<nat, Tx>)

  datatype Op =
    | Begin(id: nat, tenant: string)
    | Stage(id: nat, input: Input, now: Time)
    | Commit(id: nat)
    | Rollback(id: nat)

  /** One locked call on the outbox or on one of its transactions; a call that fails changes nothing. */
  ghost function Step(s: System, op: Op): System {
    match op
    case Begin(id, tenant) =>
      if id in s.txs || IdFault(tenant, "ten").Some? then s else s.(txs := s.txs[id := Begun(tenant)])
    case Stage(id, input, now) =>
      if id !in s.txs || StageFault(s.box, s.txs[id], input).Some? then s
      else s.(txs := s.txs[id := Staged(s.txs[id], input, now)])
    case Commit(id) =>
      if id !in s.txs || CommitFault(s.box, s.txs[id]).Some? then s
      else System(Published(s.box, s.txs[id].staged), s.txs[id := Closed(s.txs[id])])
    case Rollback(id) =>
      if id !in s.txs || s.txs[id].closed then s else s.(txs := s.txs[id := Closed(s.txs[id])])
  }

  /** A transaction opens, empty, exactly for a tenant identifier; staging adds one event; commit and rollback close. */
  lemma OpensAndCloses(s: System, op: Op)
    ensures
      var u := Step(s, op);
      && (op.Begin? && op.id !in s.txs ==>
            && (op.id in u.txs <==> IsId(Trim(op.tenant), "ten"))
            && (op.id in u.txs ==> u.txs[op.id] == Tx(Trim(op.tenant), [], {}, false)))
      && (op.id in s.txs && (op.Rollback? || (op.Commit? && CommitFault(s.box, s.txs[op.id]).None?)) ==>
            u.txs[op.id].closed)
      && (op.Stage? && op.id in s.txs && StageFault(s.box, s.txs[op.id], op.input).None? ==>
            u.txs[op.id] == Staged(s.txs[op.id], op.input, op.now))
      && (!op.Commit? ==> u.box == s.box)
      && (forall i | i in s.txs && i != op.id :: i in u.txs && u.txs[i] == s.txs[i])
  {
    if op.Begin? {
      IdAcceptedExactly(Trim(op.tenant), "ten");
    }
  }

  ghost function Run(s: System, ops: seq<Op>): System
    decreases |ops|
  {
    if ops == [] then s else Run(Step(s, ops[0]), ops[1..])
  }

  ghost predicate DistinctIds(es: seq<Envelope>) {
    forall i, j | 0 <= i < j < |es| :: es[i].eventId != es[j].eventId
  }

  /** Identifiers are distinct and exactly those recorded, and the sequence numbers are 1, 2, 3, ... in log order. */
  ghost predicate BoxValid(b: Box) {
    && b.counter == |b.committed|
    && (forall i | 0 <= i < |b.committed| :: b.committed[i].sequence == i + 1)
    && DistinctIds(b.committed) && b.eventIds == Ids(b.committed)
  }

  ghost predicate OneTenant(es: seq<Envelope>, tenant: string) {
    forall i | 0 <= i < |es| :: es[i].tenant == tenant
  }

  ghost predicate TxValid(tx: Tx) {
    OneTenant(tx.staged, tx.tenant) && DistinctIds(tx.staged) && tx.stagedIds == Ids(tx.staged)
  }

  ghost predicate Valid(s: System) {
    BoxValid(s.box) && forall id | id in s.txs :: TxValid(s.txs[id])
  }

  lemma PublishedValid(b: Box, staged: seq<Envelope>)
    requires BoxValid(b) && DistinctIds(staged) && !Collides(b, staged)
    ensures BoxValid(Published(b, staged))
  {
    var c := Published(b, staged);
    var more := Numbered(staged, b.counter);
    assert Ids(more) == Ids(staged) by {
      assert forall i | 0 <= i < |staged| :: more[i].eventId == staged[i].eventId;
    }
    IdsConcat(b.committed, more);
    forall i, j | 0 <= i < j < |c.committed| ensures c.committed[i].eventId != c.committed[j].eventId {
      var n := |b.committed|;
      if i < n <= j {
        assert b.committed[i].eventId in b.eventIds && staged[j - n].eventId !in b.eventIds;
      } else if n <= i {
        assert staged[i - n].eventId != staged[j - n].eventId;
      }
    }
  }

  lemma IdsConcat(a: seq<Envelope>, b: seq<Envelope>)
    ensures Ids(a + b) == Ids(a) + Ids(b)
  {
    forall i | 0 <= i < |a| ensures a[i].eventId in Ids(a + b) {
      assert (a + b)[i] == a[i];
    }
    forall i | 0 <= i < |b| ensures b[i].eventId in Ids(a + b) {
      assert (a + b)[|a| + i] == b[i];
    }
  }

  lemma AddedValid(tx: Tx, e: Envelope)
    requires TxValid(tx) && e.tenant == tx.tenant && e.eventId !in tx.stagedIds
    ensures TxValid(tx.(staged := tx.staged + [e], stagedIds := tx.stagedIds + {e.eventId}))
  {
    IdsConcat(tx.staged, [e]);
    assert Ids([e]) == {e.eventId} by { assert [e][0] == e; }
    forall i | 0 <= i < |tx.staged| ensures tx.staged[i].eventId != e.eventId {
      assert tx.staged[i].eventId in tx.stagedIds;
    }
  }

  lemma StagedValid(box: Box, tx: Tx, input: Input, now: Time)
    requires TxValid(tx) && StageFault(box, tx, input) == None
    ensures TxValid(Staged(tx, input, now))
  {
    AddedValid(tx, Sealed(tx, input, now));
  }

  lemma StepValid(s: System, op: Op)
    requires Valid(s)
    ensures Valid(Step(s, op))
  {
    match op {
      case Stage(id, input, now) =>
        if id in s.txs && StageFault(s.box, s.txs[id], input).None? {
          StagedValid(s.box, s.txs[id], input, now);
        }
      case Commit(id) =>
        if id in s.txs && CommitFault(s.box, s.txs[id]).None? {
          PublishedValid(s.box, s.txs[id].staged);
        }
      case Begin(_, _) =>
      case Rollback(_) =>
    }
  }

  lemma {:induction false} RunValid(s: System, ops: seq<Op>)
    requires Valid(s)
    ensures Valid(Run(s, ops))
    decreases |ops|
  {
    if ops != [] {
      StepValid(s, ops[0]);
      RunValid(Step(s, ops[0]), ops[1..]);
    }
  }

  // ---- what the log of a run consists of ----

  /** The batch that a step commits, if any: the whole staging list of one transaction. */
  ghost function CommittedBatch(s: System, op: Op): seq<Envelope> {
    if op.Commit? && op.id in s.txs && CommitFault(s.box, s.txs[op.id]).None? then s.txs[op.id].staged else []
  }

  ghost function CommittedBatches(s: System, ops: seq<Op>): seq<seq<Envelope>>
    decreases |ops|
  {
    if ops == [] then [] else [CommittedBatch(s, ops[0])] + CommittedBatches(Step(s, ops[0]), ops[1..])
  }

  ghost function Concat(batches: seq<seq<Envelope>>): seq<Envelope> {
    if batches == [] then [] else batches[0] + Concat(batches[1..])
  }

  lemma StepLog(s: System, op: Op)
    ensures Step(s, op).box == Published(s.box, CommittedBatch(s, op))
  {
    PublishedNothing(s.box);
  }

  lemma PublishedNothing(b: Box)
    ensures Published(b, []) == b
  {
    assert b.committed + [] == b.committed;
    assert Ids([]) == {};
  }

  lemma LogTwice(log: seq<Envelope>, x: seq<Envelope>, y: seq<Envelope>, n: nat)
    ensures log + Numbered(x, n) + Numbered(y, n + |x|) == log + Numbered(x + y, n)
  {
    NumberedConcat(x, y, n);
    ConcatAssociative(log, Numbered(x, n), Numbered(y, n + |x|));
  }

  lemma IdsTwice(ids: set<string>, x: seq<Envelope>, y: seq<Envelope>)
    ensures ids + Ids(x) + Ids(y) == ids + Ids(x + y)
  {
    IdsConcat(x, y);
  }

  lemma PublishedTwice(b: Box, x: seq<Envelope>, y: seq<Envelope>)
    ensures Published(Published(b, x), y) == Published(b, x + y)
  {
    LogTwice(b.committed, x, y, b.counter);
    IdsTwice(b.eventIds, x, y);
  }

  lemma PublishedOne(b: Box, e: Envelope)
    ensures Published(b, [e]) ==
      Box(b.committed + [e.(sequence := b.counter + 1)], b.eventIds + {e.eventId}, b.counter + 1)
  {
    assert [e][0] == e && Ids([e]) == {e.eventId};
    assert Numbered([e], b.counter) == [e.(sequence := b.counter + 1)];
  }

  lemma NumberedConcat(x: seq<Envelope>, y: seq<Envelope>, n: nat)
    ensures Numbered(x + y, n) == Numbered(x, n) + Numbered(y, n + |x|)
  {}

  lemma ConcatAssociative(a: seq<Envelope>, b: seq<Envelope>, c: seq<Envelope>)
    ensures (a + b) + c == a + (b + c)
  {}

  /** The log grows by exactly the whole staging lists of the successful commits, renumbered in order. */
  lemma {:induction false} LogIsCommittedBatches(s: System, ops: seq<Op>)
    ensures Run(s, ops).box == Published(s.box, Concat(CommittedBatches(s, ops)))
    decreases |ops|
  {
    if ops == [] {
      PublishedNothing(s.box);
    } else {
      var t := Step(s, ops[0]);
      var a, b := CommittedBatch(s, ops[0]), CommittedBatches(t, ops[1..]);
      StepLog(s, ops[0]);
      LogIsCommittedBatches(t, ops[1..]);
      assert CommittedBatches(s, ops) == [a] + b;
      assert ([a] + b)[1..] == b;
      PublishedTwice(s.box, a, Concat(b));
    }
  }

  /** Each committed batch belongs to one tenant. */
  lemma {:induction false} BatchesAreOneTenant(s: System, ops: seq<Op>, k: nat)
    requires Valid(s) && k < |CommittedBatches(s, ops)|
    ensures exists tenant :: OneTenant(CommittedBatches(s, ops)[k], tenant)
    decreases |ops|
  {
    if ops != [] {
      if k == 0 {
        var tenant := if ops[0].Commit? && ops[0].id in s.txs then s.txs[ops[0].id].tenant else "";
        assert CommittedBatches(s, ops)[0] == CommittedBatch(s, ops[0]);
        assert OneTenant(CommittedBatch(s, ops[0]), tenant);
      } else {
        StepValid(s, ops[0]);
        BatchesAreOneTenant(Step(s, ops[0]), ops[1..], k - 1);
        assert CommittedBatches(s, ops)[k] == CommittedBatches(Step(s, ops[0]), ops[1..])[k - 1];
      }
    }
  }

  /** Nothing staged by a transaction that was rolled back is ever committed by it: it stays closed and empty. */
  lemma {:induction false} ClosedForever(s: System, ops: seq<Op>, id: nat)
    requires id in s.txs && s.txs[id].closed
    ensures id in Run(s, ops).txs && Run(s, ops).txs[id] == s.txs[id]
    decreases |ops|
  {
    if ops != [] {
      ClosedForever(Step(s, ops[0]), ops[1..], id);
    }
  }

  // ---- the readers ----

  predicate BySequence(a: Envelope, b: Envelope) { a.sequence < b.sequence }

  function ForTenant(es: seq<Envelope>, tenant: string): seq<Envelope> {
    if es == [] then []
    else
      var n := |es| - 1;
      ForTenant(es[..n], tenant) + if es[n].tenant == tenant then [es[n]] else []
  }

  /** Every event comes from the log with its position as sequence number, in increasing order. */
  ghost predicate Increasing(es: seq<Envelope>, bound: nat) {
    && (forall i | 0 <= i < |es| :: es[i].sequence <= bound)
    && forall i, j | 0 <= i < j < |es| :: es[i].sequence < es[j].sequence
  }

  lemma {:induction false} ForTenantIncreasing(es: seq<Envelope>, tenant: string)
    requires forall i | 0 <= i < |es| :: es[i].sequence == i + 1
    ensures Increasing(ForTenant(es, tenant), |es|)
  {
    if es != [] {
      ForTenantIncreasing(es[..|es| - 1], tenant);
    }
  }

  /** The reader's list holds the tenant's events and no others. */
  lemma {:induction false} ForTenantMembers(es: seq<Envelope>, tenant: string, e: Envelope)
    ensures e in ForTenant(es, tenant) <==> e in es && e.tenant == tenant
  {
    if es != [] {
      var n := |es| - 1;
      ForTenantMembers(es[..n], tenant, e);
      assert es == es[..n] + [es[n]];
    }
  }

  /** What one step commits for a tenant: the whole staging list of one of its transactions, or nothing. */
  ghost function TenantBatch(s: System, op: Op, tenant: string): seq<Envelope> {
    if op.Commit? && op.id in s.txs && s.txs[op.id].tenant == tenant then CommittedBatch(s, op) else []
  }

  ghost function CommittedFor(s: System, ops: seq<Op>, tenant: string): seq<Envelope>
    decreases |ops|
  {
    if ops == [] then [] else TenantBatch(s, ops[0], tenant) + CommittedFor(Step(s, ops[0]), ops[1..], tenant)
  }

  /** Events apart from the numbers that commits give them. */
  ghost function Unnumbered(es: seq<Envelope>): (r: seq<Envelope>)
    ensures |r| == |es| && forall i | 0 <= i < |es| :: r[i] == es[i].(sequence := 0)
  {
    seq(|es|, i requires 0 <= i < |es| => es[i].(sequence := 0))
  }

  lemma {:induction false} ForTenantConcat(a: seq<Envelope>, b: seq<Envelope>, tenant: string)
    ensures ForTenant(a + b, tenant) == ForTenant(a, tenant) + ForTenant(b, tenant)
    decreases |b|
  {
    if b == [] {
      assert a + b == a;
    } else {
      var n := |b| - 1;
      ForTenantConcat(a, b[..n], tenant);
      assert (a + b)[..|a| + n] == a + b[..n] && (a + b)[|a| + n] == b[n];
      ConcatAssociative(ForTenant(a, tenant), ForTenant(b[..n], tenant), if b[n].tenant == tenant then [b[n]] else []);
    }
  }

  lemma {:induction false} ForTenantAll(es: seq<Envelope>, owner: string, tenant: string)
    requires OneTenant(es, owner)
    ensures ForTenant(es, tenant) == if owner == tenant then es else []
  {
    if es != [] {
      var n := |es| - 1;
      ForTenantAll(es[..n], owner, tenant);
      assert es == es[..n] + [es[n]];
    }
  }

  lemma UnnumberedConcat(a: seq<Envelope>, b: seq<Envelope>)
    ensures Unnumbered(a + b) == Unnumbered(a) + Unnumbered(b)
  {}

  lemma BatchForTenant(batch: seq<Envelope>, last: nat, owner: string, tenant: string)
    requires OneTenant(batch, owner)
    ensures Unnumbered(ForTenant(Numbered(batch, last), tenant)) == Unnumbered(if owner == tenant then batch else [])
  {
    ForTenantAll(Numbered(batch, last), owner, tenant);
  }

  lemma StepForTenant(s: System, op: Op, tenant: string)
    requires Valid(s)
    ensures Unnumbered(ForTenant(Step(s, op).box.committed, tenant))
      == Unnumbered(ForTenant(s.box.committed, tenant)) + Unnumbered(TenantBatch(s, op, tenant))
  {
    var batch, mine := CommittedBatch(s, op), TenantBatch(s, op, tenant);
    var owner := if op.Commit? && op.id in s.txs then s.txs[op.id].tenant else tenant;
    assert OneTenant(batch, owner);
    StepLog(s, op);
    BatchForTenant(batch, s.box.counter, owner, tenant);
    ForTenantConcat(s.box.committed, Numbered(batch, s.box.counter), tenant);
    UnnumberedConcat(ForTenant(s.box.committed, tenant), ForTenant(Numbered(batch, s.box.counter), tenant));
  }

  /** Over every run a tenant reads exactly what its own successful commits staged, in the order of the commits. */
  lemma {:induction false} TenantReadsItsCommits(s: System, ops: seq<Op>, tenant: string)
    requires Valid(s)
    ensures Unnumbered(ForTenant(Run(s, ops).box.committed, tenant))
      == Unnumbered(ForTenant(s.box.committed, tenant)) + Unnumbered(CommittedFor(s, ops, tenant))
    decreases |ops|
  {
    if ops != [] {
      var u := Step(s, ops[0]);
      var a, b := TenantBatch(s, ops[0], tenant), CommittedFor(u, ops[1..], tenant);
      StepValid(s, ops[0]);
      StepForTenant(s, ops[0], tenant);
      TenantReadsItsCommits(u, ops[1..], tenant);
      UnnumberedConcat(a, b);
      ConcatAssociative(Unnumbered(ForTenant(s.box.committed, tenant)), Unnumbered(a), Unnumbered(b));
    }
  }

  /** Sorting a list that is increasing by sequence number changes nothing. */
  lemma SortChangesNothing(es: seq<Envelope>, bound: nat, sorted: seq<Envelope>)
    requires Increasing(es, bound) && Sorted(BySequence, sorted) && multiset(sorted) == multiset(es)
    ensures sorted == es
  {
    forall i, j | 0 <= i < j < |es| ensures InOrder(BySequence, es, i, j) {}
    forall x, y | x in es && y in es ensures x == y || BySequence(x, y) || BySequence(y, x) {
      var i :| 0 <= i < |es| && es[i] == x;
      var j :| 0 <= j < |es| && es[j] == y;
      assert i < j || j < i || i == j;
    }
    SortedUnique(BySequence, es, sorted);
  }

  lemma BySequenceWeakOrder()
    ensures WeakOrder(BySequence)
  {
    forall x, y, z ensures WeakOrderAt(BySequence, x, y, z) {}
  }

  class Outbox {
    var committed: seq<Envelope>
    var eventIds: set<string>
    var counter: nat

    ghost function Model(): Box
      reads this
    {
      Box(committed, eventIds, counter)
    }

    constructor ()
      ensures Model() == EMPTY_BOX
    {
      committed, eventIds, counter := [], {}, 0;
    }

    method BeginTx(tenant: string) returns (r: Result<OutboxTx, OutboxError>)
      ensures r.Err? <==> IdFault(tenant, "ten").Some?
      ensures r.Err? ==> Some(r.error) == IdFault(tenant, "ten")
      ensures r.Ok? ==> fresh(r.value) && r.value.outbox == this && r.value.Model() == Begun(tenant)
    {
      var fault := IdFault(tenant, "ten");
      if fault.Some? {
        return Err(fault.value);
      }
      var tx := new OutboxTx(this, Trim(tenant));
      return Ok(tx);
    }

    /** Appends the staged events with the next sequence numbers. */
    method Publish(staged: seq<Envelope>)
      modifies this
      ensures Model() == Published(old(Model()), staged)
    {
      ghost var box := Model();
      PublishedNothing(box);
      for n := 0 to |staged|
        invariant Model() == Published(box, staged[..n])
      {
        assert staged[..n + 1] == staged[..n] + [staged[n]];
        PublishedTwice(box, staged[..n], [staged[n]]);
        PublishedOne(Model(), staged[n]);
        counter := counter + 1;
        committed := committed + [staged[n].(sequence := counter)];
        eventIds := eventIds + {staged[n].eventId};
      }
      assert staged[..|staged|] == staged;
    }

    /** The whole log; sorting it by sequence number changes nothing. */
    method CommittedEvents() returns (r: seq<Envelope>)
      requires BoxValid(Model())
      ensures r == committed
    {
      BySequenceWeakOrder();
      r := Sort(BySequence, committed);
      SortChangesNothing(committed, |committed|, r);
    }

    method CommittedEventsForTenant(tenant: string) returns (r: Result<seq<Envelope>, OutboxError>)
      requires BoxValid(Model())
      ensures r.Err? ==> Some(r.error) == IdFault(tenant, "ten")
      ensures r.Ok? ==> IdFault(tenant, "ten") == None && r.value == ForTenant(committed, tenant)
      ensures r.Ok? ==> forall e :: e in r.value <==> e in committed && e.tenant == tenant
      ensures r.Ok? ==> Increasing(r.value, |committed|)
    {
      var fault := IdFault(tenant, "ten");
      if fault.Some? {
        return Err(fault.value);
      }
      var found := [];
      for n := 0 to |committed|
        invariant found == ForTenant(committed[..n], tenant)
      {
        assert committed[..n + 1][..n] == committed[..n];
        if committed[n].tenant == tenant {
          found := found + [committed[n]];
        }
      }
      assert committed[..|committed|] == committed;
      BySequenceWeakOrder();
      var sorted := Sort(BySequence, found);
      ForTenantIncreasing(committed, tenant);
      SortChangesNothing(found, |committed|, sorted);
      forall e ensures e in sorted <==> e in committed && e.tenant == tenant {
        ForTenantMembers(committed, tenant, e);
      }
      return Ok(sorted);
    }
  }

  /** The checks on the remaining fields, in order, and the envelope they lead to. */
  method Envelop(input: Input, eventId: string, tenant: string, now: Time)
    returns (fault: Option<OutboxError>, e: Envelope)
    requires eventId == Trim(input.eventId)
    ensures fault == FieldFault(input)
    ensures fault.None? ==> forall staged, ids, closed :: e == Sealed(Tx(tenant, staged, ids, closed), input, now)
  {
    e := Envelope("", "", "", "", "", "", "", "", "", 0, 0);
    var producer, eventType, version := Trim(input.producer), Trim(input.eventType), Trim(input.envelopeVersion);
    if producer == "" || eventType == "" {
      return Some(BlankField), e;
    }
    if version == "" {
      version := CURRENT_VERSION;
    }
    if version != CURRENT_VERSION {
      return Some(UnsupportedEnvelopeVersion), e;
    }
    if Trim(input.schemaVersion) != CURRENT_VERSION {
      return Some(IncompatibleSchemaVersion), e;
    }
    fault := IdFault(input.correlationId, "corr");
    if fault.Some? {
      return;
    }
    fault := IdFault(input.causationId, "caus");
    if fault.Some? {
      return;
    }
    if !HexDigest(Trim(input.payloadDigest)) {
      return Some(InvalidDigest), e;
    }
    var timestamp := input.timestamp;
    if timestamp == 0 {
      timestamp := now;
    }
    e := Envelope(eventId, tenant, producer, eventType, version, Trim(input.schemaVersion), Trim(input.correlationId),
                  Trim(input.causationId), Trim(input.payloadDigest), 0, timestamp);
  }

  class OutboxTx {
    const outbox: Outbox
    const tenant: string
    var staged: seq<Envelope>
    var stagedIds: set<string>
    var closed: bool

    ghost function Model(): Tx
      reads this
    {
      Tx(tenant, staged, stagedIds, closed)
    }

    constructor (outbox: Outbox, tenant: string)
      ensures this.outbox == outbox && Model() == Tx(tenant, [], {}, false)
    {
      this.outbox, this.tenant := outbox, tenant;
      staged, stagedIds, closed := [], {}, false;
    }

    method StageEvent(input: Input, now: Time) returns (fault: Option<OutboxError>)
      modifies this
      ensures fault == StageFault(outbox.Model(), old(Model()), input)
      ensures Model() == if fault.Some? then old(Model()) else Staged(old(Model()), input, now)
    {
      if closed {
        return Some(TxClosed);
      }
      if input.tenant != "" && Trim(input.tenant) != tenant {
        return Some(CrossTenantAssociation);
      }
      fault := IdFault(input.eventId, "evt");
      if fault.Some? {
        return;
      }
      var eventId := Trim(input.eventId);
      if eventId in stagedIds || eventId in outbox.eventIds {
        return Some(DuplicateEventId);
      }
      var bad, envelope := Envelop(input, eventId, tenant, now);
      if bad.Some? {
        return bad;
      }
      staged := staged + [envelope];
      stagedIds := stagedIds + {eventId};
      return None;
    }

    method CommitAll() returns (fault: Option<OutboxError>)
      modifies this, outbox
      ensures fault == CommitFault(old(outbox.Model()), old(Model()))
      ensures fault.Some? ==> Model() == old(Model()) && outbox.Model() == old(outbox.Model())
      ensures fault.None? ==>
        Model() == Closed(old(Model())) && outbox.Model() == Published(old(outbox.Model()), old(staged))
    {
      if closed {
        return Some(TxClosed);
      }
      for n := 0 to |staged|
        invariant forall i | 0 <= i < n :: staged[i].eventId !in outbox.eventIds
        invariant Model() == old(Model()) && outbox.Model() == old(outbox.Model())
      {
        if staged[n].eventId in outbox.eventIds {
          return Some(DuplicateEventId);
        }
      }
      outbox.Publish(staged);
      closed, staged, stagedIds := true, [], {};
      return None;
    }

    method RollbackAll() returns (fault: Option<OutboxError>)
      modifies this
      ensures fault == if old(closed) then Some(TxClosed) else None
      ensures Model() == if old(closed) then old(Model()) else Closed(old(Model()))
    {
      if closed {
        return Some(TxClosed);
      }
      closed, staged, stagedIds := true, [], {};
      return None;
    }
  }
}
