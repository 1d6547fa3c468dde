/**
 Publication snapshots: redaction of raw payloads and the registry of snapshot versions.  Snapshots
 are keyed by base key and version number, and an allowlist's sorted key list is kept as a set.
 */
module SnapshotRegistry {
  import opened Results
  import opened Text
  import opened Clock
  import opened Publication

  // ---- redaction ----

  /** Tells whether a field is sensitive, by its name or by its value. */
  type Test = (string, Value) -> bool

  datatype Allowlist = Allowlist(fields: map<string, bool>, strict: bool)

  const KEYWORDS: seq<string> := [
    "password", "secret", "bearer", "token", "private_key", "national_id", "citizen_id", "ssn", "phone_number",
    "auth_header", "credit_card"]

  predicate Prohibited(lower: string -> string, field: string) {
    exists i | 0 <= i < |KEYWORDS| :: Contains(lower(field), KEYWORDS[i])
  }

  predicate Credential(lower: string -> string, v: Value) {
    v.Words? && ("bearer " <= lower(v.text) || "oshe_tok_" <= lower(v.text))
  }

  /** The platform's test; `lower` stands for `strings.ToLower`. */
  function Sensitive(lower: string -> string): Test {
    (field: string, v: Value) => Prohibited(lower, field) || Credential(lower, v)
  }

  /** What counts as sensitive: a field whose name contains one of these words, or a text that starts like a token. */
  lemma SensitiveExactly(lower: string -> string, field: string, v: Value)
    ensures Sensitive(lower)(field, v) <==>
      || (exists w, x, y | w in KEYWORDS :: lower(field) == x + w + y)
      || (v.Words? && exists x :: lower(v.text) == "bearer " + x || lower(v.text) == "oshe_tok_" + x)
  {
    ProhibitedExactly(lower, field);
    if v.Words? {
      StartsWith(lower(v.text), "bearer ");
      StartsWith(lower(v.text), "oshe_tok_");
    }
  }

  lemma ProhibitedExactly(lower: string -> string, field: string)
    ensures Prohibited(lower, field) <==> exists w, x, y | w in KEYWORDS :: lower(field) == x + w + y
  {
    if Prohibited(lower, field) {
      var i :| 0 <= i < |KEYWORDS| && Contains(lower(field), KEYWORDS[i]);
      ContainsExactly(lower(field), KEYWORDS[i]);
    }
    if w, x, y :| w in KEYWORDS && lower(field) == x + w + y {
      var i :| 0 <= i < |KEYWORDS| && KEYWORDS[i] == w;
      ContainsExactly(lower(field), w);
    }
  }

  predicate Allows(a: Allowlist, field: string) { field in a.fields && a.fields[field] }

  ghost predicate Clean(sensitive: Test, raw: Payload) { forall k | k in raw :: !sensitive(k, raw[k]) }

  /** What a payload must satisfy to be published under the allowlist. */
  ghost predicate Redactable(sensitive: Test, raw: Payload, a: Allowlist) {
    forall k | k in raw :: FieldFault(sensitive, raw, a, k).None?
  }

  function FieldFault(sensitive: Test, raw: Payload, a: Allowlist, k: string): Option<PublicationError>
    requires k in raw
  {
    if sensitive(k, raw[k]) then Some(ProhibitedField) else if a.strict && !Allows(a, k) then Some(UnapprovedField)
      else None
  }

  function Redacted(raw: Payload, a: Allowlist): Payload { map k | k in raw && Allows(a, k) :: raw[k] }

  /** Redaction keeps exactly the allowed fields, with their values. */
  lemma RedactedExactly(raw: Payload, a: Allowlist, k: string)
    ensures k in Redacted(raw, a) <==> k in raw && k in a.fields && a.fields[k]
    ensures k in Redacted(raw, a) ==> Redacted(raw, a)[k] == raw[k]
  {}

  /** The allowed fields apart from those still to be looked at. */
  ghost function Kept(raw: Payload, a: Allowlist, todo: set<string>): Payload {
    map k | k in raw && k !in todo && Allows(a, k) :: raw[k]
  }

  lemma KeptNext(raw: Payload, a: Allowlist, todo: set<string>, k: string)
    requires k in todo && k in raw
    ensures k !in Kept(raw, a, todo)
    ensures Kept(raw, a, todo - {k}) == if Allows(a, k) then Kept(raw, a, todo)[k := raw[k]] else Kept(raw, a, todo)
  {}

  /** Fails on a sensitive field anywhere in the payload, even one that would be dropped. */
  method RedactPayload(sensitive: Test, raw: Payload, a: Allowlist)
    returns (r: Result<Payload, PublicationError>, redacted: nat)
    ensures r.Ok? <==> Redactable(sensitive, raw, a)
    ensures r.Ok? ==> r.value == Redacted(raw, a) && redacted + |r.value| == |raw|
    ensures r.Err? ==> exists k :: k in raw && Some(r.error) == FieldFault(sensitive, raw, a, k)
  {
    var sanitized: Payload := map[];
    var keys := raw.Keys;
    redacted := 0;
    while keys != {}
      invariant keys <= raw.Keys
      invariant forall k | k in raw && k !in keys :: FieldFault(sensitive, raw, a, k).None?
      invariant sanitized == Kept(raw, a, keys)
      invariant redacted + |sanitized| + |keys| == |raw|
    {
      var k :| k in keys;
      KeptNext(raw, a, keys, k);
      if sensitive(k, raw[k]) {
        return Err(ProhibitedField), 0;
      }
      if Allows(a, k) {
        sanitized := sanitized[k := raw[k]];
      } else {
        if a.strict {
          return Err(UnapprovedField), 0;
        }
        redacted := redacted + 1;
      }
      keys := keys - {k};
    }
    return Ok(sanitized), redacted;
  }

  // ---- snapshots ----

  datatype Status = Draft | Published | Superseded | Withdrawn

  datatype ReviewStatus = PendingReview | ApprovedForPublication | RejectedReview | WithdrawnReview

  datatype Reviewer = Reviewer(
    subject: string, role: string, reviewedAt: Time, approval: ReviewStatus, decisionHash: string, notes: string)

  const NO_REVIEWER: Reviewer := Reviewer("", "", 0, PendingReview, "", "")

  datatype Snapshot = Snapshot(
    id: string, tenant: string, version: nat, status: Status, source: SourceRef, allowlist: set<string>,
      payload: Payload,
    reviewer: Reviewer, payloadDigest: string, signature: string)

  /** The digests recomputed from the contents are the stored ones. */
  predicate VerifyIntegrity(c: Crypto, x: Snapshot) {
    && PayloadDigest(c, x.payload) == Some(x.payloadDigest)
    && x.signature == Signature(c, x.tenant, x.id, x.version, x.source, x.payloadDigest, x.reviewer.decisionHash)
  }

  /** Only allowlisted fields, none of them prohibited, no credential among the values. */
  ghost predicate Sanitized(sensitive: Test, x: Snapshot) {
    Clean(sensitive, x.payload) && x.payload.Keys <= x.allowlist
  }

  ghost predicate FreshDraft(c: Crypto, sensitive: Test, x: Snapshot) {
    x.version == 1 && x.status == Draft && VerifyIntegrity(c, x) && Sanitized(sensitive, x)
  }

  lemma RedactedSanitized(sensitive: Test, raw: Payload, a: Allowlist)
    requires Redactable(sensitive, raw, a)
    ensures Clean(sensitive, Redacted(raw, a)) && Redacted(raw, a).Keys <= a.fields.Keys
  {}

  method NewDraftSnapshot(c: Crypto, sensitive: Test, id: string, tenant: string, source: SourceRef, raw: Payload,
      a: Allowlist)
    returns (r: Result<Snapshot, PublicationError>)
    ensures r.Ok? <==>
      && Trim(id) != "" && Trim(tenant) != "" && SourceFault(source).None? && source.tenant == Trim(tenant)
      && Redactable(sensitive, raw, a) && PayloadDigest(c, Redacted(raw, a)).Some?
    ensures r.Ok? ==>
      && FreshDraft(c, sensitive, r.value) && r.value.payload == Redacted(raw, a) && r.value.source == source
      && r.value.id == Trim(id) && r.value.tenant == Trim(tenant) && r.value.allowlist == a.fields.Keys
      && r.value.reviewer == NO_REVIEWER
  {
    if Trim(id) == "" {
      return Err(BlankSnapshotId);
    }
    if Trim(tenant) == "" {
      return Err(BlankTenantId);
    }
    if SourceFault(source).Some? {
      return Err(SourceFault(source).value);
    }
    if source.tenant != Trim(tenant) {
      return Err(SourceMismatch);
    }
    var sanitized, _ := RedactPayload(sensitive, raw, a);
    if sanitized.Err? {
      return Err(sanitized.error);
    }
    var digest := PayloadDigest(c, sanitized.value);
    if digest.None? {
      return Err(PayloadNotCanonical);
    }
    RedactedSanitized(sensitive, raw, a);
    var signature := Signature(c, Trim(tenant), Trim(id), 1, source, digest.value, "");
    return Ok(Snapshot(Trim(id), Trim(tenant), 1, Draft, source, a.fields.Keys, sanitized.value, NO_REVIEWER,
      digest.value, signature));
  }

  // ---- the registry ----

  type Key = (string, nat)

  datatype State = State(snapshots: map<Key, Snapshot>, latest: map<string, nat>, active: map<string, Key>)

  const Empty: State := State(map[], map[], map[])

  datatype Op =
    | Register(x: Snapshot)
    | Publish(tenant: string, id: string, reviewer: Reviewer)
    | NewVersion(tenant: string, id: string, raw: Payload, allow: Allowlist, reviewer: Reviewer)
    | Withdraw(tenant: string, id: string, reason: string, reviewer: Reviewer)

  function Base(op: Op): string {
    if op.Register? then PairKey(op.x.tenant, op.x.id) else PairKey(op.tenant, op.id)
  }

  function LatestKey(s: State, b: string): Key { (b, if b in s.latest then s.latest[b] else 0) }

  /** The version an operation works on. */
  function Current(s: State, b: string): Option<Snapshot> {
    if LatestKey(s, b) in s.snapshots then Some(s.snapshots[LatestKey(s, b)]) else None
  }

  function PublishFault(cur: Option<Snapshot>, reviewer: Reviewer): Option<PublicationError> {
    if cur.None? then Some(SnapshotNotFound)
    else if cur.value.status == Published then Some(AlreadyPublished)
    else if cur.value.status == Withdrawn then Some(SnapshotWithdrawn)
    else if reviewer.approval != ApprovedForPublication then Some(NotApproved)
    else if Trim(reviewer.subject) == "" then Some(InvalidReviewer)
    else None
  }

  ghost predicate Accepts(c: Crypto, sensitive: Test, s: State, op: Op) {
    var cur := Current(s, Base(op));
    match op
    case Register(x) => Base(op) !in s.latest
    case Publish(_, _, reviewer) => PublishFault(cur, reviewer).None?
    case NewVersion(_, _, raw, allow, reviewer) =>
      cur.Some? && cur.value.status == Published && reviewer.approval == ApprovedForPublication
      && Redactable(sensitive, raw, allow) && PayloadDigest(c, Redacted(raw, allow)).Some?
    case Withdraw(_, _, _, _) => cur.Some?
  }

  function PublishedCopy(c: Crypto, x: Snapshot, reviewer: Reviewer): Snapshot {
    x.(status := Published, reviewer := reviewer,
       signature := Signature(c, x.tenant, x.id, x.version, x.source, x.payloadDigest, reviewer.decisionHash))
  }

  function WithdrawnCopy(x: Snapshot, reason: string, reviewer: Reviewer): Snapshot {
    x.(status := Withdrawn, reviewer := reviewer.(approval := WithdrawnReview, notes := reason))
  }

  function Successor(c: Crypto, x: Snapshot, op: Op, v: nat, digest: string): Snapshot
    requires op.NewVersion?
  {
    Snapshot(op.id, op.tenant, v, Published, x.source, op.allow.fields.Keys, Redacted(op.raw, op.allow), op.reviewer,
      digest,
             Signature(c, op.tenant, op.id, v, x.source, digest, op.reviewer.decisionHash))
  }

  ghost function Applied(c: Crypto, sensitive: Test, s: State, op: Op): State
    requires Accepts(c, sensitive, s, op)
  {
    var b := Base(op);
    var key := LatestKey(s, b);
    match op
    case Register(x) => s.(snapshots := s.snapshots[(b, x.version) := x], latest := s.latest[b := x.version])
    case Publish(_, _, reviewer) =>
      s.(snapshots := s.snapshots[key := PublishedCopy(c, s.snapshots[key], reviewer)], active := s.active[b := key])
    case NewVersion(_, _, raw, allow, reviewer) =>
      var next := (b, key.1 + 1);
      var x := Successor(c, s.snapshots[key], op, next.1, PayloadDigest(c, Redacted(raw, allow)).value);
      State(s.snapshots[key := s.snapshots[key].(status := Superseded)][next := x], s.latest[b := next.1],
        s.active[b := next])
    case Withdraw(_, _, reason, reviewer) =>
      s.(snapshots := s.snapshots[key := WithdrawnCopy(s.snapshots[key], reason, reviewer)], active := s.active - {b})
  }

  ghost function Step(c: Crypto, sensitive: Test, s: State, op: Op): State {
    if Accepts(c, sensitive, s, op) then Applied(c, sensitive, s, op) else s
  }

  ghost function Run(c: Crypto, sensitive: Test, s: State, ops: seq<Op>): State
    decreases |ops|
  {
    if ops == [] then s else Run(c, sensitive, Step(c, sensitive, s, ops[0]), ops[1..])
  }

  /** Only fresh drafts are registered. */
  ghost predicate Feeds(c: Crypto, sensitive: Test, ops: seq<Op>) {
    forall i | 0 <= i < |ops| && ops[i].Register? :: FreshDraft(c, sensitive, ops[i].x)
  }

  // ---- what every registry keeps ----

  /** What a version itself must satisfy. */
  ghost predicate VersionValid(c: Crypto, sensitive: Test, b: string, v: nat, x: Snapshot) {
    && PairKey(x.tenant, x.id) == b && x.version == v && Sanitized(sensitive, x)
    && (x.status != Withdrawn ==> VerifyIntegrity(c, x))
  }

  ghost function Rules(c: Crypto, sensitive: Test): (string, nat, Snapshot) -> bool {
    (b: string, v: nat, x: Snapshot) => VersionValid(c, sensitive, b, v, x)
  }

  ghost predicate KeyValid(s: State, ok: (string, nat, Snapshot) -> bool, k: Key) {
    k in s.snapshots ==>
      && k.0 in s.latest && 1 <= k.1 <= s.latest[k.0]
      && (k.1 < s.latest[k.0] <==> s.snapshots[k].status == Superseded)
      && ok(k.0, k.1, s.snapshots[k])
  }

  ghost predicate Filled(s: State, b: string, v: nat) {
    b in s.latest && 1 <= v <= s.latest[b] ==> (b, v) in s.snapshots
  }

  ghost predicate ActiveValid(s: State, b: string) {
    && (b in s.latest ==>
         && s.latest[b] >= 1 && LatestKey(s, b) in s.snapshots
         && (b in s.active <==> s.snapshots[LatestKey(s, b)].status == Published))
    && (b in s.active ==> b in s.latest && s.active[b] == LatestKey(s, b))
  }

  /** Versions 1..n, all below the latest superseded, the published one active. */
  ghost predicate Shape(s: State, ok: (string, nat, Snapshot) -> bool) {
    && (forall k :: KeyValid(s, ok, k))
    && (forall b, v :: Filled(s, b, v))
    && (forall b :: ActiveValid(s, b))
  }

  ghost predicate Valid(c: Crypto, sensitive: Test, s: State) { Shape(s, Rules(c, sensitive)) }

  /** Rewriting the latest version of one snapshot. */
  lemma RewriteShape(s: State, t: State, ok: (string, nat, Snapshot) -> bool, b: string, x: Snapshot)
    requires Shape(s, ok) && b in s.latest && ok(b, s.latest[b], x) && x.status != Superseded
    requires t.snapshots == s.snapshots[LatestKey(s, b) := x] && t.latest == s.latest
    requires t.active == if x.status == Published then s.active[b := LatestKey(s, b)] else s.active - {b}
    ensures Shape(t, ok)
  {
    assert ActiveValid(s, b);
    forall k ensures KeyValid(t, ok, k) {
      assert KeyValid(s, ok, k);
    }
    forall d, v ensures Filled(t, d, v) {
      assert Filled(s, d, v);
    }
    forall d ensures ActiveValid(t, d) {
      assert ActiveValid(s, d);
    }
  }

  lemma RegisterShape(s: State, t: State, ok: (string, nat, Snapshot) -> bool, b: string, x: Snapshot)
    requires Shape(s, ok) && b !in s.latest && ok(b, 1, x) && x.status == Draft
    requires t == s.(snapshots := s.snapshots[(b, 1) := x], latest := s.latest[b := 1])
    ensures Shape(t, ok)
  {
    forall k ensures KeyValid(t, ok, k) {
      assert KeyValid(s, ok, k);
    }
    forall d, v ensures Filled(t, d, v) {
      assert Filled(s, d, v);
    }
    forall d ensures ActiveValid(t, d) {
      assert ActiveValid(s, d);
    }
  }

  /** Superseding the latest version by a published next one. */
  lemma SupersedeShape(s: State, t: State, ok: (string, nat, Snapshot) -> bool, b: string, was: Snapshot, x: Snapshot)
    requires Shape(s, ok) && b in s.latest && ok(b, s.latest[b], was) && ok(b, s.latest[b] + 1, x)
    requires was.status == Superseded && x.status == Published
    requires t.snapshots == s.snapshots[LatestKey(s, b) := was][(b, s.latest[b] + 1) := x]
    requires t.latest == s.latest[b := s.latest[b] + 1] && t.active == s.active[b := (b, s.latest[b] + 1)]
    ensures Shape(t, ok)
  {
    assert ActiveValid(s, b);
    forall k ensures KeyValid(t, ok, k) {
      assert KeyValid(s, ok, k);
    }
    forall d, v ensures Filled(t, d, v) {
      assert Filled(s, d, v);
    }
    forall d ensures ActiveValid(t, d) {
      assert ActiveValid(s, d);
    }
  }

  lemma CurrentIsLatest(s: State, ok: (string, nat, Snapshot) -> bool, b: string)
    requires Shape(s, ok)
    ensures b in s.latest <==> Current(s, b).Some?
    ensures b in s.latest ==> ok(b, s.latest[b], Current(s, b).value) && Current(s, b).value.status != Superseded
  {
    assert ActiveValid(s, b) && KeyValid(s, ok, LatestKey(s, b));
  }

  lemma PublishedCopyValid(c: Crypto, sensitive: Test, b: string, v: nat, x: Snapshot, reviewer: Reviewer)
    requires VersionValid(c, sensitive, b, v, x) && x.status != Withdrawn
    ensures VersionValid(c, sensitive, b, v, PublishedCopy(c, x, reviewer))
  {}

  lemma WithdrawnCopyValid(c: Crypto, sensitive: Test, b: string, v: nat, x: Snapshot, reason: string,
      reviewer: Reviewer)
    requires VersionValid(c, sensitive, b, v, x)
    ensures VersionValid(c, sensitive, b, v, WithdrawnCopy(x, reason, reviewer))
  {}

  lemma SuccessorValid(c: Crypto, sensitive: Test, x: Snapshot, op: Op, v: nat, digest: string)
    requires op.NewVersion? && Redactable(sensitive, op.raw, op.allow)
      && PayloadDigest(c, Redacted(op.raw, op.allow)) == Some(digest)
    ensures VersionValid(c, sensitive, Base(op), v, Successor(c, x, op, v, digest))
  {
    RedactedSanitized(sensitive, op.raw, op.allow);
  }

  lemma SupersededValid(c: Crypto, sensitive: Test, b: string, v: nat, x: Snapshot)
    requires VersionValid(c, sensitive, b, v, x) && x.status == Published
    ensures VersionValid(c, sensitive, b, v, x.(status := Superseded))
  {}

  lemma NewVersionValid(c: Crypto, sensitive: Test, s: State, op: Op)
    requires Valid(c, sensitive, s) && op.NewVersion? && Accepts(c, sensitive, s, op)
    ensures Valid(c, sensitive, Applied(c, sensitive, s, op))
  {
    var b, ok := Base(op), Rules(c, sensitive);
    CurrentIsLatest(s, ok, b);
    var cur, v, digest := Current(s, b).value, s.latest[b], PayloadDigest(c, Redacted(op.raw, op.allow)).value;
    SuccessorValid(c, sensitive, cur, op, v + 1, digest);
    SupersededValid(c, sensitive, b, v, cur);
    SupersedeShape(s, Applied(c, sensitive, s, op), ok, b, cur.(status := Superseded),
      Successor(c, cur, op, v + 1, digest));
  }

  lemma StepValid(c: Crypto, sensitive: Test, s: State, op: Op)
    requires Valid(c, sensitive, s) && (op.Register? ==> FreshDraft(c, sensitive, op.x))
    ensures Valid(c, sensitive, Step(c, sensitive, s, op))
  {
    var b, t, ok := Base(op), Step(c, sensitive, s, op), Rules(c, sensitive);
    CurrentIsLatest(s, ok, b);
    if Accepts(c, sensitive, s, op) {
      match op {
        case Register(x) => RegisterShape(s, t, ok, b, x);
        case Publish(_, _, reviewer) =>
          var cur := Current(s, b).value;
          PublishedCopyValid(c, sensitive, b, s.latest[b], cur, reviewer);
          RewriteShape(s, t, ok, b, PublishedCopy(c, cur, reviewer));
        case NewVersion(_, _, _, _, _) => NewVersionValid(c, sensitive, s, op);
        case Withdraw(_, _, reason, reviewer) =>
          var cur := Current(s, b).value;
          WithdrawnCopyValid(c, sensitive, b, s.latest[b], cur, reason, reviewer);
          RewriteShape(s, t, ok, b, WithdrawnCopy(cur, reason, reviewer));
      }
    }
  }

  /** What an accepted call leaves as the current version. */
  lemma AcceptedOutcome(c: Crypto, sensitive: Test, s: State, op: Op)
    requires Valid(c, sensitive, s) && !op.Register? && Accepts(c, sensitive, s, op)
    ensures
      var was, now := Current(s, Base(op)).value, Current(Step(c, sensitive, s, op), Base(op));
      && now.Some?
      && (op.Publish? ==>
         now.value.status == Published && now.value.reviewer == op.reviewer && now.value.version == was.version)
      && (op.NewVersion? ==>
            && now.value.status == Published && now.value.reviewer == op.reviewer
               && now.value.version == was.version + 1
            && now.value.source == was.source && now.value.payload == Redacted(op.raw, op.allow)
            && now.value.allowlist == op.allow.fields.Keys)
      && (op.Withdraw? ==>
            && now.value.status == Withdrawn && now.value.reviewer.notes == op.reason
            && now.value.reviewer.approval == WithdrawnReview && now.value.reviewer.subject == op.reviewer.subject)
  {
    CurrentIsLatest(s, Rules(c, sensitive), Base(op));
  }

  /** A publication is accepted exactly for a draft that a named reviewer approved. */
  lemma PublishedExactly(c: Crypto, sensitive: Test, s: State, op: Op)
    requires Valid(c, sensitive, s) && op.Publish?
    ensures Accepts(c, sensitive, s, op) <==>
      && Base(op) in s.latest && Current(s, Base(op)).Some? && Current(s, Base(op)).value.status == Draft
      && op.reviewer.approval == ApprovedForPublication && Trim(op.reviewer.subject) != ""
  {
    CurrentIsLatest(s, Rules(c, sensitive), Base(op));
  }

  /** A new version is accepted exactly on an approved review of a published one, and of a payload that is clean. */
  lemma VersionedExactly(c: Crypto, sensitive: Test, s: State, op: Op)
    requires op.NewVersion?
    ensures Accepts(c, sensitive, s, op) <==>
      && Current(s, Base(op)).Some? && Current(s, Base(op)).value.status == Published
      && op.reviewer.approval == ApprovedForPublication
      && (forall k | k in op.raw ::
            !sensitive(k, op.raw[k]) && (op.allow.strict ==> k in op.allow.fields && op.allow.fields[k]))
      && c.canonical(Redacted(op.raw, op.allow)).Some?
  {
    assert (forall k | k in op.raw :: FieldFault(sensitive, op.raw, op.allow, k).None?) <==>
      forall k | k in op.raw ::
        !sensitive(k, op.raw[k]) && (op.allow.strict ==> k in op.allow.fields && op.allow.fields[k]);
  }

  lemma {:induction false} RunValid(c: Crypto, sensitive: Test, s: State, ops: seq<Op>)
    requires Valid(c, sensitive, s) && Feeds(c, sensitive, ops)
    ensures Valid(c, sensitive, Run(c, sensitive, s, ops))
    decreases |ops|
  {
    if ops != [] {
      StepValid(c, sensitive, s, ops[0]);
      RunValid(c, sensitive, Step(c, sensitive, s, ops[0]), ops[1..]);
    }
  }

  /** Every registry that only ever took in fresh drafts is well shaped. */
  lemma EveryRunValid(c: Crypto, sensitive: Test, ops: seq<Op>)
    requires Feeds(c, sensitive, ops)
    ensures Valid(c, sensitive, Run(c, sensitive, Empty, ops))
  {
    RunValid(c, sensitive, Empty, ops);
  }

  /** Whatever is registered, published and versioned, no stored payload has a prohibited field name or a credential. */
  lemma NothingSensitiveIsStored(c: Crypto, lower: string -> string, ops: seq<Op>, k: Key, field: string)
    requires Feeds(c, Sensitive(lower), ops)
    ensures var s := Run(c, Sensitive(lower), Empty, ops);
      k in s.snapshots && field in s.snapshots[k].payload ==>
        && !Prohibited(lower, field) && !Credential(lower, s.snapshots[k].payload[field])
        && field in s.snapshots[k].allowlist
  {
    EveryRunValid(c, Sensitive(lower), ops);
    assert KeyValid(Run(c, Sensitive(lower), Empty, ops), Rules(c, Sensitive(lower)), k);
  }

  /** At most one version of a snapshot is published, and then it is the latest and the active one. */
  lemma PublishedIsActive(s: State, ok: (string, nat, Snapshot) -> bool, b: string, v: nat)
    requires Shape(s, ok)
    ensures (b, v) in s.snapshots && s.snapshots[(b, v)].status == Published <==> b in s.active && s.active[b] == (b, v)
    ensures b in s.active ==> b in s.latest && s.active[b] == (b, s.latest[b])
  {
    assert ActiveValid(s, b) && KeyValid(s, ok, (b, v));
  }

  /** `y` says what `x` said; once superseded nothing changes, and once withdrawn it stays withdrawn. */
  ghost predicate SameContents(x: Snapshot, y: Snapshot) {
    && y.(status := x.status, reviewer := x.reviewer, signature := x.signature) == x
    && (x.status == Superseded ==> y == x)
    && (x.status == Withdrawn ==> y.status == Withdrawn)
  }

  lemma StepKeeps(c: Crypto, sensitive: Test, s: State, op: Op, k: Key)
    requires Valid(c, sensitive, s) && k in s.snapshots
    ensures k in Step(c, sensitive, s, op).snapshots
      && SameContents(s.snapshots[k], Step(c, sensitive, s, op).snapshots[k])
  {
    var b, ok := Base(op), Rules(c, sensitive);
    CurrentIsLatest(s, ok, b);
    assert KeyValid(s, ok, k) && KeyValid(s, ok, (b, LatestKey(s, b).1 + 1)) && KeyValid(s, ok, LatestKey(s, b));
    assert op.Register? ==> KeyValid(s, ok, (b, op.x.version));
  }

  /** A version's contents never change; a superseded one is frozen whole, a withdrawn one stays withdrawn. */
  lemma {:induction false} ContentsForever(c: Crypto, sensitive: Test, s: State, ops: seq<Op>, k: Key)
    requires Valid(c, sensitive, s) && Feeds(c, sensitive, ops) && k in s.snapshots
    ensures k in Run(c, sensitive, s, ops).snapshots
      && SameContents(s.snapshots[k], Run(c, sensitive, s, ops).snapshots[k])
    decreases |ops|
  {
    if ops != [] {
      StepKeeps(c, sensitive, s, ops[0], k);
      StepValid(c, sensitive, s, ops[0]);
      ContentsForever(c, sensitive, Step(c, sensitive, s, ops[0]), ops[1..], k);
    }
  }

  /** The first check that fails; of several offending fields any one may be reported. */
  ghost predicate NextVersionFault(
    sensitive: Test, cur: Snapshot, raw: Payload, allow: Allowlist, reviewer: Reviewer, e: PublicationError)
  {
    if cur.status != Published then e == SnapshotImmutable
    else if reviewer.approval != ApprovedForPublication then e == NotApproved
    else if !Redactable(sensitive, raw, allow) then
      exists k :: k in raw && Some(e) == FieldFault(sensitive, raw, allow, k)
    else e == PayloadNotCanonical
  }

  /** The checks and the contents of a new version. */
  method NextVersion(c: Crypto, sensitive: Test, cur: Snapshot, tenant: string, id: string, raw: Payload,
      allow: Allowlist, reviewer: Reviewer, v: nat)
    returns (r: Result<Snapshot, PublicationError>)
    ensures r.Ok? <==>
      && cur.status == Published && reviewer.approval == ApprovedForPublication
      && Redactable(sensitive, raw, allow) && PayloadDigest(c, Redacted(raw, allow)).Some?
    ensures r.Ok? ==>
      r.value == Successor(c, cur, NewVersion(tenant, id, raw, allow, reviewer), v,
        PayloadDigest(c, Redacted(raw, allow)).value)
    ensures r.Err? ==> NextVersionFault(sensitive, cur, raw, allow, reviewer, r.error)
  {
    if cur.status != Published {
      return Err(SnapshotImmutable);
    }
    if reviewer.approval != ApprovedForPublication {
      return Err(NotApproved);
    }
    var sanitized, _ := RedactPayload(sensitive, raw, allow);
    if sanitized.Err? {
      return Err(sanitized.error);
    }
    var digest := PayloadDigest(c, sanitized.value);
    if digest.None? {
      return Err(PayloadNotCanonical);
    }
    var signature := Signature(c, tenant, id, v, cur.source, digest.value, reviewer.decisionHash);
    return Ok(Snapshot(id, tenant, v, Published, cur.source, allow.fields.Keys, sanitized.value, reviewer,
      digest.value, signature));
  }

  class Registry {
    var snapshots: map<Key, Snapshot>
    var latest: map<string, nat>
    var active: map<string, Key>

    ghost function Model(): State
      reads this
    {
      State(snapshots, latest, active)
    }

    constructor ()
      ensures Model() == Empty
    {
      snapshots, latest, active := map[], map[], map[];
    }

    method RegisterDraft(c: Crypto, ghost sensitive: Test, x: Snapshot) returns (ok: bool)
      modifies this
      ensures ok <==> PairKey(x.tenant, x.id) !in old(latest)
      ensures Model() == Step(c, sensitive, old(Model()), Register(x))
      ensures Valid(c, sensitive, old(Model())) && FreshDraft(c, sensitive, x) ==> Valid(c, sensitive, Model())
    {
      if Valid(c, sensitive, Model()) && FreshDraft(c, sensitive, x) {
        StepValid(c, sensitive, Model(), Register(x));
      }
      var b := PairKey(x.tenant, x.id);
      if b in latest {
        return false;
      }
      snapshots := snapshots[(b, x.version) := x];
      latest := latest[b := x.version];
      return true;
    }

    method PublishSnapshot(c: Crypto, ghost sensitive: Test, tenant: string, id: string, reviewer: Reviewer)
      returns (r: Result<Snapshot, PublicationError>)
      requires Valid(c, sensitive, Model())
      modifies this
      ensures Model() == Step(c, sensitive, old(Model()), Publish(tenant, id, reviewer)) && Valid(c, sensitive, Model())
      ensures r == match PublishFault(Current(old(Model()), PairKey(tenant, id)), reviewer)
                   case Some(e) => Err(e)
                   case None => Ok(Current(Model(), PairKey(tenant, id)).value)
    {
      var b := PairKey(tenant, id);
      StepValid(c, sensitive, Model(), Publish(tenant, id, reviewer));
      CurrentIsLatest(Model(), Rules(c, sensitive), b);
      if b !in latest {
        return Err(SnapshotNotFound);
      }
      var key := (b, latest[b]);
      var x := snapshots[key];
      if x.status == Published {
        return Err(AlreadyPublished);
      }
      if x.status == Withdrawn {
        return Err(SnapshotWithdrawn);
      }
      if reviewer.approval != ApprovedForPublication {
        return Err(NotApproved);
      }
      if Trim(reviewer.subject) == "" {
        return Err(InvalidReviewer);
      }
      x := PublishedCopy(c, x, reviewer);
      snapshots := snapshots[key := x];
      active := active[b := key];
      return Ok(x);
    }

    method CreateNewVersion(c: Crypto, sensitive: Test, tenant: string, id: string, raw: Payload, allow: Allowlist,
        reviewer: Reviewer)
      returns (r: Result<Snapshot, PublicationError>)
      requires Valid(c, sensitive, Model())
      modifies this
      ensures Model() == Step(c, sensitive, old(Model()), NewVersion(tenant, id, raw, allow, reviewer))
        && Valid(c, sensitive, Model())
      ensures r.Ok? <==> Accepts(c, sensitive, old(Model()), NewVersion(tenant, id, raw, allow, reviewer))
      ensures r.Ok? ==>
        Current(Model(), PairKey(tenant, id)) == Some(r.value) && r.value.payload == Redacted(raw, allow)
      ensures r.Err? ==>
        var cur := Current(old(Model()), PairKey(tenant, id));
        if cur.None? then r.error == SnapshotNotFound
          else NextVersionFault(sensitive, cur.value, raw, allow, reviewer, r.error)
    {
      var b := PairKey(tenant, id);
      ghost var op := NewVersion(tenant, id, raw, allow, reviewer);
      StepValid(c, sensitive, Model(), op);
      CurrentIsLatest(Model(), Rules(c, sensitive), b);
      if b !in latest {
        return Err(SnapshotNotFound);
      }
      var key := (b, latest[b]);
      var v := latest[b] + 1;
      r := NextVersion(c, sensitive, snapshots[key], tenant, id, raw, allow, reviewer, v);
      if r.Ok? {
        Supersede(b, v, r.value);
      }
    }

    method Supersede(b: string, v: nat, x: Snapshot)
      requires b in latest && (b, latest[b]) in snapshots && v == latest[b] + 1
      modifies this
      ensures latest == old(latest)[b := v] && active == old(active)[b := (b, v)]
      ensures
        var key := (b, old(latest)[b]);
        snapshots == old(snapshots)[key := old(snapshots)[key].(status := Superseded)][(b, v) := x]
    {
      var key := (b, latest[b]);
      snapshots := snapshots[key := snapshots[key].(status := Superseded)];
      snapshots := snapshots[(b, v) := x];
      latest := latest[b := v];
      active := active[b := (b, v)];
    }

    method WithdrawSnapshot(ghost c: Crypto, ghost sensitive: Test, tenant: string, id: string, reason: string,
        reviewer: Reviewer)
      returns (r: Result<Snapshot, PublicationError>)
      requires Valid(c, sensitive, Model())
      modifies this
      ensures Model() == Step(c, sensitive, old(Model()), Withdraw(tenant, id, reason, reviewer))
        && Valid(c, sensitive, Model())
      ensures r.Ok? <==> PairKey(tenant, id) in old(latest)
      ensures r.Ok? ==> Current(Model(), PairKey(tenant, id)) == Some(r.value)
    {
      var b := PairKey(tenant, id);
      StepValid(c, sensitive, Model(), Withdraw(tenant, id, reason, reviewer));
      CurrentIsLatest(Model(), Rules(c, sensitive), b);
      if b !in latest {
        return Err(SnapshotNotFound);
      }
      var key := (b, latest[b]);
      var x := WithdrawnCopy(snapshots[key], reason, reviewer);
      snapshots := snapshots[key := x];
      active := active - {b};
      return Ok(x);
    }

    /** Through the active index or not, the latest version is what is returned. */
    method GetSnapshot(ghost ok: (string, nat, Snapshot) -> bool, tenant: string, id: string)
      returns (r: Result<Snapshot, PublicationError>)
      requires Shape(Model(), ok)
      ensures r == match Current(Model(), PairKey(tenant, id)) case Some(x) => Ok(x) case None => Err(SnapshotNotFound)
    {
      var b := PairKey(tenant, id);
      CurrentIsLatest(Model(), ok, b);
      assert ActiveValid(Model(), b);
      var key: Key;
      if b in active {
        key := active[b];
      } else {
        if b !in latest {
          return Err(SnapshotNotFound);
        }
        key := (b, latest[b]);
      }
      if key !in snapshots {
        return Err(SnapshotNotFound);
      }
      return Ok(snapshots[key]);
    }
  }
}
