/**
 What the publication stores share: payloads, source references, approvals, windows and digests.
 SHA-256 and canonical JSON are abstract functions.
 */
module Publication {
  import opened Results
  import opened Text
  import opened Clock

  /** A payload value: a string, or any other JSON value by its canonical text. */
  datatype Value = Words(text: string) | Other(json: string)

  type Payload = map<string, Value>

  datatype SourceRef = SourceRef(kind: string, id: string, tenant: string, version: string, digest: string)

  datatype Approval = Approval(
    id: string, approver: string, role: string, approvedAt: Time, contentDigest: string, decisionHash: string,
    notes: string, maxAge: Duration)

  datatype Window = Window(from: Time, expires: Time)

  datatype PublicationError =
    | BlankTenantId | BlankSnapshotId | InvalidVersion | BlankSourceType | BlankSourceId | BlankSourceDigest
    | SourceMismatch
    | InvalidWindow | VersionImmutable | InvalidPredecessor | BrokenLineage | PayloadNotCanonical
    | BlankReplacementReason
    | BlankSuccessorId | SnapshotNotFound | SnapshotExists | ProhibitedField | UnapprovedField | AlreadyPublished
    | SnapshotWithdrawn | NotApproved | InvalidReviewer | SnapshotImmutable | BlankDigest | IllegalTransition
    | NotUnderReview
    | UnauthorizedReviewer | StaleApproval | DigestMismatch | DuplicateTransition | UnauthorizedPublish
    | SnapshotExpired
    | MissingReason | NotYetEffective

  /** `hash` is SHA-256 in hexadecimal; `canonical` the canonical JSON of a payload, none when it cannot be encoded. */
  datatype Crypto = Crypto(hash: string -> string, canonical: Payload -> Option<string>)

  const MAX_WINDOW: Duration := 365 * DAY

  function SourceFault(s: SourceRef): Option<PublicationError> {
    if Trim(s.kind) == "" then Some(BlankSourceType)
    else if Trim(s.id) == "" then Some(BlankSourceId)
    else if Trim(s.tenant) == "" then Some(BlankTenantId)
    else if Trim(s.digest) == "" then Some(BlankSourceDigest)
    else None
  }

  predicate WindowValid(w: Window) {
    w.from != 0 && w.expires != 0 && w.from < w.expires && Sub(w.expires, w.from) <= MAX_WINDOW
  }

  function PayloadDigest(c: Crypto, p: Payload): Option<string> {
    var text := c.canonical(p);
    if text.None? then None else Some(c.hash(text.value))
  }

  function SignatureParts(tenant: string, snapshot: string, version: nat, source: SourceRef, payloadDigest: string,
      decision: string): seq<string> {
    [Trim(tenant), Trim(snapshot), Dec(version), Trim(source.id), Trim(source.digest), Trim(payloadDigest),
      Trim(decision)]
  }

  function Signature(c: Crypto, tenant: string, snapshot: string, version: nat, source: SourceRef,
      payloadDigest: string, decision: string): string {
    c.hash(Join('|', SignatureParts(tenant, snapshot, version, source, payloadDigest, decision)))
  }

  /** What is hashed: tenant, identifier, version, source, payload digest and decision, between bars. */
  lemma SignedText(c: Crypto, tenant: string, snapshot: string, version: nat, source: SourceRef, payloadDigest: string,
      decision: string)
    ensures Signature(c, tenant, snapshot, version, source, payloadDigest, decision)
      == c.hash(Trim(tenant) + "|" + (Trim(snapshot) + "|" + (Dec(version) + "|" + (Trim(source.id) + "|"
           + (Trim(source.digest) + "|" + (Trim(payloadDigest) + "|" + Trim(decision)))))))
  {
    var p := SignatureParts(tenant, snapshot, version, source, payloadDigest, decision);
    JoinCons(p[5], [p[6]]);
    JoinCons(p[4], [p[5], p[6]]);
    JoinCons(p[3], [p[4], p[5], p[6]]);
    JoinCons(p[2], [p[3], p[4], p[5], p[6]]);
    JoinCons(p[1], [p[2], p[3], p[4], p[5], p[6]]);
    JoinCons(p[0], [p[1], p[2], p[3], p[4], p[5], p[6]]);
    assert p == [p[0]] + [p[1], p[2], p[3], p[4], p[5], p[6]];
  }

  lemma JoinCons(a: string, rest: seq<string>)
    requires rest != []
    ensures Join('|', [a] + rest) == a + "|" + Join('|', rest)
  {
    assert ([a] + rest)[1..] == rest;
  }

  /** No collision between these two inputs. */
  ghost predicate Distinguishes(hash: string -> string, x: string, y: string) { hash(x) == hash(y) ==> x == y }

  lemma HexIsTrimmed(d: string)
    requires HexDigest(d)
    ensures Trim(d) == d && '|' !in d
  {
    TrimFixed(d);
  }

  function Concat(parts: seq<string>): string {
    if parts == [] then "" else Concat(parts[..|parts| - 1]) + parts[|parts| - 1]
  }

  lemma ConcatNext(parts: seq<string>, i: nat)
    requires i < |parts|
    ensures Concat(parts[..i + 1]) == Concat(parts[..i]) + parts[i]
  {
    assert parts[..i + 1][..i] == parts[..i];
  }

  /** A concatenation of digests determines how many there are and each of them. */
  lemma {:induction false} ConcatInjective(a: seq<string>, b: seq<string>)
    requires (forall i | 0 <= i < |a| :: |a[i]| == 64) && (forall i | 0 <= i < |b| :: |b[i]| == 64)
    requires Concat(a) == Concat(b)
    ensures a == b
  {
    if a != [] && b != [] {
      var m, n := |a| - 1, |b| - 1;
      var s, k := Concat(a), |Concat(a)| - 64;
      assert s[..k] == Concat(a[..m]) && s[k..] == a[m];
      assert s[..k] == Concat(b[..n]) && s[k..] == b[n];
      ConcatInjective(a[..m], b[..n]);
      assert a == a[..m] + [a[m]] && b == b[..n] + [b[n]];
    }
  }
}
