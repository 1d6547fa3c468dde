/**
 The chain of custody of an evidence object: numbered events, each carrying the digest of the one
 before it.  SHA-256 is an abstract function.
 */
module CustodyChain {
  import opened Text
  import opened Clock

  type Hash = string -> string

  /** Tenant and evidence identifier. */
  type Key = (string, string)

  datatype EventKind =
    | CaptureLocal | TransferInterrupted | TransferResumed | IntegrityVerified | OriginalCommitted | DerivedGenerated
    | ExportPackaged | TamperDetected

  datatype Note = Note(kind: EventKind, actor: string, digest: string, details: string)

  datatype Event = Event(
      id: string, tenant: string, evidence: string, note: Note, at: Time, previous: string, eventDigest: string)

  const GENESIS: string := Zeros(64)

  function KindText(k: EventKind): string {
    match k
    case CaptureLocal => "CAPTURE_LOCAL"
    case TransferInterrupted => "TRANSFER_INTERRUPTED"
    case TransferResumed => "TRANSFER_RESUMED"
    case IntegrityVerified => "INTEGRITY_VERIFIED"
    case OriginalCommitted => "ORIGINAL_COMMITTED"
    case DerivedGenerated => "DERIVED_GENERATED"
    case ExportPackaged => "EXPORT_PACKAGED"
    case TamperDetected => "TAMPER_DETECTED"
  }

  function EventId(evidence: string, n: nat): string { "evt_" + evidence + "_" + Dec(n) }

  function EventParts(previous: string, id: string, k: Key, note: Note, at: Time): seq<string> {
    [previous, id, k.0, k.1, KindText(note.kind), note.actor, note.digest, note.details, Signed(at)]
  }

  function EventText(previous: string, id: string, k: Key, note: Note, at: Time): string {
    Join('|', EventParts(previous, id, k, note, at))
  }

  function LastDigest(chain: seq<Event>): string { if chain == [] then GENESIS else chain[|chain| - 1].eventDigest }

  function NextEvent(hash: Hash, k: Key, chain: seq<Event>, note: Note, at: Time): Event {
    var previous, id := LastDigest(chain), EventId(k.1, |chain| + 1);
    Event(id, k.0, k.1, note, at, previous, hash(EventText(previous, id, k, note, at)))
  }

  /** Event `i` is numbered, names its predecessor's digest and carries its own. */
  ghost predicate LinkedAt(hash: Hash, k: Key, chain: seq<Event>, i: nat) {
    i < |chain| ==>
      && chain[i].tenant == k.0 && chain[i].evidence == k.1 && chain[i].id == EventId(k.1, i + 1)
      && chain[i].previous == LastDigest(chain[..i])
      && chain[i].eventDigest == hash(EventText(chain[i].previous, chain[i].id, k, chain[i].note, chain[i].at))
  }

  ghost predicate Linked(hash: Hash, k: Key, chain: seq<Event>) { forall i :: LinkedAt(hash, k, chain, i) }

  lemma LinkedAppend(hash: Hash, k: Key, chain: seq<Event>, note: Note, at: Time)
    requires Linked(hash, k, chain)
    ensures Linked(hash, k, chain + [NextEvent(hash, k, chain, note, at)])
  {
    var longer := chain + [NextEvent(hash, k, chain, note, at)];
    forall i: nat ensures LinkedAt(hash, k, longer, i) {
      assert LinkedAt(hash, k, chain, i);
      if i <= |chain| {
        assert longer[..i] == chain[..i];
      }
      assert chain[..|chain|] == chain;
    }
  }

  lemma LinkedPrefix(hash: Hash, k: Key, chain: seq<Event>, n: nat)
    requires Linked(hash, k, chain) && n <= |chain|
    ensures Linked(hash, k, chain[..n])
  {
    forall i: nat ensures LinkedAt(hash, k, chain[..n], i) {
      assert LinkedAt(hash, k, chain, i);
      if i < n {
        assert chain[..n][..i] == chain[..i];
      }
    }
  }

  // ---- tamper evidence ----

  ghost predicate PipeFree(e: Event) {
    && '|' !in e.tenant && '|' !in e.evidence && '|' !in e.note.actor && '|' !in e.note.digest && '|' !in e.note.details
  }

  ghost function TextOf(e: Event): string { EventText(e.previous, e.id, (e.tenant, e.evidence), e.note, e.at) }

  /** The fields of both events are free of pipes, and their texts do not collide. */
  ghost predicate Comparable(hash: Hash, x: Event, y: Event) {
    PipeFree(x) && PipeFree(y) && (hash(TextOf(x)) == hash(TextOf(y)) ==> TextOf(x) == TextOf(y))
  }

  lemma KindTextInjective(a: EventKind, b: EventKind)
    requires KindText(a) == KindText(b)
    ensures a == b
  {
    assert |KindText(a)| == |KindText(b)|;
    assert KindText(a)[0] == KindText(b)[0];
  }

  lemma PreviousIsHex(hash: Hash, k: Key, chain: seq<Event>, n: nat)
    requires HexHash(hash) && Linked(hash, k, chain) && n < |chain|
    ensures HexDigest(chain[n].previous)
  {
    assert LinkedAt(hash, k, chain, n);
    if n > 0 {
      assert LinkedAt(hash, k, chain, n - 1);
      assert HexDigest(hash(EventText(chain[n - 1].previous, chain[n - 1].id, k, chain[n - 1].note, chain[n - 1].at)));
      assert chain[..n][n - 1] == chain[n - 1];
    }
  }

  lemma PartsSplit(hash: Hash, k: Key, chain: seq<Event>)
    requires HexHash(hash) && Linked(hash, k, chain) && chain != [] && PipeFree(chain[|chain| - 1])
    ensures var e := chain[|chain| - 1]; Splittable('|', EventParts(e.previous, e.id, k, e.note, e.at))
  {
    var e := chain[|chain| - 1];
    assert LinkedAt(hash, k, chain, |chain| - 1);
    PreviousIsHex(hash, k, chain, |chain| - 1);
    EventIdPipeFree(k.1, |chain|);
    KindPipeFree(e.note.kind);
  }

  lemma KindPipeFree(kind: EventKind)
    ensures '|' !in KindText(kind)
  {}

  lemma EventIdPipeFree(evidence: string, n: nat)
    requires '|' !in evidence
    ensures '|' !in EventId(evidence, n)
  {
    assert '|' !in Dec(n);
    assert '|' !in "evt_" + evidence;
  }

  lemma SameLast(hash: Hash, k: Key, a: seq<Event>, b: seq<Event>)
    requires HexHash(hash) && Linked(hash, k, a) && Linked(hash, k, b) && a != [] && b != []
    requires Comparable(hash, a[|a| - 1], b[|b| - 1]) && LastDigest(a) == LastDigest(b)
    ensures |a| == |b| && a[|a| - 1] == b[|b| - 1]
  {
    var x, y := a[|a| - 1], b[|b| - 1];
    assert LinkedAt(hash, k, a, |a| - 1) && LinkedAt(hash, k, b, |b| - 1);
    PartsSplit(hash, k, a);
    PartsSplit(hash, k, b);
    var p, q := EventParts(x.previous, x.id, k, x.note, x.at), EventParts(y.previous, y.id, k, y.note, y.at);
    JoinInjective('|', p, q);
    assert p[0] == q[0] && p[1] == q[1] && p[4] == q[4] && p[5] == q[5] && p[6] == q[6] && p[7] == q[7] && p[8] == q[8];
    KindTextInjective(x.note.kind, y.note.kind);
    SignedInjective(x.at, y.at);
    assert EventId(k.1, |a|) == ("evt_" + k.1) + ['_'] + Dec(|a|)
      && EventId(k.1, |b|) == ("evt_" + k.1) + ['_'] + Dec(|b|);
    NumberedInjective("evt_" + k.1, '_', |a|, "evt_" + k.1, |b|);
  }

  /** The digest of the last event determines the whole custody chain. */
  lemma {:induction false} LastDigestBindsChain(hash: Hash, k: Key, a: seq<Event>, b: seq<Event>)
    requires HexHash(hash) && Linked(hash, k, a) && Linked(hash, k, b) && a != [] && b != []
    requires forall i, j | 0 <= i < |a| && 0 <= j < |b| :: Comparable(hash, a[i], b[j])
    requires LastDigest(a) == LastDigest(b)
    ensures a == b
    decreases |a|
  {
    SameLast(hash, k, a, b);
    var n := |a| - 1;
    assert LinkedAt(hash, k, a, n) && LinkedAt(hash, k, b, n);
    if n > 0 {
      LinkedPrefix(hash, k, a, n);
      LinkedPrefix(hash, k, b, n);
      LastDigestBindsChain(hash, k, a[..n], b[..n]);
    }
    assert a == a[..n] + [a[n]] && b == b[..n] + [b[n]];
  }
}
