/**
 The idempotency store: the first successful creation under a tenant and key is recorded, and every
 later call with the same payload replays it.  A call carries what its creator would return.
 */
module Idempotency {
  import opened Results
  import opened Text

  datatype Record = Record(key: string, tenant: string, digest: string, resource: string)

  datatype IdempotencyError = EmptyTenantId | BlankKey | BlankDigest | InvalidDigest | NilCreator | Conflict
    | CreatorFailed(cause: string)

  type Records = map<string, Record>

  datatype Call = Call(tenant: string, key: string, digest: string, hasCreator: bool, creator: Result<string, string>)

  datatype Answer = Created(resource: string) | Replayed(resource: string) | Failed(error: IdempotencyError)

  function KeyOf(c: Call): string { PairKey(c.tenant, c.key) }

  function ArgumentFault(c: Call): Option<IdempotencyError> {
    if Trim(c.tenant) == "" then Some(EmptyTenantId)
    else if Trim(c.key) == "" then Some(BlankKey)
    else if Trim(c.digest) == "" then Some(BlankDigest)
    else if !HexDigest(Trim(c.digest)) then Some(InvalidDigest)
    else if !c.hasCreator then Some(NilCreator)
    else None
  }

  /** The creator runs. */
  predicate Creates(s: Records, c: Call) { ArgumentFault(c).None? && KeyOf(c) !in s }

  function Respond(s: Records, c: Call): Answer {
    if ArgumentFault(c).Some? then Failed(ArgumentFault(c).value)
    else if KeyOf(c) in s then
      if s[KeyOf(c)].digest == Trim(c.digest) then Replayed(s[KeyOf(c)].resource) else Failed(Conflict)
    else if c.creator.Err? then Failed(CreatorFailed(c.creator.error))
    else Created(c.creator.value)
  }

  function Step(s: Records, c: Call): Records {
    if Creates(s, c) && c.creator.Ok?
      then s[KeyOf(c) := Record(Trim(c.key), Trim(c.tenant), Trim(c.digest), c.creator.value)] else s
  }

  /** A call that is well formed creates, replays or conflicts, each exactly when it should. */
  lemma AnsweredExactly(s: Records, c: Call)
    ensures ArgumentFault(c).None? <==>
      Trim(c.tenant) != "" && Trim(c.key) != "" && HexDigest(Trim(c.digest)) && c.hasCreator
    ensures Respond(s, c).Created? <==> ArgumentFault(c).None? && KeyOf(c) !in s && c.creator.Ok?
    ensures Respond(s, c).Replayed? <==> ArgumentFault(c).None? && KeyOf(c) in s && s[KeyOf(c)].digest == Trim(c.digest)
    ensures Respond(s, c) == Failed(Conflict) <==>
      ArgumentFault(c).None? && KeyOf(c) in s && s[KeyOf(c)].digest != Trim(c.digest)
    ensures !Respond(s, c).Created? ==> Step(s, c) == s
    ensures Respond(s, c).Created? ==>
      KeyOf(c) in Step(s, c) && Step(s, c)[KeyOf(c)].resource == c.creator.value
        && Step(s, c)[KeyOf(c)].digest == Trim(c.digest)
  {}

  function Run(s: Records, calls: seq<Call>): Records
    decreases |calls|
  {
    if calls == [] then s else Run(Step(s, calls[0]), calls[1..])
  }

  /** Successful creations under a key during a run. */
  ghost function CreationsOn(s: Records, calls: seq<Call>, k: string): nat
    decreases |calls|
  {
    if calls == [] then 0
    else
      (if Creates(s, calls[0]) && calls[0].creator.Ok? && KeyOf(calls[0]) == k then 1 else 0)
      + CreationsOn(Step(s, calls[0]), calls[1..], k)
  }

  /** Creations are conserved: at most one ever succeeds under a key, exactly when the key is recorded. */
  lemma {:induction false} CreatedAtMostOnce(s: Records, calls: seq<Call>, k: string)
    ensures (if k in s then 1 else 0) + CreationsOn(s, calls, k) == if k in Run(s, calls) then 1 else 0
    decreases |calls|
  {
    if calls != [] {
      CreatedAtMostOnce(Step(s, calls[0]), calls[1..], k);
    }
  }

  /** A recorded result never changes. */
  lemma {:induction false} RecordedForever(s: Records, calls: seq<Call>, k: string)
    requires k in s
    ensures k in Run(s, calls) && Run(s, calls)[k] == s[k]
    decreases |calls|
  {
    if calls != [] {
      RecordedForever(Step(s, calls[0]), calls[1..], k);
    }
  }

  /**
   Once a call created a resource, whatever happens in between, a call under its key replays that resource exactly when
   the payload is the same.
   */
  lemma EveryReplayReturnsTheFirstResult(s: Records, c: Call, calls: seq<Call>, again: Call)
    requires Respond(s, c).Created? && ArgumentFault(again).None? && KeyOf(again) == KeyOf(c)
    ensures var later := Respond(Run(Step(s, c), calls), again);
      if Trim(again.digest) == Trim(c.digest) then later == Replayed(Respond(s, c).resource)
        else later == Failed(Conflict)
  {
    RecordedForever(Step(s, c), calls, KeyOf(c));
  }

  // ---- by names ----

  /** What a record under a key says about itself. */
  ghost predicate Named(s: Records, k: string) {
    k in s ==> Proper(s[k].tenant) && Proper(s[k].key) && PairKey(s[k].tenant, s[k].key) == k
  }

  lemma StepNamed(s: Records, c: Call, k: string)
    requires Named(s, k)
    ensures Named(Step(s, c), k)
  {
    TrimIdempotent(c.tenant);
    TrimIdempotent(c.key);
  }

  lemma {:induction false} RunNamed(s: Records, calls: seq<Call>, k: string)
    requires Named(s, k)
    ensures Named(Run(s, calls), k)
    decreases |calls|
  {
    if calls != [] {
      StepNamed(s, calls[0], k);
      RunNamed(Step(s, calls[0]), calls[1..], k);
    }
  }

  /** Whatever was called before, what a caller finds under its tenant and key was created under them. */
  ghost predicate OwnRecord(calls: seq<Call>, tenant: string, key: string) {
    var s, k := Run(map[], calls), PairKey(tenant, key);
    k in s ==> s[k].tenant == tenant && s[k].key == key
  }

  function SampleCall(tenant: string, key: string, resource: string): Call {
    Call(tenant, key, Zeros(64), true, Ok(resource))
  }

  lemma SampleAccepted(tenant: string, key: string, resource: string)
    requires Proper(tenant) && Proper(key)
    ensures ArgumentFault(SampleCall(tenant, key, resource)).None?
  {
    TrimFixed(Zeros(64));
  }

  /** Names with the same key text replay each other's resources, across tenants. */
  lemma SecondSplitReplaysAcross(tenant: string, key: string, c: string, d: string, resource: string, other: string)
    requires Proper(tenant) && Proper(key) && Proper(c) && Proper(d) && PairKey(c, d) == PairKey(tenant, key)
    ensures
      var s := Step(map[], SampleCall(c, d, resource));
      && Respond(s, SampleCall(tenant, key, other)) == Replayed(resource)
      && PairKey(tenant, key) in s && s[PairKey(tenant, key)].tenant == c
  {
    SampleAccepted(tenant, key, other);
    SampleAccepted(c, d, resource);
  }

  /** A tenant and key always find their own record, in every run, exactly when their key text has no second split. */
  lemma OwnRecordExactly(tenant: string, key: string)
    requires Proper(tenant) && Proper(key)
    ensures (forall calls :: OwnRecord(calls, tenant, key)) <==> !Ambiguous(tenant, key)
  {
    if Ambiguous(tenant, key) {
      var i :| 0 <= i < |tenant| + 1 + |key| && SecondSplit(tenant, key, i);
      var c, d := SecondSplitPair(tenant, key, i);
      SecondSplitReplaysAcross(tenant, key, c, d, "r", "r");
      var call := SampleCall(c, d, "r");
      assert [call][1..] == [] && Run(map[], [call]) == Run(Step(map[], call), []);
      assert !OwnRecord([call], tenant, key);
    } else {
      forall calls ensures OwnRecord(calls, tenant, key) {
        var s, k := Run(map[], calls), PairKey(tenant, key);
        RunNamed(map[], calls, k);
        if k in s {
          PairKeyUnique(tenant, key, s[k].tenant, s[k].key);
        }
      }
    }
  }

  class IdempotencyStore {
    var records: Records

    constructor ()
      ensures records == map[]
    {
      records := map[];
    }

    method EvaluateOrCreate(c: Call) returns (r: Answer)
      modifies this
      ensures r == Respond(old(records), c)
      ensures records == Step(old(records), c)
    {
      if Trim(c.tenant) == "" {
        return Failed(EmptyTenantId);
      }
      if Trim(c.key) == "" {
        return Failed(BlankKey);
      }
      if Trim(c.digest) == "" {
        return Failed(BlankDigest);
      }
      if !HexDigest(Trim(c.digest)) {
        return Failed(InvalidDigest);
      }
      if !c.hasCreator {
        return Failed(NilCreator);
      }
      var key := PairKey(c.tenant, c.key);
      if key in records {
        if records[key].digest == Trim(c.digest) {
          return Replayed(records[key].resource);
        }
        return Failed(Conflict);
      }
      match c.creator {
        case Err(cause) => return Failed(CreatorFailed(cause));
        case Ok(resource) =>
          records := records[key := Record(Trim(c.key), Trim(c.tenant), Trim(c.digest), resource)];
          return Created(resource);
      }
    }
  }
}
