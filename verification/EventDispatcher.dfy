/**
 Event delivery with bounded retries, quarantine and controlled replay.  A handler call succeeds
 or fails as its environment decides, so each call carries the outcome the handler would return.
 */
module EventDispatcher {
  import opened Results
  import opened Text
  import opened Clock

  datatype Status = Pending | Delivered | Retrying | Quarantined

  datatype Record = Record(
    eventId: string, consumerId: string, tenant: string, status: Status, attempts: nat, maxAttempts: nat,
    lastError: string, firstAttemptAt: Time, lastAttemptAt: Time, deliveredAt: Option<Time>,
    quarantinedAt: Option<Time>, replayedCount: nat)

  datatype DispatchError =
    | BlankConsumerId | NilHandler | BlankEventId | ConsumerNotRegistered | CrossTenantDispatch | AlreadyDelivered
    | RetryLimitReached | MaxRetriesExceeded(cause: string) | AttemptFailed(attempt: nat, cause: string)
    | UnauthorizedReplay | DeliveryRecordNotFound | EventNotQuarantined | CrossTenantReplay
    | ReplayFailed(cause: string)

  datatype State = State(
      maxAttempts: nat, handlers: set<string>, consumerTenants: map<string, string>, records: map<string, Record>)

  function Fresh(maxAttempts: int): State { State(if maxAttempts <= 0 then 3 else maxAttempts, {}, map[], map[]) }

  function Key(consumerId: string, eventId: string): string { PairKey(consumerId, eventId) }

  /** `failure` is the handler's error, none when it succeeds. */
  datatype Call =
    | Register(consumerId: string, tenant: string, hasHandler: bool)
    | Dispatch(consumerId: string, eventId: string, tenant: string, now: Time, failure: Option<string>)
    | Replay(consumerId: string, eventId: string, callerTenant: string, callerIdentity: string, now: Time,
        failure: Option<string>)

  datatype Reply = Reply(record: Option<Record>, error: Option<DispatchError>)

  // ---- the steps ----

  function RegisterFault(c: Call): Option<DispatchError>
    requires c.Register?
  {
    if Trim(c.consumerId) == "" then Some(BlankConsumerId) else if !c.hasHandler then Some(NilHandler) else None
  }

  function Registered(s: State, c: Call): State
    requires c.Register?
  {
    if RegisterFault(c).Some? then s
    else
      var id := Trim(c.consumerId);
      var tenants := if Trim(c.tenant) != "" then s.consumerTenants[id := Trim(c.tenant)] else s.consumerTenants;
      s.(handlers := s.handlers + {id}, consumerTenants := tenants)
  }

  /** Why a dispatch does not reach the handler, with the record it reports. */
  function DispatchRefusal(s: State, c: Call): Option<Reply>
    requires c.Dispatch?
  {
    var id := Trim(c.consumerId);
    var key := Key(c.consumerId, c.eventId);
    if id == "" then Some(Reply(None, Some(BlankConsumerId)))
    else if Trim(c.eventId) == "" then Some(Reply(None, Some(BlankEventId)))
    else if id !in s.handlers then Some(Reply(None, Some(ConsumerNotRegistered)))
    else if id in s.consumerTenants && s.consumerTenants[id] != c.tenant
      then Some(Reply(None, Some(CrossTenantDispatch)))
    else if key in s.records && s.records[key].status == Delivered
      then Some(Reply(Some(s.records[key]), Some(AlreadyDelivered)))
    else if key in s.records && s.records[key].status == Quarantined
      then Some(Reply(Some(s.records[key]), Some(RetryLimitReached)))
    else None
  }

  function NewRecord(s: State, c: Call): Record
    requires c.Dispatch?
  {
    Record(Trim(c.eventId), Trim(c.consumerId), c.tenant, Pending, 0, s.maxAttempts, "", c.now, 0, None, None, 0)
  }

  function Attempted(rec: Record, now: Time, failure: Option<string>): Record {
    var tried := rec.(attempts := rec.attempts + 1, lastAttemptAt := now);
    if failure.None? then tried.(status := Delivered, deliveredAt := Some(now), lastError := "")
    else if tried.attempts >= rec.maxAttempts
      then tried.(status := Quarantined, quarantinedAt := Some(now), lastError := failure.value)
    else tried.(status := Retrying, lastError := failure.value)
  }

  function AttemptError(rec: Record, failure: Option<string>): Option<DispatchError> {
    if failure.None? then None
    else if rec.attempts + 1 >= rec.maxAttempts then Some(MaxRetriesExceeded(failure.value))
    else Some(AttemptFailed(rec.attempts + 1, failure.value))
  }

  function ReplayRefusal(s: State, c: Call): Option<DispatchError>
    requires c.Replay?
  {
    var key := Key(c.consumerId, c.eventId);
    if Trim(c.callerIdentity) == "" then Some(UnauthorizedReplay)
    else if key !in s.records then Some(DeliveryRecordNotFound)
    else if s.records[key].status != Quarantined then Some(EventNotQuarantined)
    else if Trim(c.callerTenant) != s.records[key].tenant then Some(CrossTenantReplay)
    else if Trim(c.consumerId) !in s.handlers then Some(ConsumerNotRegistered)
    else None
  }

  function Replayed(rec: Record, now: Time, failure: Option<string>): Record {
    var tried := rec.(replayedCount := rec.replayedCount + 1, attempts := rec.attempts + 1, lastAttemptAt := now);
    if failure.None? then tried.(status := Delivered, deliveredAt := Some(now), lastError := "")
    else tried.(status := Quarantined, quarantinedAt := Some(now), lastError := failure.value)
  }

  /** The record that a call hands to the handler, if it reaches it. */
  function Handled(s: State, c: Call): Option<Record> {
    match c
    case Register(_, _, _) => None
    case Dispatch(_, _, _, _, _) =>
      if DispatchRefusal(s, c).Some? then None
      else
        var key := Key(c.consumerId, c.eventId);
        Some(if key in s.records then s.records[key] else NewRecord(s, c))
    case Replay(_, _, _, _, _, _) =>
      if ReplayRefusal(s, c).Some? then None else Some(s.records[Key(c.consumerId, c.eventId)])
  }

  function Step(s: State, c: Call): State {
    var rec := Handled(s, c);
    if c.Register? then Registered(s, c)
    else if rec.None? then s
    else
      var key := Key(c.consumerId, c.eventId);
      var next := if c.Dispatch? then Attempted(rec.value, c.now, c.failure) else Replayed(rec.value, c.now, c.failure);
      s.(records := s.records[key := next])
  }

  function Answer(s: State, c: Call): Reply {
    var rec := Handled(s, c);
    match c
    case Register(_, _, _) => Reply(None, RegisterFault(c))
    case Dispatch(_, _, _, now, failure) =>
      if rec.None? then DispatchRefusal(s, c).value
      else Reply(Some(Attempted(rec.value, now, failure)), AttemptError(rec.value, failure))
    case Replay(_, _, _, _, now, failure) =>
      if rec.None? then Reply(None, ReplayRefusal(s, c))
      else
        Reply(Some(Replayed(rec.value, now, failure)),
              if failure.None? then None else Some(ReplayFailed(failure.value)))
  }

  function Run(s: State, calls: seq<Call>): State
    decreases |calls|
  {
    if calls == [] then s else Run(Step(s, calls[0]), calls[1..])
  }

  function Answers(s: State, calls: seq<Call>): seq<Reply>
    decreases |calls|
  {
    if calls == [] then [] else [Answer(s, calls[0])] + Answers(Step(s, calls[0]), calls[1..])
  }

  // ---- what every record keeps ----

  ghost predicate RecordValid(r: Record) {
    && 1 <= r.attempts && 1 <= r.maxAttempts
    && match r.status
       case Pending => false
       case Retrying => r.attempts < r.maxAttempts && r.replayedCount == 0
       case Quarantined => r.attempts == r.maxAttempts + r.replayedCount
       case Delivered => r.attempts <= r.maxAttempts + r.replayedCount
  }

  ghost predicate Valid(s: State) {
    && s.maxAttempts >= 1
    && forall k | k in s.records :: RecordValid(s.records[k]) && k == Key(s.records[k].consumerId, s.records[k].eventId)
  }

  lemma AttemptedValid(rec: Record, now: Time, failure: Option<string>)
    requires rec.attempts < rec.maxAttempts && rec.replayedCount == 0
    ensures RecordValid(Attempted(rec, now, failure))
  {}

  lemma ReplayedValid(rec: Record, now: Time, failure: Option<string>)
    requires RecordValid(rec) && rec.status == Quarantined
    ensures RecordValid(Replayed(rec, now, failure))
  {}

  /** A handled record belongs to the call's key and has attempts left, or is quarantined when replayed. */
  lemma HandledReady(s: State, c: Call, key: string, rec: Record)
    requires Valid(s) && !c.Register? && Handled(s, c) == Some(rec) && key == Key(c.consumerId, c.eventId)
    ensures Key(rec.consumerId, rec.eventId) == key
    ensures c.Dispatch? ==> rec.attempts < rec.maxAttempts && rec.replayedCount == 0
    ensures c.Replay? ==> RecordValid(rec) && rec.status == Quarantined
  {
    if key !in s.records {
      TrimIdempotent(c.consumerId);
      TrimIdempotent(c.eventId);
    }
  }

  lemma PutValid(s: State, key: string, rec: Record)
    requires Valid(s) && RecordValid(rec) && Key(rec.consumerId, rec.eventId) == key
    ensures Valid(s.(records := s.records[key := rec]))
  {}

  lemma StepValid(s: State, c: Call)
    requires Valid(s)
    ensures Valid(Step(s, c))
  {
    if !c.Register? && Handled(s, c).Some? {
      var rec := Handled(s, c).value;
      var key := Key(c.consumerId, c.eventId);
      HandledReady(s, c, key, rec);
      if c.Dispatch? {
        AttemptedValid(rec, c.now, c.failure);
        PutValid(s, key, Attempted(rec, c.now, c.failure));
      } else {
        ReplayedValid(rec, c.now, c.failure);
        PutValid(s, key, Replayed(rec, c.now, c.failure));
      }
    }
  }

  lemma {:induction false} RunValid(s: State, calls: seq<Call>)
    requires Valid(s)
    ensures Valid(Run(s, calls))
    decreases |calls|
  {
    if calls != [] {
      StepValid(s, calls[0]);
      RunValid(Step(s, calls[0]), calls[1..]);
    }
  }

  /** A delivered record never changes again. */
  lemma {:induction false} DeliveredIsFinal(s: State, calls: seq<Call>, key: string)
    requires key in s.records && s.records[key].status == Delivered
    ensures key in Run(s, calls).records && Run(s, calls).records[key] == s.records[key]
    decreases |calls|
  {
    if calls != [] {
      DeliveredIsFinal(Step(s, calls[0]), calls[1..], key);
    }
  }

  /** Only a replay whose handler succeeds takes a record out of quarantine. */
  lemma QuarantineLeftByReplayOnly(s: State, c: Call, key: string)
    requires key in s.records && s.records[key].status == Quarantined
    ensures key in Step(s, c).records
    ensures Step(s, c).records[key].status != Quarantined <==>
      c.Replay? && Key(c.consumerId, c.eventId) == key && Handled(s, c).Some? && c.failure.None?
  {}

  // ---- who reaches the handler, and what an attempt leaves ----

  /**
   A dispatch runs the handler exactly for a registered consumer of the event's tenant or of none, while attempts are
   left.
   */
  lemma DispatchedExactly(s: State, c: Call)
    requires Valid(s) && c.Dispatch?
    ensures Handled(s, c).Some? <==>
      && Trim(c.consumerId) != "" && Trim(c.eventId) != "" && Trim(c.consumerId) in s.handlers
      && (Trim(c.consumerId) in s.consumerTenants ==> s.consumerTenants[Trim(c.consumerId)] == c.tenant)
      && (Key(c.consumerId, c.eventId) in s.records ==>
            s.records[Key(c.consumerId, c.eventId)].status != Delivered
            && s.records[Key(c.consumerId, c.eventId)].attempts < s.records[Key(c.consumerId, c.eventId)].maxAttempts)
  {
    if Key(c.consumerId, c.eventId) in s.records {
      assert RecordValid(s.records[Key(c.consumerId, c.eventId)]);
    }
  }

  /** A consumer is registered exactly with a name and a handler, and keeps its old tenant where none is given. */
  lemma RegistersExactly(s: State, c: Call)
    requires c.Register?
    ensures
      var u, id := Step(s, c), Trim(c.consumerId);
      if id != "" && c.hasHandler then
        && u.handlers == s.handlers + {id} && u.records == s.records
        && (forall i | i != id :: i in u.consumerTenants <==> i in s.consumerTenants)
        && (forall i | i in s.consumerTenants && i != id :: u.consumerTenants[i] == s.consumerTenants[i])
        && (Trim(c.tenant) != "" ==> id in u.consumerTenants && u.consumerTenants[id] == Trim(c.tenant))
        && (Trim(c.tenant) == "" ==> u.consumerTenants == s.consumerTenants)
      else u == s && Answer(s, c).error.Some?
  {}

  /** A replay runs the handler exactly for an identified caller of the record's tenant, on a quarantined record. */
  lemma ReplayedExactly(s: State, c: Call)
    requires c.Replay?
    ensures Handled(s, c).Some? <==>
      && Trim(c.callerIdentity) != "" && Key(c.consumerId, c.eventId) in s.records
      && s.records[Key(c.consumerId, c.eventId)].status == Quarantined
      && s.records[Key(c.consumerId, c.eventId)].tenant == Trim(c.callerTenant) && Trim(c.consumerId) in s.handlers
  {}

  /** What a handler call leaves: delivered on success, quarantined when the limit is reached or on a failed replay. */
  lemma AttemptOutcome(s: State, c: Call, rec: Record)
    requires !c.Register? && Handled(s, c) == Some(rec)
    ensures
      var k := Key(c.consumerId, c.eventId);
      var next := Step(s, c).records[k];
      && next.attempts == rec.attempts + 1 && next.lastAttemptAt == c.now
      && (c.failure.None? ==> next.status == Delivered && next.deliveredAt == Some(c.now) && next.lastError == "")
      && (c.failure.Some? ==> next.lastError == c.failure.value && next.deliveredAt == rec.deliveredAt)
      && (c.failure.Some? && (c.Replay? || rec.attempts + 1 >= rec.maxAttempts) ==>
            next.status == Quarantined && next.quarantinedAt == Some(c.now))
      && (c.failure.Some? && c.Dispatch? && rec.attempts + 1 < rec.maxAttempts ==> next.status == Retrying)
      && next.replayedCount == rec.replayedCount + (if c.Replay? then 1 else 0)
      && Answer(s, c).record == Some(next) && (Answer(s, c).error.None? <==> c.failure.None?)
      && (c.Dispatch? && Answer(s, c).error.Some? ==>
            (Answer(s, c).error.value.MaxRetriesExceeded? <==> next.status == Quarantined))
  {}

  ghost predicate SameOrigin(a: Record, b: Record) {
    && b.eventId == a.eventId && b.consumerId == a.consumerId && b.tenant == a.tenant
    && b.maxAttempts == a.maxAttempts && b.firstAttemptAt == a.firstAttemptAt && b.attempts >= a.attempts
  }

  lemma StepOrigin(s: State, c: Call, k: string)
    requires k in s.records
    ensures k in Step(s, c).records && SameOrigin(s.records[k], Step(s, c).records[k])
  {}

  /** A record keeps its event, consumer, tenant, limit and first attempt. */
  lemma {:induction false} OriginForever(s: State, calls: seq<Call>, k: string)
    requires k in s.records
    ensures k in Run(s, calls).records && SameOrigin(s.records[k], Run(s, calls).records[k])
    decreases |calls|
  {
    if calls != [] {
      StepOrigin(s, calls[0], k);
      OriginForever(Step(s, calls[0]), calls[1..], k);
    }
  }

  /** A record is made by the first handled dispatch of its consumer and event, for that dispatch's tenant. */
  lemma OriginOfRecord(s: State, c: Call, k: string)
    requires k !in s.records && k in Step(s, c).records
    ensures c.Dispatch? && k == Key(c.consumerId, c.eventId)
    ensures
      var b := Step(s, c).records[k];
      && b.eventId == Trim(c.eventId) && b.consumerId == Trim(c.consumerId) && b.tenant == c.tenant
      && b.maxAttempts == s.maxAttempts && b.firstAttemptAt == c.now
  {}

  // ---- handler calls are conserved ----

  ghost function CallsOn(s: State, calls: seq<Call>, key: string): nat
    decreases |calls|
  {
    if calls == [] then 0
    else (if Reaches(s, calls[0], key) then 1 else 0) + CallsOn(Step(s, calls[0]), calls[1..], key)
  }

  ghost function SuccessesOn(s: State, calls: seq<Call>, key: string): nat
    decreases |calls|
  {
    if calls == [] then 0
    else
      (if Reaches(s, calls[0], key) && calls[0].failure.None? then 1 else 0)
      + SuccessesOn(Step(s, calls[0]), calls[1..], key)
  }

  /** The call runs the handler for this consumer and event. */
  ghost predicate Reaches(s: State, c: Call, key: string) {
    !c.Register? && Handled(s, c).Some? && Key(c.consumerId, c.eventId) == key
  }

  ghost function AttemptsOf(s: State, key: string): nat { if key in s.records then s.records[key].attempts else 0 }

  ghost function DeliveriesOf(s: State, key: string): nat {
    if key in s.records && s.records[key].status == Delivered then 1 else 0
  }

  lemma StepConserved(s: State, c: Call, key: string)
    ensures AttemptsOf(s, key) + (if Reaches(s, c, key) then 1 else 0) == AttemptsOf(Step(s, c), key)
    ensures DeliveriesOf(s, key) + (if Reaches(s, c, key) && c.failure.None? then 1 else 0)
      == DeliveriesOf(Step(s, c), key)
  {}

  /** Handler calls equal recorded attempts, and handler successes equal the delivered mark: at most one, ever. */
  lemma {:induction false} HandlerCallsConserved(s: State, calls: seq<Call>, key: string)
    ensures AttemptsOf(s, key) + CallsOn(s, calls, key) == AttemptsOf(Run(s, calls), key)
    ensures DeliveriesOf(s, key) + SuccessesOn(s, calls, key) == DeliveriesOf(Run(s, calls), key)
    decreases |calls|
  {
    if calls != [] {
      StepConserved(s, calls[0], key);
      HandlerCallsConserved(Step(s, calls[0]), calls[1..], key);
    }
  }

  /** From an empty dispatcher: one success at most, and the attempt bound with its replays. */
  lemma DeliveryBounds(maxAttempts: int, calls: seq<Call>, key: string)
    ensures var s := Run(Fresh(maxAttempts), calls);
      && SuccessesOn(Fresh(maxAttempts), calls, key) <= 1
      && (key in s.records ==>
            CallsOn(Fresh(maxAttempts), calls, key) == s.records[key].attempts
            && s.records[key].attempts <= s.records[key].maxAttempts + s.records[key].replayedCount)
  {
    HandlerCallsConserved(Fresh(maxAttempts), calls, key);
    RunValid(Fresh(maxAttempts), calls);
  }

  // ---- export and restore ----

  /** An export lists the records in any order. */
  ghost predicate Exports(s: State, list: seq<Record>) {
    forall r :: r in list <==> r in s.records.Values
  }

  function Restored(records: map<string, Record>, list: seq<Record>): map<string, Record> {
    if list == [] then records
    else
      var n := |list| - 1;
      Restored(records, list[..n])[Key(list[n].consumerId, list[n].eventId) := list[n]]
  }

  lemma {:induction false} RestoredContents(list: seq<Record>, k: string)
    ensures k in Restored(map[], list) <==> exists r :: r in list && Key(r.consumerId, r.eventId) == k
    ensures k in Restored(map[], list) ==>
      Restored(map[], list)[k] in list
        && Key(Restored(map[], list)[k].consumerId, Restored(map[], list)[k].eventId) == k
  {
    if list != [] {
      var n := |list| - 1;
      RestoredContents(list[..n], k);
      assert list == list[..n] + [list[n]];
    }
  }

  /** Restoring an export into an empty dispatcher rebuilds the records exactly. */
  lemma RestoreInvertsExport(s: State, list: seq<Record>)
    requires Valid(s) && Exports(s, list)
    ensures Restored(map[], list) == s.records
  {
    var m := Restored(map[], list);
    forall k ensures k in m <==> k in s.records {
      RestoredContents(list, k);
      if k in s.records {
        assert s.records[k] in list;
      }
    }
    forall k | k in m ensures m[k] == s.records[k] {
      RestoredContents(list, k);
      var j :| j in s.records && s.records[j] == m[k];
    }
  }

  /** After a restart from an export, every later sequence of calls gets the same answers. */
  lemma RestartIsInvisible(s: State, list: seq<Record>, fresh': State, calls: seq<Call>)
    requires Valid(s) && Exports(s, list)
    requires fresh' == s.(records := map[])
    ensures Answers(fresh'.(records := Restored(fresh'.records, list)), calls) == Answers(s, calls)
  {
    RestoreInvertsExport(s, list);
  }

  class Dispatcher {
    const maxAttempts: nat
    var handlers: set<string>
    var consumerTenants: map<string, string>
    var records: map<string, Record>

    ghost function Model(): State
      reads this
    {
      State(maxAttempts, handlers, consumerTenants, records)
    }

    constructor (maxAttempts: int)
      ensures Model() == Fresh(maxAttempts)
    {
      this.maxAttempts := if maxAttempts <= 0 then 3 else maxAttempts;
      handlers, consumerTenants, records := {}, map[], map[];
    }

    method RegisterConsumer(consumerId: string, tenant: string, hasHandler: bool) returns (error: Option<DispatchError>)
      modifies this
      ensures Model() == Step(old(Model()), Register(consumerId, tenant, hasHandler))
      ensures Reply(None, error) == Answer(old(Model()), Register(consumerId, tenant, hasHandler))
    {
      var id := Trim(consumerId);
      if id == "" {
        return Some(BlankConsumerId);
      }
      if !hasHandler {
        return Some(NilHandler);
      }
      handlers := handlers + {id};
      if Trim(tenant) != "" {
        consumerTenants := consumerTenants[id := Trim(tenant)];
      }
      return None;
    }

    method DispatchEvent(consumerId: string, eventId: string, tenant: string, now: Time, failure: Option<string>)
      returns (r: Reply)
      modifies this`records
      ensures Model() == Step(old(Model()), Dispatch(consumerId, eventId, tenant, now, failure))
      ensures r == Answer(old(Model()), Dispatch(consumerId, eventId, tenant, now, failure))
    {
      ghost var c := Dispatch(consumerId, eventId, tenant, now, failure);
      var id, event := Trim(consumerId), Trim(eventId);
      if id == "" {
        return Reply(None, Some(BlankConsumerId));
      }
      if event == "" {
        return Reply(None, Some(BlankEventId));
      }
      if id !in handlers {
        return Reply(None, Some(ConsumerNotRegistered));
      }
      if id in consumerTenants && consumerTenants[id] != tenant {
        return Reply(None, Some(CrossTenantDispatch));
      }
      var key := Key(consumerId, eventId);
      var rec := Record(event, id, tenant, Pending, 0, maxAttempts, "", now, 0, None, None, 0);
      if key in records {
        rec := records[key];
        if rec.status == Delivered {
          return Reply(Some(rec), Some(AlreadyDelivered));
        }
        if rec.status == Quarantined {
          return Reply(Some(rec), Some(RetryLimitReached));
        }
      }
      assert Handled(Model(), c) == Some(rec);
      ghost var before := rec;
      rec := rec.(attempts := rec.attempts + 1, lastAttemptAt := now);
      if failure.None? {
        rec := rec.(status := Delivered, deliveredAt := Some(now), lastError := "");
        r := Reply(Some(rec), None);
      } else {
        rec := rec.(lastError := failure.value);
        if rec.attempts >= rec.maxAttempts {
          rec := rec.(status := Quarantined, quarantinedAt := Some(now));
          r := Reply(Some(rec), Some(MaxRetriesExceeded(failure.value)));
        } else {
          rec := rec.(status := Retrying);
          r := Reply(Some(rec), Some(AttemptFailed(rec.attempts, failure.value)));
        }
      }
      assert rec == Attempted(before, now, failure);
      records := records[key := rec];
    }

    method ReplayEvent(consumerId: string, eventId: string, callerTenant: string, callerIdentity: string, now: Time,
        failure: Option<string>)
      returns (r: Reply)
      modifies this`records
      ensures Model() == Step(old(Model()), Replay(consumerId, eventId, callerTenant, callerIdentity, now, failure))
      ensures r == Answer(old(Model()), Replay(consumerId, eventId, callerTenant, callerIdentity, now, failure))
    {
      if Trim(callerIdentity) == "" {
        return Reply(None, Some(UnauthorizedReplay));
      }
      var key := Key(consumerId, eventId);
      if key !in records {
        return Reply(None, Some(DeliveryRecordNotFound));
      }
      var rec := records[key];
      if rec.status != Quarantined {
        return Reply(None, Some(EventNotQuarantined));
      }
      if Trim(callerTenant) != rec.tenant {
        return Reply(None, Some(CrossTenantReplay));
      }
      if Trim(consumerId) !in handlers {
        return Reply(None, Some(ConsumerNotRegistered));
      }
      rec := rec.(replayedCount := rec.replayedCount + 1, attempts := rec.attempts + 1, lastAttemptAt := now);
      if failure.None? {
        rec := rec.(status := Delivered, deliveredAt := Some(now), lastError := "");
        r := Reply(Some(rec), None);
      } else {
        rec := rec.(lastError := failure.value, status := Quarantined, quarantinedAt := Some(now));
        r := Reply(Some(rec), Some(ReplayFailed(failure.value)));
      }
      records := records[key := rec];
    }

    method ExportState() returns (list: seq<Record>)
      ensures Exports(Model(), list)
    {
      list := [];
      var keys := records.Keys;
      while keys != {}
        invariant keys <= records.Keys
        invariant forall r :: r in list <==> exists k :: k in records.Keys - keys && records[k] == r
      {
        var k :| k in keys;
        list := list + [records[k]];
        keys := keys - {k};
      }
      assert forall r :: r in records.Values <==> exists k :: k in records && records[k] == r;
    }

    method RestoreState(list: seq<Record>)
      modifies this`records
      ensures Model() == old(Model()).(records := Restored(old(records), list))
    {
      for n := 0 to |list|
        invariant records == Restored(old(records), list[..n])
      {
        assert list[..n + 1][..n] == list[..n];
        records := records[Key(list[n].consumerId, list[n].eventId) := list[n]];
      }
      assert list[..|list|] == list;
    }
  }
}
