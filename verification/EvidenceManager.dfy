/** The evidence manager itself: records and custody chains updated in place. */
module EvidenceManager {
  import opened Results
  import opened Text
  import opened Clock
  import opened CustodyChain
  import opened Evidence
  import opened ExportManifest

  method RecordEvent(hash: Hash, k: Key, events: seq<Event>, note: Note, now: Time) returns (e: Event)
    ensures e == NextEvent(hash, k, events, note, now)
    ensures Linked(hash, k, events) ==> Linked(hash, k, events + [e])
  {
    var previous := GENESIS;
    if |events| > 0 {
      previous := events[|events| - 1].eventDigest;
    }
    var id := EventId(k.1, |events| + 1);
    e := Event(id, k.0, k.1, note, now, previous, hash(EventText(previous, id, k, note, now)));
    if Linked(hash, k, events) {
      LinkedAppend(hash, k, events, note, now);
    }
  }

  method RecordEvents(hash: Hash, k: Key, events: seq<Event>, notes: seq<Note>, now: Time) returns (chain: seq<Event>)
    ensures chain == Extend(hash, k, events, notes, now)
  {
    chain := events;
    for n := 0 to |notes|
      invariant chain == Extend(hash, k, events, notes[..n], now)
    {
      ExtendNext(hash, k, events, notes, n, now);
      var e := RecordEvent(hash, k, chain, notes[n], now);
      chain := chain + [e];
    }
    assert notes[..|notes|] == notes;
  }

  class EvidenceIntegrityManager {
    var records: map<Key, Record>
    var custody: map<Key, seq<Event>>

    ghost function Model(): Manager
      reads this
    {
      Manager(records, custody)
    }

    constructor ()
      ensures Model() == Empty
    {
      records, custody := map[], map[];
    }

    /** Appends custody events and writes the record, if any. */
    method Write(env: Env, k: Key, rec: Option<Record>, notes: seq<Note>, now: Time)
      modifies this
      ensures Model() == Apply(env, old(Model()), k, Effect(None, rec, notes), now)
    {
      if notes != [] {
        var chain := RecordEvents(env.hash, k, if k in custody then custody[k] else [], notes, now);
        custody := custody[k := chain];
      }
      if rec.Some? {
        records := records[k := rec.value];
      }
    }

    method RegisterOriginal(env: Env, tenant: string, id: string, name: string, media: string, size: int,
        digest: string, associationType: string, associationId: string, actor: string, now: Time)
      returns (error: Option<EvidenceError>)
      modifies this
      ensures
        var op := Op.RegisterOriginal(tenant, id, actor, now, name, media, size, digest,
                                      associationType, associationId);
        error == Judge(env, old(Model()), op).error && Model() == Step(env, old(Model()), op)
    {
      var k := (Trim(tenant), Trim(id));
      if k.0 == "" {
        return Some(EmptyTenantId);
      }
      if k.1 == "" {
        return Some(EmptyFileId);
      }
      if !env.validName(name) {
        return Some(InvalidFilename);
      }
      if !env.supported(media) {
        return Some(InvalidMediaType);
      }
      if size <= 0 || size > MAX_FILE_SIZE {
        return Some(InvalidSize);
      }
      if |digest| != 64 {
        return Some(InvalidDigest);
      }
      if Trim(associationType) == "" || Trim(associationId) == "" {
        return Some(MissingAssociation);
      }
      if k in records {
        if records[k].committed {
          return Some(OriginalImmutable);
        }
        return Some(DuplicateConflict);
      }
      var rec := Record(k.1, k.0, true, "", "NONE", associationType, associationId, name, media, size, digest,
        Initialized, false, actor);
      Write(env, k, Some(rec), [Note(CaptureLocal, actor, digest, "original evidence registered")], now);
      return None;
    }

    method CommitOriginal(env: Env, tenant: string, id: string, payload: Payload, actor: string, now: Time)
      returns (error: Option<EvidenceError>)
      modifies this
      ensures error == Judge(env, old(Model()), Op.CommitOriginal(tenant, id, actor, now, payload)).error
      ensures Model() == Step(env, old(Model()), Op.CommitOriginal(tenant, id, actor, now, payload))
      ensures error.None? <==>
        && (Trim(tenant), Trim(id)) in old(records)
        && var rec := old(records)[(Trim(tenant), Trim(id))];
          rec.original && !rec.committed && rec.digest == env.digest(payload) && rec.size == |payload|
    {
      var k := (Trim(tenant), Trim(id));
      if k !in records {
        return Some(ObjectNotFound);
      }
      var rec := records[k];
      if !rec.original {
        return Some(DerivedOriginalConfusion);
      }
      if rec.committed {
        return Some(OriginalImmutable);
      }
      var actual := env.digest(payload);
      if actual != rec.digest {
        var details := "integrity verification failed: expected " + rec.digest + ", got " + actual;
        Write(env, k, None, [Note(TamperDetected, actor, actual, details)], now);
        return Some(TamperFound);
      }
      if |payload| != rec.size {
        return Some(InvalidSize);
      }
      rec := rec.(state := Completed, committed := true);
      Write(env, k, Some(rec), [Note(IntegrityVerified, actor, actual, "payload SHA-256 verified successfully"),
                                Note(OriginalCommitted, actor, actual,
                                  "original committed as authoritative and immutable")], now);
      return None;
    }

    method RegisterDerived(env: Env, tenant: string, id: string, parent: string, derivation: string, name: string,
        media: string, size: int, digest: string, actor: string, now: Time)
      returns (error: Option<EvidenceError>)
      modifies this
      ensures
        var op := Op.RegisterDerived(tenant, id, actor, now, name, media, size, digest, parent, derivation);
        error == Judge(env, old(Model()), op).error && Model() == Step(env, old(Model()), op)
    {
      var k, p := (Trim(tenant), Trim(id)), (Trim(tenant), Trim(parent));
      if k.0 == "" {
        return Some(EmptyTenantId);
      }
      if k.1 == "" {
        return Some(EmptyFileId);
      }
      if p.1 == "" {
        return Some(EmptyParentId);
      }
      if derivation == "NONE" || derivation == "" {
        return Some(InvalidDerivationType);
      }
      if !env.validName(name) {
        return Some(InvalidFilename);
      }
      if !env.supported(media) {
        return Some(InvalidMediaType);
      }
      if size <= 0 || size > MAX_FILE_SIZE {
        return Some(InvalidSize);
      }
      if |digest| != 64 {
        return Some(InvalidDigest);
      }
      if p !in records {
        return Some(MissingParent);
      }
      var original := records[p];
      if !original.original {
        return Some(NestedDerivation);
      }
      if !original.committed {
        return Some(NotCommitted);
      }
      if k in records {
        return Some(DuplicateConflict);
      }
      var rec := Record(k.1, k.0, false, p.1, derivation, original.associationType, original.associationId, name,
                        media, size, digest, Initialized, false, actor);
      var details := "derived artifact " + derivation + " created from parent original " + p.1;
      Write(env, k, Some(rec), [Note(DerivedGenerated, actor, digest, details)], now);
      return None;
    }

    method CommitDerived(env: Env, tenant: string, id: string, payload: Payload, actor: string, now: Time)
      returns (error: Option<EvidenceError>)
      modifies this
      ensures error == Judge(env, old(Model()), Op.CommitDerived(tenant, id, actor, now, payload)).error
      ensures Model() == Step(env, old(Model()), Op.CommitDerived(tenant, id, actor, now, payload))
      ensures error.None? <==>
        && (Trim(tenant), Trim(id)) in old(records)
        && var rec := old(records)[(Trim(tenant), Trim(id))];
          !rec.original && !rec.committed && rec.digest == env.digest(payload)
    {
      var k := (Trim(tenant), Trim(id));
      if k !in records {
        return Some(ObjectNotFound);
      }
      var rec := records[k];
      if rec.original {
        return Some(DerivedOriginalConfusion);
      }
      if rec.committed {
        return Some(CompletedImmutable);
      }
      var actual := env.digest(payload);
      if actual != rec.digest {
        Write(env, k, None, [Note(TamperDetected, actor, actual, "derived payload digest mismatch")], now);
        return Some(TamperFound);
      }
      rec := rec.(state := Completed, committed := true);
      Write(env, k, Some(rec),
        [Note(IntegrityVerified, actor, actual, "derived artifact payload verified and committed")], now);
      return None;
    }

    method RecordTransferInterrupted(env: Env, tenant: string, id: string, details: string, actor: string, now: Time)
      returns (error: Option<EvidenceError>)
      modifies this
      ensures error == Judge(env, old(Model()), Op.Interrupt(tenant, id, actor, now, details)).error
      ensures Model() == Step(env, old(Model()), Op.Interrupt(tenant, id, actor, now, details))
    {
      var k := (Trim(tenant), Trim(id));
      if k !in records {
        return Some(ObjectNotFound);
      }
      var rec := records[k];
      if rec.committed {
        return Some(OriginalImmutable);
      }
      Write(env, k, Some(rec.(state := Failed)), [Note(TransferInterrupted, actor, rec.digest, details)], now);
      return None;
    }

    method RecordTransferResumed(env: Env, tenant: string, id: string, actor: string, now: Time)
      returns (error: Option<EvidenceError>)
      modifies this
      ensures error == Judge(env, old(Model()), Op.Resume(tenant, id, actor, now)).error
      ensures Model() == Step(env, old(Model()), Op.Resume(tenant, id, actor, now))
    {
      var k := (Trim(tenant), Trim(id));
      if k !in records {
        return Some(ObjectNotFound);
      }
      var rec := records[k];
      if rec.committed {
        return Some(OriginalImmutable);
      }
      Write(env, k, Some(rec.(state := Transferring)), [Note(TransferResumed, actor, rec.digest, "transfer resumed")],
        now);
      return None;
    }

    method HandleDuplicateUpload(env: Env, tenant: string, id: string, expected: string, payload: Payload,
        actor: string, now: Time)
      returns (same: bool, error: Option<EvidenceError>)
      modifies this
      ensures error == Judge(env, old(Model()), Op.Duplicate(tenant, id, actor, now, expected, payload)).error
      ensures Model() == Step(env, old(Model()), Op.Duplicate(tenant, id, actor, now, expected, payload))
      ensures same <==>
        && (Trim(tenant), Trim(id)) in old(records)
        && var rec := old(records)[(Trim(tenant), Trim(id))];
          rec.committed && rec.digest == env.digest(payload) == expected
    {
      var k := (Trim(tenant), Trim(id));
      if k !in records {
        return false, None;
      }
      var rec, actual := records[k], env.digest(payload);
      if rec.committed {
        if rec.digest == actual && rec.digest == expected {
          var details := "idempotent duplicate upload recognized; original preserved unchanged";
          Write(env, k, None, [Note(IntegrityVerified, actor, actual, details)], now);
          return true, None;
        }
        return false, Some(DuplicateConflict);
      }
      return false, None;
    }

    method VerifyTamper(env: Env, tenant: string, id: string, payload: Payload, actor: string, now: Time)
      returns (error: Option<EvidenceError>)
      modifies this
      ensures error == Judge(env, old(Model()), Op.Verify(tenant, id, actor, now, payload)).error
      ensures error.None? <==>
        (Trim(tenant), Trim(id)) in old(records) && old(records)[(Trim(tenant), Trim(id))].digest == env.digest(payload)
      ensures Model() == Step(env, old(Model()), Op.Verify(tenant, id, actor, now, payload))
    {
      var k := (Trim(tenant), Trim(id));
      if k !in records {
        return Some(ObjectNotFound);
      }
      var rec := records[k];
      var actual := env.digest(payload);
      if actual != rec.digest {
        var details := "tamper detected: candidate digest " + actual + " != committed " + rec.digest;
        Write(env, k, None, [Note(TamperDetected, actor, actual, details)], now);
        return Some(TamperFound);
      }
      return None;
    }

    method PackageItem(env: Env, op: Op, k: Key) returns (r: Result<Item, EvidenceError>)
      requires op.Export?
      modifies this
      ensures records == old(records)
      ensures r.Ok? <==> Exportable(old(Model()), k.0, k.1)
      ensures r.Ok? ==>
        Model() == Apply(env, old(Model()), k, PackagedEffect(old(Model()), op, k), op.now)
        && r.value == ItemOf(records[k])
      ensures r.Err? ==> Model() == old(Model())
    {
      if k !in records {
        return Err(ObjectNotFound);
      }
      var rec := records[k];
      if !rec.committed {
        return Err(NotCommitted);
      }
      Write(env, k, None, [PackagedNote(op, rec.digest)], op.now);
      return Ok(ItemOf(rec));
    }

    /** Packages items up to the first that is missing or uncommitted. */
    method PackageItems(env: Env, op: Op) returns (list: seq<Item>, total: int, bad: Option<EvidenceError>)
      requires op.Export?
      modifies this
      ensures ItemsAre(old(Model()), Trim(op.tenant), op.items, list) && total == TotalSize(list)
      ensures Model() == Packaged(env, old(Model()), op, |list|)
      ensures bad.None? <==> |list| == |op.items|
      ensures bad.Some? ==> !Exportable(old(Model()), Trim(op.tenant), op.items[|list|])
    {
      ghost var m := Model();
      list, total := [], 0;
      for n := 0 to |op.items|
        invariant records == m.records && Model() == Packaged(env, m, op, n)
        invariant |list| == n && ItemsAre(m, Trim(op.tenant), op.items, list) && total == TotalSize(list)
      {
        var item := PackageItem(env, op, (Trim(op.tenant), op.items[n]));
        if item.Err? {
          return list, total, Some(item.error);
        }
        total := total + item.value.size;
        ItemsNext(m, Trim(op.tenant), op.items, list, item.value);
        TotalNext(list, item.value);
        list := list + [item.value];
      }
      return list, total, None;
    }

    /** Fails at the first item that cannot be exported, after recording events for the items before it. */
    method GenerateExportManifest(env: Env, op: Op) returns (r: Result<Manifest, EvidenceError>)
      requires op.Export?
      modifies this
      ensures Model() == Step(env, old(Model()), op) && records == old(records)
      ensures r.Ok? <==>
        && Trim(op.tenant) != "" && Trim(op.id) != "" && op.items != []
        && forall i | 0 <= i < |op.items| ::
             (Trim(op.tenant), op.items[i]) in old(records) && old(records)[(Trim(op.tenant), op.items[i])].committed
      ensures r.Ok? ==> Exports(env, old(Model()), op, r.value)
    {
      if Trim(op.tenant) == "" {
        return Err(EmptyTenantId);
      }
      if Trim(op.id) == "" {
        return Err(BlankExportId);
      }
      if |op.items| == 0 {
        return Err(EmptyExport);
      }
      ghost var m := Model();
      var list, total, bad := PackageItems(env, op);
      GoodItemsAre(m, op, list);
      if bad.Some? {
        return Err(bad.value);
      }
      var root := ComputeRootDigest(env.hash, list);
      return Ok(Manifest(Trim(op.id), Trim(op.tenant), op.actor, list, root, total));
    }
  }

  /**
   Exporting and then verifying with the committed payloads succeeds exactly when every derived item has its declared
   size.
   */
  method ExportThenVerify(manager: EvidenceIntegrityManager, env: Env, op: Op, ghost t: Trace,
      payloads: map<string, Payload>)
    returns (r: Result<Manifest, EvidenceError>, ok: bool)
    requires op.Export? && t.m == manager.Model() && Valid(env, t)
    modifies manager
    ensures r.Ok? <==> ExportArgumentFault(op).None? && GoodItems(t.m, op, 0) == |op.items|
    ensures r.Ok? && SuppliedWith(t, r.value, payloads) ==>
      (ok <==> forall i | 0 <= i < |r.value.items| ::
                 r.value.items[i].original || |payloads[r.value.items[i].id]| == r.value.items[i].size)
  {
    r := manager.GenerateExportManifest(env, op);
    ok := false;
    if r.Ok? {
      ok := VerifyExportManifest(env, r.value, payloads);
      ExportedConsistent(env, t, op, r.value);
      if SuppliedWith(t, r.value, payloads) {
        ManifestVerifiesExactly(env, t, op, r.value, payloads);
      }
    }
  }

  lemma ItemsNext(m: Manager, tenant: string, ids: seq<string>, items: seq<Item>, it: Item)
    requires ItemsAre(m, tenant, ids, items) && |items| < |ids| && ItemIs(m, (tenant, ids[|items|]), it)
    ensures ItemsAre(m, tenant, ids, items + [it])
  {
    var longer := items + [it];
    forall i | 0 <= i < |longer| ensures ItemIs(m, (tenant, ids[i]), longer[i]) {
      assert i < |items| ==> ItemIs(m, (tenant, ids[i]), items[i]) && longer[i] == items[i];
    }
  }

  lemma TotalNext(items: seq<Item>, it: Item)
    ensures TotalSize(items + [it]) == TotalSize(items) + it.size
  {
    assert (items + [it])[..|items|] == items;
  }

  lemma GoodItemsAre(m: Manager, op: Op, items: seq<Item>)
    requires op.Export? && ItemsAre(m, Trim(op.tenant), op.items, items)
    requires |items| < |op.items| ==> !Exportable(m, Trim(op.tenant), op.items[|items|])
    ensures GoodItems(m, op, 0) == |items|
  {
    var n := GoodItems(m, op, 0);
    assert n < |items| ==> ItemIs(m, (Trim(op.tenant), op.items[n]), items[n]);
  }

  lemma ExtendNext(hash: Hash, k: Key, chain: seq<Event>, notes: seq<Note>, n: nat, at: Time)
    requires n < |notes|
    ensures Extend(hash, k, chain, notes[..0], at) == chain
    ensures
      var before := Extend(hash, k, chain, notes[..n], at);
      Extend(hash, k, chain, notes[..n + 1], at) == before + [NextEvent(hash, k, before, notes[n], at)]
  {
    assert notes[..n + 1][..n] == notes[..n];
  }
}
