/**
 The registry of versioned API, event and schema contracts: one owner per contract, growing version
 histories, dependencies on registered versions and migration paths across breaking steps.
 */
module CompatibilityRegistry {
  import opened Results
  import opened Text
  import Digraph

  datatype Kind = Api | Event | Schema | OtherKind(text: string)

  datatype Direction = Backward | Forward | Bidirectional | Breaking | OtherDirection(text: string)

  datatype SemVer = SemVer(major: int, minor: int, patch: int)

  datatype DependencyRef = DependencyRef(name: string, kind: Kind, version: SemVer)

  datatype MigrationPath = MigrationPath(
    id: string, from: SemVer, to: SemVer, strategy: string, description: string, instructions: seq<string>)

  datatype Entry = Entry(
    name: string, kind: Kind, owner: string, version: SemVer, digest: string, direction: Direction,
    dependencies: seq<DependencyRef>, migration: Option<MigrationPath>, description: string)

  datatype RegistryError =
    | BlankMetadata | InvalidKind | InvalidDigest | InvalidDirection | InvalidMigrationPath | CrossModuleMutationDenied
    | UnknownDependency | DuplicateOwnership | VersionConflict | VersionRegression | IncompatibleWithoutMigrationPath
    | ContractNotFound

  // ---- versions ----

  /** Negative, zero or positive as `a` precedes, equals or follows `b`. */
  function Compare(a: SemVer, b: SemVer): int {
    if a.major != b.major then if a.major < b.major then -1 else 1
    else if a.minor != b.minor then if a.minor < b.minor then -1 else 1
    else if a.patch != b.patch then if a.patch < b.patch then -1 else 1
    else 0
  }

  predicate Precedes(a: SemVer, b: SemVer) { Compare(a, b) < 0 }

  function Components(v: SemVer): seq<int> { [v.major, v.minor, v.patch] }

  ghost predicate AgreeBefore(a: SemVer, b: SemVer, i: int) {
    forall j | 0 <= j < i && j < 3 :: Components(a)[j] == Components(b)[j]
  }

  /** The first component that differs, from left to right, decides: section 11 of Semantic Versioning 2.0.0. */
  lemma PrecedenceIsLexicographic(a: SemVer, b: SemVer)
    ensures Precedes(a, b) <==> exists i | 0 <= i < 3 :: Components(a)[i] < Components(b)[i] && AgreeBefore(a, b, i)
    ensures Compare(a, b) == 0 <==> a == b
    ensures Compare(a, b) == -Compare(b, a)
  {
    var x, y := Components(a), Components(b);
    forall i | 0 <= i < 3 && x[i] < y[i] && AgreeBefore(a, b, i) ensures Precedes(a, b) {
      assert (i > 0 ==> x[0] == y[0]) && (i > 1 ==> x[1] == y[1]);
    }
    if Precedes(a, b) {
      var i := if a.major != b.major then 0 else if a.minor != b.minor then 1 else 2;
      assert x[i] < y[i] && AgreeBefore(a, b, i);
    }
  }

  // ---- entries ----

  type Key = (string, Kind)

  /** The map key as text; a registered kind has no NUL character in its text. */
  function KeyText(k: Key): string {
    k.0 + "\0" + (match k.1 case Api => "API" case Event => "EVENT" case Schema => "SCHEMA" case OtherKind(t) => t)
  }

  /** Keys of valid kinds stay apart as text, so pairs stand for them. */
  lemma KeyTextInjective(a: Key, b: Key)
    requires !a.1.OtherKind? && !b.1.OtherKind?
    requires KeyText(a) == KeyText(b)
    ensures a == b
  {
    var s := KeyText(a);
    assert s[|a.0|] == '\0' && s[|b.0|] == '\0';
    assert forall i | |a.0| < i < |s| :: s[i] != '\0';
    assert forall i | |b.0| < i < |s| :: s[i] != '\0';
    assert |a.0| == |b.0|;
    assert a.0 == s[..|a.0|] && b.0 == s[..|b.0|];
    assert s[|a.0| + 1] == (match a.1 case Api => 'A' case Event => 'E' case Schema => 'S');
    assert s[|a.0| + 1] == (match b.1 case Api => 'A' case Event => 'E' case Schema => 'S');
  }

  function KeyOf(name: string, kind: Kind): Key { (Trim(name), kind) }

  function DependencyFault(d: DependencyRef): Option<RegistryError> {
    if Trim(d.name) == "" then Some(BlankMetadata) else if d.kind.OtherKind? then Some(InvalidKind) else None
  }

  function MigrationFault(m: MigrationPath): Option<RegistryError> {
    if Trim(m.id) == "" || Trim(m.strategy) == "" || Trim(m.description) == "" then Some(BlankMetadata)
    else if !Precedes(m.from, m.to) then Some(InvalidMigrationPath)
    else None
  }

  function FirstFault(deps: seq<DependencyRef>): Option<RegistryError> {
    if deps == [] then None
    else if DependencyFault(deps[0]).Some? then DependencyFault(deps[0])
    else FirstFault(deps[1..])
  }

  function EntryFault(e: Entry): Option<RegistryError> {
    if Trim(e.name) == "" then Some(BlankMetadata)
    else if e.kind.OtherKind? then Some(InvalidKind)
    else if Trim(e.owner) == "" then Some(BlankMetadata)
    else if !HexDigest(Trim(e.digest)) then Some(InvalidDigest)
    else if e.direction.OtherDirection? then Some(InvalidDirection)
    else if FirstFault(e.dependencies).Some? then FirstFault(e.dependencies)
    else if e.migration.None? then None
    else if MigrationFault(e.migration.value).Some? then MigrationFault(e.migration.value)
    else if e.migration.value.to != e.version then Some(InvalidMigrationPath)
    else None
  }

  function NormalMigration(m: MigrationPath): MigrationPath {
    m.(id := Trim(m.id), strategy := Trim(m.strategy), description := Trim(m.description),
       instructions := seq(|m.instructions|, i requires 0 <= i < |m.instructions| => Trim(m.instructions[i])))
  }

  function NormalDependencies(deps: seq<DependencyRef>): seq<DependencyRef> {
    seq(|deps|, i requires 0 <= i < |deps| => deps[i].(name := Trim(deps[i].name)))
  }

  /** The entry as it is stored. */
  function Normal(e: Entry): Entry {
    e.(name := Trim(e.name), owner := Trim(e.owner), digest := Trim(e.digest), description := Trim(e.description),
       dependencies := NormalDependencies(e.dependencies),
       migration := if e.migration.None? then None else Some(NormalMigration(e.migration.value)))
  }

  // ---- registration ----

  datatype State = State(owners: map<Key, string>, entries: map<Key, seq<Entry>>)

  const Empty: State := State(map[], map[])

  function History(s: State, k: Key): seq<Entry> { if k in s.entries then s.entries[k] else [] }

  predicate HasVersion(h: seq<Entry>, v: SemVer) { exists i | 0 <= i < |h| :: h[i].version == v }

  predicate Resolved(s: State, d: DependencyRef) { HasVersion(History(s, KeyOf(d.name, d.kind)), d.version) }

  predicate AllResolved(s: State, deps: seq<DependencyRef>) {
    forall i | 0 <= i < |deps| :: Resolved(s, deps[i])
  }

  /** Metadata that a repeated registration of a version must match; dependencies and migration are not compared. */
  predicate SameMetadata(a: Entry, b: Entry) {
    a.owner == b.owner && a.digest == b.digest && a.direction == b.direction && a.description == b.description
  }

  predicate Repeats(h: seq<Entry>, e: Entry) {
    exists i | 0 <= i < |h| :: h[i].version == e.version && SameMetadata(h[i], e)
  }

  predicate IsBreaking(latest: SemVer, e: Entry) {
    e.version.major > latest.major || e.direction == Breaking || e.direction == Forward
  }

  predicate MigratesFrom(e: Entry, v: SemVer) { e.migration.Some? && e.migration.value.from == v }

  datatype Outcome = Refused(error: RegistryError) | Unchanged | Appended

  function Evolve(h: seq<Entry>, e: Entry): Outcome {
    if h == [] then Appended
    else if HasVersion(h, e.version) then
      if Repeats(h, e) then Unchanged else Refused(VersionConflict)
    else
      var latest := h[|h| - 1].version;
      if !Precedes(latest, e.version) then Refused(VersionRegression)
      else if !IsBreaking(latest, e) || MigratesFrom(e, latest) then Appended
      else if e.migration.None? then Refused(IncompatibleWithoutMigrationPath)
      else Refused(InvalidMigrationPath)
  }

  function RegisterOutcome(s: State, caller: string, e: Entry): Outcome {
    if Trim(caller) == "" then Refused(BlankMetadata)
    else if EntryFault(e).Some? then Refused(EntryFault(e).value)
    else if Trim(caller) != Trim(e.owner) then Refused(CrossModuleMutationDenied)
    else if !AllResolved(s, NormalDependencies(e.dependencies)) then Refused(UnknownDependency)
    else
      var k := KeyOf(e.name, e.kind);
      if k in s.owners && s.owners[k] != Trim(e.owner) then Refused(DuplicateOwnership)
      else Evolve(History(s, k), Normal(e))
  }

  function Add(s: State, k: Key, e: Entry): State {
    State(if k in s.owners then s.owners else s.owners[k := e.owner], s.entries[k := History(s, k) + [e]])
  }

  function Step(s: State, caller: string, e: Entry): State {
    if RegisterOutcome(s, caller, e) == Appended then Add(s, KeyOf(e.name, e.kind), Normal(e)) else s
  }

  datatype Registration = Registration(caller: string, entry: Entry)

  function Run(s: State, ops: seq<Registration>): State
    decreases |ops|
  {
    if ops == [] then s else Run(Step(s, ops[0].caller, ops[0].entry), ops[1..])
  }

  // ---- what every registry keeps ----

  ghost predicate Increasing(h: seq<Entry>, i: nat, j: nat) {
    i < j < |h| ==> Precedes(h[i].version, h[j].version)
  }

  /** A breaking step carries a migration from exactly the version before it. */
  ghost predicate Bridged(h: seq<Entry>, i: nat) {
    0 < i < |h| && IsBreaking(h[i - 1].version, h[i]) ==>
      MigratesFrom(h[i], h[i - 1].version) && h[i].migration.value.to == h[i].version
  }

  ghost predicate HistoryValid(k: Key, owner: string, h: seq<Entry>) {
    && h != []
    && (forall i | 0 <= i < |h| :: h[i].name == k.0 && h[i].kind == k.1 && h[i].owner == owner)
    && (forall i, j :: Increasing(h, i, j))
    && (forall i :: Bridged(h, i))
  }

  ghost predicate DependenciesResolve(s: State) {
    forall k, i | k in s.entries && 0 <= i < |s.entries[k]| :: AllResolved(s, s.entries[k][i].dependencies)
  }

  type Node = (Key, SemVer)

  /** `b` is declared as a dependency by the registered version `a`. */
  ghost predicate Declares(s: State, a: Node, b: Node) {
    exists i, j | 0 <= i < |History(s, a.0)| && 0 <= j < |History(s, a.0)[i].dependencies| ::
      History(s, a.0)[i].version == a.1 && Names(History(s, a.0)[i].dependencies[j], b)
  }

  ghost predicate Names(d: DependencyRef, b: Node) { KeyOf(d.name, d.kind) == b.0 && d.version == b.1 }

  ghost function DependsOn(s: State): (Node, Node) -> bool {
    (a: Node, b: Node) => Declares(s, a, b)
  }

  ghost predicate Valid(s: State) {
    && s.owners.Keys == s.entries.Keys
    && (forall k | k in s.entries :: HistoryValid(k, s.owners[k], s.entries[k]))
    && DependenciesResolve(s)
    && !Digraph.Cyclic(DependsOn(s))
  }

  // ---- one registration keeps it ----

  lemma AppendHistory(k: Key, owner: string, h: seq<Entry>, e: Entry)
    requires h != [] ==> HistoryValid(k, owner, h)
    requires e.name == k.0 && e.kind == k.1 && e.owner == owner
    requires h != [] ==> Precedes(h[|h| - 1].version, e.version)
    requires h != [] && IsBreaking(h[|h| - 1].version, e) ==>
      MigratesFrom(e, h[|h| - 1].version) && e.migration.value.to == e.version
    ensures HistoryValid(k, owner, h + [e])
  {
    var g := h + [e];
    forall i: nat, j: nat ensures Increasing(g, i, j) {
      if i < j < |g| {
        assert Increasing(h, i, j);
        assert Increasing(h, i, |h| - 1);
      }
    }
    forall i: nat ensures Bridged(g, i) {
      if 0 < i < |h| {
        assert Bridged(h, i);
      }
    }
  }

  lemma AddedHistories(s: State, k: Key, e: Entry)
    ensures forall j :: History(Add(s, k, e), j) == if j == k then History(s, k) + [e] else History(s, j)
  {}

  lemma ResolvedForever(s: State, k: Key, e: Entry, d: DependencyRef)
    requires Resolved(s, d)
    ensures Resolved(Add(s, k, e), d)
  {
    var key := KeyOf(d.name, d.kind);
    var i :| 0 <= i < |History(s, key)| && History(s, key)[i].version == d.version;
    AddedHistories(s, k, e);
    assert History(Add(s, k, e), key)[i].version == d.version;
  }

  lemma AddResolves(s: State, k: Key, e: Entry)
    requires DependenciesResolve(s) && AllResolved(s, e.dependencies)
    ensures DependenciesResolve(Add(s, k, e))
  {
    var t := Add(s, k, e);
    forall j, i | j in t.entries && 0 <= i < |t.entries[j]| ensures AllResolved(t, t.entries[j][i].dependencies) {
      var deps := t.entries[j][i].dependencies;
      assert AllResolved(s, deps) by {
        if j == k && i == |History(s, k)| {
          assert t.entries[j][i] == e;
        } else {
          assert t.entries[j][i] == s.entries[j][i];
        }
      }
      forall x | 0 <= x < |deps| ensures Resolved(t, deps[x]) {
        ResolvedForever(s, k, e, deps[x]);
      }
    }
  }

  /** Nothing declares the version being added, and every other version declares what it declared before. */
  lemma AddedEdges(s: State, k: Key, e: Entry, a: Node, b: Node)
    requires DependenciesResolve(s) && AllResolved(s, e.dependencies)
    requires !HasVersion(History(s, k), e.version)
    requires Declares(Add(s, k, e), a, b)
    ensures b != (k, e.version)
    ensures a != (k, e.version) ==> Declares(s, a, b)
  {
    var t := Add(s, k, e);
    var h := History(t, a.0);
    var i, j :| 0 <= i < |h| && 0 <= j < |h[i].dependencies| && h[i].version == a.1 && Names(h[i].dependencies[j], b);
    var d := h[i].dependencies[j];
    AddedHistories(s, k, e);
    var old' := i < |History(s, a.0)|;
    assert Resolved(s, d) by {
      if old' {
        assert h[i] == History(s, a.0)[i] == s.entries[a.0][i];
        assert AllResolved(s, s.entries[a.0][i].dependencies);
      } else {
        assert h[i] == e;
      }
    }
    if old' {
      assert History(s, a.0)[i].version == a.1 && Names(History(s, a.0)[i].dependencies[j], b);
    }
  }

  lemma AddAcyclic(s: State, k: Key, e: Entry)
    requires DependenciesResolve(s) && AllResolved(s, e.dependencies)
    requires !HasVersion(History(s, k), e.version)
    requires !Digraph.Cyclic(DependsOn(s))
    ensures !Digraph.Cyclic(DependsOn(Add(s, k, e)))
  {
    var t := Add(s, k, e);
    forall p | Digraph.Cycle(DependsOn(t), p) ensures Digraph.Cycle(DependsOn(s), p) {
      forall i | 0 <= i < |p| - 1 ensures Digraph.Step(DependsOn(s), p, i) {
        assert Digraph.Step(DependsOn(t), p, i);
        AddedEdges(s, k, e, p[i], p[i + 1]);
        var before := if i == 0 then |p| - 2 else i - 1;
        assert Digraph.Step(DependsOn(t), p, before);
        AddedEdges(s, k, e, p[before], p[before + 1]);
      }
    }
  }

  lemma AddValid(s: State, k: Key, e: Entry)
    requires Valid(s)
    requires HistoryValid(k, if k in s.owners then s.owners[k] else e.owner, History(s, k) + [e])
    requires AllResolved(s, e.dependencies) && !HasVersion(History(s, k), e.version)
    ensures Valid(Add(s, k, e))
  {
    AddResolves(s, k, e);
    AddAcyclic(s, k, e);
  }

  lemma NormalKeepsKey(e: Entry)
    ensures KeyOf(Normal(e).name, Normal(e).kind) == KeyOf(e.name, e.kind) == (Normal(e).name, Normal(e).kind)
  {
    TrimIdempotent(e.name);
  }

  lemma EvolvedHistory(k: Key, owner: string, h: seq<Entry>, e: Entry)
    requires h != [] ==> HistoryValid(k, owner, h)
    requires e.name == k.0 && e.kind == k.1 && e.owner == owner
    requires e.migration.Some? ==> e.migration.value.to == e.version
    requires Evolve(h, e) == Appended
    ensures HistoryValid(k, owner, h + [e]) && !HasVersion(h, e.version)
  {
    AppendHistory(k, owner, h, e);
  }

  /** What a registration must satisfy before its version is looked at. */
  ghost predicate Admissible(s: State, caller: string, e: Entry) {
    && Trim(caller) == Trim(e.owner) && EntryFault(e).None?
    && AllResolved(s, NormalDependencies(e.dependencies))
    && (KeyOf(e.name, e.kind) in s.owners ==> s.owners[KeyOf(e.name, e.kind)] == Trim(e.owner))
  }

  lemma AdmissibleEvolves(s: State, caller: string, e: Entry)
    ensures if Admissible(s, caller, e)
      then RegisterOutcome(s, caller, e) == Evolve(History(s, KeyOf(e.name, e.kind)), Normal(e))
            else RegisterOutcome(s, caller, e).Refused?
  {}

  lemma NormalMigrationTarget(e: Entry)
    requires EntryFault(e).None?
    ensures Normal(e).migration.Some? ==>
      Normal(e).migration.value.to == e.version && Precedes(Normal(e).migration.value.from, e.version)
  {}

  lemma StepValid(s: State, caller: string, e: Entry)
    requires Valid(s)
    ensures Valid(Step(s, caller, e))
  {
    if RegisterOutcome(s, caller, e) == Appended {
      var k := KeyOf(e.name, e.kind);
      AdmissibleEvolves(s, caller, e);
      NormalKeepsKey(e);
      NormalMigrationTarget(e);
      EvolvedHistory(k, Normal(e).owner, History(s, k), Normal(e));
      AddValid(s, k, Normal(e));
    }
  }

  lemma EmptyValid()
    ensures Valid(Empty)
  {
    Digraph.RankedAcyclic(DependsOn(Empty), (n: Node) => 0);
  }

  lemma {:induction false} RunValid(s: State, ops: seq<Registration>)
    requires Valid(s)
    ensures Valid(Run(s, ops))
    decreases |ops|
  {
    if ops != [] {
      StepValid(s, ops[0].caller, ops[0].entry);
      RunValid(Step(s, ops[0].caller, ops[0].entry), ops[1..]);
    }
  }

  /** Every registry built by registrations from the empty one. */
  lemma EveryRunValid(ops: seq<Registration>)
    ensures Valid(Run(Empty, ops))
  {
    EmptyValid();
    RunValid(Empty, ops);
  }

  /** Histories only grow, owners stay, and what resolved once resolves ever after. */
  lemma {:induction false} NothingIsWithdrawn(s: State, ops: seq<Registration>, k: Key, d: DependencyRef)
    ensures History(s, k) <= History(Run(s, ops), k)
    ensures k in s.owners ==> k in Run(s, ops).owners && Run(s, ops).owners[k] == s.owners[k]
    ensures Resolved(s, d) ==> Resolved(Run(s, ops), d)
    decreases |ops|
  {
    if ops != [] {
      var e := ops[0].entry;
      var t := Step(s, ops[0].caller, e);
      NothingIsWithdrawn(t, ops[1..], k, d);
      AddedHistories(s, KeyOf(e.name, e.kind), Normal(e));
      if Resolved(s, d) {
        ResolvedForever(s, KeyOf(e.name, e.kind), Normal(e), d);
      }
    }
  }

  /** A version once accepted is found in every later state, with the metadata and dependencies it was accepted with. */
  lemma AcceptedForever(s: State, caller: string, e: Entry, ops: seq<Registration>)
    requires RegisterOutcome(s, caller, e) == Appended
    ensures var k := KeyOf(e.name, e.kind);
      var h := History(Run(Step(s, caller, e), ops), k);
      |History(s, k)| < |h| && h[|History(s, k)|] == Normal(e)
  {
    var k := KeyOf(e.name, e.kind);
    AddedHistories(s, k, Normal(e));
    NothingIsWithdrawn(Step(s, caller, e), ops, k, DependencyRef("", Api, SemVer(0, 0, 0)));
  }

  /** Between two registered versions of different major numbers some step carries a migration. */
  lemma {:induction false} MajorGapIsBridged(k: Key, owner: string, h: seq<Entry>, i: nat, j: nat) returns (m: nat)
    requires HistoryValid(k, owner, h) && i < j < |h| && h[i].version.major != h[j].version.major
    ensures i < m <= j && MigratesFrom(h[m], h[m - 1].version) && h[m].migration.value.to == h[m].version
    decreases j
  {
    assert Bridged(h, j) && Increasing(h, j - 1, j) && Increasing(h, i, j);
    if h[j - 1].version.major < h[j].version.major {
      m := j;
    } else {
      m := MajorGapIsBridged(k, owner, h, i, j - 1);
    }
  }

  // ---- the evaluation of an evolution ----

  datatype Decision = Compatible | MigrationRequired | Incompatible

  datatype Evaluation = Evaluation(
    decision: Decision, direction: Direction, requiresMigration: bool, migration: Option<MigrationPath>,
      error: Option<RegistryError>)

  function EvaluateEvolution(existing: Entry, candidate: Entry): Evaluation {
    if existing.name != candidate.name || existing.kind != candidate.kind || existing.owner != candidate.owner then
      Evaluation(Incompatible, candidate.direction, false, None, None)
    else if Compare(existing.version, candidate.version) == 0 && existing.digest == candidate.digest then
      Evaluation(Compatible, candidate.direction, false, None, None)
    else if Compare(candidate.version, existing.version) < 0 then
      Evaluation(Incompatible, candidate.direction, false, None, Some(VersionRegression))
    else if candidate.version.major > existing.version.major || candidate.direction == Breaking
      || candidate.direction == Forward then
      if candidate.migration.Some? && Compare(candidate.migration.value.from, existing.version) == 0 then
        Evaluation(MigrationRequired, candidate.direction, true, candidate.migration, None)
      else
        Evaluation(Incompatible, candidate.direction, true, None, None)
    else
      Evaluation(Compatible, candidate.direction, false, None, None)
  }

  /**
   A step that older consumers cannot follow unaided, as section 8 of Semantic Versioning 2.0.0 reserves for majors.
   */
  ghost predicate Disruptive(a: Entry, b: Entry) {
    b.version.major > a.version.major || b.direction in {Breaking, Forward}
  }

  /** The decision table of an evaluation, for any two entries. */
  lemma EvaluationTable(a: Entry, b: Entry)
    ensures
      var v := EvaluateEvolution(a, b);
      if (a.name, a.kind, a.owner) != (b.name, b.kind, b.owner)
        then v == Evaluation(Incompatible, b.direction, false, None, None)
      else if a.version == b.version && a.digest == b.digest
        then v == Evaluation(Compatible, b.direction, false, None, None)
      else if Precedes(b.version, a.version)
        then v == Evaluation(Incompatible, b.direction, false, None, Some(VersionRegression))
      else if !Disruptive(a, b) then v == Evaluation(Compatible, b.direction, false, None, None)
      else if b.migration.Some? && b.migration.value.from == a.version then
        v == Evaluation(MigrationRequired, b.direction, true, b.migration, None)
      else v == Evaluation(Incompatible, b.direction, true, None, None)
  {
    PrecedenceIsLexicographic(a.version, b.version);
    if b.migration.Some? {
      PrecedenceIsLexicographic(b.migration.value.from, a.version);
    }
  }

  /**
   Adjacent registered versions evaluate as compatible, or as requiring exactly the registered migration from the older
   to the newer, the latter just when the step is disruptive.
   */
  lemma NeighboursEvaluate(s: State, k: Key, i: nat)
    requires Valid(s) && k in s.entries && 0 < i < |s.entries[k]|
    ensures
      var a, b := s.entries[k][i - 1], s.entries[k][i];
      var v := EvaluateEvolution(a, b);
      && v.decision == (if Disruptive(a, b) then MigrationRequired else Compatible)
      && (v.requiresMigration <==> Disruptive(a, b)) && v.error == None && v.direction == b.direction
      && (Disruptive(a, b) ==>
         v.migration.Some? && v.migration.value.from == a.version && v.migration.value.to == b.version)
  {
    var h := s.entries[k];
    assert HistoryValid(k, s.owners[k], h);
    assert Increasing(h, i - 1, i) && Bridged(h, i);
    EvaluationTable(h[i - 1], h[i]);
    PrecedenceIsLexicographic(h[i - 1].version, h[i].version);
  }

  /** The entries that pass validation, exactly, in their own fields. */
  lemma EntryValidExactly(e: Entry)
    ensures EntryFault(e).None? <==>
      && Trim(e.name) != "" && !e.kind.OtherKind? && Trim(e.owner) != "" && HexDigest(Trim(e.digest))
      && !e.direction.OtherDirection?
      && (forall i | 0 <= i < |e.dependencies| ::
            Trim(e.dependencies[i].name) != "" && !e.dependencies[i].kind.OtherKind?)
      && (e.migration.Some? ==>
            && Trim(e.migration.value.id) != "" && Trim(e.migration.value.strategy) != ""
            && Trim(e.migration.value.description) != "" && Precedes(e.migration.value.from, e.version)
            && e.migration.value.to == e.version)
  {
    FirstFaultExactly(e.dependencies);
  }

  lemma {:induction false} FirstFaultExactly(deps: seq<DependencyRef>)
    ensures FirstFault(deps).None? <==>
      forall i | 0 <= i < |deps| :: Trim(deps[i].name) != "" && !deps[i].kind.OtherKind?
  {
    if deps != [] {
      FirstFaultExactly(deps[1..]);
      assert deps == [deps[0]] + deps[1..];
    }
  }

  /** What is stored is what was given, trimmed. */
  lemma NormalKeeps(e: Entry)
    ensures
      var n := Normal(e);
      && n.name == Trim(e.name) && n.kind == e.kind && n.owner == Trim(e.owner) && n.version == e.version
      && n.digest == Trim(e.digest) && n.direction == e.direction && n.description == Trim(e.description)
      && |n.dependencies| == |e.dependencies|
      && (forall i | 0 <= i < |e.dependencies| ::
            n.dependencies[i]
              == DependencyRef(Trim(e.dependencies[i].name), e.dependencies[i].kind, e.dependencies[i].version))
      && (n.migration.Some? <==> e.migration.Some?)
      && (e.migration.Some? ==>
            var x, y := e.migration.value, n.migration.value;
            && y.from == x.from && y.to == x.to && y.id == Trim(x.id) && y.strategy == Trim(x.strategy)
            && y.description == Trim(x.description) && |y.instructions| == |x.instructions|
            && forall i | 0 <= i < |x.instructions| :: y.instructions[i] == Trim(x.instructions[i]))
  {}

  ghost function Latest(s: State, e: Entry): Entry
    requires History(s, KeyOf(e.name, e.kind)) != []
  {
    var h := History(s, KeyOf(e.name, e.kind));
    h[|h| - 1]
  }

  lemma NewerIsNew(k: Key, owner: string, h: seq<Entry>, v: SemVer)
    requires HistoryValid(k, owner, h) && Precedes(h[|h| - 1].version, v)
    ensures !HasVersion(h, v)
  {
    forall i | 0 <= i < |h| ensures h[i].version != v {
      assert Increasing(h, i, |h| - 1);
    }
  }

  lemma NewerEvolves(k: Key, owner: string, h: seq<Entry>, e: Entry)
    requires HistoryValid(k, owner, h) && e.name == k.0 && e.kind == k.1 && e.owner == owner
    requires Precedes(h[|h| - 1].version, e.version)
    ensures Evolve(h, e) == Appended <==> EvaluateEvolution(h[|h| - 1], e).decision != Incompatible
    ensures !Evolve(h, e).Unchanged?
  {
    NewerIsNew(k, owner, h, e.version);
  }

  /** For a version newer than the latest, registration and evaluation agree. */
  lemma RegistrationAgreesWithEvaluation(s: State, caller: string, e: Entry)
    requires Valid(s) && Admissible(s, caller, e)
    requires History(s, KeyOf(e.name, e.kind)) != []
    requires Precedes(Latest(s, e).version, e.version)
    ensures RegisterOutcome(s, caller, e) == Appended <==>
      EvaluateEvolution(Latest(s, e), Normal(e)).decision != Incompatible
    ensures !RegisterOutcome(s, caller, e).Unchanged?
  {
    AdmissibleEvolves(s, caller, e);
    NormalKeepsKey(e);
    NewerEvolves(KeyOf(e.name, e.kind), Trim(e.owner), History(s, KeyOf(e.name, e.kind)), Normal(e));
  }

  /** Every registration that succeeds, exactly. */
  lemma AcceptedExactly(s: State, caller: string, e: Entry)
    requires Valid(s)
    ensures !RegisterOutcome(s, caller, e).Refused? <==>
      && Admissible(s, caller, e)
      && var h := History(s, KeyOf(e.name, e.kind));
         || h == []
         || (exists i | 0 <= i < |h| ::
               && h[i].version == e.version && h[i].digest == Trim(e.digest) && h[i].direction == e.direction
               && h[i].description == Trim(e.description))
         || (Precedes(h[|h| - 1].version, e.version)
            && EvaluateEvolution(h[|h| - 1], Normal(e)).decision != Incompatible)
  {
    var k := KeyOf(e.name, e.kind);
    var h := History(s, k);
    AdmissibleEvolves(s, caller, e);
    if Admissible(s, caller, e) && h != [] {
      NormalKeepsKey(e);
      EvolveAccepts(k, s.owners[k], h, Normal(e));
    }
  }

  lemma EvolveAccepts(k: Key, owner: string, h: seq<Entry>, e: Entry)
    requires HistoryValid(k, owner, h) && e.name == k.0 && e.kind == k.1 && e.owner == owner
    ensures !Evolve(h, e).Refused? <==>
      Repeats(h, e)
        || (Precedes(h[|h| - 1].version, e.version) && EvaluateEvolution(h[|h| - 1], e).decision != Incompatible)
  {
    if Precedes(h[|h| - 1].version, e.version) {
      NewerEvolves(k, owner, h, e);
    }
  }

  /** For candidates that are not newer, what agreement takes: the latest version, or an older one. */
  predicate AgreesAt(h: seq<Entry>, e: Entry)
    requires h != []
  {
    var latest := h[|h| - 1];
    if Precedes(latest.version, e.version) then true
    else if latest.version == e.version then
      SameMetadata(latest, e) <==> latest.digest == e.digest || !IsBreaking(latest.version, e)
    else !Repeats(h, e)
  }

  lemma RepeatsAtLatest(k: Key, owner: string, h: seq<Entry>, e: Entry)
    requires HistoryValid(k, owner, h) && h[|h| - 1].version == e.version
    ensures Repeats(h, e) <==> SameMetadata(h[|h| - 1], e)
  {
    OneOfAVersion(k, owner, h, |h| - 1);
  }

  lemma EvolutionAgrees(k: Key, owner: string, h: seq<Entry>, e: Entry)
    requires HistoryValid(k, owner, h) && e.name == k.0 && e.kind == k.1 && e.owner == owner
    requires e.migration.Some? ==> Precedes(e.migration.value.from, e.version)
    ensures (!Evolve(h, e).Refused? <==> EvaluateEvolution(h[|h| - 1], e).decision != Incompatible) <==> AgreesAt(h, e)
  {
    EvolveAccepts(k, owner, h, e);
    PrecedenceIsLexicographic(h[|h| - 1].version, e.version);
    if Precedes(h[|h| - 1].version, e.version) {
      NewerEvolves(k, owner, h, e);
    } else if h[|h| - 1].version == e.version {
      RepeatsAtLatest(k, owner, h, e);
    }
  }

  /**
   Registration and evaluation of an admissible candidate agree exactly when it is newer than the latest, or has the
   latest version and the same metadata just when its digest is the same or it is not breaking, or is older and
   no repetition.
   */
  lemma AgreementExactly(s: State, caller: string, e: Entry)
    requires Valid(s) && Admissible(s, caller, e) && History(s, KeyOf(e.name, e.kind)) != []
    ensures (!RegisterOutcome(s, caller, e).Refused? <==>
      EvaluateEvolution(Latest(s, e), Normal(e)).decision != Incompatible)
      <==> AgreesAt(History(s, KeyOf(e.name, e.kind)), Normal(e))
  {
    AdmissibleEvolves(s, caller, e);
    NormalKeepsKey(e);
    NormalMigrationTarget(e);
    EvolutionAgrees(KeyOf(e.name, e.kind), Trim(e.owner), History(s, KeyOf(e.name, e.kind)), Normal(e));
  }

  /** At the latest version a changed digest evaluates as compatible and is refused. */
  lemma SameVersionDisagrees(s: State, caller: string, e: Entry)
    requires Valid(s) && Admissible(s, caller, e)
    requires History(s, KeyOf(e.name, e.kind)) != []
    requires Latest(s, e).version == e.version && Latest(s, e).digest != Trim(e.digest)
    requires e.direction == Backward
    ensures EvaluateEvolution(Latest(s, e), Normal(e)).decision == Compatible
    ensures RegisterOutcome(s, caller, e) == Refused(VersionConflict)
  {
    var h := History(s, KeyOf(e.name, e.kind));
    AdmissibleEvolves(s, caller, e);
    NormalKeepsKey(e);
    RepeatsAtLatest(KeyOf(e.name, e.kind), Trim(e.owner), h, Normal(e));
    assert h[|h| - 1].version == e.version;
  }

  method ValidateEntry(e: Entry) returns (fault: Option<RegistryError>)
    ensures fault == EntryFault(e)
  {
    if Trim(e.name) == "" {
      return Some(BlankMetadata);
    }
    if e.kind.OtherKind? {
      return Some(InvalidKind);
    }
    if Trim(e.owner) == "" {
      return Some(BlankMetadata);
    }
    if !HexDigest(Trim(e.digest)) {
      return Some(InvalidDigest);
    }
    if e.direction.OtherDirection? {
      return Some(InvalidDirection);
    }
    for n := 0 to |e.dependencies|
      invariant FirstFault(e.dependencies) == FirstFault(e.dependencies[n..])
    {
      var bad := DependencyFault(e.dependencies[n]);
      if bad.Some? {
        return bad;
      }
    }
    if e.migration.Some? {
      var bad := MigrationFault(e.migration.value);
      if bad.Some? {
        return bad;
      }
      if Compare(e.migration.value.to, e.version) != 0 {
        return Some(InvalidMigrationPath);
      }
    }
    return None;
  }

  /** The position of a version in a history, -1 when it is not there. */
  method FindVersion(h: seq<Entry>, v: SemVer) returns (at: int)
    ensures at == -1 <==> !HasVersion(h, v)
    ensures at != -1 ==> 0 <= at < |h| && h[at].version == v && forall i | 0 <= i < at :: h[i].version != v
  {
    for n := 0 to |h|
      invariant forall i | 0 <= i < n :: h[i].version != v
    {
      if Compare(h[n].version, v) == 0 {
        return n;
      }
    }
    return -1;
  }

  class Registry {
    var owners: map<Key, string>
    var entries: map<Key, seq<Entry>>

    ghost function Model(): State
      reads this
    {
      State(owners, entries)
    }

    constructor ()
      ensures Model() == Empty
    {
      owners, entries := map[], map[];
    }

    method CheckDependencies(deps: seq<DependencyRef>) returns (ok: bool)
      ensures ok <==> AllResolved(Model(), deps)
    {
      for n := 0 to |deps|
        invariant forall i | 0 <= i < n :: Resolved(Model(), deps[i])
      {
        var key := KeyOf(deps[n].name, deps[n].kind);
        if key !in entries || entries[key] == [] {
          assert !Resolved(Model(), deps[n]);
          return false;
        }
        var at := FindVersion(entries[key], deps[n].version);
        if at == -1 {
          assert !Resolved(Model(), deps[n]);
          return false;
        }
      }
      return true;
    }

    /** The history checks for a normalised entry whose dependencies and owner are in order. */
    method Extend(key: Key, e: Entry) returns (r: Outcome)
      requires Valid(Model()) && key == (e.name, e.kind) && Trim(e.name) == e.name
      requires key in owners ==> owners[key] == e.owner
      modifies this
      ensures r == Evolve(History(old(Model()), key), e)
      ensures Model() == if r == Appended then Add(old(Model()), key, e) else old(Model())
    {
      if key !in entries || entries[key] == [] {
        assert History(Model(), key) + [e] == [e];
        owners := owners[key := e.owner];
        entries := entries[key := [e]];
        return Appended;
      }
      var history := entries[key];
      var latest := history[|history| - 1];
      var at := FindVersion(history, e.version);
      if at != -1 {
        if SameMetadata(history[at], e) {
          return Unchanged;
        }
        OneOfAVersion(key, owners[key], history, at);
        return Refused(VersionConflict);
      }
      if Compare(e.version, latest.version) <= 0 {
        return Refused(VersionRegression);
      }
      var breaking := false;
      if e.version.major > latest.version.major {
        breaking := true;
      } else if e.direction == Breaking || e.direction == Forward {
        breaking := true;
      }
      if breaking {
        if e.migration.None? {
          return Refused(IncompatibleWithoutMigrationPath);
        }
        if Compare(e.migration.value.from, latest.version) != 0 {
          return Refused(InvalidMigrationPath);
        }
      }
      entries := entries[key := history + [e]];
      return Appended;
    }

    method Register(caller: string, e: Entry) returns (r: Outcome)
      requires Valid(Model())
      modifies this
      ensures r == RegisterOutcome(old(Model()), caller, e)
      ensures Model() == Step(old(Model()), caller, e)
      ensures Valid(Model())
    {
      StepValid(Model(), caller, e);
      if Trim(caller) == "" {
        return Refused(BlankMetadata);
      }
      var fault := ValidateEntry(e);
      if fault.Some? {
        return Refused(fault.value);
      }
      if Trim(caller) != Trim(e.owner) {
        return Refused(CrossModuleMutationDenied);
      }
      var entry := Normal(e);
      NormalKeepsKey(e);
      var key := KeyOf(entry.name, entry.kind);
      var known := CheckDependencies(entry.dependencies);
      if !known {
        return Refused(UnknownDependency);
      }
      if key in owners && owners[key] != entry.owner {
        return Refused(DuplicateOwnership);
      }
      r := Extend(key, entry);
    }

    method GetLatest(name: string, kind: Kind) returns (r: Result<Entry, RegistryError>)
      requires Valid(Model())
      ensures r.Ok? <==> KeyOf(name, kind) in entries
      ensures r.Ok? ==> r.value in entries[KeyOf(name, kind)]
      ensures r.Ok? ==>
        forall e | e in entries[KeyOf(name, kind)] :: e == r.value || Precedes(e.version, r.value.version)
    {
      var key := KeyOf(name, kind);
      if key !in entries || entries[key] == [] {
        return Err(ContractNotFound);
      }
      var h := entries[key];
      forall i | 0 <= i < |h| - 1 ensures Precedes(h[i].version, h[|h| - 1].version) {
        assert Increasing(h, i, |h| - 1);
      }
      return Ok(h[|h| - 1]);
    }

    method GetVersion(name: string, kind: Kind, v: SemVer) returns (r: Result<Entry, RegistryError>)
      requires Valid(Model())
      ensures r.Ok? <==> HasVersion(History(Model(), KeyOf(name, kind)), v)
      ensures r.Ok? ==> forall e :: e == r.value <==> e in History(Model(), KeyOf(name, kind)) && e.version == v
    {
      var key := KeyOf(name, kind);
      if key !in entries {
        return Err(ContractNotFound);
      }
      var at := FindVersion(entries[key], v);
      if at == -1 {
        return Err(ContractNotFound);
      }
      OneOfAVersion(key, owners[key], entries[key], at);
      return Ok(entries[key][at]);
    }
  }

  lemma OneOfAVersion(k: Key, owner: string, h: seq<Entry>, at: nat)
    requires HistoryValid(k, owner, h) && at < |h|
    ensures forall i | 0 <= i < |h| && h[i].version == h[at].version :: i == at
  {
    forall i | 0 <= i < |h| && h[i].version == h[at].version ensures i == at {
      assert Increasing(h, i, at) && Increasing(h, at, i);
    }
  }
}
