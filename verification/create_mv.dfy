/** CREATE MATERIALIZED VIEW as a sequence of statements without a transaction around them: what is left when one of
    them fails, and when the view is registered. */
module CreateMv {
  import opened DdlExecutor

  /** What decides which statements a CREATE consists of. */
  datatype Request = Request(
    isReplace: bool, auxes: seq<nat>, otherCatalog: bool, targetPrefix: bool, pac: bool, sources: seq<nat>,
    indexed: bool, sourceRows: bool, snapshots: nat, edges: seq<bool>, matching: bool, lineage: bool, steps: nat)

  function Repeat(i: Item, n: nat): seq<Item> {
    if n == 0 then [] else Repeat(i, n - 1) + [i]
  }

  function When(when: bool, items: seq<Item>): seq<Item> {
    if when then items else []
  }

  function EnsurePlain(t: SharedThing): Item {
    Plain(Ensure(Shared(t)))
  }

  // ---- the sections of the statement list ----

  function SystemItems(isReplace: bool): seq<Item> {
    [Profile] + Repeat(EnsurePlain(ViewsTable), 6)
    + When(!isReplace, [Plain(DeleteStaleRow), Plain(GuardDuplicate)])
    + [EnsurePlain(HooksTable)] + Repeat(EnsurePlain(DeltaTablesTable), 6) + Repeat(EnsurePlain(HistoryTable), 2)
    + [EnsurePlain(ProfileTable)]
  }

  function ReplaceItems(isReplace: bool): seq<Item> {
    When(isReplace, [Profile, Plain(Drop(UserView)), Plain(Drop(DataTable)), Plain(Drop(MvDelta)),
                     Plain(Drop(DeltaTablesRows)), Plain(Drop(HistoryRows))])
  }

  function AuxItems(auxes: seq<nat>): seq<Item> {
    if auxes == [] then [] else AuxItems(auxes[..|auxes| - 1]) + [Profile, Plain(Ensure(Aux(auxes[|auxes| - 1])))]
  }

  function LoadItems(r: Request): seq<Item> {
    [Profile] + When(r.otherCatalog, [Plain(Session)]) + [Plain(Create(DataTable))]
    + When(r.targetPrefix, [Plain(Session)]) + When(r.pac, [Profile, Plain(Session), Plain(Session)])
    + [Profile, Plain(Create(UserView))]
  }

  function SourceItems(sources: seq<nat>): seq<Item> {
    if sources == [] then [Profile]
    else SourceItems(sources[..|sources| - 1]) + [EnsurePlain(SourceDelta(sources[|sources| - 1]))]
  }

  function DeltaItems(r: Request): seq<Item> {
    [Profile, DeltaFromData(true)] + When(r.indexed, [Profile, Plain(UniqueIndex)])
    + When(r.otherCatalog, [Profile, Plain(Session)])
  }

  function SourceRowItems(r: Request): seq<Item> {
    [Profile] + When(r.sourceRows, [Plain(Put(DeltaTablesRows))])
    + [Profile] + Repeat(Plain(Update(DeltaTablesRows)), r.snapshots)
  }

  /** A dependency row is inserted for every source that is a registered view. */
  function EdgeItems(edges: seq<bool>): seq<Item> {
    if edges == [] then []
    else EdgeItems(edges[..|edges| - 1]) + [Plain(if edges[|edges| - 1] then Put(DepsRows) else Update(DepsRows))]
  }

  function PublishItems(r: Request): seq<Item> {
    [Profile, Plain(Put(ViewsRow))]
    + When(r.matching, [Plain(Update(ViewsRow)), Plain(Drop(DepsRows))] + EdgeItems(r.edges))
    + When(r.lineage, [Plain(Update(ViewsRow))]) + Repeat(Plain(Update(ViewsRow)), |r.auxes|)
  }

  function AuxCleanups(auxes: seq<nat>): seq<Item> {
    if auxes == [] then [] else AuxCleanups(auxes[..|auxes| - 1]) + [Cleanup(Drop(Aux(auxes[|auxes| - 1])))]
  }

  const VIEW_CLEANUPS: seq<Item> :=
    [Cleanup(Drop(UserView)), Cleanup(Drop(DataTable)), Cleanup(Drop(MvDelta)), Cleanup(Drop(DeltaTablesRows)),
     Cleanup(Drop(DepsRows)), Cleanup(Drop(ViewsRow))]

  function CleanupItems(auxes: seq<nat>): seq<Item> {
    AuxCleanups(auxes) + VIEW_CLEANUPS
  }

  /** Everything before the view is registered. */
  function BuildItems(r: Request): seq<Item> {
    Repeat(Record, r.steps) + SystemItems(r.isReplace) + ReplaceItems(r.isReplace) + [Record] + AuxItems(r.auxes)
    + LoadItems(r) + SourceItems(r.sources) + DeltaItems(r) + SourceRowItems(r)
  }

  /** All items, clean-up first and the registration last. */
  function Items(r: Request): seq<Item> {
    CleanupItems(r.auxes) + BuildItems(r) + PublishItems(r)
  }

  /** The assembly of the lists: the clean-up of a thing is noted where its creation is. */
  method AssembleItems(r: Request) returns (items: seq<Item>)
    ensures items == Items(r)
  {
    hide SystemItems, ReplaceItems, SourceItems, EdgeItems, LoadItems, DeltaItems, SourceRowItems, PublishItems;
    var ddl, cleanup: seq<Item> := Repeat(Record, r.steps), [];
    ddl := ddl + SystemItems(r.isReplace);
    ddl := ddl + ReplaceItems(r.isReplace);
    ddl := ddl + [Record];
    var k := 0;
    ghost var before := ddl;
    while k < |r.auxes|
      invariant k <= |r.auxes| && ddl == before + AuxItems(r.auxes[..k]) && cleanup == AuxCleanups(r.auxes[..k])
    {
      assert r.auxes[..k + 1][..k] == r.auxes[..k];
      ddl := ddl + [Profile, Plain(Ensure(Aux(r.auxes[k])))];
      cleanup := cleanup + [Cleanup(Drop(Aux(r.auxes[k])))];
      k := k + 1;
    }
    assert r.auxes[..|r.auxes|] == r.auxes;
    ddl := ddl + LoadItems(r);
    cleanup := cleanup + [Cleanup(Drop(UserView)), Cleanup(Drop(DataTable))];
    ddl := ddl + SourceItems(r.sources);
    ddl := ddl + DeltaItems(r);
    cleanup := cleanup + [Cleanup(Drop(MvDelta))];
    ddl := ddl + SourceRowItems(r);
    cleanup := cleanup + [Cleanup(Drop(DeltaTablesRows))];
    assert ddl == BuildItems(r);
    ddl := ddl + PublishItems(r);
    cleanup := cleanup + [Cleanup(Drop(DepsRows)), Cleanup(Drop(ViewsRow))];
    assert cleanup == CleanupItems(r.auxes);
    items := cleanup + ddl;
  }

  // ---- the shape of the list ----

  /** Appending items that start with a marker does not disturb a lone index. */
  predicate StartsWithMarker(items: seq<Item>) {
    items != [] ==> Flushes(items[0])
  }

  lemma AloneJoin(a: seq<Item>, b: seq<Item>)
    requires IndexAlone(a) && IndexAlone(b) && StartsWithMarker(b)
    ensures IndexAlone(a + b)
  {
    var all := a + b;
    forall k | 0 <= k < |all| && IsIndex(all[k])
      ensures k > 0 ==> Flushes(all[k - 1]) || all[k - 1].Cleanup?
      ensures k + 1 < |all| ==> Flushes(all[k + 1])
    {
      if k < |a| {
        assert all[k] == a[k];
      } else {
        assert all[k] == b[k - |a|];
      }
    }
  }

  predicate NoIndex(items: seq<Item>) {
    forall k :: 0 <= k < |items| ==> !IsIndex(items[k])
  }

  predicate NoCleanup(items: seq<Item>) {
    forall k :: 0 <= k < |items| ==> !items[k].Cleanup?
  }

  /** Items that neither clean up nor build an index. */
  predicate Harmless(items: seq<Item>) {
    NoIndex(items) && NoCleanup(items)
  }

  lemma HarmlessJoin(a: seq<Item>, b: seq<Item>)
    requires Harmless(a) && Harmless(b)
    ensures Harmless(a + b)
  {
  }

  lemma {:induction false} RepeatHarmless(i: Item, n: nat)
    requires !IsIndex(i) && !i.Cleanup?
    ensures Harmless(Repeat(i, n))
  {
    if n > 0 {
      RepeatHarmless(i, n - 1);
    }
  }

  lemma {:induction false} AuxHarmless(auxes: seq<nat>)
    ensures Harmless(AuxItems(auxes)) && StartsWithMarker(AuxItems(auxes))
  {
    if auxes != [] {
      AuxHarmless(auxes[..|auxes| - 1]);
    }
  }

  lemma {:induction false} SourceHarmless(sources: seq<nat>)
    ensures Harmless(SourceItems(sources)) && SourceItems(sources) != [] && StartsWithMarker(SourceItems(sources))
  {
    if sources != [] {
      SourceHarmless(sources[..|sources| - 1]);
    }
  }

  lemma {:induction false} EdgeHarmless(edges: seq<bool>)
    ensures Harmless(EdgeItems(edges))
  {
    if edges != [] {
      EdgeHarmless(edges[..|edges| - 1]);
    }
  }

  lemma SystemHarmless(isReplace: bool)
    ensures Harmless(SystemItems(isReplace)) && Harmless(ReplaceItems(isReplace))
    ensures StartsWithMarker(SystemItems(isReplace)) && StartsWithMarker(ReplaceItems(isReplace))
  {
    hide Repeat;
    RepeatHarmless(EnsurePlain(ViewsTable), 6);
    RepeatHarmless(EnsurePlain(DeltaTablesTable), 6);
    RepeatHarmless(EnsurePlain(HistoryTable), 2);
  }

  lemma PublishHarmless(r: Request)
    ensures Harmless(PublishItems(r)) && StartsWithMarker(PublishItems(r))
  {
    hide Repeat, EdgeItems;
    RepeatHarmless(Plain(Update(ViewsRow)), |r.auxes|);
    EdgeHarmless(r.edges);
  }

  lemma SourceRowsHarmless(r: Request)
    ensures Harmless(SourceRowItems(r)) && StartsWithMarker(SourceRowItems(r))
  {
    hide Repeat;
    RepeatHarmless(Plain(Update(DeltaTablesRows)), r.snapshots);
  }

  lemma HarmlessAlone(items: seq<Item>)
    requires NoIndex(items)
    ensures IndexAlone(items)
  {
  }

  lemma {:induction false} AuxCleanupsOnly(auxes: seq<nat>)
    ensures forall k :: 0 <= k < |CleanupItems(auxes)| ==> CleanupItems(auxes)[k].Cleanup?
    ensures forall k :: 0 <= k < |AuxCleanups(auxes)| ==> AuxCleanups(auxes)[k].Cleanup?
  {
    if auxes != [] {
      AuxCleanupsOnly(auxes[..|auxes| - 1]);
    }
  }

  /** The front part of the build, up to and including the source delta tables. */
  function FrontItems(r: Request): seq<Item> {
    Repeat(Record, r.steps) + SystemItems(r.isReplace) + ReplaceItems(r.isReplace) + [Record] + AuxItems(r.auxes)
    + LoadItems(r) + SourceItems(r.sources)
  }

  lemma FrontHarmless(r: Request)
    ensures Harmless(FrontItems(r))
  {
    hide Repeat, SystemItems, ReplaceItems, AuxItems, SourceItems, Harmless;
    RepeatHarmless(Record, r.steps);
    SystemHarmless(r.isReplace);
    AuxHarmless(r.auxes);
    SourceHarmless(r.sources);
    LoadHarmless(r);
    var a := Repeat(Record, r.steps) + SystemItems(r.isReplace);
    HarmlessJoin(Repeat(Record, r.steps), SystemItems(r.isReplace));
    HarmlessJoin(a, ReplaceItems(r.isReplace));
    var b := a + ReplaceItems(r.isReplace);
    OneHarmless(Record);
    HarmlessJoin(b, [Record]);
    HarmlessJoin(b + [Record], AuxItems(r.auxes));
    HarmlessJoin(b + [Record] + AuxItems(r.auxes), LoadItems(r));
    HarmlessJoin(b + [Record] + AuxItems(r.auxes) + LoadItems(r), SourceItems(r.sources));
  }

  lemma OneHarmless(i: Item)
    requires !IsIndex(i) && !i.Cleanup?
    ensures Harmless([i])
  {
  }

  lemma LoadHarmless(r: Request)
    ensures Harmless(LoadItems(r))
  {
  }

  lemma DeltaAlone(r: Request)
    ensures IndexAlone(DeltaItems(r)) && NoCleanup(DeltaItems(r)) && StartsWithMarker(DeltaItems(r))
  {
  }

  /** The parts behind the clean-up. */
  function RestItems(r: Request): seq<Item> {
    FrontItems(r) + DeltaItems(r) + SourceRowItems(r) + PublishItems(r)
  }

  lemma RestIsAlone(r: Request)
    ensures IndexAlone(RestItems(r))
  {
    hide FrontItems, DeltaItems, SourceRowItems, PublishItems, IndexAlone, NoIndex, NoCleanup;
    FrontHarmless(r);
    HarmlessAlone(FrontItems(r));
    DeltaAlone(r);
    AloneJoin(FrontItems(r), DeltaItems(r));
    SourceRowsHarmless(r);
    HarmlessAlone(SourceRowItems(r));
    AloneJoin(FrontItems(r) + DeltaItems(r), SourceRowItems(r));
    PublishHarmless(r);
    HarmlessAlone(PublishItems(r));
    AloneJoin(FrontItems(r) + DeltaItems(r) + SourceRowItems(r), PublishItems(r));
  }

  lemma RestHasNoCleanup(r: Request)
    ensures NoCleanup(RestItems(r))
  {
    hide FrontItems, DeltaItems, SourceRowItems, PublishItems, NoIndex, NoCleanup, IndexAlone;
    FrontHarmless(r);
    DeltaAlone(r);
    SourceRowsHarmless(r);
    PublishHarmless(r);
    NoCleanupJoin(FrontItems(r), DeltaItems(r));
    NoCleanupJoin(FrontItems(r) + DeltaItems(r), SourceRowItems(r));
    NoCleanupJoin(FrontItems(r) + DeltaItems(r) + SourceRowItems(r), PublishItems(r));
  }

  lemma ItemsInParts(r: Request)
    ensures Items(r) == CleanupItems(r.auxes) + RestItems(r)
    ensures BuildItems(r) == FrontItems(r) + DeltaItems(r) + SourceRowItems(r)
    ensures RestItems(r) == BuildItems(r) + PublishItems(r)
  {
    hide Repeat, SystemItems, ReplaceItems, AuxItems, SourceItems, LoadItems, DeltaItems, SourceRowItems, PublishItems,
         CleanupItems;
    assert BuildItems(r) == FrontItems(r) + DeltaItems(r) + SourceRowItems(r);
  }

  lemma CleanupsJoinAlone(cs: seq<Item>, rest: seq<Item>)
    requires (forall k :: 0 <= k < |cs| ==> cs[k].Cleanup?) && IndexAlone(rest)
    ensures IndexAlone(cs + rest)
  {
    var all := cs + rest;
    forall k | 0 <= k < |all| && IsIndex(all[k])
      ensures k > 0 ==> Flushes(all[k - 1]) || all[k - 1].Cleanup?
      ensures k + 1 < |all| ==> Flushes(all[k + 1])
    {
      assert k >= |cs|;
      assert all[k] == rest[k - |cs|];
    }
  }

  /** The list meets what the executor relies on: clean-up first, and the unique index alone between two markers. */
  lemma ItemsAreWellShaped(r: Request)
    ensures IndexAlone(Items(r)) && CleanupsFirst(Items(r))
  {
    hide RestItems, CleanupItems, IndexAlone, NoCleanup, CleanupsFirst, BuildItems, PublishItems;
    RestIsAlone(r);
    RestHasNoCleanup(r);
    AuxCleanupsOnly(r.auxes);
    ItemsInParts(r);
    CleanupsJoinAlone(CleanupItems(r.auxes), RestItems(r));
    CleanupsThenRest(CleanupItems(r.auxes), RestItems(r));
  }

  lemma NoCleanupJoin(a: seq<Item>, b: seq<Item>)
    requires NoCleanup(a) && NoCleanup(b)
    ensures NoCleanup(a + b)
  {
  }

  lemma CleanupsThenRest(cs: seq<Item>, rest: seq<Item>)
    requires (forall k :: 0 <= k < |cs| ==> cs[k].Cleanup?) && NoCleanup(rest)
    ensures CleanupsFirst(cs + rest)
  {
    var all := cs + rest;
    forall k | |cs| <= k < |all|
      ensures !all[k].Cleanup?
    {
      assert all[k] == rest[k - |cs|];
    }
  }

  // ---- the statements ----

  lemma {:induction false} StatementsAppend(a: seq<Item>, b: seq<Item>)
    ensures StatementsOf(a + b) == StatementsOf(a) + StatementsOf(b)
  {
    hide StatementOf;
    if b == [] {
      assert a + b == a;
    } else {
      assert (a + b)[..|a + b| - 1] == a + b[..|b| - 1];
      StatementsAppend(a, b[..|b| - 1]);
    }
  }

  lemma {:induction false} CleanupsAppend(a: seq<Item>, b: seq<Item>)
    ensures CleanupsOf(a + b) == CleanupsOf(a) + CleanupsOf(b)
  {
    if b == [] {
      assert a + b == a;
    } else {
      assert (a + b)[..|a + b| - 1] == a + b[..|b| - 1];
      CleanupsAppend(a, b[..|b| - 1]);
    }
  }

  lemma {:induction false} CleanupsHaveNoStatements(cs: seq<Item>)
    requires forall k :: 0 <= k < |cs| ==> cs[k].Cleanup?
    ensures StatementsOf(cs) == []
  {
    if cs != [] {
      CleanupsHaveNoStatements(cs[..|cs| - 1]);
    }
  }

  lemma {:induction false} NoCleanupsRegistered(items: seq<Item>)
    requires NoCleanup(items)
    ensures CleanupsOf(items) == []
  {
    if items != [] {
      NoCleanupsRegistered(items[..|items| - 1]);
    }
  }

  /** The statements up to and including the source metadata. */
  function Building(r: Request): seq<Statement> {
    StatementsOf(BuildItems(r))
  }

  function Publishing(r: Request): seq<Statement> {
    StatementsOf(PublishItems(r))
  }

  function All(r: Request): seq<Statement> {
    StatementsOf(Items(r))
  }

  function Cleaning(auxes: seq<nat>): seq<Statement> {
    CleanupsOf(CleanupItems(auxes))
  }

  lemma AllInParts(r: Request)
    ensures All(r) == Building(r) + Publishing(r) && CleanupsOf(Items(r)) == Cleaning(r.auxes)
    ensures All(r) == StatementsOf(Items(r))
  {
    hide RestItems, CleanupItems, BuildItems, PublishItems, StatementsOf, CleanupsOf, NoCleanup;
    ItemsInParts(r);
    StatementsAppend(CleanupItems(r.auxes), RestItems(r));
    CleanupsAppend(CleanupItems(r.auxes), RestItems(r));
    StatementsAppend(BuildItems(r), PublishItems(r));
    AuxCleanupsOnly(r.auxes);
    CleanupsHaveNoStatements(CleanupItems(r.auxes));
    RestHasNoCleanup(r);
    NoCleanupsRegistered(RestItems(r));
  }

  // ---- which statements occur ----

  predicate AllAllowed(ss: seq<Statement>, allowed: Statement -> bool) {
    forall k :: 0 <= k < |ss| ==> allowed(ss[k])
  }

  /** The statements that set up the tables of the extension, and for a replacement remove the old view. */
  predicate InPreparation(s: Statement, isReplace: bool) {
    match s
    case Ensure(t) => t.Shared? && !t.name.SourceDelta?
    case Drop(t) => isReplace && (t.UserView? || t.DataTable? || t.MvDelta? || t.DeltaTablesRows? || t.HistoryRows?)
    case DeleteStaleRow => !isReplace
    case GuardDuplicate => !isReplace
    case _ => false
  }

  /** The statements that make the objects of the view and record its sources. */
  predicate InConstruction(s: Statement, r: Request) {
    match s
    case Ensure(t) => (t.Aux? && t.kind in r.auxes) || (t.Shared? && t.name.SourceDelta? && t.name.source in r.sources)
    case Create(t) => t.DataTable? || t.UserView?
    case Put(t) => t.DeltaTablesRows? && r.sourceRows
    case Update(t) => t.DeltaTablesRows? && r.snapshots > 0
    case DeriveDelta(wellFormed) => wellFormed
    case UniqueIndex => r.indexed
    case Session => r.otherCatalog || r.targetPrefix || r.pac
    case _ => false
  }

  /** The statements that register the view and its dependencies. */
  predicate InPublication(s: Statement, r: Request) {
    match s
    case Put(t) => t.ViewsRow? || (t.DepsRows? && r.matching && true in r.edges)
    case Drop(t) => t.DepsRows? && r.matching
    case Update(t) => (t.ViewsRow? && (r.matching || r.lineage || r.auxes != []))
                      || (t.DepsRows? && r.matching && false in r.edges)
    case _ => false
  }

  function PreparationItems(r: Request): seq<Item> {
    Repeat(Record, r.steps) + SystemItems(r.isReplace) + ReplaceItems(r.isReplace) + [Record]
  }

  function ConstructionItems(r: Request): seq<Item> {
    AuxItems(r.auxes) + LoadItems(r) + SourceItems(r.sources) + DeltaItems(r) + SourceRowItems(r)
  }

  function Preparation(r: Request): seq<Statement> {
    StatementsOf(PreparationItems(r))
  }

  function Construction(r: Request): seq<Statement> {
    StatementsOf(ConstructionItems(r))
  }

  lemma BuildingInParts(r: Request)
    ensures Building(r) == Preparation(r) + Construction(r)
  {
    hide Repeat, SystemItems, ReplaceItems, AuxItems, SourceItems, LoadItems, DeltaItems, SourceRowItems;
    assert BuildItems(r) == PreparationItems(r) + ConstructionItems(r);
    StatementsAppend(PreparationItems(r), ConstructionItems(r));
  }

  /** A statement is among those of some items. */
  predicate Occurs(s: Statement, items: seq<Item>) {
    exists k :: 0 <= k < |items| && s in StatementOf(items[k])
  }

  lemma OccursJoin(s: Statement, a: seq<Item>, b: seq<Item>)
    ensures Occurs(s, a + b) <==> Occurs(s, a) || Occurs(s, b)
  {
    hide StatementOf;
    var all := a + b;
    if k :| 0 <= k < |a| && s in StatementOf(a[k]) {
      assert all[k] == a[k];
    }
    if k :| 0 <= k < |b| && s in StatementOf(b[k]) {
      assert all[|a| + k] == b[k];
    }
  }

  lemma OccursInThree(s: Statement, a: seq<Item>, b: seq<Item>, c: seq<Item>)
    ensures Occurs(s, a + b + c) <==> Occurs(s, a) || Occurs(s, b) || Occurs(s, c)
  {
    hide Occurs;
    OccursJoin(s, a, b);
    OccursJoin(s, a + b, c);
  }

  lemma OccursOne(s: Statement, i: Item)
    ensures Occurs(s, [i]) <==> s in StatementOf(i)
  {
    assert [i][0] == i;
  }

  lemma OccursTwo(s: Statement, i: Item, j: Item)
    ensures Occurs(s, [i, j]) <==> s in StatementOf(i) || s in StatementOf(j)
  {
    hide StatementOf, Occurs;
    assert [i, j] == [i] + [j];
    OccursOne(s, i);
    OccursOne(s, j);
    OccursJoin(s, [i], [j]);
  }

  lemma {:induction false} OccursRepeated(s: Statement, i: Item, n: nat)
    ensures Occurs(s, Repeat(i, n)) <==> n > 0 && s in StatementOf(i)
  {
    hide StatementOf, Occurs;
    if n > 0 {
      OccursRepeated(s, i, n - 1);
      OccursOne(s, i);
      OccursJoin(s, Repeat(i, n - 1), [i]);
    } else {
      OccursNowhere(s);
    }
  }

  lemma OccursNowhere(s: Statement)
    ensures !Occurs(s, [])
  {
  }

  lemma {:induction false} OccursIs(s: Statement, items: seq<Item>)
    ensures Occurs(s, items) <==> s in StatementsOf(items)
  {
    hide StatementOf, Occurs;
    if items == [] {
      OccursNowhere(s);
    } else {
      var front, last := items[..|items| - 1], items[|items| - 1];
      OccursIs(s, front);
      OccursOne(s, last);
      OccursJoin(s, front, [last]);
      assert front + [last] == items;
    }
  }

  lemma OccursInSystem(s: Statement, isReplace: bool)
    ensures Occurs(s, SystemItems(isReplace))
            <==> (s.Ensure? && s.thing.Shared? && !s.thing.name.SourceDelta?)
                 || (!isReplace && (s.DeleteStaleRow? || s.GuardDuplicate?))
  {
    hide Repeat, Occurs;
    var a := [Profile] + Repeat(EnsurePlain(ViewsTable), 6);
    var b := a + When(!isReplace, [Plain(DeleteStaleRow), Plain(GuardDuplicate)]);
    var c := b + [EnsurePlain(HooksTable)];
    var d := c + Repeat(EnsurePlain(DeltaTablesTable), 6);
    var e := d + Repeat(EnsurePlain(HistoryTable), 2);
    OccursOne(s, Profile);
    OccursRepeated(s, EnsurePlain(ViewsTable), 6);
    OccursJoin(s, [Profile], Repeat(EnsurePlain(ViewsTable), 6));
    OccursNowhere(s);
    OccursTwo(s, Plain(DeleteStaleRow), Plain(GuardDuplicate));
    OccursJoin(s, a, When(!isReplace, [Plain(DeleteStaleRow), Plain(GuardDuplicate)]));
    OccursOne(s, EnsurePlain(HooksTable));
    OccursJoin(s, b, [EnsurePlain(HooksTable)]);
    OccursRepeated(s, EnsurePlain(DeltaTablesTable), 6);
    OccursJoin(s, c, Repeat(EnsurePlain(DeltaTablesTable), 6));
    OccursRepeated(s, EnsurePlain(HistoryTable), 2);
    OccursJoin(s, d, Repeat(EnsurePlain(HistoryTable), 2));
    OccursOne(s, EnsurePlain(ProfileTable));
    OccursJoin(s, e, [EnsurePlain(ProfileTable)]);
  }

  lemma OccursInReplacement(s: Statement, isReplace: bool)
    ensures Occurs(s, ReplaceItems(isReplace)) <==> s.Drop? && InPreparation(s, isReplace)
  {
    hide Occurs;
    OccursNowhere(s);
    if isReplace {
      OccursTwo(s, Profile, Plain(Drop(UserView)));
      OccursTwo(s, Plain(Drop(DataTable)), Plain(Drop(MvDelta)));
      OccursTwo(s, Plain(Drop(DeltaTablesRows)), Plain(Drop(HistoryRows)));
      OccursInThree(s, [Profile, Plain(Drop(UserView))], [Plain(Drop(DataTable)), Plain(Drop(MvDelta))],
                    [Plain(Drop(DeltaTablesRows)), Plain(Drop(HistoryRows))]);
      assert ReplaceItems(true)
          == [Profile, Plain(Drop(UserView))] + [Plain(Drop(DataTable)), Plain(Drop(MvDelta))]
             + [Plain(Drop(DeltaTablesRows)), Plain(Drop(HistoryRows))];
    }
  }

  lemma PreparationExactly(r: Request, s: Statement)
    ensures s in Preparation(r) <==> InPreparation(s, r.isReplace)
  {
    hide Repeat, SystemItems, ReplaceItems, Occurs;
    OccursIs(s, PreparationItems(r));
    OccursRepeated(s, Record, r.steps);
    OccursInSystem(s, r.isReplace);
    OccursInReplacement(s, r.isReplace);
    OccursOne(s, Record);
    OccursInThree(s, Repeat(Record, r.steps), SystemItems(r.isReplace), ReplaceItems(r.isReplace));
    OccursJoin(s, Repeat(Record, r.steps) + SystemItems(r.isReplace) + ReplaceItems(r.isReplace), [Record]);
  }

  lemma {:induction false} OccursInAux(s: Statement, auxes: seq<nat>)
    ensures Occurs(s, AuxItems(auxes)) <==> s.Ensure? && s.thing.Aux? && s.thing.kind in auxes
  {
    hide Occurs;
    OccursNowhere(s);
    if auxes != [] {
      var front, a := auxes[..|auxes| - 1], auxes[|auxes| - 1];
      OccursInAux(s, front);
      OccursTwo(s, Profile, Plain(Ensure(Aux(a))));
      OccursJoin(s, AuxItems(front), [Profile, Plain(Ensure(Aux(a)))]);
      assert auxes == front + [a];
    }
  }

  lemma {:induction false} OccursInSources(s: Statement, sources: seq<nat>)
    ensures Occurs(s, SourceItems(sources))
            <==> s.Ensure? && s.thing.Shared? && s.thing.name.SourceDelta? && s.thing.name.source in sources
  {
    hide Occurs;
    OccursOne(s, Profile);
    if sources != [] {
      var front, source := sources[..|sources| - 1], sources[|sources| - 1];
      OccursInSources(s, front);
      OccursOne(s, EnsurePlain(SourceDelta(source)));
      OccursJoin(s, SourceItems(front), [EnsurePlain(SourceDelta(source))]);
      assert sources == front + [source];
    }
  }

  lemma OccursInLoad(s: Statement, r: Request)
    ensures Occurs(s, LoadItems(r))
            <==> s == Create(DataTable) || s == Create(UserView)
                 || (s.Session? && (r.otherCatalog || r.targetPrefix || r.pac))
  {
    hide Occurs;
    var switch, settings := When(r.otherCatalog, [Plain(Session)]), [Profile, Plain(Session), Plain(Session)];
    var back := When(r.targetPrefix, [Plain(Session)]);
    OccursNowhere(s);
    OccursOne(s, Profile);
    OccursOne(s, Plain(Session));
    OccursOne(s, Plain(Create(DataTable)));
    OccursInThree(s, [Profile], switch, [Plain(Create(DataTable))]);
    assert settings == [Profile] + [Plain(Session)] + [Plain(Session)];
    OccursInThree(s, [Profile], [Plain(Session)], [Plain(Session)]);
    var a := [Profile] + switch + [Plain(Create(DataTable))];
    OccursInThree(s, a, back, When(r.pac, settings));
    OccursTwo(s, Profile, Plain(Create(UserView)));
    OccursJoin(s, a + back + When(r.pac, settings), [Profile, Plain(Create(UserView))]);
  }

  lemma OccursInDelta(s: Statement, r: Request)
    ensures Occurs(s, DeltaItems(r))
            <==> s == DeriveDelta(true) || (s.UniqueIndex? && r.indexed) || (s.Session? && r.otherCatalog)
  {
    hide Occurs;
    OccursNowhere(s);
    OccursTwo(s, Profile, DeltaFromData(true));
    OccursTwo(s, Profile, Plain(UniqueIndex));
    OccursTwo(s, Profile, Plain(Session));
    OccursInThree(s, [Profile, DeltaFromData(true)], When(r.indexed, [Profile, Plain(UniqueIndex)]),
                  When(r.otherCatalog, [Profile, Plain(Session)]));
  }

  lemma OccursInSourceRows(s: Statement, r: Request)
    ensures Occurs(s, SourceRowItems(r))
            <==> (s == Put(DeltaTablesRows) && r.sourceRows) || (s == Update(DeltaTablesRows) && r.snapshots > 0)
  {
    hide Occurs, Repeat;
    OccursNowhere(s);
    OccursOne(s, Profile);
    OccursOne(s, Plain(Put(DeltaTablesRows)));
    OccursRepeated(s, Plain(Update(DeltaTablesRows)), r.snapshots);
    OccursInThree(s, [Profile], When(r.sourceRows, [Plain(Put(DeltaTablesRows))]), [Profile]);
    OccursJoin(s, [Profile] + When(r.sourceRows, [Plain(Put(DeltaTablesRows))]) + [Profile],
               Repeat(Plain(Update(DeltaTablesRows)), r.snapshots));
  }

  lemma ConstructionExactly(r: Request, s: Statement)
    ensures s in Construction(r) <==> InConstruction(s, r)
  {
    hide AuxItems, LoadItems, SourceItems, DeltaItems, SourceRowItems, Occurs;
    OccursIs(s, ConstructionItems(r));
    OccursInAux(s, r.auxes);
    OccursInLoad(s, r);
    OccursInSources(s, r.sources);
    OccursInDelta(s, r);
    OccursInSourceRows(s, r);
    OccursInThree(s, AuxItems(r.auxes), LoadItems(r), SourceItems(r.sources));
    OccursInThree(s, AuxItems(r.auxes) + LoadItems(r) + SourceItems(r.sources), DeltaItems(r), SourceRowItems(r));
  }

  lemma {:induction false} OccursInEdges(s: Statement, edges: seq<bool>)
    ensures Occurs(s, EdgeItems(edges))
            <==> (s == Put(DepsRows) && true in edges) || (s == Update(DepsRows) && false in edges)
  {
    hide Occurs;
    OccursNowhere(s);
    if edges != [] {
      var front, edge := edges[..|edges| - 1], edges[|edges| - 1];
      var item := Plain(if edge then Put(DepsRows) else Update(DepsRows));
      OccursInEdges(s, front);
      OccursOne(s, item);
      OccursJoin(s, EdgeItems(front), [item]);
      assert edges == front + [edge];
    }
  }

  lemma PublicationExactly(r: Request, s: Statement)
    ensures s in Publishing(r) <==> InPublication(s, r)
  {
    hide Occurs, EdgeItems, Repeat;
    var matching := [Plain(Update(ViewsRow)), Plain(Drop(DepsRows))] + EdgeItems(r.edges);
    var lineage := When(r.lineage, [Plain(Update(ViewsRow))]);
    OccursIs(s, PublishItems(r));
    OccursNowhere(s);
    OccursTwo(s, Profile, Plain(Put(ViewsRow)));
    OccursTwo(s, Plain(Update(ViewsRow)), Plain(Drop(DepsRows)));
    OccursInEdges(s, r.edges);
    OccursJoin(s, [Plain(Update(ViewsRow)), Plain(Drop(DepsRows))], EdgeItems(r.edges));
    OccursOne(s, Plain(Update(ViewsRow)));
    OccursRepeated(s, Plain(Update(ViewsRow)), |r.auxes|);
    OccursInThree(s, [Profile, Plain(Put(ViewsRow))], When(r.matching, matching), lineage);
    OccursJoin(s, [Profile, Plain(Put(ViewsRow))] + When(r.matching, matching) + lineage,
               Repeat(Plain(Update(ViewsRow)), |r.auxes|));
  }

  lemma PreparationOnly(r: Request)
    ensures AllAllowed(Preparation(r), s => InPreparation(s, r.isReplace))
  {
    hide Preparation, InPreparation;
    forall k | 0 <= k < |Preparation(r)|
      ensures InPreparation(Preparation(r)[k], r.isReplace)
    {
      PreparationExactly(r, Preparation(r)[k]);
    }
  }

  lemma ConstructionOnly(r: Request)
    ensures AllAllowed(Construction(r), s => InConstruction(s, r))
  {
    hide Construction, InConstruction;
    forall k | 0 <= k < |Construction(r)|
      ensures InConstruction(Construction(r)[k], r)
    {
      ConstructionExactly(r, Construction(r)[k]);
    }
  }

  lemma PublicationOnly(r: Request)
    ensures AllAllowed(Publishing(r), s => InPublication(s, r))
  {
    hide Publishing, InPublication;
    forall k | 0 <= k < |Publishing(r)|
      ensures InPublication(Publishing(r)[k], r)
    {
      PublicationExactly(r, Publishing(r)[k]);
    }
  }

  /** Exactly which statements a creation sends, told from the request. */
  lemma StatementsExactly(r: Request, s: Statement)
    ensures s in All(r) <==> InPreparation(s, r.isReplace) || InConstruction(s, r) || InPublication(s, r)
  {
    hide All, Building, Preparation, Construction, Publishing, InPreparation, InConstruction, InPublication;
    AllInParts(r);
    BuildingInParts(r);
    PreparationExactly(r, s);
    ConstructionExactly(r, s);
    PublicationExactly(r, s);
  }

  // ---- what a sequence of statements does to one thing ----

  predicate Makes(s: Statement, t: Thing) {
    s == Ensure(t) || s == Create(t) || s == Put(t) || (t.MvDelta? && s.DeriveDelta?)
  }

  predicate Removes(s: Statement, t: Thing) {
    s == Drop(t) || (t.ViewsRow? && s.DeleteStaleRow?)
  }

  predicate NeverMade(ss: seq<Statement>, t: Thing) {
    forall k :: 0 <= k < |ss| ==> !Makes(ss[k], t)
  }

  predicate NeverRemoved(ss: seq<Statement>, t: Thing) {
    forall k :: 0 <= k < |ss| ==> !Removes(ss[k], t)
  }

  predicate SameAt(a: Catalog, b: Catalog, t: Thing) {
    (t in a <==> t in b) && (t in a ==> a[t] == b[t])
  }

  lemma {:induction false} StaysAbsent(ss: seq<Statement>, c: Catalog, t: Thing)
    requires NeverMade(ss, t) && t !in c
    ensures t !in Folded(ss, c)
  {
    if ss != [] {
      StaysAbsent(ss[..|ss| - 1], c, t);
    }
  }

  lemma {:induction false} StaysPresent(ss: seq<Statement>, c: Catalog, t: Thing)
    requires NeverRemoved(ss, t) && t in c
    ensures t in Folded(ss, c)
  {
    if ss != [] {
      StaysPresent(ss[..|ss| - 1], c, t);
    }
  }

  lemma {:induction false} StaysSame(ss: seq<Statement>, c: Catalog, t: Thing)
    requires NeverRemoved(ss, t) && NeverMade(ss, t)
    ensures SameAt(Folded(ss, c), c, t)
  {
    if ss != [] {
      StaysSame(ss[..|ss| - 1], c, t);
    }
  }

  /** Something made and never removed is there. */
  lemma {:induction false} MadeIsThere(ss: seq<Statement>, c: Catalog, t: Thing, k: nat)
    requires NeverRemoved(ss, t) && k < |ss| && Makes(ss[k], t)
    ensures t in Folded(ss, c)
  {
    var last := |ss| - 1;
    if k < last {
      MadeIsThere(ss[..last], c, t, k);
    }
  }

  /** Something dropped and never made again is gone. */
  lemma {:induction false} DroppedIsGone(ss: seq<Statement>, c: Catalog, t: Thing, k: nat)
    requires NeverMade(ss, t) && k < |ss| && ss[k] == Drop(t)
    ensures t !in Folded(ss, c)
  {
    var last := |ss| - 1;
    if k < last {
      DroppedIsGone(ss[..last], c, t, k);
    }
  }

  /** Made with CREATE or INSERT OR REPLACE, a thing is new; made with IF NOT EXISTS, only if it was not there. */
  lemma {:induction false} MadeIsNew(ss: seq<Statement>, c: Catalog, t: Thing)
    requires NeverRemoved(ss, t) && (forall k :: 0 <= k < |ss| && Makes(ss[k], t) ==> ss[k].Create? || ss[k].Put?)
    ensures !NeverMade(ss, t) ==> t in Folded(ss, c) && Folded(ss, c)[t] == New
  {
    if !NeverMade(ss, t) {
      var front, last := ss[..|ss| - 1], ss[|ss| - 1];
      MadeIsNew(front, c, t);
      if NeverMade(front, t) {
        assert Makes(last, t);
      }
    }
  }

  lemma {:induction false} EnsuredKeepsAge(ss: seq<Statement>, c: Catalog, t: Thing)
    requires NeverRemoved(ss, t) && (forall k :: 0 <= k < |ss| && Makes(ss[k], t) ==> !ss[k].Create? && !ss[k].Put?)
    ensures t in c ==> t in Folded(ss, c) && Folded(ss, c)[t] == c[t]
    ensures t !in c && t in Folded(ss, c) ==> Folded(ss, c)[t] == New
  {
    if ss != [] {
      EnsuredKeepsAge(ss[..|ss| - 1], c, t);
    }
  }

  // ---- the statements that make each physical object occur ----

  predicate IsPhysical(r: Request, t: Thing) {
    t.DataTable? || t.UserView? || t.MvDelta? || (t.Aux? && t.kind in r.auxes)
  }

  lemma At(ss: seq<Statement>, s: Statement) returns (k: nat)
    requires s in ss
    ensures k < |ss| && ss[k] == s
  {
    k :| k < |ss| && ss[k] == s;
  }

  lemma Constructed(r: Request, t: Thing) returns (k: nat)
    requires IsPhysical(r, t)
    ensures k < |Construction(r)| && Makes(Construction(r)[k], t)
  {
    hide Construction;
    var s := if t.Aux? then Ensure(t) else if t.MvDelta? then DeriveDelta(true) else Create(t);
    ConstructionExactly(r, s);
    k := At(Construction(r), s);
  }

  // ---- the view is registered only when it is complete ----

  /** A registered view has all its physical objects. */
  ghost predicate Published(r: Request, c: Catalog) {
    ViewsRow in c ==> forall t :: IsPhysical(r, t) ==> t in c
  }

  lemma RowOnlyAtTheEnd(r: Request, n: nat)
    requires n <= |Building(r)|
    ensures NeverMade(Building(r)[..n], ViewsRow)
  {
    hide Preparation, Construction, Building;
    BuildingInParts(r);
    PreparationOnly(r);
    ConstructionOnly(r);
    var p, c := Preparation(r), Construction(r);
    forall k | 0 <= k < n
      ensures !Makes(Building(r)[..n][k], ViewsRow)
    {
      assert Building(r)[..n][k] == if k < |p| then p[k] else c[k - |p|];
    }
  }

  lemma PhysicalIsBuilt(r: Request, c0: Catalog, t: Thing)
    requires IsPhysical(r, t)
    ensures t in Folded(Building(r), c0)
  {
    hide Preparation, Construction, Building, Folded;
    BuildingInParts(r);
    ConstructionOnly(r);
    FoldedAppend(Preparation(r), Construction(r), c0);
    var k := Constructed(r, t);
    MadeIsThere(Construction(r), Folded(Preparation(r), c0), t, k);
  }

  lemma PhysicalIsKept(r: Request, c: Catalog, t: Thing, n: nat)
    requires IsPhysical(r, t) && t in c && n <= |Publishing(r)|
    ensures t in Folded(Publishing(r)[..n], c)
  {
    hide Publishing;
    PublicationOnly(r);
    StaysPresent(Publishing(r)[..n], c, t);
  }

  lemma UnregisteredIsFine(r: Request, c: Catalog)
    requires ViewsRow !in c
    ensures Published(r, c)
  {
  }

  lemma CompleteOnceBuilt(r: Request, c0: Catalog, n: nat)
    requires n <= |Publishing(r)|
    ensures Published(r, Folded(Building(r) + Publishing(r)[..n], c0))
  {
    hide Building, Publishing, Folded, IsPhysical;
    FoldedAppend(Building(r), Publishing(r)[..n], c0);
    var c := Folded(Building(r), c0);
    forall t | IsPhysical(r, t)
      ensures t in Folded(Publishing(r)[..n], c)
    {
      PhysicalIsBuilt(r, c0, t);
      PhysicalIsKept(r, c, t, n);
    }
  }

  /** At every step of the creation of a view that was not registered before, the row in openivm_views is there only if
      the data table, the user view, the delta table and all aux tables are. */
  lemma RegisteredOnlyWhenComplete(r: Request, c0: Catalog, n: nat)
    requires ViewsRow !in c0 && n <= |All(r)|
    ensures Published(r, Folded(All(r)[..n], c0))
  {
    hide Building, Publishing, All, Folded, Published, NeverMade;
    AllInParts(r);
    var b, p := Building(r), Publishing(r);
    PrefixOfTwo(b, p, n);
    if n <= |b| {
      RowOnlyAtTheEnd(r, n);
      StaysAbsent(b[..n], c0, ViewsRow);
      UnregisteredIsFine(r, Folded(b[..n], c0));
    } else {
      CompleteOnceBuilt(r, c0, n - |b|);
    }
  }

  lemma PrefixOfTwo(a: seq<Statement>, b: seq<Statement>, n: nat)
    requires n <= |a + b|
    ensures (a + b)[..n] == if n <= |a| then a[..n] else a + b[..n - |a|]
  {
  }

  /** The check when the statement is bound: a plain CREATE is refused if the view or its data table exists. */
  predicate Bindable(r: Request, c: Catalog) {
    r.isReplace || (UserView !in c && DataTable !in c)
  }

  lemma FirstDrop(r: Request) returns (n: nat)
    requires r.isReplace
    ensures n < |Preparation(r)| && Preparation(r)[n] == Drop(UserView)
  {
    hide Preparation;
    PreparationExactly(r, Drop(UserView));
    n := At(Preparation(r), Drop(UserView));
  }

  lemma NothingFolded(c: Catalog)
    ensures Folded([], c) == c
  {
  }

  /** That holds exactly when the view was not registered before: a replacement keeps the old row while it drops the old
      objects, and a plain CREATE may find a stale row. */
  lemma RegisteredOnlyWhenCompleteExactly(r: Request, c0: Catalog)
    requires Bindable(r, c0)
    ensures (forall n: nat :: n <= |All(r)| ==> Published(r, Folded(All(r)[..n], c0))) <==> ViewsRow !in c0
  {
    hide Building, Publishing, All, Preparation, Construction, Folded;
    if ViewsRow !in c0 {
      forall n: nat | n <= |All(r)|
        ensures Published(r, Folded(All(r)[..n], c0))
      {
        RegisteredOnlyWhenComplete(r, c0, n);
      }
    } else if !r.isReplace {
      assert All(r)[..0] == [];
      assert IsPhysical(r, UserView);
      NothingFolded(c0);
      assert !Published(r, Folded(All(r)[..0], c0));
    } else {
      var n := HalfDropped(r, c0);
      assert !Published(r, Folded(All(r)[..n], c0));
    }
  }

  lemma PreparationKeepsRow(r: Request, n: nat)
    requires r.isReplace && n <= |Preparation(r)|
    ensures NeverRemoved(Preparation(r)[..n], ViewsRow) && NeverMade(Preparation(r)[..n], UserView)
  {
    hide Preparation;
    PreparationOnly(r);
  }

  lemma RegisteredIncomplete(r: Request, c: Catalog)
    requires ViewsRow in c && UserView !in c
    ensures !Published(r, c)
  {
    assert IsPhysical(r, UserView);
  }

  lemma PrefixOfFirst(a: seq<Statement>, b: seq<Statement>, c: seq<Statement>, n: nat)
    requires n <= |a|
    ensures ((a + b) + c)[..n] == a[..n]
  {
  }

  lemma PreparationFirst(r: Request, n: nat)
    requires n <= |Preparation(r)|
    ensures n <= |All(r)| && All(r)[..n] == Preparation(r)[..n]
  {
    hide Building, Publishing, All, Preparation, Construction;
    AllInParts(r);
    BuildingInParts(r);
    PrefixOfFirst(Preparation(r), Construction(r), Publishing(r), n);
  }

  lemma HalfDropped(r: Request, c0: Catalog) returns (n: nat)
    requires r.isReplace && ViewsRow in c0
    ensures n <= |All(r)| && !Published(r, Folded(All(r)[..n], c0))
  {
    hide All, Preparation, Folded, Published, NeverMade, NeverRemoved, Makes, Removes;
    var k := FirstDrop(r);
    n := k + 1;
    PreparationFirst(r, n);
    var ss := Preparation(r)[..n];
    PreparationKeepsRow(r, n);
    StaysPresent(ss, c0, ViewsRow);
    DropRemoves(UserView);
    DroppedIsGone(ss, c0, UserView, k);
    RegisteredIncomplete(r, Folded(ss, c0));
  }

  lemma DropRemoves(t: Thing)
    ensures Removes(Drop(t), t)
  {
  }

  /** The statements before the source rows. */
  function Making(r: Request): seq<Statement> {
    StatementsOf(FrontItems(r) + DeltaItems(r))
  }

  lemma SourceRowsComeAfter(r: Request)
    ensures All(r) == Making(r) + (StatementsOf(SourceRowItems(r)) + Publishing(r))
    ensures Building(r) == Making(r) + StatementsOf(SourceRowItems(r))
  {
    hide Building, Publishing, All, Items, StatementsOf, FrontItems, DeltaItems, SourceRowItems, PublishItems, BuildItems;
    AllInParts(r);
    ItemsInParts(r);
    StatementsAppend(FrontItems(r) + DeltaItems(r), SourceRowItems(r));
    BuildingOf(r);
  }

  lemma BuildingOf(r: Request)
    ensures Building(r) == StatementsOf(BuildItems(r))
  {
  }

  lemma SourceRowsOnly(r: Request, t: Thing)
    requires IsPhysical(r, t)
    ensures NeverMade(StatementsOf(SourceRowItems(r)), t) && NeverRemoved(StatementsOf(SourceRowItems(r)), t)
  {
    hide StatementsOf, SourceRowItems, Occurs;
    var ss := StatementsOf(SourceRowItems(r));
    forall k | 0 <= k < |ss|
      ensures !Makes(ss[k], t) && !Removes(ss[k], t)
    {
      OccursIs(ss[k], SourceRowItems(r));
      OccursInSourceRows(ss[k], r);
    }
  }

  lemma FrontMakesNoRows(r: Request)
    ensures NeverMade(Making(r), DeltaTablesRows)
  {
    hide StatementsOf, Occurs, FrontItems, DeltaItems, AuxItems, SourceItems, Repeat, LoadItems, SystemItems, ReplaceItems;
    forall k | 0 <= k < |Making(r)|
      ensures !Makes(Making(r)[k], DeltaTablesRows)
    {
      var s := Making(r)[k];
      OccursIs(s, FrontItems(r) + DeltaItems(r));
      OccursJoin(s, FrontItems(r), DeltaItems(r));
      OccursInDelta(s, r);
      OccursInFront(s, r);
    }
  }

  lemma OccursInFront(s: Statement, r: Request)
    ensures Occurs(s, FrontItems(r)) ==> !Makes(s, DeltaTablesRows)
  {
    hide StatementsOf, Occurs, AuxItems, SourceItems, Repeat, LoadItems, SystemItems, ReplaceItems, InPreparation;
    assert FrontItems(r) == PreparationItems(r) + (AuxItems(r.auxes) + LoadItems(r) + SourceItems(r.sources));
    OccursIs(s, PreparationItems(r));
    PreparationExactly(r, s);
    PreparedMakes(r, s);
    OccursInAux(s, r.auxes);
    OccursInLoad(s, r);
    OccursInSources(s, r.sources);
    OccursInThree(s, AuxItems(r.auxes), LoadItems(r), SourceItems(r.sources));
    OccursJoin(s, PreparationItems(r), AuxItems(r.auxes) + LoadItems(r) + SourceItems(r.sources));
  }

  lemma PreparedMakes(r: Request, s: Statement)
    ensures InPreparation(s, r.isReplace) ==> !Makes(s, DeltaTablesRows)
  {
  }

  /** Likewise the sources are recorded only when the objects of the view are there, at every step of a creation that
      finds no source rows. */
  lemma SourcesRecordedOnlyWhenComplete(r: Request, c0: Catalog, n: nat, t: Thing)
    requires DeltaTablesRows !in c0 && n <= |All(r)| && IsPhysical(r, t)
    requires DeltaTablesRows in Folded(All(r)[..n], c0)
    ensures t in Folded(All(r)[..n], c0)
  {
    hide All, Making, Building, Publishing, Folded, StatementsOf, SourceRowItems, IsPhysical, NeverMade, NeverRemoved;
    SourceRowsComeAfter(r);
    var m, y, p := Making(r), StatementsOf(SourceRowItems(r)), Publishing(r);
    PrefixOfTwo(m, y + p, n);
    if n <= |m| {
      FrontMakesNoRows(r);
      NeverMadeBefore(m, DeltaTablesRows, n);
      StaysAbsent(m[..n], c0, DeltaTablesRows);
    } else {
      var rest := (y + p)[..n - |m|];
      FoldedAppend(m, rest, c0);
      FoldedAppend(m, y, c0);
      PhysicalIsBuilt(r, c0, t);
      SourceRowsOnly(r, t);
      StaysSame(y, Folded(m, c0), t);
      PhysicalNotRemoved(r, t);
      StaysThere(y + p, Folded(m, c0), t, n - |m|);
    }
  }

  lemma NeverMadeBefore(ss: seq<Statement>, t: Thing, n: nat)
    requires NeverMade(ss, t) && n <= |ss|
    ensures NeverMade(ss[..n], t)
  {
  }

  lemma PhysicalNotRemoved(r: Request, t: Thing)
    requires IsPhysical(r, t)
    ensures NeverRemoved(StatementsOf(SourceRowItems(r)) + Publishing(r), t)
  {
    hide StatementsOf, SourceRowItems, Publishing;
    SourceRowsOnly(r, t);
    PublicationOnly(r);
  }

  // ---- a failed CREATE leaves nothing of the view ----

  /** What belongs to the view of a request. */
  predicate InFootprint(r: Request, t: Thing) {
    IsPhysical(r, t) || t.ViewsRow? || t.DeltaTablesRows? || t.DepsRows?
  }

  predicate IsShared(t: Thing) {
    t.Shared? || t.HistoryRows?
  }

  predicate DropsAux(s: Statement, auxes: seq<nat>) {
    s.Drop? && s.thing.Aux? && s.thing.kind in auxes
  }

  lemma {:induction false} AuxCleaned(auxes: seq<nat>)
    ensures forall s :: s in CleanupsOf(AuxCleanups(auxes)) <==> DropsAux(s, auxes)
  {
    if auxes != [] {
      var front, a := auxes[..|auxes| - 1], auxes[|auxes| - 1];
      AuxCleaned(front);
      var items := AuxCleanups(auxes);
      assert items[..|items| - 1] == AuxCleanups(front);
      assert CleanupsOf(items) == CleanupsOf(AuxCleanups(front)) + [Drop(Aux(a))];
      assert auxes == front + [a];
    }
  }

  lemma ViewCleaned()
    ensures CleanupsOf(VIEW_CLEANUPS)
            == [Drop(UserView), Drop(DataTable), Drop(MvDelta), Drop(DeltaTablesRows), Drop(DepsRows), Drop(ViewsRow)]
  {
    var v := VIEW_CLEANUPS;
    assert v[..5][..4][..3][..2][..1][..0] == [];
    assert v[..1] == [Cleanup(Drop(UserView))];
    assert CleanupsOf(v[..1]) == [Drop(UserView)];
    assert v[..2][..1] == v[..1] && v[..3][..2] == v[..2] && v[..4][..3] == v[..3] && v[..5][..4] == v[..4];
    assert CleanupsOf(v[..2]) == [Drop(UserView), Drop(DataTable)];
    assert CleanupsOf(v[..3]) == [Drop(UserView), Drop(DataTable), Drop(MvDelta)];
    assert CleanupsOf(v[..4]) == [Drop(UserView), Drop(DataTable), Drop(MvDelta), Drop(DeltaTablesRows)];
  }

  /** The clean-up drops exactly the footprint. */
  lemma CleaningDropsFootprint(r: Request)
    ensures forall s :: s in Cleaning(r.auxes) <==> s.Drop? && InFootprint(r, s.thing)
  {
    hide AuxCleanups, CleanupsOf;
    CleanupsAppend(AuxCleanups(r.auxes), VIEW_CLEANUPS);
    AuxCleaned(r.auxes);
    ViewCleaned();
  }

  lemma CleaningOf(r: Request, t: Thing)
    ensures NeverMade(Cleaning(r.auxes), t) && (!InFootprint(r, t) ==> NeverRemoved(Cleaning(r.auxes), t))
  {
    hide Cleaning, InFootprint;
    CleaningDropsFootprint(r);
    var ss := Cleaning(r.auxes);
    forall k | 0 <= k < |ss|
      ensures !Makes(ss[k], t) && (!InFootprint(r, t) ==> !Removes(ss[k], t))
    {
      assert ss[k] in ss;
    }
  }

  /** After the clean-up nothing of the footprint is left, and everything else is as it was before the clean-up. */
  lemma AfterCleanup(r: Request, c: Catalog, t: Thing)
    ensures InFootprint(r, t) ==> t !in Folded(Cleaning(r.auxes), c)
    ensures !InFootprint(r, t) ==> SameAt(Folded(Cleaning(r.auxes), c), c, t)
  {
    hide Cleaning, Folded, InFootprint;
    CleaningDropsFootprint(r);
    CleaningOf(r, t);
    if InFootprint(r, t) {
      assert Drop(t) in Cleaning(r.auxes);
      var k :| 0 <= k < |Cleaning(r.auxes)| && Cleaning(r.auxes)[k] == Drop(t);
      DroppedIsGone(Cleaning(r.auxes), c, t, k);
    } else {
      StaysSame(Cleaning(r.auxes), c, t);
    }
  }

  lemma OneOfThree(r: Request, k: nat)
    requires k < |All(r)|
    ensures var s := All(r)[k]; InPreparation(s, r.isReplace) || InConstruction(s, r) || InPublication(s, r)
  {
    hide All, Building, Preparation, Construction, Publishing, InPreparation, InConstruction, InPublication;
    AllInParts(r);
    BuildingInParts(r);
    PreparationOnly(r);
    ConstructionOnly(r);
    PublicationOnly(r);
    var p, c, u := Preparation(r), Construction(r), Publishing(r);
    assert All(r)[k] == if k < |p| then p[k] else if k < |p| + |c| then c[k - |p|] else u[k - |p| - |c|];
  }

  lemma OutsideStatement(r: Request, s: Statement, t: Thing)
    requires InPreparation(s, r.isReplace) || InConstruction(s, r) || InPublication(s, r)
    requires !InFootprint(r, t) && !IsShared(t)
    ensures !Makes(s, t) && !Removes(s, t)
  {
  }

  /** The statements touch the footprint and the shared things only. */
  lemma OutsideUntouched(r: Request, c0: Catalog, n: nat, t: Thing)
    requires n <= |All(r)| && !InFootprint(r, t) && !IsShared(t)
    ensures SameAt(Folded(All(r)[..n], c0), c0, t)
  {
    hide All, Folded, InPreparation, InConstruction, InPublication, Makes, Removes, InFootprint, IsShared;
    forall k | 0 <= k < n
      ensures !Makes(All(r)[..n][k], t) && !Removes(All(r)[..n][k], t)
    {
      assert All(r)[..n][k] == All(r)[k];
      OneOfThree(r, k);
      OutsideStatement(r, All(r)[k], t);
    }
    StaysSame(All(r)[..n], c0, t);
  }

  /** The catalog after a failure at statement n and the clean-up. */
  function AfterFailure(r: Request, c0: Catalog, n: nat): Catalog
    requires n <= |All(r)|
  {
    Folded(Cleaning(r.auxes), Folded(All(r)[..n], c0))
  }

  /** All or nothing: wherever a creation fails, after the clean-up no object and no row of the view remains. */
  lemma NothingRemains(r: Request, c0: Catalog, n: nat, t: Thing)
    requires n <= |All(r)|
    ensures InFootprint(r, t) ==> t !in AfterFailure(r, c0, n)
    ensures !InFootprint(r, t) && !IsShared(t) ==> SameAt(AfterFailure(r, c0, n), c0, t)
  {
    hide All, Cleaning, Folded;
    AfterCleanup(r, Folded(All(r)[..n], c0), t);
    if !InFootprint(r, t) && !IsShared(t) {
      OutsideUntouched(r, c0, n, t);
    }
  }

  /** So a failed creation restores the catalog, shared things aside, exactly when nothing of the view was there before;
      a failed replacement destroys the view it was to replace. */
  lemma FailureRestoresExactly(r: Request, c0: Catalog, n: nat)
    requires n <= |All(r)|
    ensures (forall t :: !IsShared(t) ==> SameAt(AfterFailure(r, c0, n), c0, t))
            <==> (forall t :: InFootprint(r, t) ==> t !in c0)
  {
    hide AfterFailure, All;
    forall t
      ensures InFootprint(r, t) ==> t !in AfterFailure(r, c0, n)
      ensures !InFootprint(r, t) && !IsShared(t) ==> SameAt(AfterFailure(r, c0, n), c0, t)
    {
      NothingRemains(r, c0, n, t);
    }
    if t :| InFootprint(r, t) && t in c0 {
      assert !IsShared(t) && !SameAt(AfterFailure(r, c0, n), c0, t);
    }
  }

  // ---- a successful CREATE makes everything anew ----

  lemma AgeOfCreated(r: Request, c0: Catalog, t: Thing)
    requires t.DataTable? || t.UserView?
    ensures t in Folded(Building(r), c0) && Folded(Building(r), c0)[t] == New
  {
    hide Preparation, Construction, Building, Folded;
    BuildingInParts(r);
    ConstructionOnly(r);
    FoldedAppend(Preparation(r), Construction(r), c0);
    var k := Constructed(r, t);
    MadeIsNew(Construction(r), Folded(Preparation(r), c0), t);
  }

  lemma DeltaBefore(r: Request, c0: Catalog)
    ensures MvDelta in Folded(Preparation(r), c0) ==> !r.isReplace && MvDelta in c0
    ensures !r.isReplace && MvDelta in c0 ==>
              MvDelta in Folded(Preparation(r), c0) && Folded(Preparation(r), c0)[MvDelta] == c0[MvDelta]
  {
    hide Preparation;
    PreparationOnly(r);
    if r.isReplace {
      var k := DeltaDropped(r);
      DroppedIsGone(Preparation(r), c0, MvDelta, k);
    } else {
      StaysSame(Preparation(r), c0, MvDelta);
    }
  }

  lemma DeltaDropped(r: Request) returns (n: nat)
    requires r.isReplace
    ensures n < |Preparation(r)| && Preparation(r)[n] == Drop(MvDelta)
  {
    hide Preparation;
    PreparationExactly(r, Drop(MvDelta));
    n := At(Preparation(r), Drop(MvDelta));
  }

  /** Tables made with IF NOT EXISTS: the delta table and the aux tables keep an old one that is still there. */
  lemma AgeOfEnsured(r: Request, c0: Catalog, t: Thing)
    requires IsPhysical(r, t) && !t.DataTable? && !t.UserView?
    ensures var c := Folded(Building(r), c0);
            t in c && c[t] == if t in c0 && (t.Aux? || !r.isReplace) then c0[t] else New
  {
    hide Preparation, Construction, Building, Folded;
    BuildingInParts(r);
    PreparationOnly(r);
    ConstructionOnly(r);
    var c1 := Folded(Preparation(r), c0);
    FoldedAppend(Preparation(r), Construction(r), c0);
    PhysicalIsBuilt(r, c0, t);
    EnsuredKeepsAge(Construction(r), c1, t);
    if t.Aux? {
      StaysSame(Preparation(r), c0, t);
    } else {
      DeltaBefore(r, c0);
    }
  }

  lemma PublishingKeepsPhysical(r: Request, c: Catalog, t: Thing)
    requires IsPhysical(r, t)
    ensures SameAt(Folded(Publishing(r), c), c, t)
  {
    hide Publishing;
    PublicationOnly(r);
    StaysSame(Publishing(r), c, t);
  }

  predicate AllOld(c: Catalog) {
    forall t :: t in c ==> c[t] == Old
  }

  /** After a successful creation all objects of the view are there, and all of them are new exactly when no aux table of
      the same name, and for a plain CREATE no delta table, was left from before: those are only created if missing,
      also by a replacement. */
  lemma SuccessIsNewExactly(r: Request, c0: Catalog)
    requires AllOld(c0)
    ensures forall t :: IsPhysical(r, t) ==> t in Folded(All(r), c0)
    ensures (forall t :: IsPhysical(r, t) && t in Folded(All(r), c0) ==> Folded(All(r), c0)[t] == New)
            <==> (forall a :: a in r.auxes ==> Aux(a) !in c0) && (r.isReplace || MvDelta !in c0)
  {
    hide All, Building, Publishing, Folded;
    AllInParts(r);
    FoldedAppend(Building(r), Publishing(r), c0);
    var c := Folded(All(r), c0);
    forall t | IsPhysical(r, t)
      ensures t in c
      ensures c[t] == if !t.DataTable? && !t.UserView? && t in c0 && (t.Aux? || !r.isReplace) then Old else New
    {
      PublishingKeepsPhysical(r, Folded(Building(r), c0), t);
      if t.DataTable? || t.UserView? {
        AgeOfCreated(r, c0, t);
      } else {
        AgeOfEnsured(r, c0, t);
      }
    }
    forall a | a in r.auxes
      ensures IsPhysical(r, Aux(a))
    {
    }
    assert IsPhysical(r, MvDelta);
  }

  // ---- the catalog after a successful CREATE ----

  lemma InThreeParts(r: Request, c0: Catalog)
    ensures Folded(All(r), c0) == Folded(Publishing(r), Folded(Construction(r), Folded(Preparation(r), c0)))
  {
    hide All, Building, Preparation, Construction, Publishing, Folded;
    AllInParts(r);
    BuildingInParts(r);
    FoldedAppend(Preparation(r) + Construction(r), Publishing(r), c0);
    FoldedAppend(Preparation(r), Construction(r), c0);
  }

  lemma RowIsNew(r: Request, c: Catalog)
    ensures ViewsRow in Folded(Publishing(r), c) && Folded(Publishing(r), c)[ViewsRow] == New
  {
    hide Publishing, Folded;
    PublicationOnly(r);
    PublicationExactly(r, Put(ViewsRow));
    var k := At(Publishing(r), Put(ViewsRow));
    MadeIsNew(Publishing(r), c, ViewsRow);
  }

  /** The source rows are new if there are sources to record; otherwise a replacement has removed the old ones. */
  lemma SourceRowsAtTheEnd(r: Request, c0: Catalog)
    ensures var c := Folded(All(r), c0);
            && (r.sourceRows ==> DeltaTablesRows in c && c[DeltaTablesRows] == New)
            && (!r.sourceRows && r.isReplace ==> DeltaTablesRows !in c)
            && (!r.sourceRows && !r.isReplace ==> SameAt(c, c0, DeltaTablesRows))
  {
    hide All, Preparation, Construction, Publishing, Folded;
    InThreeParts(r, c0);
    PreparationOnly(r);
    ConstructionOnly(r);
    PublicationOnly(r);
    var c1 := Folded(Preparation(r), c0);
    var c2 := Folded(Construction(r), c1);
    StaysSame(Publishing(r), c2, DeltaTablesRows);
    if r.sourceRows {
      ConstructionExactly(r, Put(DeltaTablesRows));
      var k := At(Construction(r), Put(DeltaTablesRows));
      MadeIsNew(Construction(r), c1, DeltaTablesRows);
    } else {
      StaysSame(Construction(r), c1, DeltaTablesRows);
      PreparationAt(r, c0, DeltaTablesRows);
    }
  }

  lemma PreparationAt(r: Request, c0: Catalog, t: Thing)
    requires t.DeltaTablesRows? || t.HistoryRows?
    ensures r.isReplace ==> t !in Folded(Preparation(r), c0)
    ensures !r.isReplace ==> SameAt(Folded(Preparation(r), c0), c0, t)
  {
    hide Preparation, Folded;
    PreparationOnly(r);
    if r.isReplace {
      PreparationExactly(r, Drop(t));
      var k := At(Preparation(r), Drop(t));
      DroppedIsGone(Preparation(r), c0, t, k);
    } else {
      StaysSame(Preparation(r), c0, t);
    }
  }

  lemma HistoryAtTheEnd(r: Request, c0: Catalog)
    ensures var c := Folded(All(r), c0);
            if r.isReplace then HistoryRows !in c else SameAt(c, c0, HistoryRows)
  {
    hide All, Preparation, Construction, Publishing, Folded;
    InThreeParts(r, c0);
    ConstructionOnly(r);
    PublicationOnly(r);
    PreparationAt(r, c0, HistoryRows);
    var c1 := Folded(Preparation(r), c0);
    StaysSame(Construction(r), c1, HistoryRows);
    StaysSame(Publishing(r), Folded(Construction(r), c1), HistoryRows);
  }

  lemma OneStatement(s: Statement, c: Catalog)
    ensures StatementsOf([Plain(s)]) == [s] && Folded([s], c) == Effect(s, c)
  {
    assert [Plain(s)][..0] == [] && [s][..0] == [];
  }

  lemma EdgesStep(edges: seq<bool>, s: Statement)
    requires edges != [] && s == if edges[|edges| - 1] then Put(DepsRows) else Update(DepsRows)
    ensures StatementsOf(EdgeItems(edges)) == StatementsOf(EdgeItems(edges[..|edges| - 1])) + [s]
  {
    hide StatementsOf, StatementOf;
    StatementsAppend(EdgeItems(edges[..|edges| - 1]), [Plain(s)]);
    OneStatement(s, map[]);
  }

  lemma NoEdges()
    ensures StatementsOf(EdgeItems([])) == []
  {
  }

  lemma {:induction false} EdgesFolded(edges: seq<bool>, c: Catalog)
    ensures true in edges ==> DepsRows in Folded(StatementsOf(EdgeItems(edges)), c)
                              && Folded(StatementsOf(EdgeItems(edges)), c)[DepsRows] == New
    ensures true !in edges ==> SameAt(Folded(StatementsOf(EdgeItems(edges)), c), c, DepsRows)
  {
    hide Folded, StatementsOf, StatementOf, EdgeItems;
    if edges == [] {
      NoEdges();
      NothingFolded(c);
    } else {
      var front, edge := edges[..|edges| - 1], edges[|edges| - 1];
      var s := if edge then Put(DepsRows) else Update(DepsRows);
      EdgesFolded(front, c);
      EdgesStep(edges, s);
      OneStatement(s, Folded(StatementsOf(EdgeItems(front)), c));
      FoldedAppend(StatementsOf(EdgeItems(front)), [s], c);
      assert edges == front + [edge];
    }
  }

  /** What is updated after the dependencies. */
  function LastItems(r: Request): seq<Item> {
    When(r.lineage, [Plain(Update(ViewsRow))]) + Repeat(Plain(Update(ViewsRow)), |r.auxes|)
  }

  lemma LastStatements(r: Request)
    ensures NeverMade(StatementsOf(LastItems(r)), DepsRows) && NeverRemoved(StatementsOf(LastItems(r)), DepsRows)
  {
    hide Repeat, Occurs, StatementsOf;
    var rest := StatementsOf(LastItems(r));
    forall k | 0 <= k < |rest|
      ensures rest[k] == Update(ViewsRow)
    {
      OccursIs(rest[k], LastItems(r));
      OccursNowhere(rest[k]);
      OccursOne(rest[k], Plain(Update(ViewsRow)));
      OccursRepeated(rest[k], Plain(Update(ViewsRow)), |r.auxes|);
      OccursJoin(rest[k], When(r.lineage, [Plain(Update(ViewsRow))]), Repeat(Plain(Update(ViewsRow)), |r.auxes|));
    }
  }

  /** The statements of the publication: up to the dependencies, the dependencies, and the rest. */
  lemma PublishingParts(r: Request)
    requires r.matching
    ensures Publishing(r) == [Put(ViewsRow), Update(ViewsRow), Drop(DepsRows)] + StatementsOf(EdgeItems(r.edges))
                             + StatementsOf(LastItems(r))
  {
    hide EdgeItems, Repeat, StatementsOf;
    var head := [Profile, Plain(Put(ViewsRow)), Plain(Update(ViewsRow)), Plain(Drop(DepsRows))];
    assert PublishItems(r) == head + EdgeItems(r.edges) + LastItems(r);
    StatementsAppend(head + EdgeItems(r.edges), LastItems(r));
    StatementsAppend(head, EdgeItems(r.edges));
    HeadStatements();
  }

  lemma HeadStatements()
    ensures StatementsOf([Profile, Plain(Put(ViewsRow)), Plain(Update(ViewsRow)), Plain(Drop(DepsRows))])
            == [Put(ViewsRow), Update(ViewsRow), Drop(DepsRows)]
  {
    var head := [Profile, Plain(Put(ViewsRow)), Plain(Update(ViewsRow)), Plain(Drop(DepsRows))];
    assert head[..3][..2][..1][..0] == [];
    assert head[..2][..1] == head[..1] && head[..3][..2] == head[..2];
    assert StatementsOf(head[..1]) == [];
    assert StatementsOf(head[..2]) == [Put(ViewsRow)];
    assert StatementsOf(head[..3]) == [Put(ViewsRow), Update(ViewsRow)];
  }

  /** Matching replaces the dependencies of the view by one for each source that is a registered view. */
  lemma DependenciesAtTheEnd(r: Request, c0: Catalog)
    ensures var c := Folded(All(r), c0);
            && (r.matching ==> (DepsRows in c <==> true in r.edges) && (DepsRows in c ==> c[DepsRows] == New))
            && (!r.matching ==> SameAt(c, c0, DepsRows))
  {
    hide All, Preparation, Construction, Publishing, Folded, StatementsOf, EdgeItems, LastItems;
    InThreeParts(r, c0);
    PreparationOnly(r);
    ConstructionOnly(r);
    var c1 := Folded(Preparation(r), c0);
    StaysSame(Preparation(r), c0, DepsRows);
    StaysSame(Construction(r), c1, DepsRows);
    var c2 := Folded(Construction(r), c1);
    if r.matching {
      PublishingParts(r);
      LastStatements(r);
      var head, edges := [Put(ViewsRow), Update(ViewsRow), Drop(DepsRows)], StatementsOf(EdgeItems(r.edges));
      var rest := StatementsOf(LastItems(r));
      FoldedAppend(head + edges, rest, c2);
      FoldedAppend(head, edges, c2);
      DroppedIsGone(head, c2, DepsRows, 2);
      EdgesFolded(r.edges, Folded(head, c2));
      StaysSame(rest, Folded(head + edges, c2), DepsRows);
    } else {
      PublicationOnly(r);
      StaysSame(Publishing(r), c2, DepsRows);
    }
  }

  /** The tables of the extension and the delta tables of the sources are there afterwards; those that were there
      before are the old ones, and no other shared table appears. */
  lemma SharedAtTheEnd(r: Request, c0: Catalog, name: SharedThing)
    ensures var c, t := Folded(All(r), c0), Shared(name);
            && (t in c <==> t in c0 || (name.SourceDelta? ==> name.source in r.sources))
            && (t in c0 ==> t in c && c[t] == c0[t])
            && (t !in c0 && t in c ==> c[t] == New)
  {
    hide All, Folded, InPreparation, InConstruction, InPublication;
    var t := Shared(name);
    forall k | 0 <= k < |All(r)|
      ensures !Removes(All(r)[k], t)
      ensures Makes(All(r)[k], t) ==> All(r)[k] == Ensure(t) && (name.SourceDelta? ==> name.source in r.sources)
    {
      StatementsExactly(r, All(r)[k]);
      SharedStatement(r, All(r)[k], name);
    }
    EnsuredKeepsAge(All(r), c0, t);
    StatementsExactly(r, Ensure(t));
    EnsuredShared(r, name);
    if name.SourceDelta? ==> name.source in r.sources {
      var k := At(All(r), Ensure(t));
      MadeIsThere(All(r), c0, t, k);
    } else if t !in c0 {
      StaysAbsent(All(r), c0, t);
    }
  }

  lemma EnsuredShared(r: Request, name: SharedThing)
    ensures InPreparation(Ensure(Shared(name)), r.isReplace) || InConstruction(Ensure(Shared(name)), r)
            <==> (name.SourceDelta? ==> name.source in r.sources)
  {
  }

  lemma SharedStatement(r: Request, s: Statement, name: SharedThing)
    requires InPreparation(s, r.isReplace) || InConstruction(s, r) || InPublication(s, r)
    ensures !Removes(s, Shared(name))
    ensures Makes(s, Shared(name)) ==> s == Ensure(Shared(name)) && (name.SourceDelta? ==> name.source in r.sources)
  {
  }

  /** What a successful creation leaves in the catalog, told from the request: the row of the view, its source rows,
      its dependencies and the shared tables are there exactly when the request asks for them. */
  ghost predicate Registered(r: Request, c0: Catalog, c: Catalog) {
    && ViewsRow in c && c[ViewsRow] == New
    && DataTable in c && c[DataTable] == New && UserView in c && c[UserView] == New
    && (r.sourceRows ==> DeltaTablesRows in c && c[DeltaTablesRows] == New)
    && (!r.sourceRows && r.isReplace ==> DeltaTablesRows !in c)
    && (!r.sourceRows && !r.isReplace ==> SameAt(c, c0, DeltaTablesRows))
    && (r.matching ==> (DepsRows in c <==> true in r.edges) && (DepsRows in c ==> c[DepsRows] == New))
    && (!r.matching ==> SameAt(c, c0, DepsRows))
    && (if r.isReplace then HistoryRows !in c else SameAt(c, c0, HistoryRows))
    && (forall name :: Shared(name) in c <==> Shared(name) in c0 || (name.SourceDelta? ==> name.source in r.sources))
    && (forall name :: Shared(name) in c0 ==> Shared(name) in c && c[Shared(name)] == c0[Shared(name)])
  }

  lemma CreatedIsRegistered(r: Request, c0: Catalog)
    ensures Registered(r, c0, Folded(All(r), c0))
  {
    hide All, Folded, SameAt;
    RowRemains(r, c0);
    NewObjects(r, c0);
    SourceRowsAtTheEnd(r, c0);
    DependenciesAtTheEnd(r, c0);
    HistoryAtTheEnd(r, c0);
    SharedThings(r, c0, Folded(All(r), c0));
  }

  lemma RowRemains(r: Request, c0: Catalog)
    ensures ViewsRow in Folded(All(r), c0) && Folded(All(r), c0)[ViewsRow] == New
  {
    hide All, Building, Publishing, Folded;
    AllInParts(r);
    FoldedAppend(Building(r), Publishing(r), c0);
    RowIsNew(r, Folded(Building(r), c0));
  }

  lemma SharedThings(r: Request, c0: Catalog, c: Catalog)
    requires c == Folded(All(r), c0)
    ensures forall name :: Shared(name) in c <==> Shared(name) in c0 || (name.SourceDelta? ==> name.source in r.sources)
    ensures forall name :: Shared(name) in c0 ==> Shared(name) in c && c[Shared(name)] == c0[Shared(name)]
  {
    hide All, Folded;
    forall name: SharedThing
      ensures Shared(name) in c <==> Shared(name) in c0 || (name.SourceDelta? ==> name.source in r.sources)
      ensures Shared(name) in c0 ==> Shared(name) in c && c[Shared(name)] == c0[Shared(name)]
    {
      SharedAtTheEnd(r, c0, name);
    }
  }

  lemma NewObjects(r: Request, c0: Catalog)
    ensures var c := Folded(All(r), c0);
            DataTable in c && c[DataTable] == New && UserView in c && c[UserView] == New
  {
    hide All, Building, Publishing, Folded;
    AllInParts(r);
    FoldedAppend(Building(r), Publishing(r), c0);
    AgeOfCreated(r, c0, DataTable);
    AgeOfCreated(r, c0, UserView);
    PublishingKeepsPhysical(r, Folded(Building(r), c0), DataTable);
    PublishingKeepsPhysical(r, Folded(Building(r), c0), UserView);
  }

  // ---- a creation that the database does not break goes through ----

  /** What has to be there for a statement to find the table, or the rows' table, it speaks of. */
  function Needs(s: Statement): set<Thing> {
    match s
    case Create(t) => if t.UserView? then {DataTable} else {}
    case DeriveDelta(_) => {DataTable}
    case UniqueIndex => {DataTable}
    case DeleteStaleRow => {Shared(ViewsTable)}
    case GuardDuplicate => {Shared(ViewsTable)}
    case Put(t) => HomeOf(t)
    case Update(t) => HomeOf(t)
    case Drop(t) => HomeOf(t)
    case _ => {}
  }

  /** The table that rows are in; that of the dependencies is made when the extension is loaded. */
  function HomeOf(t: Thing): set<Thing> {
    match t
    case ViewsRow => {Shared(ViewsTable)}
    case DeltaTablesRows => {Shared(DeltaTablesTable)}
    case HistoryRows => {Shared(HistoryTable)}
    case _ => {}
  }

  /** The statement finds what it needs and does not fail by itself. */
  predicate CanRun(s: Statement, c: Catalog) {
    Ready(s, c) && Needs(s) <= c.Keys
  }

  ghost predicate AllRun(ss: seq<Statement>, c: Catalog) {
    forall k: nat :: k < |ss| ==> CanRun(ss[k], Folded(ss[..k], c))
  }

  lemma RunAppend(a: seq<Statement>, b: seq<Statement>, c: Catalog)
    requires AllRun(a, c) && AllRun(b, Folded(a, c))
    ensures AllRun(a + b, c)
  {
    hide Folded, CanRun;
    var ss := a + b;
    forall k: nat | k < |ss|
      ensures CanRun(ss[k], Folded(ss[..k], c))
    {
      if k < |a| {
        assert ss[..k] == a[..k];
      } else {
        assert ss[..k] == a + b[..k - |a|];
        FoldedAppend(a, b[..k - |a|], c);
      }
    }
  }

  /** Statements that fail in no state by themselves. */
  predicate Steady(s: Statement) {
    !s.Create? && !s.GuardDuplicate? && (s.DeriveDelta? ==> s.wellFormed)
  }

  lemma SteadyRun(ss: seq<Statement>, c: Catalog)
    requires forall s :: s in ss ==> Steady(s) && Needs(s) <= c.Keys
    requires forall s, t :: s in ss && t in Needs(s) ==> NeverRemoved(ss, t)
    ensures AllRun(ss, c)
  {
    hide Folded, Needs, NeverRemoved;
    forall k: nat | k < |ss|
      ensures CanRun(ss[k], Folded(ss[..k], c))
    {
      var s := ss[k];
      assert s in ss;
      forall t | t in Needs(s)
        ensures t in Folded(ss[..k], c)
      {
        StaysThere(ss, c, t, k);
      }
    }
  }

  lemma StaysThere(ss: seq<Statement>, c: Catalog, t: Thing, k: nat)
    requires NeverRemoved(ss, t) && t in c && k <= |ss|
    ensures t in Folded(ss[..k], c)
  {
    StaysPresent(ss[..k], c, t);
  }

  predicate Stocked(c: Catalog) {
    Shared(ViewsTable) in c && Shared(DeltaTablesTable) in c && Shared(HistoryTable) in c
  }

  predicate Bare(c: Catalog) {
    UserView !in c && DataTable !in c
  }

  /** The set-up of the tables up to the stale row, the guard, and the rest. */
  function OpeningItems(r: Request): seq<Item> {
    Repeat(Record, r.steps) + [Profile] + Repeat(EnsurePlain(ViewsTable), 6)
  }

  function GuardItems(r: Request): seq<Item> {
    When(!r.isReplace, [Plain(DeleteStaleRow), Plain(GuardDuplicate)])
  }

  function TableItems(): seq<Item> {
    [EnsurePlain(HooksTable)] + Repeat(EnsurePlain(DeltaTablesTable), 6) + Repeat(EnsurePlain(HistoryTable), 2)
    + [EnsurePlain(ProfileTable)]
  }

  lemma OpeningExactly(r: Request, s: Statement)
    ensures s in StatementsOf(OpeningItems(r)) <==> s == Ensure(Shared(ViewsTable))
  {
    hide Repeat, Occurs, StatementsOf;
    OccursIs(s, OpeningItems(r));
    OccursRepeated(s, Record, r.steps);
    OccursOne(s, Profile);
    OccursRepeated(s, EnsurePlain(ViewsTable), 6);
    OccursInThree(s, Repeat(Record, r.steps), [Profile], Repeat(EnsurePlain(ViewsTable), 6));
  }

  lemma TablesExactly(s: Statement)
    ensures s in StatementsOf(TableItems())
            <==> s == Ensure(Shared(HooksTable)) || s == Ensure(Shared(DeltaTablesTable)) || s == Ensure(Shared(HistoryTable))
                 || s == Ensure(Shared(ProfileTable))
  {
    hide Repeat, Occurs, StatementsOf;
    var a, b := Repeat(EnsurePlain(DeltaTablesTable), 6), Repeat(EnsurePlain(HistoryTable), 2);
    OccursIs(s, TableItems());
    OccursOne(s, EnsurePlain(HooksTable));
    OccursRepeated(s, EnsurePlain(DeltaTablesTable), 6);
    OccursRepeated(s, EnsurePlain(HistoryTable), 2);
    OccursOne(s, EnsurePlain(ProfileTable));
    OccursInThree(s, [EnsurePlain(HooksTable)], a, b);
    OccursJoin(s, [EnsurePlain(HooksTable)] + a + b, [EnsurePlain(ProfileTable)]);
  }

  lemma PreparationSplit(r: Request)
    ensures Preparation(r) == StatementsOf(OpeningItems(r)) + StatementsOf(GuardItems(r)) + StatementsOf(TableItems())
                              + StatementsOf(ReplaceItems(r.isReplace))
  {
    hide Repeat, StatementsOf, ReplaceItems;
    assert PreparationItems(r) == OpeningItems(r) + GuardItems(r) + TableItems() + ReplaceItems(r.isReplace) + [Record];
    StatementsAppend(OpeningItems(r), GuardItems(r));
    StatementsAppend(OpeningItems(r) + GuardItems(r), TableItems());
    StatementsAppend(OpeningItems(r) + GuardItems(r) + TableItems(), ReplaceItems(r.isReplace));
    StatementsAppend(OpeningItems(r) + GuardItems(r) + TableItems() + ReplaceItems(r.isReplace), [Record]);
    RecordIsNoStatement();
  }

  lemma RecordIsNoStatement()
    ensures StatementsOf([Record]) == []
  {
  }

  /** Statements that only make sure of shared tables. */
  lemma EnsuringRuns(ss: seq<Statement>, c: Catalog)
    requires forall s :: s in ss ==> s.Ensure? && s.thing.Shared?
    ensures AllRun(ss, c)
    ensures Bare(c) ==> Bare(Folded(ss, c))
    ensures forall t :: t in c || Ensure(t) in ss ==> t in Folded(ss, c)
  {
    hide Folded, AllRun;
    forall k | 0 <= k < |ss|
      ensures ss[k].Ensure? && ss[k].thing.Shared?
    {
      assert ss[k] in ss;
    }
    SteadyRun(ss, c);
    if Bare(c) {
      StaysAbsent(ss, c, UserView);
      StaysAbsent(ss, c, DataTable);
    }
    forall t | t in c || Ensure(t) in ss
      ensures t in Folded(ss, c)
    {
      if t in c {
        StaysPresent(ss, c, t);
      } else {
        var k := At(ss, Ensure(t));
        MadeIsThere(ss, c, t, k);
      }
    }
  }

  lemma OneRuns(s: Statement, c: Catalog)
    requires CanRun(s, c)
    ensures AllRun([s], c) && Folded([s], c) == Effect(s, c)
  {
    assert [s][..0] == [];
  }

  lemma GuardStatements(r: Request)
    ensures StatementsOf(GuardItems(r)) == if r.isReplace then [] else [DeleteStaleRow] + [GuardDuplicate]
  {
    if !r.isReplace {
      hide StatementsOf;
      StatementsAppend([Plain(DeleteStaleRow)], [Plain(GuardDuplicate)]);
      OneStatement(DeleteStaleRow, map[]);
      OneStatement(GuardDuplicate, map[]);
      assert GuardItems(r) == [Plain(DeleteStaleRow)] + [Plain(GuardDuplicate)];
    }
  }

  lemma StaleRowGoes(c: Catalog)
    requires Shared(ViewsTable) in c && Bare(c)
    ensures CanRun(DeleteStaleRow, c)
    ensures var c1 := Effect(DeleteStaleRow, c);
            Bare(c1) && Shared(ViewsTable) in c1 && CanRun(GuardDuplicate, c1) && Effect(GuardDuplicate, c1) == c1
  {
    assert Effect(DeleteStaleRow, c) == c - {ViewsRow};
  }

  lemma NothingRuns(c: Catalog)
    ensures AllRun([], c) && Folded([], c) == c
  {
  }

  /** Where neither view nor data table is there, the stale row is gone before the guard looks for a row. */
  lemma GuardRuns(r: Request, c: Catalog)
    requires Shared(ViewsTable) in c && (!r.isReplace ==> Bare(c))
    ensures var ss := StatementsOf(GuardItems(r));
            && AllRun(ss, c) && Shared(ViewsTable) in Folded(ss, c) && (!r.isReplace ==> Bare(Folded(ss, c)))
  {
    hide Folded, AllRun, StatementsOf, GuardItems, CanRun, Effect, Bare;
    GuardStatements(r);
    if r.isReplace {
      NothingRuns(c);
    } else {
      StaleRowGoes(c);
      var c1 := Effect(DeleteStaleRow, c);
      OneRuns(DeleteStaleRow, c);
      OneRuns(GuardDuplicate, c1);
      FoldedAppend([DeleteStaleRow], [GuardDuplicate], c);
      RunAppend([DeleteStaleRow], [GuardDuplicate], c);
    }
  }

  lemma ReplacementRuns(r: Request, c: Catalog)
    requires Stocked(c) && (!r.isReplace ==> Bare(c))
    ensures var ss := StatementsOf(ReplaceItems(r.isReplace));
            AllRun(ss, c) && Stocked(Folded(ss, c)) && Bare(Folded(ss, c))
  {
    hide AllRun, Folded, StatementsOf, ReplaceItems, NeverRemoved, NeverMade;
    var ss := StatementsOf(ReplaceItems(r.isReplace));
    ReplacementOnly(r);
    SteadyRun(ss, c);
    KeepsStock(ss, c);
    GoneAfterReplacement(r, c, UserView);
    GoneAfterReplacement(r, c, DataTable);
  }

  lemma GoneAfterReplacement(r: Request, c: Catalog, t: Thing)
    requires (t.UserView? || t.DataTable?) && (!r.isReplace ==> t !in c)
    ensures t !in Folded(StatementsOf(ReplaceItems(r.isReplace)), c)
  {
    hide Folded, StatementsOf, ReplaceItems;
    var ss := StatementsOf(ReplaceItems(r.isReplace));
    ReplacementOnly(r);
    if r.isReplace {
      OccursIs(Drop(t), ReplaceItems(true));
      OccursInReplacement(Drop(t), true);
      var k := At(ss, Drop(t));
      DroppedIsGone(ss, c, t, k);
    } else {
      StaysAbsent(ss, c, t);
    }
  }

  lemma ReplacementOnly(r: Request)
    ensures var ss := StatementsOf(ReplaceItems(r.isReplace));
            && (forall s :: s in ss ==> s.Drop? && !s.thing.Shared? && !s.thing.ViewsRow?)
            && (forall t :: NeverMade(ss, t))
            && (forall name :: NeverRemoved(ss, Shared(name)))
  {
    hide StatementsOf, ReplaceItems, Occurs;
    var ss := StatementsOf(ReplaceItems(r.isReplace));
    forall s | s in ss
      ensures s.Drop? && !s.thing.Shared? && !s.thing.ViewsRow?
    {
      OccursIs(s, ReplaceItems(r.isReplace));
      OccursInReplacement(s, r.isReplace);
    }
    forall k | 0 <= k < |ss|
      ensures ss[k].Drop? && !ss[k].thing.Shared?
    {
      assert ss[k] in ss;
    }
  }

  lemma KeepsStock(ss: seq<Statement>, c: Catalog)
    requires Stocked(c) && forall name :: NeverRemoved(ss, Shared(name))
    ensures Stocked(Folded(ss, c))
  {
    hide Folded, NeverRemoved;
    StaysPresent(ss, c, Shared(ViewsTable));
    StaysPresent(ss, c, Shared(DeltaTablesTable));
    StaysPresent(ss, c, Shared(HistoryTable));
  }

  lemma PreparationRuns(r: Request, c0: Catalog)
    requires Bindable(r, c0)
    ensures var c := Folded(Preparation(r), c0);
            AllRun(Preparation(r), c0) && Stocked(c) && Bare(c)
  {
    hide AllRun, Folded, StatementsOf, OpeningItems, GuardItems, TableItems, ReplaceItems, Preparation;
    var o, g, t := StatementsOf(OpeningItems(r)), StatementsOf(GuardItems(r)), StatementsOf(TableItems());
    var p := StatementsOf(ReplaceItems(r.isReplace));
    forall s
      ensures s in o <==> s == Ensure(Shared(ViewsTable))
    {
      OpeningExactly(r, s);
    }
    forall s | s in t
      ensures s.Ensure? && s.thing.Shared?
    {
      TablesExactly(s);
    }
    EnsuringRuns(o, c0);
    assert Ensure(Shared(ViewsTable)) in o;
    var c1 := Folded(o, c0);
    GuardRuns(r, c1);
    var c2 := Folded(g, c1);
    EnsuringRuns(t, c2);
    TablesExactly(Ensure(Shared(DeltaTablesTable)));
    TablesExactly(Ensure(Shared(HistoryTable)));
    var c3 := Folded(t, c2);
    ReplacementRuns(r, c3);
    PreparationSplit(r);
    FoldedAppend(o, g, c0);
    RunAppend(o, g, c0);
    FoldedAppend(o + g, t, c0);
    RunAppend(o + g, t, c0);
    FoldedAppend(o + g + t, p, c0);
    RunAppend(o + g + t, p, c0);
  }

  /** What comes before and after the data table is made, and after the user view is. */
  function SwitchItems(r: Request): seq<Item> {
    [Profile] + When(r.otherCatalog, [Plain(Session)])
  }

  function SettingItems(r: Request): seq<Item> {
    When(r.targetPrefix, [Plain(Session)]) + When(r.pac, [Profile, Plain(Session), Plain(Session)]) + [Profile]
  }

  function EndItems(r: Request): seq<Item> {
    SourceItems(r.sources) + DeltaItems(r) + SourceRowItems(r)
  }

  lemma ConstructionItemsSplit(r: Request)
    ensures ConstructionItems(r)
            == AuxItems(r.auxes) + SwitchItems(r) + [Plain(Create(DataTable))] + SettingItems(r) + [Plain(Create(UserView))]
               + EndItems(r)
  {
    hide AuxItems, SourceItems, DeltaItems, SourceRowItems, When;
  }

  lemma SixParts(a: seq<Item>, b: seq<Item>, t: seq<Item>, d: seq<Item>, v: seq<Item>, e: seq<Item>)
    ensures StatementsOf(a + b + t + d + v + e)
            == StatementsOf(a) + StatementsOf(b) + StatementsOf(t) + StatementsOf(d) + StatementsOf(v) + StatementsOf(e)
  {
    hide StatementsOf;
    StatementsAppend(a, b);
    StatementsAppend(a + b, t);
    StatementsAppend(a + b + t, d);
    StatementsAppend(a + b + t + d, v);
    StatementsAppend(a + b + t + d + v, e);
  }

  lemma ConstructionSplit(r: Request)
    ensures Construction(r) == StatementsOf(AuxItems(r.auxes)) + StatementsOf(SwitchItems(r)) + [Create(DataTable)]
                               + StatementsOf(SettingItems(r)) + [Create(UserView)] + StatementsOf(EndItems(r))
  {
    hide StatementsOf, AuxItems, SwitchItems, SettingItems, EndItems, ConstructionItems;
    ConstructionItemsSplit(r);
    SixParts(AuxItems(r.auxes), SwitchItems(r), [Plain(Create(DataTable))], SettingItems(r), [Plain(Create(UserView))],
             EndItems(r));
    OneStatement(Create(DataTable), map[]);
    OneStatement(Create(UserView), map[]);
  }

  lemma SwitchExactly(r: Request, s: Statement)
    ensures s in StatementsOf(SwitchItems(r)) ==> s.Session?
    ensures s in StatementsOf(SettingItems(r)) ==> s.Session?
  {
    hide StatementsOf, Occurs;
    var settings := [Profile, Plain(Session), Plain(Session)];
    OccursIs(s, SwitchItems(r));
    OccursIs(s, SettingItems(r));
    OccursNowhere(s);
    OccursOne(s, Profile);
    OccursOne(s, Plain(Session));
    OccursJoin(s, [Profile], When(r.otherCatalog, [Plain(Session)]));
    assert settings == [Profile] + [Plain(Session)] + [Plain(Session)];
    OccursInThree(s, [Profile], [Plain(Session)], [Plain(Session)]);
    OccursInThree(s, When(r.targetPrefix, [Plain(Session)]), When(r.pac, settings), [Profile]);
  }

  lemma {:induction false} SessionsRun(ss: seq<Statement>, c: Catalog)
    requires forall s :: s in ss ==> s.Session?
    ensures AllRun(ss, c) && Folded(ss, c) == c
  {
    if ss == [] {
    } else {
      hide Folded, AllRun;
      var front, last := ss[..|ss| - 1], ss[|ss| - 1];
      SessionsRun(front, c);
      assert last in ss && ss == front + [last];
      OneRuns(last, c);
      FoldedAppend(front, [last], c);
      RunAppend(front, [last], c);
    }
  }

  /** The aux tables come first; they do not disturb what is to be made. */
  lemma AuxRuns(r: Request, c: Catalog)
    requires Stocked(c) && Bare(c)
    ensures var ss := StatementsOf(AuxItems(r.auxes));
            AllRun(ss, c) && Stocked(Folded(ss, c)) && Bare(Folded(ss, c))
  {
    hide AllRun, Folded, StatementsOf, AuxItems, Occurs;
    var ss := StatementsOf(AuxItems(r.auxes));
    forall s | s in ss
      ensures s.Ensure? && s.thing.Aux?
    {
      OccursIs(s, AuxItems(r.auxes));
      OccursInAux(s, r.auxes);
    }
    forall k | 0 <= k < |ss|
      ensures ss[k].Ensure? && ss[k].thing.Aux?
    {
      assert ss[k] in ss;
    }
    SteadyRun(ss, c);
    KeepsStock(ss, c);
    StaysAbsent(ss, c, UserView);
    StaysAbsent(ss, c, DataTable);
  }

  lemma EndRuns(r: Request, c: Catalog)
    requires Stocked(c) && DataTable in c
    ensures AllRun(StatementsOf(EndItems(r)), c) && Stocked(Folded(StatementsOf(EndItems(r)), c))
  {
    hide AllRun, Folded, StatementsOf, SourceItems, DeltaItems, SourceRowItems, Occurs;
    var ss := StatementsOf(EndItems(r));
    forall s | s in ss
      ensures Steady(s) && !s.Drop? && !s.DeleteStaleRow? && Needs(s) <= {DataTable, Shared(DeltaTablesTable)}
    {
      OccursIs(s, EndItems(r));
      OccursInSources(s, r.sources);
      OccursInDelta(s, r);
      OccursInSourceRows(s, r);
      OccursInThree(s, SourceItems(r.sources), DeltaItems(r), SourceRowItems(r));
    }
    forall k | 0 <= k < |ss|
      ensures !ss[k].Drop? && !ss[k].DeleteStaleRow?
    {
      assert ss[k] in ss;
    }
    SteadyRun(ss, c);
    KeepsStock(ss, c);
  }

  lemma ConstructionRuns(r: Request, c: Catalog)
    requires Stocked(c) && Bare(c)
    ensures AllRun(Construction(r), c) && Stocked(Folded(Construction(r), c))
  {
    hide AllRun, Folded, StatementsOf, AuxItems, SwitchItems, SettingItems, EndItems, Construction;
    var a, b := StatementsOf(AuxItems(r.auxes)), StatementsOf(SwitchItems(r));
    var d, e := StatementsOf(SettingItems(r)), StatementsOf(EndItems(r));
    forall s
      ensures s in b ==> s.Session?
      ensures s in d ==> s.Session?
    {
      SwitchExactly(r, s);
    }
    AuxRuns(r, c);
    var c1 := Folded(a, c);
    SessionsRun(b, c1);
    OneRuns(Create(DataTable), c1);
    var c2 := c1[DataTable := New];
    SessionsRun(d, c2);
    OneRuns(Create(UserView), c2);
    EndRuns(r, c2[UserView := New]);
    ConstructionSplit(r);
    RunFive(a, b, [Create(DataTable)], d, [Create(UserView)], e, c);
  }

  lemma RunFive(a: seq<Statement>, b: seq<Statement>, t: seq<Statement>, d: seq<Statement>, v: seq<Statement>,
                e: seq<Statement>, c: Catalog)
    requires AllRun(a, c) && AllRun(b, Folded(a, c)) && AllRun(t, Folded(b, Folded(a, c)))
    requires AllRun(d, Folded(t, Folded(b, Folded(a, c)))) && AllRun(v, Folded(d, Folded(t, Folded(b, Folded(a, c)))))
    requires AllRun(e, Folded(v, Folded(d, Folded(t, Folded(b, Folded(a, c))))))
    ensures AllRun(a + b + t + d + v + e, c)
    ensures Folded(a + b + t + d + v + e, c) == Folded(e, Folded(v, Folded(d, Folded(t, Folded(b, Folded(a, c))))))
  {
    hide AllRun, Folded;
    FoldedAppend(a, b, c);
    RunAppend(a, b, c);
    FoldedAppend(a + b, t, c);
    RunAppend(a + b, t, c);
    FoldedAppend(a + b + t, d, c);
    RunAppend(a + b + t, d, c);
    FoldedAppend(a + b + t + d, v, c);
    RunAppend(a + b + t + d, v, c);
    FoldedAppend(a + b + t + d + v, e, c);
    RunAppend(a + b + t + d + v, e, c);
  }

  lemma PublishingRuns(r: Request, c: Catalog)
    requires Stocked(c)
    ensures AllRun(Publishing(r), c)
  {
    hide AllRun, Folded, Publishing;
    var ss := Publishing(r);
    forall s | s in ss
      ensures Steady(s) && Needs(s) <= {Shared(ViewsTable)} && (s.Drop? ==> s.thing.DepsRows?) && !s.DeleteStaleRow?
    {
      PublicationExactly(r, s);
    }
    forall k | 0 <= k < |ss|
      ensures !Removes(ss[k], Shared(ViewsTable))
    {
      assert ss[k] in ss;
    }
    SteadyRun(ss, c);
  }

  /** The order of the statements is right: whatever was in the catalog before, once the check at binding has passed,
      every statement finds the tables it needs, no CREATE meets an object of its name, and the guard meets no row. */
  lemma EveryStatementRuns(r: Request, c0: Catalog)
    requires Bindable(r, c0)
    ensures AllRun(All(r), c0)
  {
    hide AllRun, Folded, Preparation, Construction, Publishing, Building, All;
    PreparationRuns(r, c0);
    var c1 := Folded(Preparation(r), c0);
    ConstructionRuns(r, c1);
    PublishingRuns(r, Folded(Construction(r), c1));
    AllInParts(r);
    BuildingInParts(r);
    FoldedAppend(Preparation(r), Construction(r), c0);
    RunAppend(Preparation(r), Construction(r), c0);
    RunAppend(Building(r), Publishing(r), c0);
  }

  /** No statement is broken by the database. */
  ghost predicate NothingBroken(oracle: Oracle) {
    forall k: nat :: oracle(k).Fine?
  }

  lemma NoFailure(r: Request, c0: Catalog, oracle: Oracle, ss: seq<Statement>, n: nat)
    requires Bindable(r, c0) && NothingBroken(oracle) && ss <= All(r)
    ensures !FailsAt(ss, c0, oracle, n)
  {
    hide All, Folded, GoesThrough;
    EveryStatementRuns(r, c0);
    if n < |ss| {
      assert ss[..n] == All(r)[..n] && ss[n] == All(r)[n];
      assert CanRun(All(r)[n], Folded(All(r)[..n], c0));
    }
  }

  // ---- the whole statement ----

  datatype Answer = Created | AlreadyExists | CreateFailed | ConnectionFailed

  /** CREATE [OR REPLACE] MATERIALIZED VIEW: bound, assembled, executed. */
  method CreateMaterializedView(r: Request, e: Executor, configured: bool, oracle: Oracle) returns (answer: Answer)
    requires e.attempted == [] && e.pending == [] && e.cleanups == []
    modifies e
    ensures answer.AlreadyExists? <==> !Bindable(r, old(e.catalog))
    ensures answer.AlreadyExists? || answer.ConnectionFailed? ==> e.catalog == old(e.catalog)
    ensures answer.Created? ==> e.attempted == All(r) && e.catalog == Folded(All(r), old(e.catalog))
    ensures answer.Created? ==> forall t :: IsPhysical(r, t) ==> t in e.catalog
    ensures answer.Created? ==> Registered(r, old(e.catalog), e.catalog)
    ensures answer.Created? ==> (UniqueIndex in e.attempted <==> r.indexed)
    ensures configured && NothingBroken(oracle) && Bindable(r, old(e.catalog)) ==> answer.Created?
    ensures answer.CreateFailed? ==> 0 < |e.attempted| <= |All(r)| && e.attempted <= All(r)
                                     && e.catalog == AfterFailure(r, old(e.catalog), |e.attempted| - 1)
    ensures answer.CreateFailed? ==> forall t :: InFootprint(r, t) ==> t !in e.catalog
    ensures ViewsRow !in old(e.catalog) ==>
              forall n: nat :: n <= |e.attempted| && e.attempted <= All(r) ==>
                                 Published(r, Folded(e.attempted[..n], old(e.catalog)))
    ensures !answer.ConnectionFailed? ==> e.active == old(e.active)
  {
    hide All, Items, Published, Folded, GoesThrough, FailsAt, CleanupsOf, StatementsOf, IndexAlone, CleanupsFirst, Cleaning,
         InFootprint, IsPhysical, Registered, InPreparation, InConstruction, InPublication, NothingBroken;
    ghost var c0 := e.catalog;
    if !r.isReplace && (UserView in e.catalog || DataTable in e.catalog) {
      AtTheStart(r, c0);
      return AlreadyExists;
    }
    var items := AssembleItems(r);
    ItemsAreWellShaped(r);
    AllInParts(r);
    ItemsNonEmpty(r);
    var result := e.ExecuteDdl(items, configured, oracle);
    if ViewsRow !in c0 {
      forall n: nat | n <= |e.attempted| && e.attempted <= All(r)
        ensures Published(r, Folded(e.attempted[..n], c0))
      {
        assert e.attempted[..n] == All(r)[..n];
        RegisteredOnlyWhenComplete(r, c0, n);
      }
    }
    match result {
      case NotConfigured =>
        answer := ConnectionFailed;
      case Done =>
        SuccessHasAll(r, c0);
        CreatedIsRegistered(r, c0);
        IndexedExactly(r);
        answer := Created;
      case Failed =>
        if NothingBroken(oracle) {
          NoFailure(r, c0, oracle, e.attempted, |e.attempted| - 1);
        }
        assert e.attempted[..|e.attempted| - 1] == All(r)[..|e.attempted| - 1];
        forall t | InFootprint(r, t)
          ensures t !in e.catalog
        {
          NothingRemains(r, c0, |e.attempted| - 1, t);
        }
        answer := CreateFailed;
    }
  }

  lemma IndexedExactly(r: Request)
    ensures UniqueIndex in All(r) <==> r.indexed
  {
    hide All;
    StatementsExactly(r, UniqueIndex);
  }

  lemma AtTheStart(r: Request, c0: Catalog)
    ensures ViewsRow !in c0 ==> Published(r, Folded([], c0))
  {
  }

  lemma ItemsNonEmpty(r: Request)
    ensures Items(r) != []
  {
    assert PublishItems(r) != [];
  }

  lemma SuccessHasAll(r: Request, c0: Catalog)
    ensures forall t :: IsPhysical(r, t) ==> t in Folded(All(r), c0)
  {
    hide All, Building, Publishing, Folded;
    AllInParts(r);
    FoldedAppend(Building(r), Publishing(r), c0);
    forall t | IsPhysical(r, t)
      ensures t in Folded(All(r), c0)
    {
      PhysicalIsBuilt(r, c0, t);
      PublishingKeepsPhysical(r, Folded(Building(r), c0), t);
    }
  }
}
