/** The executor for the statements of a CREATE MATERIALIZED VIEW: batches between markers, compensating clean-up, and
    the outer transaction it suspends. */
module DdlExecutor {

  datatype SharedThing =
    | ViewsTable | HooksTable | DeltaTablesTable | HistoryTable | ProfileTable | SourceDelta(source: nat)

  /** What a statement can create or remove.  Everything but the shared things and the history belongs to one view. */
  datatype Thing =
    | DataTable | UserView | MvDelta | Aux(kind: nat) | ViewsRow | DeltaTablesRows | DepsRows
    | HistoryRows | Shared(name: SharedThing)

  /** Whether a thing was there before or was made by the statements at hand. */
  datatype Age = Old | New

  type Catalog = map<Thing, Age>

  datatype Statement =
    | Ensure(thing: Thing)              // create ... if not exists
    | Create(thing: Thing)
    | Drop(thing: Thing)                // drop ... if exists, or delete of rows
    | Put(thing: Thing)                 // insert or replace of rows
    | Update(thing: Thing)              // update of rows
    | DeleteStaleRow                    // the row of a view without view and data table
    | GuardDuplicate                    // raises an error if the view is registered
    | DeriveDelta(wellFormed: bool)     // creates the delta table from the schema of the data table
    | UniqueIndex
    | Session                           // use ... and set ...

  /** How the database answers a statement, as far as the statement itself does not decide it. */
  datatype Outcome = Fine | Duplicates | Broken

  type Oracle = nat -> Outcome

  // ---- single statements ----

  function Effect(s: Statement, c: Catalog): Catalog {
    match s
    case Ensure(t) => if t in c then c else c[t := New]
    case Create(t) => c[t := New]
    case Drop(t) => c - {t}
    case Put(t) => c[t := New]
    case Update(t) => c
    case DeleteStaleRow => if UserView in c || DataTable in c then c else c - {ViewsRow}
    case GuardDuplicate => c
    case DeriveDelta(_) => if MvDelta in c then c else c[MvDelta := New]
    case UniqueIndex => c
    case Session => c
  }

  /** The statement does not fail by itself. */
  predicate Ready(s: Statement, c: Catalog) {
    match s
    case Create(t) => t !in c
    case GuardDuplicate => ViewsRow !in c
    case DeriveDelta(wellFormed) => wellFormed
    case _ => true
  }

  predicate Succeeds(s: Statement, c: Catalog, o: Outcome) {
    Ready(s, c) && o.Fine?
  }

  /** The one error that is not an error: the optional unique index over duplicate group keys. */
  predicate Tolerated(s: Statement, o: Outcome) {
    s.UniqueIndex? && o.Duplicates?
  }

  // ---- one statement after the other ----

  function Folded(ss: seq<Statement>, c: Catalog): Catalog {
    if ss == [] then c else Effect(ss[|ss| - 1], Folded(ss[..|ss| - 1], c))
  }

  /** The first n statements go through. */
  predicate GoesThrough(ss: seq<Statement>, c: Catalog, oracle: Oracle, n: nat)
    requires n <= |ss|
  {
    forall k: nat :: k < n ==> Succeeds(ss[k], Folded(ss[..k], c), oracle(k)) || Tolerated(ss[k], oracle(k))
  }

  /** Statement n is the first that fails for good. */
  predicate FailsAt(ss: seq<Statement>, c: Catalog, oracle: Oracle, n: nat) {
    && n < |ss| && GoesThrough(ss, c, oracle, n)
    && !Succeeds(ss[n], Folded(ss[..n], c), oracle(n)) && !Tolerated(ss[n], oracle(n))
  }

  lemma {:induction false} FoldedAppend(a: seq<Statement>, b: seq<Statement>, c: Catalog)
    ensures Folded(a + b, c) == Folded(b, Folded(a, c))
  {
    if b == [] {
      assert a + b == a;
    } else {
      assert (a + b)[..|a + b| - 1] == a + b[..|b| - 1];
      FoldedAppend(a, b[..|b| - 1], c);
    }
  }

  // ---- the items the executor is given ----

  datatype Item =
    | Cleanup(statement: Statement)
    | Profile
    | Record
    | DeltaFromData(wellFormed: bool)
    | Plain(statement: Statement)

  /** Items before which the pending statements are sent. */
  predicate Flushes(i: Item) {
    i.Profile? || i.Record? || i.DeltaFromData?
  }

  function StatementOf(i: Item): seq<Statement> {
    match i
    case Plain(s) => [s]
    case DeltaFromData(wellFormed) => [DeriveDelta(wellFormed)]
    case _ => []
  }

  function StatementsOf(items: seq<Item>): seq<Statement> {
    if items == [] then [] else StatementsOf(items[..|items| - 1]) + StatementOf(items[|items| - 1])
  }

  function CleanupsOf(items: seq<Item>): seq<Statement> {
    if items == [] then []
    else
      CleanupsOf(items[..|items| - 1]) + if items[|items| - 1].Cleanup? then [items[|items| - 1].statement] else []
  }

  predicate IsIndex(i: Item) {
    i == Plain(UniqueIndex)
  }

  /** The unique index is in a batch of its own. */
  predicate IndexAlone(items: seq<Item>) {
    forall k :: 0 <= k < |items| && IsIndex(items[k]) ==>
      && (k > 0 ==> Flushes(items[k - 1]) || items[k - 1].Cleanup?)
      && (k + 1 < |items| ==> Flushes(items[k + 1]))
  }

  /** Clean-up statements are registered before anything is executed. */
  predicate CleanupsFirst(items: seq<Item>) {
    forall j, k :: 0 <= j < k < |items| && items[k].Cleanup? ==> items[j].Cleanup?
  }

  datatype Result = Done | Failed | NotConfigured

  class Executor {
    var catalog: Catalog
    var attempted: seq<Statement>
    var pending: seq<Statement>
    var cleanups: seq<Statement>
    var autoCommit: bool
    var active: bool

    constructor (catalog: Catalog, autoCommit: bool, active: bool)
      ensures this.catalog == catalog && this.autoCommit == autoCommit && this.active == active
      ensures attempted == [] && pending == [] && cleanups == []
    {
      this.catalog := catalog;
      this.autoCommit := autoCommit;
      this.active := active;
      attempted, pending, cleanups := [], [], [];
    }

    /** What has been attempted went through, and the catalog shows it. */
    ghost predicate Caught(c0: Catalog, oracle: Oracle)
      reads this
    {
      catalog == Folded(attempted, c0) && GoesThrough(attempted, c0, oracle, |attempted|)
    }

    /** Sends one statement. */
    method Attempt(s: Statement, oracle: Oracle) returns (outcome: Outcome)
      modifies `catalog, `attempted
      ensures attempted == old(attempted) + [s]
      ensures outcome.Fine? <==> Succeeds(s, old(catalog), oracle(|old(attempted)|))
      ensures catalog == if outcome.Fine? then Effect(s, old(catalog)) else old(catalog)
      ensures outcome.Duplicates? <==> Ready(s, old(catalog)) && oracle(|old(attempted)|).Duplicates?
    {
      outcome := if Ready(s, catalog) then oracle(|attempted|) else Broken;
      attempted := attempted + [s];
      if outcome.Fine? {
        catalog := Effect(s, catalog);
      }
    }

    lemma StillCaught(c0: Catalog, oracle: Oracle, before: seq<Statement>, was: Catalog, s: Statement)
      requires was == Folded(before, c0) && GoesThrough(before, c0, oracle, |before|)
      requires Succeeds(s, was, oracle(|before|)) || Tolerated(s, oracle(|before|))
      requires attempted == before + [s] && catalog == Effect(s, was)
      ensures Caught(c0, oracle)
    {
      assert attempted[..|before|] == before;
      forall k: nat | k < |before|
        ensures attempted[..k] == before[..k] && attempted[k] == before[k]
      {
      }
    }

    static lemma FailsHere(c0: Catalog, oracle: Oracle, before: seq<Statement>, was: Catalog, s: Statement)
      requires was == Folded(before, c0) && GoesThrough(before, c0, oracle, |before|)
      requires !Succeeds(s, was, oracle(|before|)) && !Tolerated(s, oracle(|before|))
      ensures FailsAt(before + [s], c0, oracle, |before|) && Folded((before + [s])[..|before|], c0) == was
    {
      var all := before + [s];
      assert all[..|before|] == before;
      forall k: nat | k < |before|
        ensures all[..k] == before[..k] && all[k] == before[k]
      {
      }
    }

    /** Sends the pending statements as one batch.  A lone unique index may fail on duplicates. */
    method FlushPending(ghost c0: Catalog, oracle: Oracle) returns (ok: bool)
      requires Caught(c0, oracle) && (UniqueIndex in pending ==> pending == [UniqueIndex])
      modifies `catalog, `attempted, `pending
      ensures ok ==> Caught(c0, oracle) && pending == [] && attempted == old(attempted) + old(pending)
      ensures !ok ==>
                && |old(attempted)| < |attempted| && attempted <= old(attempted) + old(pending)
                && FailsAt(attempted, c0, oracle, |attempted| - 1)
                && catalog == Folded(attempted[..|attempted| - 1], c0)
    {
      hide Effect, Ready, Folded, GoesThrough, FailsAt;
      var k := 0;
      while k < |pending|
        invariant k <= |pending| && pending == old(pending) && Caught(c0, oracle)
        invariant attempted == old(attempted) + pending[..k]
      {
        ghost var before, was := attempted, catalog;
        var outcome := Attempt(pending[k], oracle);
        if !outcome.Fine? {
          if |pending| == 1 && pending[0].UniqueIndex? && outcome.Duplicates? {
            NoEffect(was);
            StillCaught(c0, oracle, before, was, UniqueIndex);
            pending := [];
            return true;
          }
          IndexReady(was);
          FailsHere(c0, oracle, before, was, pending[k]);
          return false;
        }
        StillCaught(c0, oracle, before, was, pending[k]);
        k := k + 1;
      }
      pending := [];
      return true;
    }

    static lemma NoEffect(c: Catalog)
      ensures Effect(UniqueIndex, c) == c
    {
    }

    static lemma IndexReady(c: Catalog)
      ensures Ready(UniqueIndex, c)
    {
    }

    method RunCleanup()
      modifies `catalog
      ensures catalog == Folded(cleanups, old(catalog))
    {
      hide Effect;
      var k := 0;
      while k < |cleanups|
        invariant k <= |cleanups| && catalog == Folded(cleanups[..k], old(catalog))
      {
        assert cleanups[..k + 1][..k] == cleanups[..k];
        catalog := Effect(cleanups[k], catalog);
        k := k + 1;
      }
      assert cleanups[..|cleanups|] == cleanups;
    }

    /** The delta table of the view, made from the schema its data table has by then. */
    method DeriveDeltaTable(wellFormed: bool, ghost c0: Catalog, oracle: Oracle) returns (ok: bool)
      requires Caught(c0, oracle)
      modifies `catalog, `attempted
      ensures attempted == old(attempted) + [DeriveDelta(wellFormed)]
      ensures ok ==> Caught(c0, oracle)
      ensures !ok ==> FailsAt(attempted, c0, oracle, |attempted| - 1)
                      && catalog == Folded(attempted[..|attempted| - 1], c0)
    {
      hide Effect, Ready, Folded, GoesThrough, FailsAt;
      ghost var before, was := attempted, catalog;
      var outcome := Attempt(DeriveDelta(wellFormed), oracle);
      ok := outcome.Fine?;
      if ok {
        StillCaught(c0, oracle, before, was, DeriveDelta(wellFormed));
      } else {
        FailsHere(c0, oracle, before, was, DeriveDelta(wellFormed));
      }
    }

    /** Handles one item. */
    method Handle(i: Item, ghost c0: Catalog, oracle: Oracle) returns (ok: bool)
      requires Caught(c0, oracle) && (UniqueIndex in pending ==> pending == [UniqueIndex] && (Flushes(i) || i.Cleanup?))
      requires IsIndex(i) ==> pending == []
      modifies `catalog, `attempted, `pending, `cleanups
      ensures ok ==> Caught(c0, oracle) && attempted + pending == old(attempted + pending) + StatementOf(i)
      ensures ok ==> (UniqueIndex in pending ==> pending == [UniqueIndex] && (IsIndex(i) || i.Cleanup?))
      ensures ok && Flushes(i) ==> pending == []
      ensures ok && i.Cleanup? ==> pending == old(pending)
      ensures !ok ==> attempted <= old(attempted + pending) + StatementOf(i) && attempted != []
                      && FailsAt(attempted, c0, oracle, |attempted| - 1)
                      && catalog == Folded(attempted[..|attempted| - 1], c0)
      ensures cleanups == old(cleanups) + if i.Cleanup? then [i.statement] else []
      ensures !ok ==> Flushes(i)
    {
      hide Folded, GoesThrough, FailsAt;
      match i {
        case Profile =>
          ok := FlushPending(c0, oracle);
        case Record =>
          ok := FlushPending(c0, oracle);
        case DeltaFromData(wellFormed) =>
          ok := FlushPending(c0, oracle);
          if ok {
            ok := DeriveDeltaTable(wellFormed, c0, oracle);
          }
        case Cleanup(s) =>
          cleanups := cleanups + [s];
          ok := true;
        case Plain(s) =>
          pending := pending + [s];
          ok := true;
      }
    }

    /** The batching executor does what one statement after the other would do: on success all statements of the items
        were sent, each once and in order; on failure a prefix of them up to the first that fails for good, and then the
        clean-up.  A unique index over duplicates never counts as failure.  The suspended transaction is open again
        unless the connection could not be configured. */
    method ExecuteDdl(items: seq<Item>, configured: bool, oracle: Oracle) returns (result: Result)
      requires IndexAlone(items) && CleanupsFirst(items)
      requires attempted == [] && pending == [] && cleanups == []
      modifies this
      ensures items == [] ==> result.Done? && unchanged(this)
      ensures result.NotConfigured? <==> items != [] && !configured
      ensures result.NotConfigured? ==> catalog == old(catalog) && attempted == []
      ensures result.Done? ==> attempted == StatementsOf(items)
                               && GoesThrough(attempted, old(catalog), oracle, |attempted|)
                               && catalog == Folded(attempted, old(catalog))
      ensures result.Failed? ==>
                && attempted != [] && attempted <= StatementsOf(items)
                && FailsAt(attempted, old(catalog), oracle, |attempted| - 1)
                && catalog == Folded(CleanupsOf(items), Folded(attempted[..|attempted| - 1], old(catalog)))
      ensures !result.NotConfigured? ==> active == old(active)
      ensures result.NotConfigured? ==> active == (old(active) && !old(autoCommit))
      ensures autoCommit == old(autoCommit)
    {
      hide GoesThrough, FailsAt, IndexAlone, CleanupsFirst, StatementOf;
      if items == [] {
        NothingCaught(catalog, oracle);
        return Done;
      }
      var suspended := autoCommit && active;
      if suspended {
        active := false;
      }
      if !configured {
        return NotConfigured;
      }
      ghost var c0 := catalog;
      NothingCaught(c0, oracle);
      var ok := ReadItems(items, c0, oracle);
      if !ok {
        RunCleanup();
      }
      if suspended {
        active := true;
      }
      result := if ok then Done else Failed;
    }

    lemma NothingCaught(c0: Catalog, oracle: Oracle)
      requires attempted == [] && catalog == c0
      ensures Caught(c0, oracle)
    {
    }

    /** The loop over the items, with the last flush. */
    method ReadItems(items: seq<Item>, ghost c0: Catalog, oracle: Oracle) returns (ok: bool)
      requires IndexAlone(items) && CleanupsFirst(items)
      requires attempted == [] && pending == [] && cleanups == [] && Caught(c0, oracle)
      modifies `catalog, `attempted, `pending, `cleanups
      ensures ok ==> attempted == StatementsOf(items) && Caught(c0, oracle)
      ensures !ok ==> attempted != [] && attempted <= StatementsOf(items)
                      && FailsAt(attempted, c0, oracle, |attempted| - 1)
                      && catalog == Folded(attempted[..|attempted| - 1], c0)
      ensures cleanups == CleanupsOf(items)
    {
      hide GoesThrough, FailsAt, StatementOf, Folded;
      var k := 0;
      while k < |items|
        invariant k <= |items| && Caught(c0, oracle)
        invariant attempted + pending == StatementsOf(items[..k]) && cleanups == CleanupsOf(items[..k])
        invariant UniqueIndex in pending ==> pending == [UniqueIndex] && k > 0 && IsIndex(items[k - 1])
        invariant k > 0 && Flushes(items[k - 1]) ==> pending == []
        invariant k > 0 && items[k - 1].Cleanup? ==> pending == []
      {
        assert items[..k + 1][..k] == items[..k];
        ghost var i := items[k];
        CleanupBefore(items, k);
        ok := Handle(items[k], c0, oracle);
        if !ok {
          Continues(attempted, items, k + 1);
          NoMoreCleanups(items, k);
          return;
        }
        k := k + 1;
      }
      assert items[..|items|] == items;
      ok := FlushPending(c0, oracle);
    }

    static lemma CleanupBefore(items: seq<Item>, k: nat)
      requires IndexAlone(items) && CleanupsFirst(items) && k < |items|
      ensures k > 0 && items[k].Cleanup? ==> items[k - 1].Cleanup?
      ensures k > 0 && IsIndex(items[k]) ==> Flushes(items[k - 1]) || items[k - 1].Cleanup?
      ensures k > 0 && IsIndex(items[k - 1]) ==> Flushes(items[k])
    {
    }

    static lemma {:induction false} Continues(ss: seq<Statement>, items: seq<Item>, k: nat)
      requires k <= |items| && ss <= StatementsOf(items[..k])
      ensures ss <= StatementsOf(items)
      decreases |items| - k
    {
      if k < |items| {
        assert items[..k + 1][..k] == items[..k];
        Continues(ss, items, k + 1);
      } else {
        assert items[..k] == items;
      }
    }

    static lemma {:induction false} NoMoreCleanups(items: seq<Item>, k: nat)
      requires CleanupsFirst(items) && k < |items| && !items[k].Cleanup?
      ensures CleanupsOf(items[..k]) == CleanupsOf(items)
      decreases |items| - k
    {
      assert items[..k + 1][..k] == items[..k];
      if k + 1 < |items| {
        assert !items[k + 1].Cleanup?;
        NoMoreCleanups(items, k + 1);
      } else {
        assert items[..k + 1] == items;
      }
    }
  }
}
