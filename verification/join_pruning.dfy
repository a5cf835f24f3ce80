/** The inclusion-exclusion loop as it runs, and its two ways of skipping terms. */
module JoinPruning {
  import opened SqlValues
  import opened ZSets
  import opened DeltaRules

  // ---- masks ----

  /** Bit i of the mask, as in `mask & (1 << i)`. */
  predicate Bit(mask: nat, i: nat) {
    if i == 0 then mask % 2 == 1 else Bit(mask / 2, i - 1)
  }

  /** Choose by recursion on the leaves is choosing by bit test. */
  lemma {:induction false} ChooseByBit(current: seq<ZSet<Row>>, delta: seq<ZSet<Row>>, mask: nat, i: nat)
    requires |current| == |delta| && i < |current|
    ensures Choose(current, delta, mask)[i] == if Bit(mask, i) then delta[i] else current[i]
  {
    if i > 0 {
      ChooseByBit(current[1..], delta[1..], mask / 2, i - 1);
    }
  }

  /** The mask takes none of the skipped leaves. */
  predicate Avoids(mask: nat, skipped: set<nat>, n: nat) {
    forall i: nat :: i < n && i in skipped ==> !Bit(mask, i)
  }

  ghost function Avoiding(skipped: set<nat>, n: nat): nat -> bool {
    (mask: nat) => Avoids(mask, skipped, n)
  }

  ghost function CountBits(mask: nat, n: nat): nat {
    if n == 0 then 0 else CountBits(mask, n - 1) + if Bit(mask, n - 1) then 1 else 0
  }

  lemma {:induction false} CountBitsShift(mask: nat, n: nat)
    ensures CountBits(mask, n + 1) == mask % 2 + CountBits(mask / 2, n)
  {
    if n > 0 {
      CountBitsShift(mask, n - 1);
    } else {
      assert CountBits(mask, 1) == CountBits(mask, 0) + if Bit(mask, 0) then 1 else 0;
    }
  }

  lemma {:induction false} CountBitsIsBitCount(mask: nat, n: nat)
    requires mask < Pow2(n)
    ensures CountBits(mask, n) == BitCount(mask)
  {
    if n > 0 {
      CountBitsShift(mask, n - 1);
      CountBitsIsBitCount(mask / 2, n - 1);
    }
  }

  // ---- the loop ----

  /** One term: copy the leaves, replace the ones in the mask, and give the product its sign. */
  method BuildTerm(p: Plan, current: seq<ZSet<Row>>, delta: seq<ZSet<Row>>, mask: nat) returns (term: ZSet<Row>)
    requires |current| == |delta| == LeafCount(p) && mask < Pow2(LeafCount(p))
    ensures term == MaskTerm(p, current, delta, mask)
  {
    hide Product, LeafCount, Pow2, Choose, BitCount, Scale;
    var leaves := current;
    var k := 0;
    var i := 0;
    while i < |current|
      invariant i <= |current| == |leaves|
      invariant forall j :: 0 <= j < |current| ==>
                  leaves[j] == if j < i && Bit(mask, j) then delta[j] else current[j]
      invariant k == CountBits(mask, i)
    {
      if Bit(mask, i) {
        leaves := leaves[i := delta[i]];
        k := k + 1;
      }
      i := i + 1;
    }
    ChosenByBit(current, delta, mask, leaves);
    CountBitsIsBitCount(mask, |current|);
    term := Product(p, leaves);
    if k % 2 == 0 {
      term := Scale(-1, term);
    }
  }

  lemma ChosenByBit(current: seq<ZSet<Row>>, delta: seq<ZSet<Row>>, mask: nat, leaves: seq<ZSet<Row>>)
    requires |current| == |delta| == |leaves|
    requires forall j :: 0 <= j < |current| ==> leaves[j] == if Bit(mask, j) then delta[j] else current[j]
    ensures leaves == Choose(current, delta, mask)
  {
    forall j | 0 <= j < |current| ensures leaves[j] == Choose(current, delta, mask)[j] {
      ChooseByBit(current, delta, mask, j);
    }
  }

  lemma NextMask(p: Plan, current: seq<ZSet<Row>>, delta: seq<ZSet<Row>>, mask: nat, skipped: set<nat>)
    requires |current| == |delta| == LeafCount(p) && mask >= 1
    ensures var wanted := Avoiding(skipped, LeafCount(p));
            MaskTerms(p, current, delta, mask + 1, wanted)
            == MaskTerms(p, current, delta, mask, wanted)
               + if Avoids(mask, skipped, LeafCount(p)) then MaskTerm(p, current, delta, mask) else []
  {
  }

  method BuildInclusionExclusionTerms(p: Plan, current: seq<ZSet<Row>>, delta: seq<ZSet<Row>>, skipped: set<nat>)
    returns (terms: ZSet<Row>)
    requires |current| == |delta| == LeafCount(p)
    ensures terms == MaskTerms(p, current, delta, Pow2(LeafCount(p)), Avoiding(skipped, LeafCount(p)))
  {
    terms := [];
    var mask := 1;
    var n := LeafCount(p);
    Pow2Positive(n);
    while mask < Pow2(n)
      invariant 1 <= mask <= Pow2(n)
      invariant terms == MaskTerms(p, current, delta, mask, Avoiding(skipped, n))
    {
      NextMask(p, current, delta, mask, skipped);
      if Avoids(mask, skipped, n) {
        var term := BuildTerm(p, current, delta, mask);
        terms := terms + term;
      }
      mask := mask + 1;
    }
  }

  // ---- what skipping a leaf means ----

  /** The deltas with the skipped ones emptied. */
  ghost function Emptied(delta: seq<ZSet<Row>>, skipped: set<nat>): (emptied: seq<ZSet<Row>>)
    ensures |emptied| == |delta|
    ensures forall i :: 0 <= i < |delta| ==> emptied[i] == if i in skipped then [] else delta[i]
  {
    seq(|delta|, i requires 0 <= i < |delta| => if i in skipped then [] else delta[i])
  }

  lemma {:induction false} EmptyLeafEmptiesProduct(p: Plan, leaves: seq<ZSet<Row>>, i: nat)
    requires |leaves| == LeafCount(p) && i < |leaves| && leaves[i] == []
    ensures Product(p, leaves) == []
    decreases p
  {
    if p.InnerJoin? {
      var n := LeafCount(p.left);
      if i < n {
        EmptyLeafEmptiesProduct(p.left, leaves[..n], i);
        JoinWithEmpty(Product(p.right, leaves[n..]), Pair(p.on));
      } else {
        EmptyLeafEmptiesProduct(p.right, leaves[n..], i - n);
        JoinWithEmpty(Product(p.left, leaves[..n]), Pair(p.on));
      }
    }
  }

  lemma SkippedTerm(p: Plan, current: seq<ZSet<Row>>, delta: seq<ZSet<Row>>, skipped: set<nat>, mask: nat)
    requires |current| == |delta| == LeafCount(p)
    ensures MaskTerm(p, current, Emptied(delta, skipped), mask)
         == if Avoids(mask, skipped, LeafCount(p)) then MaskTerm(p, current, delta, mask) else []
  {
    var n := LeafCount(p);
    var emptied := Emptied(delta, skipped);
    forall i | 0 <= i < n
      ensures Choose(current, emptied, mask)[i] == if Bit(mask, i) then emptied[i] else current[i]
      ensures Choose(current, delta, mask)[i] == if Bit(mask, i) then delta[i] else current[i]
    {
      ChooseByBit(current, emptied, mask, i);
      ChooseByBit(current, delta, mask, i);
    }
    if Avoids(mask, skipped, n) {
      assert Choose(current, emptied, mask) == Choose(current, delta, mask);
    } else {
      var i: nat :| i < n && i in skipped && Bit(mask, i);
      EmptyLeafEmptiesProduct(p, Choose(current, emptied, mask), i);
    }
  }

  /** Skipping the terms of some leaves is the same, term for term, as emptying their deltas. */
  lemma {:induction false} SkippingIsEmptying(p: Plan, current: seq<ZSet<Row>>, delta: seq<ZSet<Row>>, skipped: set<nat>, limit: nat)
    requires |current| == |delta| == LeafCount(p)
    ensures MaskTerms(p, current, delta, limit, Avoiding(skipped, LeafCount(p)))
         == MaskTerms(p, current, Emptied(delta, skipped), limit, EveryMask())
  {
    if limit > 1 {
      SkippingIsEmptying(p, current, delta, skipped, limit - 1);
      SkippedTerm(p, current, delta, skipped, limit - 1);
    }
  }

  ghost function PrunedTerms(p: Plan, current: seq<ZSet<Row>>, delta: seq<ZSet<Row>>, skipped: set<nat>): ZSet<Row>
    requires |current| == |delta| == LeafCount(p)
  {
    MaskTerms(p, current, delta, Pow2(LeafCount(p)), Avoiding(skipped, LeafCount(p)))
  }

  /** Skipping only leaves whose delta is empty changes nothing, not even the order of the rows. */
  lemma EmptySkippingIsExact(p: Plan, current: seq<ZSet<Row>>, delta: seq<ZSet<Row>>, skipped: set<nat>)
    requires |current| == |delta| == LeafCount(p)
    requires forall i :: 0 <= i < |delta| && i in skipped ==> delta[i] == []
    ensures PrunedTerms(p, current, delta, skipped) == InclusionExclusionTerms(p, current, delta)
  {
    SkippingIsEmptying(p, current, delta, skipped, Pow2(LeafCount(p)));
    assert Emptied(delta, skipped) == delta;
  }

  // ---- foreign-key pruning: leaves whose inserted keys no old foreign-key row can reference ----

  datatype ForeignKeyKind = Referencing | Referenced | SelfReference

  /** A table constraint: a foreign key, seen from one of its sides, or any other. */
  datatype Constraint =
    | ForeignKey(kind: ForeignKeyKind, table: string, fkColumns: seq<nat>, pkColumns: seq<nat>)
    | OtherConstraint

  datatype Table = Table(name: string, constraints: seq<Constraint>)

  /** The table a leaf scans, if it scans one. */
  type Leaf = Option<Table>

  /** The last leaf that scans the table. */
  function LeafOf(leaves: seq<Leaf>, name: string): (k: Option<nat>)
    ensures k.Some? ==> k.value < |leaves| && leaves[k.value].Some? && leaves[k.value].value.name == name
  {
    if leaves == [] then None
    else
      var last := |leaves| - 1;
      if leaves[last].Some? && leaves[last].value.name == name then Some(last) else LeafOf(leaves[..last], name)
  }

  /** c is a foreign key of leaf f that references the table of leaf k. */
  predicate References(leaves: seq<Leaf>, f: nat, k: nat, c: Constraint) {
    && f < |leaves| && leaves[f].Some? && c in leaves[f].value.constraints
    && c.ForeignKey? && c.kind.Referencing? && LeafOf(leaves, c.table) == Some(k)
  }

  /** A detected constraint: a foreign key of leaf fk references the table of leaf pk. */
  datatype FkRelation = FkRelation(fk: nat, pk: nat)

  function RelationsOf(constraints: seq<Constraint>, f: nat, leaves: seq<Leaf>): seq<FkRelation> {
    if constraints == [] then []
    else
      var last := |constraints| - 1;
      var c := constraints[last];
      RelationsOf(constraints[..last], f, leaves)
      + if c.ForeignKey? && c.kind.Referencing? && LeafOf(leaves, c.table).Some?
        then [FkRelation(f, LeafOf(leaves, c.table).value)] else []
  }

  /** The relations of the first n leaves. */
  function Detected(leaves: seq<Leaf>, n: nat): seq<FkRelation>
    requires n <= |leaves|
  {
    if n == 0 then []
    else
      Detected(leaves, n - 1)
      + if leaves[n - 1].Some? then RelationsOf(leaves[n - 1].value.constraints, n - 1, leaves) else []
  }

  /** The map from table names to leaves; the last leaf of a name wins. */
  method MapTables(leaves: seq<Leaf>) returns (tableToLeaf: map<string, nat>)
    ensures forall name :: LeafOf(leaves, name) == if name in tableToLeaf then Some(tableToLeaf[name]) else None
  {
    tableToLeaf := map[];
    var i := 0;
    while i < |leaves|
      invariant i <= |leaves|
      invariant forall name :: LeafOf(leaves[..i], name)
                               == if name in tableToLeaf then Some(tableToLeaf[name]) else None
    {
      assert leaves[..i + 1][..i] == leaves[..i];
      if leaves[i].Some? {
        tableToLeaf := tableToLeaf[leaves[i].value.name := i];
      }
      i := i + 1;
    }
    assert leaves[..|leaves|] == leaves;
  }

  method DetectOfLeaf(constraints: seq<Constraint>, f: nat, tableToLeaf: map<string, nat>, ghost leaves: seq<Leaf>)
    returns (relations: seq<FkRelation>)
    requires forall name :: LeafOf(leaves, name) == if name in tableToLeaf then Some(tableToLeaf[name]) else None
    ensures relations == RelationsOf(constraints, f, leaves)
  {
    hide LeafOf;
    relations := [];
    var j := 0;
    while j < |constraints|
      invariant j <= |constraints| && relations == RelationsOf(constraints[..j], f, leaves)
    {
      assert constraints[..j + 1][..j] == constraints[..j];
      var c := constraints[j];
      if c.ForeignKey? && c.kind.Referencing? && c.table in tableToLeaf {
        relations := relations + [FkRelation(f, tableToLeaf[c.table])];
      }
      j := j + 1;
    }
    assert constraints[..|constraints|] == constraints;
  }

  /** The detection as it runs: the map first, then the constraints leaf by leaf. */
  method DetectFkRelations(leaves: seq<Leaf>) returns (relations: seq<FkRelation>)
    ensures relations == Detected(leaves, |leaves|)
  {
    hide LeafOf, RelationsOf;
    var tableToLeaf := MapTables(leaves);
    relations := [];
    var i := 0;
    while i < |leaves|
      invariant i <= |leaves| && relations == Detected(leaves, i)
    {
      if leaves[i].Some? {
        var found := DetectOfLeaf(leaves[i].value.constraints, i, tableToLeaf, leaves);
        relations := relations + found;
      }
      i := i + 1;
    }
  }

  lemma {:induction false} RelationsOfExactly(constraints: seq<Constraint>, f: nat, leaves: seq<Leaf>, r: FkRelation)
    ensures r in RelationsOf(constraints, f, leaves)
            <==> r.fk == f && exists c :: c in constraints && c.ForeignKey? && c.kind.Referencing?
                                          && LeafOf(leaves, c.table) == Some(r.pk)
  {
    if constraints != [] {
      var last := |constraints| - 1;
      RelationsOfExactly(constraints[..last], f, leaves, r);
      assert constraints == constraints[..last] + [constraints[last]];
    }
  }

  lemma {:induction false} DetectedUpTo(leaves: seq<Leaf>, n: nat, r: FkRelation)
    requires n <= |leaves|
    ensures r in Detected(leaves, n) <==> r.fk < n && exists c :: References(leaves, r.fk, r.pk, c)
  {
    if n > 0 {
      DetectedUpTo(leaves, n - 1, r);
      if leaves[n - 1].Some? {
        RelationsOfExactly(leaves[n - 1].value.constraints, n - 1, leaves, r);
        if r.fk == n - 1 && r in Detected(leaves, n) {
          var c :| c in leaves[n - 1].value.constraints && c.ForeignKey? && c.kind.Referencing?
                   && LeafOf(leaves, c.table) == Some(r.pk);
          assert References(leaves, r.fk, r.pk, c);
        }
      }
    }
  }

  /** What is detected: the pairs of leaves with a foreign key from one to the table of the other, whatever its columns. */
  lemma DetectedExactly(leaves: seq<Leaf>, r: FkRelation)
    ensures r in Detected(leaves, |leaves|) <==> exists c :: References(leaves, r.fk, r.pk, c)
  {
    DetectedUpTo(leaves, |leaves|, r);
  }

  /** A foreign key of a table to itself has its own kind. */
  predicate SelfReferencesApart(leaves: seq<Leaf>) {
    forall i :: 0 <= i < |leaves| && leaves[i].Some? ==>
      forall c :: c in leaves[i].value.constraints && c.ForeignKey? && c.kind.Referencing? ==>
        c.table != leaves[i].value.name
  }

  /** So no leaf is detected as its own referenced leaf. */
  lemma DetectedLeavesDiffer(leaves: seq<Leaf>, r: FkRelation)
    requires SelfReferencesApart(leaves) && r in Detected(leaves, |leaves|)
    ensures r.fk < |leaves| && r.pk < |leaves| && r.fk != r.pk
  {
    DetectedExactly(leaves, r);
    var c :| References(leaves, r.fk, r.pk, c);
  }

  function SkipBits(relations: seq<FkRelation>, insertOnly: set<nat>): (skipped: set<nat>)
    ensures forall k :: k in skipped <==> k in insertOnly && exists r :: r in relations && r.pk == k
  {
    if relations == [] then {}
    else
      var rest := SkipBits(relations[1..], insertOnly);
      assert relations == [relations[0]] + relations[1..];
      if relations[0].pk in insertOnly then rest + {relations[0].pk} else rest
  }

  method ComputeSkipBits(relations: seq<FkRelation>, insertOnly: set<nat>) returns (skipped: set<nat>)
    ensures skipped == SkipBits(relations, insertOnly)
  {
    skipped := {};
    var i := 0;
    while i < |relations|
      invariant i <= |relations|
      invariant forall k :: k in skipped <==> k in insertOnly && exists r :: r in relations[..i] && r.pk == k
    {
      assert relations[..i + 1] == relations[..i] + [relations[i]];
      if relations[i].pk in insertOnly {
        skipped := skipped + {relations[i].pk};
      }
      i := i + 1;
    }
    assert relations[..|relations|] == relations;
    assert forall k :: k in skipped <==> k in SkipBits(relations, insertOnly);
  }

  /** The leaves with leaf k's contents taken from the current state. */
  ghost function Residual(p: Plan, before: seq<ZSet<Row>>, delta: seq<ZSet<Row>>, k: nat): ZSet<Row>
    requires |before| == |delta| == LeafCount(p) && k < |delta|
  {
    Product(p, before[k := delta[k]])
  }

  ghost predicate OnlyChanged(delta: seq<ZSet<Row>>, k: nat) {
    && k < |delta|
    && forall i :: 0 <= i < |delta| && i != k ==> delta[i] == []
  }

  /** Positive leaves give a positive product. */
  lemma {:induction false} ProductPositive(p: Plan, leaves: seq<ZSet<Row>>)
    requires |leaves| == LeafCount(p)
    requires forall i :: 0 <= i < |leaves| ==> Positive(leaves[i])
    ensures Positive(Product(p, leaves))
    decreases p
  {
    if p.InnerJoin? {
      var n := LeafCount(p.left);
      ProductPositive(p.left, leaves[..n]);
      ProductPositive(p.right, leaves[n..]);
      JoinPositive(Product(p.left, leaves[..n]), Product(p.right, leaves[n..]), Pair(p.on));
    }
  }

  lemma {:induction false} JoinPositive(a: ZSet<Row>, b: ZSet<Row>, j: (Row, Row) -> seq<Row>)
    requires Positive(a) && Positive(b)
    ensures Positive(Join(a, b, j))
  {
    if a != [] {
      JoinRowPositive(a[0], b, j);
      JoinPositive(a[1..], b, j);
    }
  }

  lemma {:induction false} JoinRowPositive(l: Entry<Row>, b: ZSet<Row>, j: (Row, Row) -> seq<Row>)
    requires l.weight > 0 && Positive(b)
    ensures Positive(JoinRow(l, b, j))
  {
    if b != [] {
      assert l.weight * b[0].weight > 0;
      WeighPositive(j(l.row, b[0].row), l.weight * b[0].weight);
      JoinRowPositive(l, b[1..], j);
    }
  }

  lemma {:induction false} WeighPositive(rows: seq<Row>, w: int)
    requires w > 0
    ensures Positive(Weigh(rows, w))
  {
    if rows != [] {
      WeighPositive(rows[1..], w);
    }
  }

  /** With the skipped leaves taken from the current state and the others from the old one,
      what pruning loses is what the product gains by that. */
  lemma PrunedDifference(p: Plan, before: seq<ZSet<Row>>, current: seq<ZSet<Row>>, delta: seq<ZSet<Row>>, skipped: set<nat>,
                         mixed: seq<ZSet<Row>>)
    requires |before| == LeafCount(p) && Differ(before, current, delta)
    requires |mixed| == |before|
    requires forall i :: 0 <= i < |mixed| ==> mixed[i] == if i in skipped then current[i] else before[i]
    ensures Combination(PrunedTerms(p, current, delta, skipped), 1, Product(p, current), -1, Product(p, mixed))
  {
    hide Sum, Product;
    SkippingIsEmptying(p, current, delta, skipped, Pow2(LeafCount(p)));
    var emptied := Emptied(delta, skipped);
    forall i | 0 <= i < |mixed| ensures Combination(mixed[i], 1, current[i], -1, emptied[i]) {
      assert Combination(before[i], 1, current[i], -1, delta[i]);
      Unchanged(current[i]);
    }
    InclusionExclusion(p, mixed, current, emptied);
  }

  lemma {:induction false} ProductCongruent(p: Plan, a: seq<ZSet<Row>>, b: seq<ZSet<Row>>)
    requires |a| == |b| == LeafCount(p)
    requires forall i :: 0 <= i < |a| ==> Equiv(a[i], b[i])
    ensures Equiv(Product(p, a), Product(p, b))
    decreases p
  {
    hide Sum, Join;
    if p.InnerJoin? {
      var n := LeafCount(p.left);
      var j := Pair(p.on);
      var al, ar, bl, br := Product(p.left, a[..n]), Product(p.right, a[n..]), Product(p.left, b[..n]), Product(p.right, b[n..]);
      ProductCongruent(p.left, a[..n], b[..n]);
      ProductCongruent(p.right, a[n..], b[n..]);
      EquivIsCombination(al, bl);
      EquivIsCombination(ar, br);
      JoinLeftLinear(al, 1, bl, 0, bl, ar, j);
      JoinRightLinear(bl, ar, 1, br, 0, br, j);
      CombinationChain(Join(al, ar, j), Join(bl, ar, j), Join(bl, br, j));
    }
  }

  lemma EquivIsCombination(a: ZSet<Row>, b: ZSet<Row>)
    ensures Equiv(a, b) <==> Combination(a, 1, b, 0, b)
  {
    hide Sum;
    if Combination(a, 1, b, 0, b) {
      forall g: Row -> int ensures Sum(a, g) == Sum(b, g) {
        assert Sum(a, g) == 1 * Sum(b, g) + 0 * Sum(b, g);
      }
    }
  }

  lemma CombinationChain(a: ZSet<Row>, b: ZSet<Row>, c: ZSet<Row>)
    requires Combination(a, 1, b, 0, b) && Combination(b, 1, c, 0, c)
    ensures Equiv(a, c)
  {
    EquivIsCombination(a, b);
    EquivIsCombination(b, c);
  }

  lemma OffsetEquiv(c: ZSet<Row>, d: ZSet<Row>, top: ZSet<Row>, a: ZSet<Row>, b: ZSet<Row>, residual: ZSet<Row>)
    requires Combination(c, 1, top, -1, a) && Combination(d, 1, top, -1, b)
    requires Combination(a, 1, b, 1, residual)
    ensures Equiv(c, d) <==> Equiv(residual, [])
  {
    hide Sum;
    if Equiv(c, d) {
      forall g: Row -> int ensures Sum(residual, g) == Sum([], g) {
        SumEmpty(g);
        assert Sum(c, g) == 1 * Sum(top, g) + -1 * Sum(a, g);
        assert Sum(d, g) == 1 * Sum(top, g) + -1 * Sum(b, g);
        assert Sum(a, g) == 1 * Sum(b, g) + 1 * Sum(residual, g);
        assert Sum(c, g) == Sum(d, g);
      }
    }
    if Equiv(residual, []) {
      forall g: Row -> int ensures Sum(c, g) == Sum(d, g) {
        SumEmpty(g);
        assert Sum(c, g) == 1 * Sum(top, g) + -1 * Sum(a, g);
        assert Sum(d, g) == 1 * Sum(top, g) + -1 * Sum(b, g);
        assert Sum(a, g) == 1 * Sum(b, g) + 1 * Sum(residual, g);
        assert Sum(residual, g) == Sum([], g);
      }
    }
  }

  /** The pruning guard is one changed leaf.  Under it, dropping the terms of the skipped leaves is exact
      precisely when the changed leaf is not skipped, or none of its inserted rows joins with the unchanged rest. */
  lemma FkPruningExactly(p: Plan, before: seq<ZSet<Row>>, current: seq<ZSet<Row>>, delta: seq<ZSet<Row>>, k: nat,
                         relations: seq<FkRelation>, insertOnly: set<nat>)
    requires |before| == LeafCount(p) && Differ(before, current, delta) && OnlyChanged(delta, k)
    requires forall i :: 0 <= i < |before| ==> Positive(before[i])
    requires k in insertOnly ==> Positive(delta[k])
    ensures var skipped := SkipBits(relations, insertOnly);
            Equiv(PrunedTerms(p, current, delta, skipped), InclusionExclusionTerms(p, current, delta))
            <==> (k in skipped ==> Residual(p, before, delta, k) == [])
  {
    hide Sum, Product;
    var skipped := SkipBits(relations, insertOnly);
    if k !in skipped {
      EmptySkippingIsExact(p, current, delta, skipped);
    } else {
      var mixed := seq(|before|, i requires 0 <= i < |before| => if i in skipped then current[i] else before[i]);
      PrunedDifference(p, before, current, delta, skipped, mixed);
      InclusionExclusion(p, before, current, delta);
      MixedIsOneInsert(p, before, current, delta, k, skipped, mixed);
      OffsetEquiv(PrunedTerms(p, current, delta, skipped), InclusionExclusionTerms(p, current, delta),
                  Product(p, current), Product(p, mixed), Product(p, before), Residual(p, before, delta, k));
      ProductPositive(p, before[k := delta[k]]);
      PositiveEquivEmpty(Residual(p, before, delta, k));
    }
  }

  lemma MixedIsOneInsert(p: Plan, before: seq<ZSet<Row>>, current: seq<ZSet<Row>>, delta: seq<ZSet<Row>>, k: nat,
                         skipped: set<nat>, mixed: seq<ZSet<Row>>)
    requires |before| == LeafCount(p) && Differ(before, current, delta) && OnlyChanged(delta, k) && k in skipped
    requires |mixed| == |before|
    requires forall i :: 0 <= i < |mixed| ==> mixed[i] == if i in skipped then current[i] else before[i]
    ensures Combination(Product(p, mixed), 1, Product(p, before), 1, Residual(p, before, delta, k))
  {
    hide Sum, Product;
    var inserted := before[k := current[k]];
    forall i | 0 <= i < |mixed| ensures Equiv(mixed[i], inserted[i]) {
      assert Combination(before[i], 1, current[i], -1, delta[i]);
      if i != k {
        NoChange(before[i], current[i]);
      }
    }
    ProductCongruent(p, mixed, inserted);
    Inserted(before[k], current[k], delta[k]);
    ProductLinear(p, before, k, current[k], 1, before[k], 1, delta[k]);
    assert before[k := before[k]] == before;
    ReplaceWhole(Product(p, mixed), Product(p, inserted), Product(p, before), Residual(p, before, delta, k));
  }

  lemma NoChange(b: ZSet<Row>, c: ZSet<Row>)
    requires Combination(b, 1, c, -1, [])
    ensures Equiv(c, b)
  {
    forall g: Row -> int ensures Sum(c, g) == Sum(b, g) {
      assert Sum(b, g) == 1 * Sum(c, g) + -1 * Sum([], g);
    }
  }

  lemma Inserted(b: ZSet<Row>, c: ZSet<Row>, d: ZSet<Row>)
    requires Combination(b, 1, c, -1, d)
    ensures Combination(c, 1, b, 1, d)
  {
    forall g: Row -> int ensures Sum(c, g) == 1 * Sum(b, g) + 1 * Sum(d, g) {
      assert Sum(b, g) == 1 * Sum(c, g) + -1 * Sum(d, g);
    }
  }

  lemma ReplaceWhole(c: ZSet<Row>, c': ZSet<Row>, a: ZSet<Row>, b: ZSet<Row>)
    requires Equiv(c, c') && Combination(c', 1, a, 1, b)
    ensures Combination(c, 1, a, 1, b)
  {
    forall g: Row -> int ensures Sum(c, g) == 1 * Sum(a, g) + 1 * Sum(b, g) {
      assert Sum(c, g) == Sum(c', g);
    }
  }

  // ---- when a foreign key makes the pruning exact ----

  datatype Combined = Nothing | Just(row: Row)

  /** The row a join tree makes of one row for each leaf. */
  ghost function Combine(p: Plan, rows: seq<Row>): Combined
    requires |rows| == LeafCount(p)
  {
    if p.InnerJoin? then
      var n := LeafCount(p.left);
      var l, r := Combine(p.left, rows[..n]), Combine(p.right, rows[n..]);
      if l.Just? && r.Just? && p.on(l.row, r.row) then Just(l.row + r.row) else Nothing
    else
      Just(rows[0])
  }

  ghost predicate Holds(z: ZSet<Row>, row: Row) {
    exists i :: 0 <= i < |z| && z[i].row == row
  }

  lemma {:induction false} WeighRows(rows: seq<Row>, w: int)
    ensures forall i :: 0 <= i < |Weigh(rows, w)| ==> Weigh(rows, w)[i].row in rows
  {
    if rows != [] {
      WeighRows(rows[1..], w);
    }
  }

  lemma {:induction false} JoinRowSource(l: Entry<Row>, b: ZSet<Row>, j: (Row, Row) -> seq<Row>, e: Entry<Row>) returns (r: Row)
    requires e in JoinRow(l, b, j)
    ensures Holds(b, r) && e.row in j(l.row, r)
  {
    var first := Weigh(j(l.row, b[0].row), l.weight * b[0].weight);
    if e in first {
      WeighRows(j(l.row, b[0].row), l.weight * b[0].weight);
      r := b[0].row;
    } else {
      r := JoinRowSource(l, b[1..], j, e);
      var i :| 0 <= i < |b[1..]| && b[1..][i].row == r;
      assert b[i + 1].row == r;
    }
  }

  lemma {:induction false} JoinSource(a: ZSet<Row>, b: ZSet<Row>, j: (Row, Row) -> seq<Row>, e: Entry<Row>) returns (li: nat, r: Row)
    requires e in Join(a, b, j)
    ensures li < |a| && Holds(b, r) && e.row in j(a[li].row, r)
  {
    if e in JoinRow(a[0], b, j) {
      li := 0;
      r := JoinRowSource(a[0], b, j, e);
    } else {
      li, r := JoinSource(a[1..], b, j, e);
      li := li + 1;
    }
  }

  /** Every row of the product comes from one row of each leaf. */
  lemma {:induction false} ProductSource(p: Plan, leaves: seq<ZSet<Row>>, e: Entry<Row>) returns (rows: seq<Row>)
    requires |leaves| == LeafCount(p) && e in Product(p, leaves)
    ensures |rows| == |leaves| && TakenFrom(rows, leaves)
    ensures Combine(p, rows) == Just(e.row)
    decreases p
  {
    if p.InnerJoin? {
      var n := LeafCount(p.left);
      var L, R := Product(p.left, leaves[..n]), Product(p.right, leaves[n..]);
      var li, r := JoinSource(L, R, Pair(p.on), e);
      var ri :| 0 <= ri < |R| && R[ri].row == r;
      var ls := ProductSource(p.left, leaves[..n], L[li]);
      var rs := ProductSource(p.right, leaves[n..], R[ri]);
      rows := ls + rs;
      assert rows[..n] == ls && rows[n..] == rs;
      forall i | 0 <= i < |rows| ensures Holds(leaves[i], rows[i]) {
        if i < n {
          assert Holds(leaves[..n][i], ls[i]);
        } else {
          assert Holds(leaves[n..][i - n], rs[i - n]);
        }
      }
    } else {
      var i :| 0 <= i < |leaves[0]| && leaves[0][i] == e;
      rows := [e.row];
    }
  }

  function Column(r: Row, c: nat): Value {
    if c < |r| then r[c] else Null
  }

  function KeyOf(r: Row, columns: seq<nat>): (key: seq<Value>)
    ensures |key| == |columns|
  {
    seq(|columns|, i requires 0 <= i < |columns| => Column(r, columns[i]))
  }

  predicate Complete(key: seq<Value>) {
    Null !in key
  }

  /** Row r references row s. */
  predicate Matches(c: Constraint, r: Row, s: Row)
    requires c.ForeignKey?
  {
    Complete(KeyOf(r, c.fkColumns)) && KeyOf(r, c.fkColumns) == KeyOf(s, c.pkColumns)
  }

  /** Complete keys occur once, and under a primary key all keys are complete. */
  ghost predicate Keyed(z: ZSet<Row>, pk: seq<nat>, primary: bool) {
    && (forall i :: 0 <= i < |z| ==>
          if Complete(KeyOf(z[i].row, pk)) then z[i].weight == 1 else !primary)
    && (forall i, j :: 0 <= i < j < |z| && Complete(KeyOf(z[i].row, pk)) ==> KeyOf(z[i].row, pk) != KeyOf(z[j].row, pk))
  }

  /** Every complete foreign key has its referenced row. */
  ghost predicate KeysFound(c: Constraint, fkRows: ZSet<Row>, pkRows: ZSet<Row>)
    requires c.ForeignKey?
  {
    forall r :: Holds(fkRows, r) && Complete(KeyOf(r, c.fkColumns)) ==> exists s :: Holds(pkRows, s) && Matches(c, r, s)
  }

  /** Leaves that scan the same table hold the same rows. */
  ghost predicate Shared(scans: seq<Leaf>, leaves: seq<ZSet<Row>>)
    requires |scans| == |leaves|
  {
    forall i, j :: 0 <= i < j < |scans| && scans[i].Some? && scans[j].Some? && scans[i].value.name == scans[j].value.name ==>
      leaves[i] == leaves[j]
  }

  /** The states in which rows are about to be pruned: rows were inserted into the table of leaf k and nothing else
      changed, its key still holds, and before the change every foreign key to it had its referenced row. */
  ghost predicate Reachable(scans: seq<Leaf>, k: nat, pk: seq<nat>, primary: bool,
                            before: seq<ZSet<Row>>, current: seq<ZSet<Row>>, delta: seq<ZSet<Row>>) {
    && |before| == |current| == |delta| == |scans| && Differ(before, current, delta) && OnlyChanged(delta, k)
    && (forall i :: 0 <= i < |before| ==> Positive(before[i])) && Positive(delta[k])
    && Shared(scans, before) && Shared(scans, current) && Shared(scans, delta)
    && Keyed(before[k] + delta[k], pk, primary)
    && forall f: nat, c :: References(scans, f, k, c) ==> KeysFound(c, before[f], before[k])
  }

  /** What is pruned on detection: the terms with leaf k. */
  ghost predicate PruningIsExact(p: Plan, scans: seq<Leaf>, insertOnly: set<nat>, current: seq<ZSet<Row>>, delta: seq<ZSet<Row>>)
    requires |current| == |delta| == LeafCount(p)
  {
    Equiv(PrunedTerms(p, current, delta, SkipBits(Detected(scans, |scans|), insertOnly)),
          InclusionExclusionTerms(p, current, delta))
  }

  /** Whatever rows the join combines, a foreign key of one of them references the row of leaf k. */
  ghost predicate JoinsOnKeys(p: Plan, scans: seq<Leaf>, k: nat, pk: seq<nat>, primary: bool)
    requires |scans| == LeafCount(p) && k < |scans|
  {
    forall rows: seq<Row> ::
      |rows| == |scans| && Combine(p, rows).Just? && (primary ==> Complete(KeyOf(rows[k], pk))) ==>
        exists f: nat, c :: References(scans, f, k, c) && Matches(c, rows[f], rows[k])
  }

  /** All foreign keys to leaf k name the same key of its table. */
  ghost predicate SameKey(scans: seq<Leaf>, k: nat, pk: seq<nat>) {
    && (forall i, j :: 0 <= i < j < |pk| ==> pk[i] != pk[j])
    && forall f: nat, c :: References(scans, f, k, c) ==> c.pkColumns == pk && |c.fkColumns| == |pk|
  }

  /** A table name stands for one table. */
  predicate SameCatalog(scans: seq<Leaf>) {
    forall i, j :: 0 <= i < j < |scans| && scans[i].Some? && scans[j].Some? && scans[i].value.name == scans[j].value.name ==>
      scans[i] == scans[j]
  }

  predicate ScannedOnce(scans: seq<Leaf>, k: nat)
    requires k < |scans| && scans[k].Some?
  {
    forall i :: 0 <= i < |scans| && i != k && scans[i].Some? ==> scans[i].value.name != scans[k].value.name
  }

  /** A join that only combines referencing rows with their referenced ones has nothing to lose. */
  lemma FkPruningSafe(p: Plan, scans: seq<Leaf>, k: nat, pk: seq<nat>, primary: bool,
                            before: seq<ZSet<Row>>, current: seq<ZSet<Row>>, delta: seq<ZSet<Row>>)
    requires |scans| == LeafCount(p) && SelfReferencesApart(scans) && SameKey(scans, k, pk)
    requires Reachable(scans, k, pk, primary, before, current, delta)
    requires JoinsOnKeys(p, scans, k, pk, primary)
    ensures Residual(p, before, delta, k) == []
  {
    hide Sum, Product, Combine, KeyOf;
    var leaves := before[k := delta[k]];
    forall rows: seq<Row> | |rows| == |leaves| && TakenFrom(rows, leaves)
      ensures Combine(p, rows).Nothing?
    {
      assert Holds(leaves[k], rows[k]);
      InsertedIsNew(before[k], delta[k], pk, primary, rows[k]);
      forall f: nat, c | References(scans, f, k, c) ensures !Matches(c, rows[f], rows[k]) {
        assert Holds(leaves[f], rows[f]);
      }
    }
    NoTupleNoRow(p, leaves);
  }

  lemma InsertedIsNew(before: ZSet<Row>, inserted: ZSet<Row>, pk: seq<nat>, primary: bool, t: Row)
    requires Keyed(before + inserted, pk, primary) && Holds(inserted, t)
    ensures primary ==> Complete(KeyOf(t, pk))
    ensures forall s :: Holds(before, s) && Complete(KeyOf(s, pk)) ==> KeyOf(s, pk) != KeyOf(t, pk)
  {
    hide KeyOf;
    var j :| 0 <= j < |inserted| && inserted[j].row == t;
    assert (before + inserted)[|before| + j].row == t;
    forall s | Holds(before, s) && Complete(KeyOf(s, pk)) ensures KeyOf(s, pk) != KeyOf(t, pk) {
      var i :| 0 <= i < |before| && before[i].row == s;
      assert (before + inserted)[i].row == s;
    }
  }

  ghost predicate TakenFrom(rows: seq<Row>, leaves: seq<ZSet<Row>>)
    requires |rows| == |leaves|
  {
    forall i :: 0 <= i < |rows| ==> Holds(leaves[i], rows[i])
  }

  lemma NoTupleNoRow(p: Plan, leaves: seq<ZSet<Row>>)
    requires |leaves| == LeafCount(p)
    requires forall rows: seq<Row> :: |rows| == |leaves| && TakenFrom(rows, leaves) ==> Combine(p, rows).Nothing?
    ensures Product(p, leaves) == []
  {
    if Product(p, leaves) != [] {
      var rows := ProductSource(p, leaves, Product(p, leaves)[0]);
    }
  }

  // ---- a state that loses rows, for every other join ----

  lemma {:induction false} WeighHolds(rows: seq<Row>, w: int, x: Row)
    requires x in rows
    ensures Holds(Weigh(rows, w), x)
  {
    var z := Weigh(rows, w);
    if rows[0] == x {
      assert z[0].row == x;
    } else {
      WeighHolds(rows[1..], w, x);
      HoldsRight([z[0]], Weigh(rows[1..], w), x);
    }
  }

  lemma HoldsLeft(a: ZSet<Row>, b: ZSet<Row>, x: Row)
    requires Holds(a, x)
    ensures Holds(a + b, x)
  {
    var i :| 0 <= i < |a| && a[i].row == x;
    assert (a + b)[i].row == x;
  }

  lemma HoldsRight(a: ZSet<Row>, b: ZSet<Row>, x: Row)
    requires Holds(b, x)
    ensures Holds(a + b, x)
  {
    var i :| 0 <= i < |b| && b[i].row == x;
    assert (a + b)[|a| + i].row == x;
  }

  lemma HoldsEither(a: ZSet<Row>, b: ZSet<Row>, x: Row)
    ensures Holds(a + b, x) <==> Holds(a, x) || Holds(b, x)
  {
    if Holds(a, x) {
      HoldsLeft(a, b, x);
    }
    if Holds(b, x) {
      HoldsRight(a, b, x);
    }
    if Holds(a + b, x) {
      var i :| 0 <= i < |a + b| && (a + b)[i].row == x;
      assert if i < |a| then a[i].row == x else b[i - |a|].row == x;
    }
  }

  lemma {:induction false} JoinRowHolds(l: Entry<Row>, b: ZSet<Row>, j: (Row, Row) -> seq<Row>, r: Row, x: Row)
    requires Holds(b, r) && x in j(l.row, r)
    ensures Holds(JoinRow(l, b, j), x)
  {
    var first, rest := Weigh(j(l.row, b[0].row), l.weight * b[0].weight), JoinRow(l, b[1..], j);
    if b[0].row == r {
      WeighHolds(j(l.row, r), l.weight * b[0].weight, x);
      HoldsLeft(first, rest, x);
    } else {
      var i :| 0 <= i < |b| && b[i].row == r;
      assert b[1..][i - 1].row == r;
      JoinRowHolds(l, b[1..], j, r, x);
      HoldsRight(first, rest, x);
    }
  }

  lemma {:induction false} JoinHolds(a: ZSet<Row>, b: ZSet<Row>, j: (Row, Row) -> seq<Row>, l: Row, r: Row, x: Row)
    requires Holds(a, l) && Holds(b, r) && x in j(l, r)
    ensures Holds(Join(a, b, j), x)
  {
    if a[0].row == l {
      JoinRowHolds(a[0], b, j, r, x);
      HoldsLeft(JoinRow(a[0], b, j), Join(a[1..], b, j), x);
    } else {
      var i :| 0 <= i < |a| && a[i].row == l;
      assert a[1..][i - 1].row == l;
      JoinHolds(a[1..], b, j, l, r, x);
      HoldsRight(JoinRow(a[0], b, j), Join(a[1..], b, j), x);
    }
  }

  /** What one row of each leaf combines to is a row of the product: the converse of ProductSource. */
  lemma {:induction false} ProductHolds(p: Plan, leaves: seq<ZSet<Row>>, rows: seq<Row>)
    requires |leaves| == |rows| == LeafCount(p) && TakenFrom(rows, leaves) && Combine(p, rows).Just?
    ensures Holds(Product(p, leaves), Combine(p, rows).row)
    decreases p
  {
    hide Join;
    if p.InnerJoin? {
      var n := LeafCount(p.left);
      forall i | 0 <= i < n ensures Holds(leaves[..n][i], rows[..n][i]) {
        assert Holds(leaves[i], rows[i]);
      }
      forall i | 0 <= i < |rows| - n ensures Holds(leaves[n..][i], rows[n..][i]) {
        assert Holds(leaves[n + i], rows[n + i]);
      }
      ProductHolds(p.left, leaves[..n], rows[..n]);
      ProductHolds(p.right, leaves[n..], rows[n..]);
      var l, r := Combine(p.left, rows[..n]).row, Combine(p.right, rows[n..]).row;
      JoinHolds(Product(p.left, leaves[..n]), Product(p.right, leaves[n..]), Pair(p.on), l, r, l + r);
    }
  }

  /** The row with value v in column c, and otherwise as r. */
  function Put(r: Row, c: nat, v: Value): (s: Row)
    ensures forall d: nat :: Column(s, d) == if d == c then v else Column(r, d)
  {
    seq(if |r| > c then |r| else c + 1, d requires d >= 0 => if d == c then v else Column(r, d))
  }

  /** A row with the given key. */
  function Carrying(pk: seq<nat>, key: seq<Value>): Row
    requires |pk| == |key|
  {
    if pk == [] then []
    else
      var last := |pk| - 1;
      Put(Carrying(pk[..last], key[..last]), pk[last], key[last])
  }

  lemma {:induction false} CarriesKey(pk: seq<nat>, key: seq<Value>)
    requires |pk| == |key| && forall i, j :: 0 <= i < j < |pk| ==> pk[i] != pk[j]
    ensures KeyOf(Carrying(pk, key), pk) == key
  {
    if pk != [] {
      var last := |pk| - 1;
      CarriesKey(pk[..last], key[..last]);
      var inner := Carrying(pk[..last], key[..last]);
      forall i | 0 <= i < |pk| ensures KeyOf(Carrying(pk, key), pk)[i] == key[i] {
        if i < last {
          assert KeyOf(inner, pk[..last])[i] == key[..last][i];
        }
      }
    }
  }

  function OneRow(row: Row): ZSet<Row> {
    [Entry(row, 1)]
  }

  ghost predicate OneForEach(z: ZSet<Row>, pk: seq<nat>, keys: set<seq<Value>>) {
    && (forall i :: 0 <= i < |z| ==> KeyOf(z[i].row, pk) in keys)
    && (forall key :: key in keys ==> exists i :: 0 <= i < |z| && KeyOf(z[i].row, pk) == key)
  }

  /** One row for each of the keys. */
  lemma {:induction false} RowsCarrying(pk: seq<nat>, keys: set<seq<Value>>, primary: bool) returns (z: ZSet<Row>)
    requires forall i, j :: 0 <= i < j < |pk| ==> pk[i] != pk[j]
    requires forall key :: key in keys ==> |key| == |pk| && Complete(key)
    ensures Positive(z) && Keyed(z, pk, primary) && OneForEach(z, pk, keys)
    decreases keys
  {
    hide KeyOf, Complete, Carrying, Keyed, OneForEach;
    if keys == {} {
      z := [];
      NoRows(pk, primary);
    } else {
      var key :| key in keys;
      var rest := RowsCarrying(pk, keys - {key}, primary);
      CarriesKey(pk, key);
      OneMoreRow(rest, pk, keys - {key}, primary, Carrying(pk, key));
      z := OneRow(Carrying(pk, key)) + rest;
      assert keys - {key} + {key} == keys;
    }
  }

  lemma NoRows(pk: seq<nat>, primary: bool)
    ensures Keyed([], pk, primary) && OneForEach([], pk, {})
  {
  }

  lemma OneMoreRow(rest: ZSet<Row>, pk: seq<nat>, keys: set<seq<Value>>, primary: bool, row: Row)
    requires Keyed(rest, pk, primary) && OneForEach(rest, pk, keys)
    requires KeyOf(row, pk) !in keys && Complete(KeyOf(row, pk))
    ensures Keyed(OneRow(row) + rest, pk, primary)
    ensures OneForEach(OneRow(row) + rest, pk, keys + {KeyOf(row, pk)})
  {
    hide KeyOf, Complete;
    var z := OneRow(row) + rest;
    assert z[0].row == row && forall i :: 0 < i < |z| ==> z[i] == rest[i - 1];
    forall key | key in keys + {KeyOf(row, pk)} ensures exists i :: 0 <= i < |z| && KeyOf(z[i].row, pk) == key {
      if key in keys {
        var i :| 0 <= i < |rest| && KeyOf(rest[i].row, pk) == key;
        assert z[i + 1] == rest[i];
      } else {
        assert KeyOf(z[0].row, pk) == key;
      }
    }
  }

  predicate SameTable(scans: seq<Leaf>, i: nat, j: nat)
    requires i < |scans| && j < |scans|
  {
    i == j || (scans[i].Some? && scans[i] == scans[j])
  }

  /** Of the first n rows, those that leaf i must hold: its own, and those of the leaves that scan the same table. */
  function TableRows(scans: seq<Leaf>, rows: seq<Row>, i: nat, n: nat): ZSet<Row>
    requires |scans| == |rows| && i < |scans| && n <= |scans|
  {
    if n == 0 then []
    else TableRows(scans, rows, i, n - 1) + if SameTable(scans, i, n - 1) then OneRow(rows[n - 1]) else []
  }

  lemma {:induction false} TableRowsPositive(scans: seq<Leaf>, rows: seq<Row>, i: nat, n: nat)
    requires |scans| == |rows| && i < |scans| && n <= |scans|
    ensures Positive(TableRows(scans, rows, i, n))
  {
    if n > 0 {
      TableRowsPositive(scans, rows, i, n - 1);
    }
  }

  lemma {:induction false} TableRowsHold(scans: seq<Leaf>, rows: seq<Row>, i: nat, n: nat)
    requires |scans| == |rows| && i < n <= |scans|
    ensures Holds(TableRows(scans, rows, i, n), rows[i])
  {
    var front, last := TableRows(scans, rows, i, n - 1), if SameTable(scans, i, n - 1) then OneRow(rows[n - 1]) else [];
    if i == n - 1 {
      assert last[0].row == rows[i];
      HoldsRight(front, last, rows[i]);
    } else {
      TableRowsHold(scans, rows, i, n - 1);
      HoldsLeft(front, last, rows[i]);
    }
  }

  lemma {:induction false} TableRowsOnly(scans: seq<Leaf>, rows: seq<Row>, i: nat, n: nat, r: Row) returns (j: nat)
    requires |scans| == |rows| && i < |scans| && n <= |scans| && Holds(TableRows(scans, rows, i, n), r)
    ensures j < n && r == rows[j] && SameTable(scans, i, j)
  {
    hide SameTable;
    var front, last := TableRows(scans, rows, i, n - 1), if SameTable(scans, i, n - 1) then OneRow(rows[n - 1]) else [];
    HoldsEither(front, last, r);
    if Holds(front, r) {
      j := TableRowsOnly(scans, rows, i, n - 1, r);
    } else {
      j := n - 1;
    }
  }

  lemma {:induction false} TableRowsShared(scans: seq<Leaf>, rows: seq<Row>, i: nat, j: nat, n: nat)
    requires |scans| == |rows| && i < |scans| && j < |scans| && n <= |scans| && scans[i].Some? && scans[i] == scans[j]
    ensures TableRows(scans, rows, i, n) == TableRows(scans, rows, j, n)
  {
    if n > 0 {
      TableRowsShared(scans, rows, i, j, n - 1);
    }
  }

  ghost function ReferencedKeys(scans: seq<Leaf>, rows: seq<Row>, k: nat): set<seq<Value>>
    requires |scans| == |rows|
  {
    set f: nat, c: Constraint |
      f < |scans| && scans[f].Some? && c in scans[f].value.constraints
      && References(scans, f, k, c) && Complete(KeyOf(rows[f], c.fkColumns))
      :: KeyOf(rows[f], c.fkColumns)
  }

  lemma ReferencedKeysComplete(scans: seq<Leaf>, rows: seq<Row>, k: nat, pk: seq<nat>)
    requires |scans| == |rows| && SameKey(scans, k, pk)
    ensures forall i, j :: 0 <= i < j < |pk| ==> pk[i] != pk[j]
    ensures forall key :: key in ReferencedKeys(scans, rows, k) ==> |key| == |pk| && Complete(key)
  {
  }

  ghost function StateBefore(scans: seq<Leaf>, rows: seq<Row>, k: nat, old_: ZSet<Row>): (before: seq<ZSet<Row>>)
    requires |scans| == |rows|
    ensures |before| == |scans|
  {
    seq(|scans|, i requires 0 <= i < |scans| => if i == k then old_ else TableRows(scans, rows, i, |scans|))
  }

  ghost function InsertInto(n: nat, k: nat, row: Row): (delta: seq<ZSet<Row>>)
    ensures |delta| == n
  {
    seq(n, i requires 0 <= i < n => if i == k then OneRow(row) else [])
  }

  /** The new row has a new key, if no foreign key of a combined row references it. */
  lemma NewKey(scans: seq<Leaf>, rows: seq<Row>, k: nat, pk: seq<nat>, primary: bool, old_: ZSet<Row>)
    requires |scans| == |rows| && k < |scans| && SameKey(scans, k, pk)
    requires primary ==> Complete(KeyOf(rows[k], pk))
    requires forall f: nat, c :: References(scans, f, k, c) ==> !Matches(c, rows[f], rows[k])
    requires Keyed(old_, pk, primary) && OneForEach(old_, pk, ReferencedKeys(scans, rows, k))
    ensures Keyed(old_ + OneRow(rows[k]), pk, primary)
  {
    hide KeyOf;
    forall i | 0 <= i < |old_| ensures KeyOf(old_[i].row, pk) != KeyOf(rows[k], pk) {
      var f: nat, c :| f < |scans| && scans[f].Some? && c in scans[f].value.constraints && References(scans, f, k, c)
                       && Complete(KeyOf(rows[f], c.fkColumns)) && KeyOf(rows[f], c.fkColumns) == KeyOf(old_[i].row, pk);
      assert !Matches(c, rows[f], rows[k]);
    }
  }

  lemma OldKeysFound(scans: seq<Leaf>, rows: seq<Row>, f: nat, k: nat, pk: seq<nat>, c: Constraint, old_: ZSet<Row>)
    requires |scans| == |rows| && SameKey(scans, k, pk) && References(scans, f, k, c)
    requires OneForEach(old_, pk, ReferencedKeys(scans, rows, k))
    ensures KeysFound(c, TableRows(scans, rows, f, |scans|), old_)
  {
    hide KeyOf;
    forall r | Holds(TableRows(scans, rows, f, |scans|), r) && Complete(KeyOf(r, c.fkColumns))
      ensures exists s :: Holds(old_, s) && Matches(c, r, s)
    {
      var j := TableRowsOnly(scans, rows, f, |scans|, r);
      assert References(scans, j, k, c);
      assert KeyOf(rows[j], c.fkColumns) in ReferencedKeys(scans, rows, k);
      var i :| 0 <= i < |old_| && KeyOf(old_[i].row, pk) == KeyOf(rows[j], c.fkColumns);
      assert Holds(old_, old_[i].row);
    }
  }

  lemma StateIsShared(scans: seq<Leaf>, rows: seq<Row>, k: nat, old_: ZSet<Row>)
    requires |scans| == |rows| && k < |scans| && scans[k].Some? && SameCatalog(scans) && ScannedOnce(scans, k)
    ensures Shared(scans, StateBefore(scans, rows, k, old_)) && Shared(scans, InsertInto(|scans|, k, rows[k]))
  {
    hide TableRows;
    var before := StateBefore(scans, rows, k, old_);
    forall i, j | 0 <= i < j < |scans| && scans[i].Some? && scans[j].Some? && scans[i].value.name == scans[j].value.name
      ensures before[i] == before[j]
    {
      TableRowsShared(scans, rows, i, j, |scans|);
    }
  }

  lemma StateHolds(scans: seq<Leaf>, rows: seq<Row>, k: nat, old_: ZSet<Row>)
    requires |scans| == |rows| && k < |scans| && Positive(old_)
    ensures forall i :: 0 <= i < |scans| ==> Positive(StateBefore(scans, rows, k, old_)[i])
    ensures TakenFrom(rows, StateBefore(scans, rows, k, old_)[k := OneRow(rows[k])])
  {
    hide TableRows;
    forall i | 0 <= i < |scans| ensures Positive(TableRows(scans, rows, i, |scans|))
      ensures Holds(TableRows(scans, rows, i, |scans|), rows[i])
    {
      TableRowsPositive(scans, rows, i, |scans|);
      TableRowsHold(scans, rows, i, |scans|);
    }
    assert OneRow(rows[k])[0].row == rows[k];
  }

  lemma StateKeysFound(scans: seq<Leaf>, rows: seq<Row>, k: nat, pk: seq<nat>, old_: ZSet<Row>)
    requires |scans| == |rows| && SelfReferencesApart(scans) && SameKey(scans, k, pk)
    requires OneForEach(old_, pk, ReferencedKeys(scans, rows, k))
    ensures forall f: nat, c :: References(scans, f, k, c) ==> KeysFound(c, StateBefore(scans, rows, k, old_)[f], old_)
  {
    hide TableRows, KeysFound, OneForEach;
    forall f: nat, c | References(scans, f, k, c) ensures KeysFound(c, StateBefore(scans, rows, k, old_)[f], old_) {
      OldKeysFound(scans, rows, f, k, pk, c, old_);
    }
  }

  /** Rows that the join combines, though no foreign key among them references the row of leaf k: insert that row into a
      state with the other ones and the rows they do reference. */
  lemma LosingState(p: Plan, scans: seq<Leaf>, k: nat, pk: seq<nat>, primary: bool, rows: seq<Row>)
    returns (before: seq<ZSet<Row>>, current: seq<ZSet<Row>>, delta: seq<ZSet<Row>>)
    requires |scans| == |rows| == LeafCount(p) && k < |scans| && scans[k].Some?
    requires SelfReferencesApart(scans) && SameCatalog(scans) && ScannedOnce(scans, k) && SameKey(scans, k, pk)
    requires Combine(p, rows).Just? && (primary ==> Complete(KeyOf(rows[k], pk)))
    requires forall f: nat, c :: References(scans, f, k, c) ==> !Matches(c, rows[f], rows[k])
    ensures Reachable(scans, k, pk, primary, before, current, delta)
    ensures Residual(p, before, delta, k) != []
  {
    hide Sum, Product, Combine, KeyOf, Keyed, TableRows, KeysFound, OneForEach, Positive, Differ, SameKey,
         SelfReferencesApart, SameCatalog, ScannedOnce, TakenFrom;
    ReferencedKeysComplete(scans, rows, k, pk);
    var old_ := RowsCarrying(pk, ReferencedKeys(scans, rows, k), primary);
    NewKey(scans, rows, k, pk, primary, old_);
    before, delta := StateBefore(scans, rows, k, old_), InsertInto(|scans|, k, rows[k]);
    current := seq(|scans|, i requires 0 <= i < |scans| => before[i] + delta[i]);
    OneInsert(before, current, delta);
    StateIsShared(scans, rows, k, old_);
    StateHolds(scans, rows, k, old_);
    StateKeysFound(scans, rows, k, pk, old_);
    OneRowPositive(rows[k]);
    ProductHolds(p, before[k := delta[k]], rows);
  }

  lemma OneRowPositive(row: Row)
    ensures Positive(OneRow(row))
  {
  }

  /** If the table of leaf k is scanned by another leaf too, it cannot be the only leaf that changed. */
  lemma ScannedTwiceUnchanged(scans: seq<Leaf>, k: nat, pk: seq<nat>, primary: bool,
                              before: seq<ZSet<Row>>, current: seq<ZSet<Row>>, delta: seq<ZSet<Row>>)
    requires k < |scans| && scans[k].Some? && !ScannedOnce(scans, k)
    requires Reachable(scans, k, pk, primary, before, current, delta)
    ensures forall i :: 0 <= i < |delta| ==> delta[i] == []
  {
    var i :| 0 <= i < |scans| && i != k && scans[i].Some? && scans[i].value.name == scans[k].value.name;
    assert delta[i] == [];
    assert delta[if i < k then i else k] == delta[if i < k then k else i];
  }

  /** What can be checked of a view before compiling it: the pruning that a detected foreign key to leaf k brings is
      exact in all reachable states precisely if the join only ever combines a row of leaf k with a row that references
      it - or if the table of leaf k is scanned twice, so that this pruning never comes into play. */
  lemma FkPruningSafeExactly(p: Plan, scans: seq<Leaf>, insertOnly: set<nat>, k: nat, pk: seq<nat>, primary: bool)
    requires |scans| == LeafCount(p) && SelfReferencesApart(scans) && SameCatalog(scans)
    requires k in insertOnly && exists r :: r in Detected(scans, |scans|) && r.pk == k
    requires SameKey(scans, k, pk)
    ensures k < |scans| && scans[k].Some?
    ensures (forall before, current, delta :: Reachable(scans, k, pk, primary, before, current, delta) ==>
               PruningIsExact(p, scans, insertOnly, current, delta))
            <==> JoinsOnKeys(p, scans, k, pk, primary) || !ScannedOnce(scans, k)
  {
    hide Sum, Product, Combine, KeyOf, Residual, Detected, PruningIsExact, JoinsOnKeys, SelfReferencesApart, SameKey,
         Differ, OnlyChanged, Positive, Shared, Keyed, KeysFound;
    var relation :| relation in Detected(scans, |scans|) && relation.pk == k;
    DetectedExactly(scans, relation);
    var c :| References(scans, relation.fk, k, c);
    if JoinsOnKeys(p, scans, k, pk, primary) || !ScannedOnce(scans, k) {
      forall before, current, delta | Reachable(scans, k, pk, primary, before, current, delta)
        ensures PruningIsExact(p, scans, insertOnly, current, delta)
      {
        SafeState(p, scans, insertOnly, k, pk, primary, before, current, delta);
      }
    } else {
      var before, current, delta := UnsafeState(p, scans, insertOnly, k, pk, primary);
    }
  }

  lemma UnsafeState(p: Plan, scans: seq<Leaf>, insertOnly: set<nat>, k: nat, pk: seq<nat>, primary: bool)
    returns (before: seq<ZSet<Row>>, current: seq<ZSet<Row>>, delta: seq<ZSet<Row>>)
    requires |scans| == LeafCount(p) && SelfReferencesApart(scans) && SameCatalog(scans) && SameKey(scans, k, pk)
    requires k in insertOnly && exists r :: r in Detected(scans, |scans|) && r.pk == k
    requires k < |scans| && scans[k].Some? && ScannedOnce(scans, k)
    requires !JoinsOnKeys(p, scans, k, pk, primary)
    ensures Reachable(scans, k, pk, primary, before, current, delta)
    ensures |current| == |delta| == LeafCount(p) && !PruningIsExact(p, scans, insertOnly, current, delta)
  {
    hide Sum, Product, Combine, KeyOf, Residual, Detected, PruningIsExact, SameKey, SelfReferencesApart, Keyed, KeysFound;
    var rows: seq<Row> :|
      && |rows| == |scans| && Combine(p, rows).Just? && (primary ==> Complete(KeyOf(rows[k], pk)))
      && !exists f: nat, c :: References(scans, f, k, c) && Matches(c, rows[f], rows[k]);
    before, current, delta := LosingState(p, scans, k, pk, primary, rows);
    ReachableState(p, scans, insertOnly, k, pk, primary, before, current, delta);
  }

  /** In a reachable state the pruning is exact precisely if it leaves no residual. */
  lemma ReachableState(p: Plan, scans: seq<Leaf>, insertOnly: set<nat>, k: nat, pk: seq<nat>, primary: bool,
                       before: seq<ZSet<Row>>, current: seq<ZSet<Row>>, delta: seq<ZSet<Row>>)
    requires |scans| == LeafCount(p) && k in insertOnly && exists r :: r in Detected(scans, |scans|) && r.pk == k
    requires Reachable(scans, k, pk, primary, before, current, delta)
    ensures PruningIsExact(p, scans, insertOnly, current, delta) <==> Residual(p, before, delta, k) == []
  {
    hide Sum, Product, Detected, PrunedTerms, InclusionExclusionTerms, Residual, Keyed, KeysFound;
    FkPruningExactly(p, before, current, delta, k, Detected(scans, |scans|), insertOnly);
  }

  lemma SafeState(p: Plan, scans: seq<Leaf>, insertOnly: set<nat>, k: nat, pk: seq<nat>, primary: bool,
                  before: seq<ZSet<Row>>, current: seq<ZSet<Row>>, delta: seq<ZSet<Row>>)
    requires |scans| == LeafCount(p) && SelfReferencesApart(scans) && SameKey(scans, k, pk)
    requires k in insertOnly && exists r :: r in Detected(scans, |scans|) && r.pk == k
    requires Reachable(scans, k, pk, primary, before, current, delta) && scans[k].Some?
    requires JoinsOnKeys(p, scans, k, pk, primary) || !ScannedOnce(scans, k)
    ensures PruningIsExact(p, scans, insertOnly, current, delta)
  {
    hide Sum, Product, Combine, KeyOf, Residual, Detected, PrunedTerms, InclusionExclusionTerms, Keyed, KeysFound;
    if JoinsOnKeys(p, scans, k, pk, primary) {
      FkPruningSafe(p, scans, k, pk, primary, before, current, delta);
      ReachableState(p, scans, insertOnly, k, pk, primary, before, current, delta);
    } else {
      ScannedTwiceUnchanged(scans, k, pk, primary, before, current, delta);
      EmptySkippingIsExact(p, current, delta, SkipBits(Detected(scans, |scans|), insertOnly));
    }
  }

  // ---- the detection does not look at the columns of the join ----

  ghost predicate SameSecondColumn(l: Row, r: Row) {
    Column(l, 1) == Column(r, 1)
  }

  /** R(fk, x) references S(pk, y), but the view joins them on x = y. */
  const REFERENCE := ForeignKey(Referencing, "s", [0], [0])
  const R_AND_S: seq<Leaf> := [Some(Table("r", [REFERENCE])), Some(Table("s", []))]

  lemma ReferenceDetected()
    ensures FkRelation(0, 1) in Detected(R_AND_S, 2)
    ensures forall f: nat, k: nat, c :: References(R_AND_S, f, k, c) ==> f == 0 && c == REFERENCE
  {
    assert LeafOf(R_AND_S, "s") == Some(1);
    assert REFERENCE in R_AND_S[0].value.constraints;
    assert References(R_AND_S, 0, 1, REFERENCE);
    DetectedExactly(R_AND_S, FkRelation(0, 1));
  }

  lemma JoinsOnOtherColumns(p: Plan, primary: bool)
    requires p.InnerJoin? && p.left == Scan("r") && p.right == Scan("s") && forall l, r :: p.on(l, r) == SameSecondColumn(l, r)
    ensures !JoinsOnKeys(p, R_AND_S, 1, [0], primary)
  {
    var rows := [[Num(1.0), Num(7.0)], [Num(2.0), Num(7.0)]];
    assert rows[..1] == [rows[0]] && rows[1..] == [rows[1]];
    assert Combine(p, rows) == Just(rows[0] + rows[1]);
    ReferenceDetected();
    assert KeyOf(rows[0], [0])[0] != KeyOf(rows[1], [0])[0];
    assert !Matches(REFERENCE, rows[0], rows[1]);
  }

  /** The detection accepts that view, and some insertion into S is lost. */
  lemma FkPruningIgnoresJoinColumns(primary: bool) returns (p: Plan)
    ensures p.InnerJoin? && p.left == Scan("r") && p.right == Scan("s") && FkRelation(0, 1) in Detected(R_AND_S, 2)
    ensures exists before, current, delta ::
              && Reachable(R_AND_S, 1, [0], primary, before, current, delta)
              && !PruningIsExact(p, R_AND_S, {0, 1}, current, delta)
  {
    hide Sum, Product, Reachable, PruningIsExact, JoinsOnKeys, Detected, LeafOf;
    p := InnerJoin((l, r) => SameSecondColumn(l, r), Scan("r"), Scan("s"));
    ReferenceDetected();
    JoinsOnOtherColumns(p, primary);
    FkPruningSafeExactly(p, R_AND_S, {0, 1}, 1, [0], primary);
  }

  lemma OneInsert(before: seq<ZSet<Row>>, current: seq<ZSet<Row>>, delta: seq<ZSet<Row>>)
    requires |before| == |current| == |delta|
    requires forall i :: 0 <= i < |before| ==> current[i] == before[i] + delta[i]
    ensures Differ(before, current, delta)
  {
    forall i | 0 <= i < |before| ensures Combination(before[i], 1, current[i], -1, delta[i]) {
      forall g: Row -> int ensures Sum(before[i], g) == 1 * Sum(current[i], g) + -1 * Sum(delta[i], g) {
        SumAppend(before[i], delta[i], g);
      }
    }
  }
}
