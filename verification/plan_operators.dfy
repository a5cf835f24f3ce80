/** The two aggregate rewrites as they run: over a tree of operators that own their children, changing
    expression lists, column numbers and projection entries in place. */
module PlanOperators {
  import opened SqlValues
  import opened DerivedAggregates
  import opened Plans
  import opened AggregateRewrite
  import opened BindingKey

  /** Where the slots of a decomposed aggregate are. */
  datatype Decomp = Decomp(name: AggName, alias: string, sumIndex: nat, sumSqIndex: nat, countIndex: nat, oldIndex: nat)

  function DecompAt(es: seq<AggExpr>, j: nat, naming: Naming): Decomp
    requires j < |es| && IsDerived(es[j])
  {
    var off := Offset(es, j, naming);
    Decomp(es[j].name, naming(Bare, es[j]), off, off + 1, off + if es[j].name.Avg? then 1 else 2, j)
  }

  function DecompsUpTo(es: seq<AggExpr>, n: nat, naming: Naming): (ds: seq<Decomp>)
    requires n <= |es|
    ensures forall d :: d in ds <==> exists j: nat :: j < n && IsDerived(es[j]) && d == DecompAt(es, j, naming)
  {
    if n == 0 then []
    else
      var front := DecompsUpTo(es, n - 1, naming);
      if IsDerived(es[n - 1]) then front + [DecompAt(es, n - 1, naming)] else front
  }

  lemma OffsetStep(es: seq<AggExpr>, i: nat, naming: Naming)
    requires i < |es|
    ensures NewExpressions(es[..i + 1], naming) == NewExpressions(es[..i], naming) + Expanded(es[i], naming)
    ensures Offset(es, i, naming) == |NewExpressions(es[..i], naming)|
  {
    hide Expanded;
    var blocks, front := Blocks(es[..i + 1], naming), Blocks(es[..i], naming);
    assert blocks[..i] == front && blocks[i] == Expanded(es[i], naming);
    assert Blocks(es, naming)[..i] == front;
  }

  lemma NothingExpanded(es: seq<AggExpr>, naming: Naming)
    ensures NewExpressions(es[..0], naming) == []
  {
  }

  lemma Kept(a: AggExpr, naming: Naming)
    requires !IsDerived(a)
    ensures Expanded(a, naming) == [a]
  {
  }

  /** Pushes the slots of one derived aggregate. */
  method PushSlots(exprs: seq<AggExpr>, a: AggExpr, i: nat, naming: Naming) returns (r: seq<AggExpr>, d: Decomp)
    requires IsDerived(a)
    ensures r == exprs + Expanded(a, naming)
    ensures d == Decomp(a.name, naming(Bare, a), |exprs|, |exprs| + 1, |exprs| + if a.name.Avg? then 1 else 2, i)
  {
    var x := a.args[0];
    r := exprs;
    var sumIndex := |r|;
    r := r + [BoundAggregate(Sum, [x], false, None, naming(SumPart, a))];
    var sumSqIndex := |r|;
    if !a.name.Avg? {
      r := r + [BoundAggregate(Sum, [Scalar(Times, [x, x])], false, None, naming(SumSqPart, a))];
    }
    var countIndex := |r|;
    r := r + [BoundAggregate(Count, [x], false, None, naming(CountPart, a))];
    d := Decomp(a.name, naming(Bare, a), sumIndex, sumSqIndex, countIndex, i);
  }

  /** Splits the aggregate list: the new expressions, the decomposed columns, and the new numbers of the others. */
  method Decompose(es: seq<AggExpr>, naming: Naming) returns (exprs: seq<AggExpr>, decomps: seq<Decomp>, remap: map<nat, nat>)
    ensures exprs == NewExpressions(es, naming)
    ensures decomps == DecompsUpTo(es, |es|, naming)
    ensures forall j: nat :: j in remap <==> j < |es| && !IsDerived(es[j])
    ensures forall j: nat :: j in remap ==> remap[j] == Offset(es, j, naming)
  {
    hide Expanded, IsDerived, Concat, Blocks;
    exprs, decomps, remap := [], [], map[];
    var i := 0;
    NothingExpanded(es, naming);
    while i < |es|
      invariant i <= |es|
      invariant exprs == NewExpressions(es[..i], naming)
      invariant decomps == DecompsUpTo(es, i, naming)
      invariant forall j: nat :: j in remap <==> j < i && !IsDerived(es[j])
      invariant forall j: nat :: j in remap ==> remap[j] == Offset(es, j, naming)
    {
      OffsetStep(es, i, naming);
      var a := es[i];
      if !IsDerived(a) {
        Kept(a, naming);
        remap := remap[i := |exprs|];
        exprs := exprs + [a];
      } else {
        var d;
        exprs, d := PushSlots(exprs, a, i, naming);
        decomps := decomps + [d];
      }
      i := i + 1;
    }
    assert es[..|es|] == es;
  }

  /** The lookup table answers for exactly the decomposed columns. */
  ghost predicate Answers(lookup: map<nat, Decomp>, table: nat, es: seq<AggExpr>, naming: Naming) {
    forall c: nat :: c < WORD ==>
      && (Key(table, c) in lookup <==> c < |es| && IsDerived(es[c]))
      && (c < |es| && IsDerived(es[c]) ==> lookup[Key(table, c)] == DecompAt(es, c, naming))
  }

  method BuildLookup(table: nat, decomps: seq<Decomp>, ghost es: seq<AggExpr>, naming: Naming) returns (lookup: map<nat, Decomp>)
    requires decomps == DecompsUpTo(es, |es|, naming) && |es| < WORD
    ensures Answers(lookup, table, es, naming)
  {
    hide Key, DecompAt, IsDerived;
    lookup := map[];
    var i := 0;
    while i < |decomps|
      invariant i <= |decomps|
      invariant forall k :: k in lookup ==> lookup[k] in decomps[..i] && k == Key(table, lookup[k].oldIndex)
      invariant forall d :: d in decomps[..i] ==> Key(table, d.oldIndex) in lookup
    {
      var d := decomps[i];
      lookup := lookup[Key(table, d.oldIndex) := d];
      i := i + 1;
    }
    assert decomps[..|decomps|] == decomps;
    forall c: nat | c < WORD
      ensures Key(table, c) in lookup <==> c < |es| && IsDerived(es[c])
      ensures c < |es| && IsDerived(es[c]) ==> lookup[Key(table, c)] == DecompAt(es, c, naming)
    {
      if Key(table, c) in lookup {
        var d := lookup[Key(table, c)];
        var j: nat :| j < |es| && IsDerived(es[j]) && d == DecompAt(es, j, naming);
        OldIndex(es, j, naming);
        KeyInjective(table, c, j);
      }
      if c < |es| && IsDerived(es[c]) {
        var d := DecompAt(es, c, naming);
        assert d in decomps;
        OldIndex(es, c, naming);
      }
    }
  }

  lemma OldIndex(es: seq<AggExpr>, j: nat, naming: Naming)
    requires j < |es| && IsDerived(es[j])
    ensures DecompAt(es, j, naming).oldIndex == j
  {
  }

  /** The expression put in place of a reference to a decomposed column. */
  method BuildReplacement(d: Decomp, table: nat) returns (e: Expr)
    ensures e == RebuildExpr(d.name, ColumnRef(Binding(table, d.sumIndex)), ColumnRef(Binding(table, d.sumSqIndex)),
                             ColumnRef(Binding(table, d.countIndex)))
  {
    var sum, count := ColumnRef(Binding(table, d.sumIndex)), ColumnRef(Binding(table, d.countIndex));
    if d.name.Avg? {
      return Scalar(Divide, [sum, count]);
    }
    var sumSq := ColumnRef(Binding(table, d.sumSqIndex));
    var numerator := Scalar(Minus, [sumSq, Scalar(Divide, [Scalar(Times, [sum, sum]), count])]);
    var denominator := count;
    if !IsPopulationVariant(d.name) {
      denominator := Scalar(Minus, [count, Constant(Num(1.0))]);
    }
    var formula := Scalar(Divide, [numerator, denominator]);
    if IsStddevVariant(d.name) {
      formula := Scalar(SquareRoot, [formula]);
    }
    var threshold := if IsPopulationVariant(d.name) then 0.0 else 1.0;
    e := Case(Scalar(GreaterThan, [count, Constant(Num(threshold))]), formula, Constant(Null));
  }

  ghost predicate Narrow(b: Binding) {
    b.column < WORD
  }

  /** Patches one expression: a replacement is not descended into, any other reference gets its new number. */
  method WalkExpr(e: Expr, table: nat, lookup: map<nat, Decomp>, remap: map<nat, nat>, ghost es: seq<AggExpr>, naming: Naming)
    returns (r: Expr)
    requires Answers(lookup, table, es, naming) && |es| < WORD
    requires forall j: nat :: j in remap <==> j < |es| && !IsDerived(es[j])
    requires forall j: nat :: j in remap ==> remap[j] == Offset(es, j, naming)
    requires Refs(e, b => Narrow(b))
    ensures r == Walk(e, table, es, naming)
    decreases e
  {
    match e {
      case ColumnRef(b) =>
        r := e;
        if b.table == table {
          var key := Key(table, b.column);
          if key in lookup {
            r := BuildReplacement(lookup[key], table);
            return;
          }
          if b.column in remap && remap[b.column] != b.column {
            r := ColumnRef(Binding(table, remap[b.column]));
          }
        }
      case Constant(v) =>
        r := e;
      case Scalar(f, args) =>
        var walked: seq<Expr> := [];
        var i := 0;
        while i < |args|
          invariant i <= |args| && |walked| == i
          invariant forall j :: 0 <= j < i ==> walked[j] == Walk(args[j], table, es, naming)
        {
          var w := WalkExpr(args[i], table, lookup, remap, es, naming);
          walked := walked + [w];
          i := i + 1;
        }
        assert walked == WalkAll(args, table, es, naming);
        r := Scalar(f, walked);
      case Case(c, t, f) =>
        var c' := WalkExpr(c, table, lookup, remap, es, naming);
        var t' := WalkExpr(t, table, lookup, remap, es, naming);
        var f' := WalkExpr(f, table, lookup, remap, es, naming);
        r := Case(c', t', f');
    }
  }

  /** The alias of the first projection entry that is the decomposed column itself. */
  method FindUserAlias(items: seq<Item>, b: Binding, alias: string) returns (user: string)
    ensures user == UserAlias(items, b, alias)
  {
    var i := 0;
    while i < |items|
      invariant i <= |items|
      invariant UserAlias(items, b, alias) == UserAlias(items[i..], b, alias)
    {
      if items[i].expr == ColumnRef(b) {
        return if items[i].alias == "" then alias else items[i].alias;
      }
      i := i + 1;
    }
    return alias;
  }

  /** Keeps letters, digits and underscores, squeezing everything else. */
  method Sanitize(raw: string) returns (clean: string)
    ensures clean == Clean(raw)
  {
    clean := "";
    var lastUnder := false;
    var i := 0;
    while i < |raw|
      invariant i <= |raw| && clean == Squeezed(raw[..i])
      invariant clean != "" ==> (lastUnder <==> clean[|clean| - 1] == '_')
    {
      assert raw[..i + 1][..i] == raw[..i];
      var c := raw[i];
      if IsAlnum(c) || c == '_' {
        clean := clean + [c];
        lastUnder := c == '_';
      } else if !lastUnder && clean != "" {
        clean := clean + "_";
        lastUnder := true;
      }
      i := i + 1;
    }
    assert raw[..|raw|] == raw;
    if clean != "" && clean[|clean| - 1] == '_' {
      clean := clean[..|clean| - 1];
    }
  }

  method Suffix(user: string, alias: string) returns (suffix: string)
    ensures suffix == var s := Clean(if user == "" then alias else user); if s == "" then alias else s
  {
    suffix := Sanitize(if user == "" then alias else user);
    if suffix == "" {
      suffix := alias;
    }
  }

  /** The hidden columns of one decomposed aggregate, under the suffix its user alias gives. */
  function HiddenFor(d: Decomp, user: string, table: nat): seq<Item> {
    var cleaned := Clean(if user == "" then d.alias else user);
    var suffix := if cleaned == "" then d.alias else cleaned;
    [Item(ColumnRef(Binding(table, d.sumIndex)), SUM_COL_PREFIX + suffix)]
    + (if d.name.Avg? then [] else [Item(ColumnRef(Binding(table, d.sumSqIndex)), SumSqPrefix(d.name) + suffix)])
    + [Item(ColumnRef(Binding(table, d.countIndex)), COUNT_COL_PREFIX + suffix)]
  }

  function HiddenForAll(ds: seq<Decomp>, items: seq<Item>, table: nat): seq<Item> {
    if ds == [] then []
    else
      var d := ds[|ds| - 1];
      HiddenForAll(ds[..|ds| - 1], items, table) + HiddenFor(d, UserAlias(items, Binding(table, d.oldIndex), d.alias), table)
  }

  lemma HiddenForOne(items: seq<Item>, table: nat, es: seq<AggExpr>, j: nat, naming: Naming)
    requires j < |es| && IsDerived(es[j])
    ensures var d := DecompAt(es, j, naming);
            HiddenFor(d, UserAlias(items, Binding(table, d.oldIndex), d.alias), table) == HiddenItems(items, table, es, j, naming)
  {
    hide Offset, UserAlias, Clean, SumSqPrefix;
  }

  lemma {:induction false} HiddenForEach(items: seq<Item>, table: nat, es: seq<AggExpr>, n: nat, naming: Naming)
    requires n <= |es|
    ensures HiddenForAll(DecompsUpTo(es, n, naming), items, table) == AllHiddenItems(items, table, es, n, naming)
  {
    hide DecompAt, HiddenFor, HiddenItems, UserAlias;
    if n > 0 {
      HiddenForEach(items, table, es, n - 1, naming);
      var ds := DecompsUpTo(es, n - 1, naming);
      if IsDerived(es[n - 1]) {
        var d := DecompAt(es, n - 1, naming);
        assert (ds + [d])[..|ds|] == ds;
        HiddenForOne(items, table, es, n - 1, naming);
      } else {
        NothingHidden(items, table, es, n - 1, naming);
      }
    }
  }

  lemma NothingHidden(items: seq<Item>, table: nat, es: seq<AggExpr>, j: nat, naming: Naming)
    requires j < |es| && !IsDerived(es[j])
    ensures HiddenItems(items, table, es, j, naming) == []
  {
  }

  /** The user alias of every decomposed aggregate, looked up before the projection is patched. */
  method FindUserAliases(items: seq<Item>, decomps: seq<Decomp>, table: nat) returns (users: seq<string>)
    ensures |users| == |decomps|
    ensures forall k :: 0 <= k < |decomps| ==>
              users[k] == UserAlias(items, Binding(table, decomps[k].oldIndex), decomps[k].alias)
  {
    users := [];
    for k := 0 to |decomps|
      invariant |users| == k
      invariant forall h :: 0 <= h < k ==>
                  users[h] == UserAlias(items, Binding(table, decomps[h].oldIndex), decomps[h].alias)
    {
      var user := FindUserAlias(items, Binding(table, decomps[k].oldIndex), decomps[k].alias);
      users := users + [user];
    }
  }

  method ScanForDerived(es: seq<AggExpr>) returns (found: bool)
    ensures found == HasDerived(es)
  {
    for i := 0 to |es|
      invariant forall j :: 0 <= j < i ==> !(es[j].BoundAggregate? && IsDerivedName(es[j].name))
    {
      if es[i].BoundAggregate? && IsDerivedName(es[i].name) {
        return true;
      }
    }
    return false;
  }

  /** Column numbers fit the 64-bit index type, so that the lookup keys are distinct. */
  ghost predicate FitsIndexWidth(p: Plan)
    decreases p
  {
    && (p.op.Projection? ==> NarrowItems(p.op.items))
    && (p.op.Aggregate? ==> |p.op.expressions| < WORD)
    && forall i :: 0 <= i < |p.children| ==> FitsIndexWidth(p.children[i])
  }

  ghost predicate NarrowItems(items: seq<Item>) {
    forall i :: 0 <= i < |items| ==> Refs(items[i].expr, b => Narrow(b))
  }

  ghost predicate PairFits(p: Plan) {
    && (p.op.Projection? ==> NarrowItems(p.op.items))
    && (IsProjectionOverAggregate(p) ==> |p.children[0].op.expressions| < WORD)
    && (IsProjectionOverHaving(p) ==> |p.children[0].children[0].op.expressions| < WORD)
  }

  lemma OthersKeepTheirOperator(p: Plan, naming: Naming)
    requires !p.op.Projection?
    ensures DerivedRewritten(p, false, naming) == Node(p.op, DerivedRewrittenAll(p.children, naming))
  {
  }

  lemma StillFits(p: Plan, naming: Naming)
    requires FitsIndexWidth(p)
    ensures PairFits(Node(p.op, DerivedRewrittenAll(p.children, naming)))
  {
    hide PairRewritten, NarrowItems;
    if p.op.Projection? && |p.children| > 0 {
      var c := p.children[0];
      var r := DerivedRewritten(c, false, naming);
      if !c.op.Projection? {
        OthersKeepTheirOperator(c, naming);
        if c.op.Filter? && |c.children| > 0 && !c.children[0].op.Projection? {
          OthersKeepTheirOperator(c.children[0], naming);
          assert FitsIndexWidth(c) && FitsIndexWidth(c.children[0]);
          assert r.children[0] == DerivedRewritten(c.children[0], false, naming);
        } else if c.op.Filter? && |c.children| > 0 {
          ProjectionsStay(c.children[0], false, naming);
        }
      } else {
        ProjectionsStay(c, false, naming);
      }
    }
  }

  lemma ProjectionsStay(p: Plan, isTop: bool, naming: Naming)
    requires p.op.Projection?
    ensures DerivedRewritten(p, isTop, naming).op.Projection?
  {
  }

  class LogicalOperator {
    var op: Operator
    var children: seq<LogicalOperator>

    /** The operators below and including this one, and the plan they stand for. */
    ghost var Repr: set<object>
    ghost var Tree: Plan

    /** This operator owns its children, and no two of them share an operator. */
    ghost predicate Owns()
      reads this, Repr
      decreases Repr, 0
    {
      && this in Repr
      && (forall i :: 0 <= i < |children| ==>
            && children[i] in Repr && children[i].Repr <= Repr && this !in children[i].Repr
            && children[i].Valid())
      && (forall i, j :: 0 <= i < j < |children| ==> children[i].Repr !! children[j].Repr)
    }

    ghost predicate Valid()
      reads this, Repr
      decreases Repr, 1
    {
      && Owns()
      && Tree.op == op && |Tree.children| == |children|
      && forall i :: 0 <= i < |children| ==> Tree.children[i] == children[i].Tree
    }

    static ghost function Trees(cs: seq<LogicalOperator>): (ts: seq<Plan>)
      reads cs
      ensures |ts| == |cs| && forall i :: 0 <= i < |cs| ==> ts[i] == cs[i].Tree
    {
      if cs == [] then [] else [cs[0].Tree] + Trees(cs[1..])
    }

    static ghost function Reprs(cs: seq<LogicalOperator>): (all: set<object>)
      reads cs
      ensures forall i :: 0 <= i < |cs| ==> cs[i].Repr <= all
      ensures forall o :: o in all ==> exists i :: 0 <= i < |cs| && o in cs[i].Repr
    {
      if cs == [] then {} else cs[0].Repr + Reprs(cs[1..])
    }

    constructor (op: Operator, children: seq<LogicalOperator>)
      requires forall i :: 0 <= i < |children| ==> children[i].Valid()
      requires forall i, j :: 0 <= i < j < |children| ==> children[i].Repr !! children[j].Repr
      ensures Valid() && this.op == op && this.children == children
      ensures Tree == Node(op, Trees(children))
    {
      this.op := op;
      this.children := children;
      Tree := Node(op, Trees(children));
      Repr := {this} + Reprs(children);
      new;
      forall i | 0 <= i < |children|
        ensures children[i] in Repr && children[i].Repr <= Repr && this !in children[i].Repr && children[i].Valid()
      {
        assert old(children[i].Valid()) && children[i].Repr == old(children[i].Repr);
        assert children[i] in old(children[i].Repr);
      }
    }

    /** A change inside child i alone leaves this operator owning its children. */
    twostate lemma StillOwns(i: nat)
      requires old(Owns()) && i < |old(children)|
      requires children == old(children) && Repr == old(Repr)
      requires children[i].Valid() && children[i].Repr == old(children[i].Repr)
      requires forall o :: o in Repr && o !in children[i].Repr && o != this ==> unchanged(o)
      ensures Owns()
      ensures forall j :: 0 <= j < |children| && j != i ==> unchanged(children[j])
    {
      forall j | 0 <= j < |children| && j != i
        ensures unchanged(children[j]) && children[j].Valid()
      {
        assert old(children[j].Valid());
        assert children[j] in old(children[j].Repr) && this !in old(children[j].Repr);
        if j < i {
          assert old(children[j].Repr) !! old(children[i].Repr);
        } else {
          assert old(children[i].Repr) !! old(children[j].Repr);
        }
      }
    }

    /** FILTER clauses of this aggregate become CASE arguments, entry by entry. */
    method NormalizeExpressions()
      requires op.Aggregate?
      modifies this`op
      ensures op == WithExpressions(old(op), NormalizedAll(old(op).expressions))
    {
      var k := 0;
      while k < |op.expressions|
        invariant op.Aggregate?
        invariant k <= |op.expressions| == |old(op).expressions|
        invariant op == WithExpressions(old(op), op.expressions)
        invariant forall j :: 0 <= j < |op.expressions| ==>
                    op.expressions[j] == if j < k then Normalized(old(op).expressions[j]) else old(op).expressions[j]
      {
        var a := op.expressions[k];
        if a.BoundAggregate? && a.filter.Some? && !a.name.List? {
          if a.args == [] {
            var guarded := Case(a.filter.value, Constant(Num(1.0)), Constant(Null));
            op := op.(expressions := op.expressions[k := BoundAggregate(Count, [guarded], false, None, a.alias)]);
          } else {
            var guarded := Case(a.filter.value, a.args[0], Constant(Null));
            op := op.(expressions := op.expressions[k := a.(args := a.args[0 := guarded], filter := None)]);
          }
        }
        k := k + 1;
      }
      assert op.expressions == NormalizedAll(old(op).expressions);
    }

    /** Brings the plan this operator stands for up to date. */
    ghost method Settle()
      requires Owns()
      modifies `Tree
      ensures Valid() && Tree == Node(op, Trees(children))
    {
      Tree := Node(op, Trees(children));
      assert Owns();
    }

    /** FILTER clauses become CASE arguments, bottom-up. */
    method RewriteAggregateFilters()
      requires Valid()
      modifies Repr
      ensures Valid() && Repr == old(Repr) && children == old(children)
      ensures Tree == FiltersRewritten(old(Tree))
      decreases Repr, 1
    {
      hide Normalized, NormalizedAll, WithExpressions;
      ghost var before := Tree;
      RewriteFiltersBelow();
      if op.Aggregate? {
        NormalizeExpressions();
      }
      Settle();
      assert Tree.children == FiltersRewrittenAll(before.children);
    }

    method RewriteFiltersBelow()
      requires Owns()
      modifies set c, o | c in children && o in c.Repr :: o
      ensures Owns() && unchanged(this)
      ensures forall j :: 0 <= j < |children| ==> children[j].Tree == FiltersRewritten(old(children[j].Tree))
      decreases Repr, 0
    {
      hide FiltersRewritten;
      var i := 0;
      while i < |children|
        invariant i <= |children| && Owns() && unchanged(this)
        invariant forall j :: 0 <= j < i ==> children[j].Tree == FiltersRewritten(old(children[j].Tree))
        invariant forall j :: i <= j < |children| ==> children[j].Tree == old(children[j].Tree)
        invariant forall j :: 0 <= j < |children| ==> children[j].Repr == old(children[j].Repr)
      {
        label Before:
        children[i].RewriteAggregateFilters();
        StillOwns@Before(i);
        i := i + 1;
      }
    }

    /** The first child and the first grandchild stand where the plan says. */
    lemma Grandchild()
      requires Valid() && children != []
      ensures children[0].Valid() && Tree.children[0] == children[0].Tree
      ensures children[0].children != [] ==>
                && children[0].children[0].Valid() && children[0].children[0] != children[0]
                && children[0].Tree.children[0] == children[0].children[0].Tree
      ensures children[0].children == [] ==> children[0].Tree.children == []
    {
      var c := children[0];
      assert c.Valid();
      if c.children != [] {
        assert c.children[0].Valid() && c !in c.children[0].Repr;
      }
    }

    /** The aggregate a projection reads, directly or, at the top only, through a HAVING filter. */
    method FindProjectionAggregateInput(allowHaving: bool) returns (agg: LogicalOperator?)
      requires Valid()
      ensures agg != null <==> IsProjectionOverAggregate(Tree) || (allowHaving && IsProjectionOverHaving(Tree))
      ensures agg != null ==> children != []
      ensures agg != null && IsProjectionOverAggregate(Tree) ==> agg == children[0]
      ensures agg != null && !IsProjectionOverAggregate(Tree) ==>
                children[0].children != [] && agg == children[0].children[0]
    {
      if !op.Projection? || children == [] {
        return null;
      }
      Grandchild();
      var input := children[0];
      if input.op.Aggregate? {
        return input;
      }
      if allowHaving && input.op.Filter? && input.children != [] && input.children[0].op.Aggregate? {
        return input.children[0];
      }
      return null;
    }

    method SetExpressions(es: seq<AggExpr>)
      requires Valid() && op.Aggregate?
      modifies `op, `Tree
      ensures Valid() && Repr == old(Repr) && children == old(children)
      ensures op == WithExpressions(old(op), es) && Tree == Node(op, old(Tree.children))
    {
      op := op.(expressions := es);
      Tree := Node(op, Tree.children);
    }

    /** Every projection entry is walked, one after the other. */
    method PatchItems(table: nat, lookup: map<nat, Decomp>, remap: map<nat, nat>, ghost es: seq<AggExpr>, naming: Naming)
      requires op.Projection? && NarrowItems(op.items)
      requires Answers(lookup, table, es, naming) && |es| < WORD
      requires forall j: nat :: j in remap <==> j < |es| && !IsDerived(es[j])
      requires forall j: nat :: j in remap ==> remap[j] == Offset(es, j, naming)
      modifies this`op
      ensures op == old(op).(items := WalkItems(old(op).items, table, es, naming))
    {
      hide Walk, Answers, Offset, IsDerived;
      ghost var items := op.items;
      var i := 0;
      while i < |op.items|
        invariant op.Projection? && i <= |op.items| == |items|
        invariant op == old(op).(items := op.items)
        invariant forall j :: 0 <= j < i ==> op.items[j] == Item(Walk(items[j].expr, table, es, naming), items[j].alias)
        invariant forall j :: i <= j < |items| ==> op.items[j] == items[j]
      {
        assert Refs(items[i].expr, b => Narrow(b));
        var e := WalkExpr(op.items[i].expr, table, lookup, remap, es, naming);
        op := op.(items := op.items[i := Item(e, op.items[i].alias)]);
        i := i + 1;
      }
      assert op.items == WalkItems(items, table, es, naming);
    }

    method AppendFor(d: Decomp, user: string, table: nat)
      requires op.Projection?
      modifies this`op
      ensures op == old(op).(items := old(op).items + HiddenFor(d, user, table))
    {
      hide Clean, SumSqPrefix;
      var suffix := Suffix(user, d.alias);
      op := op.(items := op.items + [Item(ColumnRef(Binding(table, d.sumIndex)), SUM_COL_PREFIX + suffix)]);
      if !d.name.Avg? {
        op := op.(items := op.items + [Item(ColumnRef(Binding(table, d.sumSqIndex)), SumSqPrefix(d.name) + suffix)]);
      }
      op := op.(items := op.items + [Item(ColumnRef(Binding(table, d.countIndex)), COUNT_COL_PREFIX + suffix)]);
      assert op.items == old(op).items + HiddenFor(d, user, table);
    }

    /** The hidden columns are appended, decomposition by decomposition. */
    method AppendHidden(decomps: seq<Decomp>, users: seq<string>, table: nat, ghost items: seq<Item>)
      requires op.Projection? && |users| == |decomps|
      requires forall k :: 0 <= k < |decomps| ==>
                 users[k] == UserAlias(items, Binding(table, decomps[k].oldIndex), decomps[k].alias)
      modifies this`op
      ensures op == old(op).(items := old(op).items + HiddenForAll(decomps, items, table))
    {
      hide UserAlias, HiddenFor;
      var k := 0;
      while k < |decomps|
        invariant op.Projection? && k <= |decomps|
        invariant op == old(op).(items := old(op).items + HiddenForAll(decomps[..k], items, table))
      {
        assert decomps[..k + 1][..k] == decomps[..k];
        AppendFor(decomps[k], users[k], table);
        k := k + 1;
      }
      assert decomps[..|decomps|] == decomps;
    }

    /** The projection's own part of the rewrite: patched entries, then hidden columns. */
    method RewriteProjection(table: nat, decomps: seq<Decomp>, remap: map<nat, nat>, ghost es: seq<AggExpr>, naming: Naming)
      requires Valid() && op.Projection? && NarrowItems(op.items) && |es| < WORD
      requires decomps == DecompsUpTo(es, |es|, naming)
      requires forall j: nat :: j in remap <==> j < |es| && !IsDerived(es[j])
      requires forall j: nat :: j in remap ==> remap[j] == Offset(es, j, naming)
      modifies `op, `Tree
      ensures Valid() && op == old(op).(items := NewItems(old(op).items, table, es, naming))
      ensures Tree == Node(op, old(Tree.children))
    {
      hide Answers, Offset, IsDerived, DecompsUpTo, HiddenForAll, AllHiddenItems, WalkItems, UserAlias, NarrowItems;
      ghost var items := op.items;
      var users := FindUserAliases(op.items, decomps, table);
      var lookup := BuildLookup(table, decomps, es, naming);
      PatchItems(table, lookup, remap, es, naming);
      AppendHidden(decomps, users, table, items);
      HiddenForEach(items, table, es, |es|, naming);
      Tree := Node(op, Tree.children);
      assert Owns();
    }

    /** Gives the first child new expressions; only that child and the plan this operator stands for change. */
    method SetFirst(es: seq<AggExpr>)
      requires Valid() && children != [] && children[0].op.Aggregate?
      modifies children[0], this`Tree
      ensures Valid() && Repr == old(Repr) && children == old(children) && op == old(op)
      ensures children[0].Repr == old(children[0].Repr)
      ensures Tree == Node(op, old(Tree.children)[0 := Node(WithExpressions(old(children[0].op), es),
                                                             old(children[0].Tree.children))])
    {
      children[0].SetExpressions(es);
      StillOwns(0);
      Tree := Node(op, Tree.children[0 := children[0].Tree]);
    }

    /** The same for the first grandchild. */
    method SetFirstBelow(es: seq<AggExpr>)
      requires Valid() && children != [] && children[0].children != [] && children[0].children[0].op.Aggregate?
      requires children[0].Tree.children != []
      modifies children[0], children[0].children[0], this`Tree
      ensures Valid() && Repr == old(Repr) && children == old(children) && op == old(op)
      ensures Tree == Node(op, old(Tree.children)[0 :=
                        Node(old(children[0].op), old(children[0].Tree.children)[0 :=
                          Node(WithExpressions(old(children[0].children[0].op), es),
                               old(children[0].children[0].Tree.children))])])
    {
      Grandchild();
      children[0].SetFirst(es);
      StillOwns(0);
      Tree := Node(op, Tree.children[0 := children[0].Tree]);
    }

    /** One projection and the aggregate it finds. */
    method RewritePair(isTop: bool, naming: Naming)
      requires Valid() && PairFits(Tree)
      modifies Repr
      ensures Valid() && Repr == old(Repr) && children == old(children)
      ensures Tree == PairRewritten(old(Tree), isTop, naming)
    {
      hide NewItems, NewExpressions, NarrowItems, DecompsUpTo, HasDerived, Offset, IsDerived;
      var agg := FindProjectionAggregateInput(isTop);
      if agg == null {
        return;
      }
      Grandchild();
      var derived := ScanForDerived(agg.op.expressions);
      if !derived {
        return;
      }
      ghost var es := agg.op.expressions;
      var table := agg.op.aggregateIndex;
      var exprs, decomps, remap := Decompose(agg.op.expressions, naming);
      if agg == children[0] {
        SetFirst(exprs);
      } else {
        SetFirstBelow(exprs);
      }
      RewriteProjection(table, decomps, remap, es, naming);
    }

    /** Derived aggregates become hidden columns, bottom-up. */
    method RewriteDerivedAggregates(isTop: bool, naming: Naming)
      requires Valid() && FitsIndexWidth(Tree)
      modifies Repr
      ensures Valid() && Repr == old(Repr) && children == old(children)
      ensures Tree == DerivedRewritten(old(Tree), isTop, naming)
      decreases Repr, 1
    {
      ghost var before := Tree;
      RewriteDerivedBelow(naming);
      Settle();
      assert Tree.children == DerivedRewrittenAll(before.children, naming);
      StillFits(before, naming);
      RewritePair(isTop, naming);
    }

    method RewriteDerivedBelow(naming: Naming)
      requires Owns()
      requires forall j :: 0 <= j < |children| ==> FitsIndexWidth(children[j].Tree)
      modifies set c, o | c in children && o in c.Repr :: o
      ensures Owns() && unchanged(this)
      ensures forall j :: 0 <= j < |children| ==>
                children[j].Tree == DerivedRewritten(old(children[j].Tree), false, naming)
      decreases Repr, 0
    {
      hide DerivedRewritten, FitsIndexWidth;
      var i := 0;
      while i < |children|
        invariant i <= |children| && Owns() && unchanged(this)
        invariant forall j :: 0 <= j < i ==> children[j].Tree == DerivedRewritten(old(children[j].Tree), false, naming)
        invariant forall j :: i <= j < |children| ==> children[j].Tree == old(children[j].Tree)
        invariant forall j :: 0 <= j < |children| ==> children[j].Repr == old(children[j].Repr)
      {
        label Before:
        children[i].RewriteDerivedAggregates(false, naming);
        StillOwns@Before(i);
        i := i + 1;
      }
    }
  }
}
