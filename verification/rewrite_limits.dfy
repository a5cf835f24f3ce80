/** Where the decomposition of derived aggregates stops being faithful, and what it does to a projection. */
module RewriteLimits {
  import opened SqlValues
  import opened DerivedAggregates
  import opened Plans
  import opened AggregateRewrite

  // ---- DISTINCT ----

  /** A square root of non-negative numbers. */
  ghost predicate IsRoot(root: real -> real) {
    forall x: real :: x >= 0.0 ==> root(x) * root(x) == x
  }

  /** The values 0, 0, 1, where taking duplicates once makes a difference to every derived aggregate. */
  const DOUBLED: seq<Value> := [Num(0.0), Num(0.0), Num(1.0)]

  lemma DoubledNumbers()
    ensures NonNull(DOUBLED) == DOUBLED && Numbers(DOUBLED) == [0.0, 0.0, 1.0]
    ensures Dedup(DOUBLED) == [Num(0.0), Num(1.0)] && Numbers(Dedup(DOUBLED)) == [0.0, 1.0]
  {
    var d := DOUBLED;
    assert d[1..] == [Num(0.0), Num(1.0)] && d[1..][1..] == [Num(1.0)] && d[1..][1..][1..] == [];
    assert d[..2] == [Num(0.0), Num(0.0)] && d[..2][..1] == [Num(0.0)] && d[..2][..1][..0] == [];
    assert Dedup(d[..1]) == [Num(0.0)] by {
      assert d[..1] == [Num(0.0)] && d[..1][..0] == [];
    }
    assert Dedup(d[..2]) == [Num(0.0)];
    var e := [Num(0.0), Num(1.0)];
    assert e[1..] == [Num(1.0)] && e[1..][1..] == [];
  }

  lemma ThreeNumbers(a: real, b: real, c: real)
    ensures Total([a, b, c]) == a + b + c && Total([a, b]) == a + b
  {
    assert [c][1..] == [] && [b][1..] == [];
    assert Total([c]) == c && Total([b]) == b;
    assert [b, c][1..] == [c] && [a, b][1..] == [b];
    assert Total([b, c]) == b + c && Total([a, b]) == a + b;
    assert [a, b, c][1..] == [b, c];
  }

  lemma Deviations()
    ensures Mean([0.0, 0.0, 1.0]) == 1.0 / 3.0 && Mean([0.0, 1.0]) == 0.5
    ensures DeviationTotal([0.0, 0.0, 1.0], 1.0 / 3.0) == 2.0 / 3.0
    ensures DeviationTotal([0.0, 1.0], 0.5) == 0.5
  {
    var xs, ys := [0.0, 0.0, 1.0], [0.0, 1.0];
    assert xs[1..] == [0.0, 1.0] && ys[1..] == [1.0] && [1.0][1..] == [];
    ThreeNumbers(0.0, 0.0, 1.0);
    ThreeNumbers(0.0, 1.0, 0.0);
  }

  lemma RootsDiffer(root: real -> real, x: real, y: real)
    requires IsRoot(root) && x >= 0.0 && y >= 0.0 && x != y
    ensures root(x) != root(y)
  {
    assert root(x) * root(x) == x && root(y) * root(y) == y;
  }

  lemma DoubledDiffers(name: AggName, root: real -> real)
    requires IsDerivedName(name) && IsRoot(root)
    ensures DerivedValue(name, [0.0, 0.0, 1.0], root) != DerivedValue(name, [0.0, 1.0], root)
  {
    Deviations();
    var population := IsPopulationVariant(name);
    var v := if population then 2.0 / 9.0 else 1.0 / 3.0;
    var w := if population then 0.25 else 0.5;
    if !name.Avg? {
      hide Mean, DeviationTotal;
      assert 2.0 / 3.0 / 3.0 == 2.0 / 9.0 && 2.0 / 3.0 / 2.0 == 1.0 / 3.0;
      RootsDiffer(root, v, w);
    }
  }

  /** Rebuilding from plain sums and counts gives the aggregate on every input exactly if the aggregate is not DISTINCT:
      the decomposition drops the keyword. */
  lemma DistinctIsDropped(env: Environment, name: AggName, distinct: bool)
    requires IsDerivedName(name) && IsRoot(env.root)
    ensures (forall vs: seq<Value> :: BuiltinValue(env, name, distinct, vs)
                                      == Rebuilt(name, HiddenOf(Numbers(NonNull(vs))), env.root))
            <==> !distinct
  {
    hide Rebuilt, DerivedValue, HiddenOf, IsRoot;
    forall vs: seq<Value>
      ensures Rebuilt(name, HiddenOf(Numbers(NonNull(vs))), env.root) == DerivedValue(name, Numbers(NonNull(vs)), env.root)
    {
      RebuiltIsDefinition(name, Numbers(NonNull(vs)), env.root);
    }
    DoubledNumbers();
    DoubledDiffers(name, env.root);
    if distinct {
      assert BuiltinValue(env, name, distinct, DOUBLED)
          != Rebuilt(name, HiddenOf(Numbers(NonNull(DOUBLED))), env.root);
    }
  }

  // ---- the columns of the projection ----

  /** The original entries keep their place and their alias. */
  lemma OriginalAliasesKept(items: seq<Item>, table: nat, es: seq<AggExpr>, naming: Naming)
    ensures |NewItems(items, table, es, naming)| >= |items|
    ensures forall i :: 0 <= i < |items| ==> NewItems(items, table, es, naming)[i].alias == items[i].alias
  {
  }

  lemma PrefixesAreInternal(suffix: string, name: AggName)
    ensures IsInternalColumn(SUM_COL_PREFIX + suffix) && IsInternalColumn(COUNT_COL_PREFIX + suffix)
    ensures IsInternalColumn(SumSqPrefix(name) + suffix)
  {
    assert (SUM_COL_PREFIX + suffix)[..8] == INTERNAL_PREFIX;
    assert (COUNT_COL_PREFIX + suffix)[..8] == INTERNAL_PREFIX;
    assert (SumSqPrefix(name) + suffix)[..8] == SumSqPrefix(name)[..8] == INTERNAL_PREFIX;
  }

  predicate AllInternal(items: seq<Item>) {
    forall k :: 0 <= k < |items| ==> IsInternalColumn(items[k].alias)
  }

  lemma HiddenOfOneAreInternal(items: seq<Item>, table: nat, es: seq<AggExpr>, j: nat, naming: Naming)
    requires j < |es|
    ensures AllInternal(HiddenItems(items, table, es, j, naming))
  {
    hide IsInternalColumn, ColumnSuffix, SumSqPrefix, Offset;
    if IsDerived(es[j]) {
      PrefixesAreInternal(ColumnSuffix(items, Binding(table, j), naming(Bare, es[j])), es[j].name);
    }
  }

  lemma {:induction false} HiddenAreInternal(items: seq<Item>, table: nat, es: seq<AggExpr>, n: nat, naming: Naming)
    requires n <= |es|
    ensures AllInternal(AllHiddenItems(items, table, es, n, naming))
  {
    hide IsInternalColumn, HiddenItems;
    if n > 0 {
      HiddenAreInternal(items, table, es, n - 1, naming);
      HiddenOfOneAreInternal(items, table, es, n - 1, naming);
    }
  }

  /** Whatever the rewrite appends to a projection is an internal column, and so left out of the user view. */
  lemma AppendedAreInternal(items: seq<Item>, table: nat, es: seq<AggExpr>, naming: Naming, i: nat)
    requires |items| <= i < |NewItems(items, table, es, naming)|
    ensures IsInternalColumn(NewItems(items, table, es, naming)[i].alias)
  {
    hide AllHiddenItems, IsInternalColumn;
    HiddenAreInternal(items, table, es, |es|, naming);
    assert NewItems(items, table, es, naming)[i] == AllHiddenItems(items, table, es, |es|, naming)[i - |items|];
  }

  // ---- the names behind the prefixes ----

  predicate IsNameChar(c: char) {
    IsAlnum(c) || c == '_'
  }

  /** The letters and digits of a text, in order. */
  function Letters(text: string): string {
    if text == "" then ""
    else Letters(text[..|text| - 1]) + if IsAlnum(text[|text| - 1]) then [text[|text| - 1]] else ""
  }

  lemma LettersAppend(text: string, c: char)
    ensures Letters(text + [c]) == Letters(text) + if IsAlnum(c) then [c] else ""
  {
    assert (text + [c])[..|text|] == text;
  }

  lemma {:induction false} SqueezedIs(raw: string)
    ensures forall i :: 0 <= i < |Squeezed(raw)| ==> IsNameChar(Squeezed(raw)[i])
    ensures Letters(Squeezed(raw)) == Letters(raw)
    ensures (forall i :: 0 <= i < |raw| ==> IsNameChar(raw[i])) ==> Squeezed(raw) == raw
  {
    hide IsAlnum, Letters;
    if raw == "" {
      assert Squeezed(raw) == raw;
    } else {
      var front, c := raw[..|raw| - 1], raw[|raw| - 1];
      SqueezedIs(front);
      assert raw == front + [c];
      LettersAppend(front, c);
      LettersAppend(Squeezed(front), c);
      LettersAppend(Squeezed(front), '_');
      NotALetter();
    }
  }

  lemma NotALetter()
    ensures !IsAlnum('_')
  {
  }

  /** Cleaning an alias leaves a name: letters, digits and underscores only, with no underscore at the end unless the
      alias has two there; all letters and digits stay, in order; and what is such a name already is not touched. */
  lemma CleanIs(raw: string)
    ensures forall i :: 0 <= i < |Clean(raw)| ==> IsNameChar(Clean(raw)[i])
    ensures Letters(Clean(raw)) == Letters(raw)
    ensures (forall i :: 0 <= i < |raw| ==> IsNameChar(raw[i])) && (raw == "" || raw[|raw| - 1] != '_') ==> Clean(raw) == raw
  {
    hide IsAlnum, Squeezed, Letters;
    SqueezedIs(raw);
    NotALetter();
    var s := Squeezed(raw);
    if s != "" && s[|s| - 1] == '_' {
      assert s == s[..|s| - 1] + ['_'];
      LettersAppend(s[..|s| - 1], '_');
    }
  }

  /** The alias a column is known by: that of the first entry that is just the column. */
  lemma {:induction false} UserAliasIsFirst(items: seq<Item>, b: Binding, fallback: string, k: nat)
    requires k <= |items| && forall i :: 0 <= i < k ==> items[i].expr != ColumnRef(b)
    ensures k == |items| ==> UserAlias(items, b, fallback) == fallback
    ensures k < |items| && items[k].expr == ColumnRef(b) ==>
              UserAlias(items, b, fallback) == if items[k].alias == "" then fallback else items[k].alias
  {
    if k > 0 {
      UserAliasIsFirst(items[1..], b, fallback, k - 1);
    }
  }

  /** So an aggregate that the user names by a proper name has hidden columns with exactly that name behind the prefix. */
  lemma NamedSuffix(items: seq<Item>, b: Binding, alias: string, k: nat)
    requires k < |items| && items[k].expr == ColumnRef(b) && forall i :: 0 <= i < k ==> items[i].expr != ColumnRef(b)
    requires items[k].alias != "" && items[k].alias[|items[k].alias| - 1] != '_'
    requires forall i :: 0 <= i < |items[k].alias| ==> IsNameChar(items[k].alias[i])
    ensures ColumnSuffix(items, b, alias) == items[k].alias
  {
    hide Clean, IsNameChar, UserAlias;
    UserAliasIsFirst(items, b, alias, k);
    CleanIs(items[k].alias);
  }

  // ---- when hidden columns share a name ----

  /** The names of the hidden columns of an aggregate, by its name and its suffix. */
  function HiddenNames(name: AggName, suffix: string): set<string> {
    {SUM_COL_PREFIX + suffix, COUNT_COL_PREFIX + suffix} + if name.Avg? then {} else {SumSqPrefix(name) + suffix}
  }

  lemma AliasesAre(items: seq<Item>, table: nat, es: seq<AggExpr>, j: nat, naming: Naming, x: string)
    requires j < |es| && IsDerived(es[j])
    ensures x in HiddenNames(es[j].name, ColumnSuffix(items, Binding(table, j), naming(Bare, es[j])))
            <==> exists k :: 0 <= k < |HiddenItems(items, table, es, j, naming)|
                             && HiddenItems(items, table, es, j, naming)[k].alias == x
  {
    hide ColumnSuffix, SumSqPrefix, Offset;
    var hidden := HiddenItems(items, table, es, j, naming);
    assert x == hidden[0].alias || x == hidden[1].alias || x == hidden[|hidden| - 1].alias
           <==> x in HiddenNames(es[j].name, ColumnSuffix(items, Binding(table, j), naming(Bare, es[j])));
  }

  /** The sum prefix is a prefix of some sum-of-squares prefixes; this is what those have in addition. */
  function SquareTail(name: AggName): Option<string> {
    if name.StddevPop? then Some("sqp_") else if name.Stddev? || name.StddevSamp? then Some("sq_") else None
  }

  /** The suffix of one aggregate reads like the sum-of-squares mark of the other. */
  predicate ReadsAsSquare(suffix: string, other: AggName, otherSuffix: string) {
    SquareTail(other).Some? && suffix == SquareTail(other).value + otherSuffix
  }

  lemma SamePrefix(p: string, s: string, t: string)
    ensures p + s == p + t <==> s == t
  {
    assert (p + s)[|p|..] == s && (p + t)[|p|..] == t;
  }

  lemma DifferAt(a: string, s: string, b: string, t: string, i: nat)
    requires i < |a| && i < |b| && a[i] != b[i]
    ensures a + s != b + t
  {
    assert (a + s)[i] == a[i] && (b + t)[i] == b[i];
  }

  lemma SumMeetsSquare(s: string, name: AggName, t: string)
    requires IsStddevOrVariance(name)
    ensures SUM_COL_PREFIX + s == SumSqPrefix(name) + t <==> ReadsAsSquare(s, name, t)
  {
    if SquareTail(name).Some? {
      var tail := SquareTail(name).value;
      assert SumSqPrefix(name) == SUM_COL_PREFIX + tail;
      assert SumSqPrefix(name) + t == SUM_COL_PREFIX + (tail + t);
      SamePrefix(SUM_COL_PREFIX, s, tail + t);
    } else {
      DifferAt(SUM_COL_PREFIX, s, SumSqPrefix(name), t, 8);
    }
  }

  lemma SquareMeetsSquare(name: AggName, s: string, other: AggName, t: string)
    requires IsStddevOrVariance(name) && IsStddevOrVariance(other) && SumSqPrefix(name) + s == SumSqPrefix(other) + t
    ensures s == t
  {
    var p, q := SumSqPrefix(name), SumSqPrefix(other);
    if p[8] != q[8] {
      DifferAt(p, s, q, t, 8);
    } else if p[14] != q[14] {
      DifferAt(p, s, q, t, 14);
    }
    SamePrefix(p, s, t);
  }

  lemma CountMeetsCount(name: AggName, s: string, other: AggName, t: string)
    requires IsDerivedName(name) && IsDerivedName(other) && COUNT_COL_PREFIX + s in HiddenNames(other, t)
    ensures s == t
  {
    DifferAt(COUNT_COL_PREFIX, s, SUM_COL_PREFIX, t, 8);
    DifferAt(COUNT_COL_PREFIX, s, SumSqPrefix(other), t, 8);
    SamePrefix(COUNT_COL_PREFIX, s, t);
  }

  /** Two decomposed aggregates share a hidden name exactly if their suffixes are equal, or the suffix of one reads like
      the sum-of-squares mark of the other. */
  lemma HiddenNamesMeetExactly(name: AggName, s: string, other: AggName, t: string)
    requires IsDerivedName(name) && IsDerivedName(other)
    ensures HiddenNames(name, s) * HiddenNames(other, t) != {}
            <==> s == t || ReadsAsSquare(s, other, t) || ReadsAsSquare(t, name, s)
  {
    hide SumSqPrefix, ReadsAsSquare;
    SamePrefix(SUM_COL_PREFIX, s, t);
    if IsStddevOrVariance(other) {
      SumMeetsSquare(s, other, t);
    }
    if IsStddevOrVariance(name) {
      SumMeetsSquare(t, name, s);
    }
    if HiddenNames(name, s) * HiddenNames(other, t) != {} {
      var x :| x in HiddenNames(name, s) && x in HiddenNames(other, t);
      NamesMeetAt(name, s, other, t, x);
    }
    if s == t || ReadsAsSquare(s, other, t) {
      NoTailOfOthers(other, s, t);
      assert SUM_COL_PREFIX + s in HiddenNames(name, s) * HiddenNames(other, t);
    } else if ReadsAsSquare(t, name, s) {
      NoTailOfOthers(name, t, s);
      assert SUM_COL_PREFIX + t in HiddenNames(name, s) * HiddenNames(other, t);
    }
  }

  lemma NoTailOfOthers(name: AggName, s: string, t: string)
    requires IsDerivedName(name)
    ensures ReadsAsSquare(s, name, t) ==> IsStddevOrVariance(name)
  {
  }

  lemma NamesMeetAt(name: AggName, s: string, other: AggName, t: string, x: string)
    requires IsDerivedName(name) && IsDerivedName(other)
    requires x in HiddenNames(name, s) && x in HiddenNames(other, t)
    ensures s == t || ReadsAsSquare(s, other, t) || ReadsAsSquare(t, name, s)
  {
    hide SumSqPrefix, ReadsAsSquare;
    if x == COUNT_COL_PREFIX + s {
      CountMeetsCount(name, s, other, t);
    } else if x == COUNT_COL_PREFIX + t {
      CountMeetsCount(other, t, name, s);
    } else if x == SUM_COL_PREFIX + s {
      if x == SUM_COL_PREFIX + t {
        SamePrefix(SUM_COL_PREFIX, s, t);
      } else {
        SumMeetsSquare(s, other, t);
      }
    } else if x == SUM_COL_PREFIX + t {
      SumMeetsSquare(t, name, s);
    } else {
      SquareMeetsSquare(name, s, other, t);
    }
  }

  /** In terms of the appended columns: those of two decomposed aggregates share an alias exactly if their suffixes do
      not keep them apart. */
  lemma AppendedCollideExactly(items: seq<Item>, table: nat, es: seq<AggExpr>, i: nat, j: nat, naming: Naming)
    requires i < |es| && j < |es| && IsDerived(es[i]) && IsDerived(es[j])
    ensures var s := ColumnSuffix(items, Binding(table, i), naming(Bare, es[i]));
            var t := ColumnSuffix(items, Binding(table, j), naming(Bare, es[j]));
            var a, b := HiddenItems(items, table, es, i, naming), HiddenItems(items, table, es, j, naming);
            (exists k, l :: 0 <= k < |a| && 0 <= l < |b| && a[k].alias == b[l].alias)
            <==> s == t || ReadsAsSquare(s, es[j].name, t) || ReadsAsSquare(t, es[i].name, s)
  {
    hide HiddenItems, HiddenNames, ColumnSuffix, ReadsAsSquare;
    var s := ColumnSuffix(items, Binding(table, i), naming(Bare, es[i]));
    var t := ColumnSuffix(items, Binding(table, j), naming(Bare, es[j]));
    var a, b := HiddenItems(items, table, es, i, naming), HiddenItems(items, table, es, j, naming);
    HiddenNamesMeetExactly(es[i].name, s, es[j].name, t);
    forall x
      ensures x in HiddenNames(es[i].name, s) <==> exists k :: 0 <= k < |a| && a[k].alias == x
      ensures x in HiddenNames(es[j].name, t) <==> exists l :: 0 <= l < |b| && b[l].alias == x
    {
      AliasesAre(items, table, es, i, naming, x);
      AliasesAre(items, table, es, j, naming, x);
    }
    if k, l :| 0 <= k < |a| && 0 <= l < |b| && a[k].alias == b[l].alias {
      assert a[k].alias in HiddenNames(es[i].name, s) * HiddenNames(es[j].name, t);
    }
    if HiddenNames(es[i].name, s) * HiddenNames(es[j].name, t) != {} {
      var x :| x in HiddenNames(es[i].name, s) * HiddenNames(es[j].name, t);
      var k :| 0 <= k < |a| && a[k].alias == x;
      var l :| 0 <= l < |b| && b[l].alias == x;
    }
  }

  // ---- the slots of the aggregate ----

  lemma {:induction false} OwnerOf<T>(blocks: seq<seq<T>>, n: nat) returns (j: nat, k: nat)
    requires n < |Concat(blocks)|
    ensures j < |blocks| && k < |blocks[j]| && n == |Concat(blocks[..j])| + k
  {
    var last := |blocks| - 1;
    if n < |Concat(blocks[..last])| {
      j, k := OwnerOf(blocks[..last], n);
      assert blocks[..last][..j] == blocks[..j];
    } else {
      j, k := last, n - |Concat(blocks[..last])|;
    }
  }

  lemma {:induction false} OffsetsGrow<T>(blocks: seq<seq<T>>, i: nat, j: nat)
    requires i < j <= |blocks|
    ensures |Concat(blocks[..i])| + |blocks[i]| <= |Concat(blocks[..j])|
  {
    assert blocks[..j][..j - 1] == blocks[..j - 1];
    if i < j - 1 {
      OffsetsGrow(blocks, i, j - 1);
    }
  }

  /** Slot n of the new aggregate is part k of old column j. */
  predicate Owns(es: seq<AggExpr>, naming: Naming, n: nat, j: nat, k: nat) {
    j < |es| && k < |Expanded(es[j], naming)| && n == Offset(es, j, naming) + k
  }

  /** Decomposed and renumbered columns together cover the new slots, each exactly once. */
  lemma SlotsHaveOneOwner(es: seq<AggExpr>, naming: Naming, n: nat)
    requires n < |NewExpressions(es, naming)|
    ensures exists j, k :: Owns(es, naming, n, j, k)
    ensures forall j, k, j', k' :: Owns(es, naming, n, j, k) && Owns(es, naming, n, j', k') ==> j == j' && k == k'
  {
    hide Expanded;
    var blocks := Blocks(es, naming);
    var j, k := OwnerOf(blocks, n);
    assert Owns(es, naming, n, j, k);
    forall a, b | Owns(es, naming, n, a, b)
      ensures a == j && b == k
    {
      if a < j {
        OffsetsGrow(blocks, a, j);
      } else if j < a {
        OffsetsGrow(blocks, j, a);
      }
    }
  }
}
