/** Chained rollups, and reading a stale rollup together with the pending changes of its source: grouping a grouped
    view is grouping its base, and stale rows plus residual are the fresh ones. */
module ResidualRollup {

  /** SUM(revenue) and SUM(cnt). */
  datatype Measures = Measures(revenue: real, cnt: int)

  const NOTHING := Measures(0.0, 0)

  function Plus(a: Measures, b: Measures): Measures {
    Measures(a.revenue + b.revenue, a.cnt + b.cnt)
  }

  function Negative(a: Measures): Measures {
    Measures(-a.revenue, -a.cnt)
  }

  /** A row with its grouping key. */
  datatype Cell<K> = Cell(key: K, m: Measures)

  // ---- GROUP BY ----

  function Total<K, L(==)>(cells: seq<Cell<K>>, f: K -> L, l: L): Measures {
    if cells == [] then NOTHING
    else
      var rest := Total(cells[1..], f, l);
      if f(cells[0].key) == l then Plus(cells[0].m, rest) else rest
  }

  predicate HasKey<K, L(==)>(cells: seq<Cell<K>>, f: K -> L, l: L) {
    exists i :: 0 <= i < |cells| && f(cells[i].key) == l
  }

  function Keys<L>(out: seq<Cell<L>>): (keys: seq<L>)
    ensures |keys| == |out| && forall i :: 0 <= i < |out| ==> keys[i] == out[i].key
  {
    seq(|out|, i requires 0 <= i < |out| => out[i].key)
  }

  predicate Distinct<L(==)>(keys: seq<L>) {
    forall i, j :: 0 <= i < j < |keys| ==> keys[i] != keys[j]
  }

  /** out is SELECT f(key), SUM(revenue), SUM(cnt) FROM cells GROUP BY f(key), in any order. */
  ghost predicate IsGroupBy<K(!new), L(!new)>(out: seq<Cell<L>>, cells: seq<Cell<K>>, f: K -> L) {
    && Distinct(Keys(out))
    && (forall l :: l in Keys(out) <==> HasKey(cells, f, l))
    && (forall i :: 0 <= i < |out| ==> out[i].m == Total(cells, f, out[i].key))
  }

  function Identity<K>(): K -> K {
    (k: K) => k
  }

  function Composed<K, L, M>(f: K -> L, g: L -> M): K -> M {
    (k: K) => g(f(k))
  }

  lemma PlusLaws(a: Measures, b: Measures, c: Measures)
    ensures Plus(a, b) == Plus(b, a) && Plus(Plus(a, b), c) == Plus(a, Plus(b, c))
    ensures Plus(a, NOTHING) == a && Plus(NOTHING, a) == a && Plus(a, Negative(a)) == NOTHING
  {
  }

  lemma Exchange(a: Measures, b: Measures, c: Measures, d: Measures)
    ensures Plus(Plus(a, b), Plus(c, d)) == Plus(Plus(a, c), Plus(b, d))
  {
  }

  lemma TotalStep<K, L>(cells: seq<Cell<K>>, f: K -> L, l: L)
    requires cells != []
    ensures Total(cells, f, l)
            == if f(cells[0].key) == l then Plus(cells[0].m, Total(cells[1..], f, l)) else Total(cells[1..], f, l)
  {
  }

  lemma {:induction false} TotalAppend<K, L>(a: seq<Cell<K>>, b: seq<Cell<K>>, f: K -> L, l: L)
    ensures Total(a + b, f, l) == Plus(Total(a, f, l), Total(b, f, l))
  {
    if a == [] {
      assert a + b == b;
    } else {
      assert (a + b)[1..] == a[1..] + b;
      TotalAppend(a[1..], b, f, l);
    }
  }

  lemma {:induction false} NoKeyNoTotal<K, L>(cells: seq<Cell<K>>, f: K -> L, l: L)
    requires !HasKey(cells, f, l)
    ensures Total(cells, f, l) == NOTHING
  {
    if cells != [] {
      assert f(cells[0].key) != l;
      forall i | 0 <= i < |cells| - 1
        ensures f(cells[1..][i].key) != l
      {
        assert cells[1..][i] == cells[i + 1];
      }
      NoKeyNoTotal(cells[1..], f, l);
    }
  }

  // ---- a rollup of a rollup ----

  /** The totals of the keys that g takes to m. */
  function Gathered<K, L(==), M(==)>(keys: seq<L>, cells: seq<Cell<K>>, f: K -> L, g: L -> M, m: M): Measures {
    if keys == [] then NOTHING
    else
      var rest := Gathered(keys[1..], cells, f, g, m);
      if g(keys[0]) == m then Plus(Total(cells, f, keys[0]), rest) else rest
  }

  lemma {:induction false} GatheredNothing<K, L, M>(keys: seq<L>, f: K -> L, g: L -> M, m: M)
    ensures Gathered(keys, [], f, g, m) == NOTHING
  {
    if keys != [] {
      GatheredNothing(keys[1..], f, g, m);
    }
  }

  /** One more cell adds to exactly one of the totals. */
  lemma {:induction false} GatheredStep<K, L, M>(keys: seq<L>, cells: seq<Cell<K>>, f: K -> L, g: L -> M, m: M)
    requires cells != [] && Distinct(keys)
    ensures var l := f(cells[0].key);
            Gathered(keys, cells, f, g, m)
            == if l in keys && g(l) == m then Plus(cells[0].m, Gathered(keys, cells[1..], f, g, m))
               else Gathered(keys, cells[1..], f, g, m)
  {
    hide Total, Plus, Distinct;
    if keys != [] {
      var l, rest := f(cells[0].key), Gathered(keys[1..], cells[1..], f, g, m);
      TailDistinct(keys);
      GatheredStep(keys[1..], cells, f, g, m);
      assert l in keys <==> l == keys[0] || l in keys[1..];
      TotalStep(cells, f, keys[0]);
      var t := Total(cells[1..], f, keys[0]);
      PlusLaws(cells[0].m, t, rest);
      PlusLaws(t, cells[0].m, rest);
    }
  }

  lemma TailDistinct<L>(keys: seq<L>)
    requires Distinct(keys) && keys != []
    ensures Distinct(keys[1..]) && keys[0] !in keys[1..]
  {
  }

  lemma {:induction false} GatheredIsDirect<K, L, M>(keys: seq<L>, cells: seq<Cell<K>>, f: K -> L, g: L -> M, m: M)
    requires Distinct(keys) && forall i :: 0 <= i < |cells| ==> f(cells[i].key) in keys
    ensures Gathered(keys, cells, f, g, m) == Total(cells, Composed(f, g), m)
  {
    if cells == [] {
      GatheredNothing(keys, f, g, m);
    } else {
      GatheredStep(keys, cells, f, g, m);
      assert f(cells[0].key) in keys;
      forall i | 0 <= i < |cells[1..]|
        ensures f(cells[1..][i].key) in keys
      {
        assert cells[1..][i] == cells[i + 1];
      }
      GatheredIsDirect(keys, cells[1..], f, g, m);
    }
  }

  lemma {:induction false} TotalOfTotals<K, L, M>(out: seq<Cell<L>>, cells: seq<Cell<K>>, f: K -> L, g: L -> M, m: M)
    requires forall i :: 0 <= i < |out| ==> out[i].m == Total(cells, f, out[i].key)
    ensures Total(out, g, m) == Gathered(Keys(out), cells, f, g, m)
  {
    if out != [] {
      TotalOfTotals(out[1..], cells, f, g, m);
      assert Keys(out)[1..] == Keys(out[1..]);
    }
  }

  lemma EveryCellHasKey<K(!new), L(!new)>(out: seq<Cell<L>>, cells: seq<Cell<K>>, f: K -> L)
    requires IsGroupBy(out, cells, f)
    ensures forall i :: 0 <= i < |cells| ==> f(cells[i].key) in Keys(out)
  {
    forall i | 0 <= i < |cells|
      ensures f(cells[i].key) in Keys(out)
    {
      assert HasKey(cells, f, f(cells[i].key));
    }
  }

  lemma RollupTotal<K(!new), L(!new), M>(a: seq<Cell<L>>, cells: seq<Cell<K>>, f: K -> L, g: L -> M, m: M)
    requires IsGroupBy(a, cells, f)
    ensures Total(a, g, m) == Total(cells, Composed(f, g), m)
    ensures HasKey(a, g, m) <==> HasKey(cells, Composed(f, g), m)
  {
    hide Total, Gathered;
    TotalOfTotals(a, cells, f, g, m);
    EveryCellHasKey(a, cells, f);
    GatheredIsDirect(Keys(a), cells, f, g, m);
    if HasKey(a, g, m) {
      var i :| 0 <= i < |a| && g(a[i].key) == m;
      assert Keys(a)[i] in Keys(a);
      assert HasKey(cells, f, a[i].key);
      var j :| 0 <= j < |cells| && f(cells[j].key) == a[i].key;
      assert Composed(f, g)(cells[j].key) == m;
    }
    if HasKey(cells, Composed(f, g), m) {
      var j :| 0 <= j < |cells| && Composed(f, g)(cells[j].key) == m;
      assert f(cells[j].key) in Keys(a);
      var i :| 0 <= i < |a| && Keys(a)[i] == f(cells[j].key);
      assert g(a[i].key) == m;
    }
  }

  /** Grouping a grouped view further gives what grouping the base by the coarser key gives: key by key, sum by sum. */
  lemma RollupOfRollup<K(!new), L(!new), M(!new)>(b: seq<Cell<M>>, a: seq<Cell<L>>, cells: seq<Cell<K>>, f: K -> L, g: L -> M)
    requires IsGroupBy(a, cells, f)
    ensures IsGroupBy(b, a, g) <==> IsGroupBy(b, cells, Composed(f, g))
  {
    hide Total, HasKey, Composed;
    forall m
      ensures Total(a, g, m) == Total(cells, Composed(f, g), m)
      ensures HasKey(a, g, m) <==> HasKey(cells, Composed(f, g), m)
    {
      RollupTotal(a, cells, f, g, m);
    }
  }

  /** Views over views: each level groups the one below by one of the functions. */
  ghost predicate IsChain<K(!new)>(levels: seq<seq<Cell<K>>>, steps: seq<K -> K>) {
    && |levels| == |steps| + 1
    && forall i :: 0 <= i < |steps| ==> IsGroupBy(levels[i + 1], levels[i], steps[i])
  }

  function ComposedAll<K>(steps: seq<K -> K>): K -> K {
    if steps == [] then Identity() else Composed(ComposedAll(steps[..|steps| - 1]), steps[|steps| - 1])
  }

  /** A chain of any depth gives at its top what one GROUP BY over the base gives. */
  lemma {:induction false} ChainIsDirect<K(!new)>(levels: seq<seq<Cell<K>>>, steps: seq<K -> K>)
    requires IsChain(levels, steps) && steps != []
    ensures IsGroupBy(levels[|steps|], levels[0], ComposedAll(steps))
  {
    var n := |steps| - 1;
    if n == 0 {
      hide Total;
      assert IsGroupBy(levels[1], levels[0], steps[0]);
      ComposedOne(levels[1], levels[0], steps);
    } else {
      hide IsGroupBy;
      ChainIsDirect(levels[..n + 1], steps[..n]);
      RollupOfRollup(levels[n + 1], levels[n], levels[0], ComposedAll(steps[..n]), steps[n]);
    }
  }

  lemma ComposedOne<K(!new)>(out: seq<Cell<K>>, cells: seq<Cell<K>>, steps: seq<K -> K>)
    requires |steps| == 1 && IsGroupBy(out, cells, steps[0])
    ensures IsGroupBy(out, cells, ComposedAll(steps))
  {
    hide Total, HasKey;
    forall k
      ensures ComposedAll(steps)(k) == steps[0](k)
    {
    }
    forall l
      ensures Total(cells, ComposedAll(steps), l) == Total(cells, steps[0], l)
      ensures HasKey(cells, ComposedAll(steps), l) <==> HasKey(cells, steps[0], l)
    {
      SameFunction(cells, ComposedAll(steps), steps[0], l);
    }
  }

  lemma {:induction false} SameFunction<K(!new), L>(cells: seq<Cell<K>>, f: K -> L, g: K -> L, l: L)
    requires forall k :: f(k) == g(k)
    ensures Total(cells, f, l) == Total(cells, g, l) && (HasKey(cells, f, l) <==> HasKey(cells, g, l))
  {
    if cells != [] {
      SameFunction(cells[1..], f, g, l);
    }
  }

  // ---- line items, orders and pending changes ----

  datatype Line = Line(id: int, orderId: int, product: int, qty: int, price: real)

  datatype Order = Order(id: int, region: string, month: int)

  /** A pending change of a line item: an insertion or a deletion. */
  datatype Change = Change(line: Line, isInsert: bool)

  /** What is grouped: a line with its order. */
  datatype Pair = Pair(line: Line, order: Order)

  function Revenue(l: Line): real {
    l.qty as real * l.price
  }

  function MatchOne(l: Line, orders: seq<Order>): seq<Cell<Pair>> {
    if orders == [] then []
    else
      (if l.orderId == orders[0].id then [Cell(Pair(l, orders[0]), Measures(Revenue(l), 1))] else [])
      + MatchOne(l, orders[1..])
  }

  /** lineitem JOIN orders ON l_order_id = o_id. */
  function Joined(lines: seq<Line>, orders: seq<Order>): seq<Cell<Pair>> {
    if lines == [] then [] else MatchOne(lines[0], orders) + Joined(lines[1..], orders)
  }

  function Signed(cells: seq<Cell<Pair>>, isInsert: bool): seq<Cell<Pair>> {
    if cells == [] then []
    else [Cell(cells[0].key, if isInsert then cells[0].m else Negative(cells[0].m))] + Signed(cells[1..], isInsert)
  }

  /** The delta table joined to orders, deletions counted negatively. */
  function JoinedChanges(changes: seq<Change>, orders: seq<Order>): seq<Cell<Pair>> {
    if changes == [] then []
    else Signed(MatchOne(changes[0].line, orders), changes[0].isInsert) + JoinedChanges(changes[1..], orders)
  }

  function LinesOf(changes: seq<Change>, inserted: bool): seq<Line> {
    if changes == [] then []
    else (if changes[0].isInsert == inserted then [changes[0].line] else []) + LinesOf(changes[1..], inserted)
  }

  /** after is before with the changes made, as bags. */
  ghost predicate Changed(before: seq<Line>, changes: seq<Change>, after: seq<Line>) {
    multiset(after) + multiset(LinesOf(changes, false)) == multiset(before) + multiset(LinesOf(changes, true))
  }

  // ---- totals over joined rows ----

  function LineTotal<L(==)>(l: Line, orders: seq<Order>, f: Pair -> L, key: L): Measures {
    Total(MatchOne(l, orders), f, key)
  }

  lemma JoinedStep<L>(lines: seq<Line>, orders: seq<Order>, f: Pair -> L, key: L)
    requires lines != []
    ensures Total(Joined(lines, orders), f, key)
            == Plus(LineTotal(lines[0], orders, f, key), Total(Joined(lines[1..], orders), f, key))
  {
    TotalAppend(MatchOne(lines[0], orders), Joined(lines[1..], orders), f, key);
  }

  lemma {:induction false} JoinedAppend<L>(a: seq<Line>, b: seq<Line>, orders: seq<Order>, f: Pair -> L, key: L)
    ensures Total(Joined(a + b, orders), f, key) == Plus(Total(Joined(a, orders), f, key), Total(Joined(b, orders), f, key))
  {
    hide Total, MatchOne;
    if a == [] {
      assert a + b == b;
      NothingJoined(orders, f, key);
    } else {
      hide Joined;
      assert (a + b)[1..] == a[1..] + b;
      JoinedAppend(a[1..], b, orders, f, key);
      JoinedStep(a + b, orders, f, key);
      JoinedStep(a, orders, f, key);
    }
  }

  lemma NothingJoined<L>(orders: seq<Order>, f: Pair -> L, key: L)
    ensures Total(Joined([], orders), f, key) == NOTHING
  {
  }

  /** The totals of a join depend on the lines as a bag only. */
  lemma {:induction false} JoinedAsBag<L>(a: seq<Line>, b: seq<Line>, orders: seq<Order>, f: Pair -> L, key: L)
    requires multiset(a) == multiset(b)
    ensures Total(Joined(a, orders), f, key) == Total(Joined(b, orders), f, key)
  {
    hide Total, Joined;
    if a == [] {
      EmptyBag(b);
    } else {
      var i := PositionOf(a[0], b, a);
      var front, back := b[..i], b[i + 1..];
      assert b == front + ([b[i]] + back);
      RemovedFromBag(a, b, i);
      JoinedAsBag(a[1..], front + back, orders, f, key);
      JoinedAppend(front, [b[i]] + back, orders, f, key);
      JoinedAppend(front, back, orders, f, key);
      JoinedStep(a, orders, f, key);
      JoinedStep([b[i]] + back, orders, f, key);
      assert ([b[i]] + back)[1..] == back;
    }
  }

  lemma EmptyBag(b: seq<Line>)
    requires multiset(b) == multiset([])
    ensures b == []
  {
    assert |multiset(b)| == |b|;
  }

  lemma RemovedFromBag(a: seq<Line>, b: seq<Line>, i: nat)
    requires a != [] && i < |b| && b[i] == a[0] && multiset(a) == multiset(b)
    ensures multiset(a[1..]) == multiset(b[..i] + b[i + 1..])
  {
    assert a == [a[0]] + a[1..];
    assert b == b[..i] + [b[i]] + b[i + 1..];
    assert multiset(a[1..]) == multiset(a) - multiset{a[0]};
    assert multiset(b) == multiset(b[..i]) + multiset{b[i]} + multiset(b[i + 1..]);
    assert multiset(b[..i] + b[i + 1..]) == multiset(b) - multiset{b[i]};
  }

  lemma PositionOf(x: Line, b: seq<Line>, a: seq<Line>) returns (i: nat)
    requires a != [] && x == a[0] && multiset(a) == multiset(b)
    ensures i < |b| && b[i] == x
  {
    assert x in multiset(a);
    assert x in multiset(b);
    i :| i < |b| && b[i] == x;
  }

  lemma NegativePlus(a: Measures, b: Measures)
    ensures Negative(Plus(a, b)) == Plus(Negative(a), Negative(b)) && Negative(NOTHING) == NOTHING
  {
  }

  lemma {:induction false} SignedTotal<L>(cells: seq<Cell<Pair>>, isInsert: bool, f: Pair -> L, key: L)
    ensures Total(Signed(cells, isInsert), f, key)
            == if isInsert then Total(cells, f, key) else Negative(Total(cells, f, key))
  {
    hide Plus, Negative, Total;
    if cells == [] {
      TotalOfNone(f, key);
      NegativePlus(NOTHING, NOTHING);
    } else {
      var signed := Signed(cells, isInsert);
      assert signed[1..] == Signed(cells[1..], isInsert);
      SignedTotal(cells[1..], isInsert, f, key);
      TotalStep(cells, f, key);
      TotalStep(signed, f, key);
      NegativePlus(cells[0].m, Total(cells[1..], f, key));
    }
  }

  lemma ChangesStep<L>(changes: seq<Change>, orders: seq<Order>, f: Pair -> L, key: L)
    requires changes != []
    ensures var t := LineTotal(changes[0].line, orders, f, key);
            Total(JoinedChanges(changes, orders), f, key)
            == Plus(if changes[0].isInsert then t else Negative(t), Total(JoinedChanges(changes[1..], orders), f, key))
  {
    var first := MatchOne(changes[0].line, orders);
    TotalAppend(Signed(first, changes[0].isInsert), JoinedChanges(changes[1..], orders), f, key);
    SignedTotal(first, changes[0].isInsert, f, key);
  }

  lemma LinesStep<L>(changes: seq<Change>, inserted: bool, orders: seq<Order>, f: Pair -> L, key: L)
    requires changes != []
    ensures Total(Joined(LinesOf(changes, inserted), orders), f, key)
            == Plus(if changes[0].isInsert == inserted then LineTotal(changes[0].line, orders, f, key) else NOTHING,
                    Total(Joined(LinesOf(changes[1..], inserted), orders), f, key))
  {
    hide Total, Joined, LineTotal, Plus;
    var more := LinesOf(changes[1..], inserted);
    if changes[0].isInsert == inserted {
      var lines := LinesOf(changes, inserted);
      assert lines == [changes[0].line] + more;
      assert lines[1..] == more;
      JoinedStep(lines, orders, f, key);
    } else {
      assert LinesOf(changes, inserted) == more;
      PlusLaws(Total(Joined(more, orders), f, key), NOTHING, NOTHING);
    }
  }

  /** The signed join of the changes is the join of the insertions minus the join of the deletions. */
  lemma {:induction false} ChangesAreDifference<L>(changes: seq<Change>, orders: seq<Order>, f: Pair -> L, key: L)
    ensures Plus(Total(JoinedChanges(changes, orders), f, key), Total(Joined(LinesOf(changes, false), orders), f, key))
            == Total(Joined(LinesOf(changes, true), orders), f, key)
  {
    hide Total, Joined, JoinedChanges, LinesOf, LineTotal, Plus, Negative;
    if changes == [] {
      NothingChanged(orders, f, key);
    } else {
      var rest := changes[1..];
      ChangesAreDifference(rest, orders, f, key);
      ChangesStep(changes, orders, f, key);
      LinesStep(changes, false, orders, f, key);
      LinesStep(changes, true, orders, f, key);
      DifferenceStep(changes[0].isInsert, LineTotal(changes[0].line, orders, f, key),
                     Total(JoinedChanges(rest, orders), f, key), Total(Joined(LinesOf(rest, false), orders), f, key),
                     Total(Joined(LinesOf(rest, true), orders), f, key));
    }
  }

  lemma NothingChanged<L>(orders: seq<Order>, f: Pair -> L, key: L)
    ensures Plus(Total(JoinedChanges([], orders), f, key), Total(Joined(LinesOf([], false), orders), f, key))
            == Total(Joined(LinesOf([], true), orders), f, key)
  {
  }

  lemma DifferenceStep(isInsert: bool, t: Measures, x: Measures, y: Measures, z: Measures)
    requires Plus(x, y) == z
    ensures Plus(Plus(if isInsert then t else Negative(t), x), Plus(if isInsert == false then t else NOTHING, y))
            == Plus(if isInsert == true then t else NOTHING, z)
  {
  }

  /** Old rows plus signed changes have the totals of the new rows, at every key. */
  lemma ChangeTotals<L>(before: seq<Line>, changes: seq<Change>, after: seq<Line>, orders: seq<Order>, f: Pair -> L, key: L)
    requires Changed(before, changes, after)
    ensures Plus(Total(Joined(before, orders), f, key), Total(JoinedChanges(changes, orders), f, key))
            == Total(Joined(after, orders), f, key)
  {
    hide Total, Joined, JoinedChanges, LinesOf;
    var ins, del := LinesOf(changes, true), LinesOf(changes, false);
    assert multiset(after + del) == multiset(before + ins);
    JoinedAsBag(after + del, before + ins, orders, f, key);
    JoinedAppend(after, del, orders, f, key);
    JoinedAppend(before, ins, orders, f, key);
    ChangesAreDifference(changes, orders, f, key);
  }

  // ---- counts say which groups exist ----

  predicate Counting(cells: seq<Cell<Pair>>) {
    forall i :: 0 <= i < |cells| ==> cells[i].m.cnt == 1
  }

  lemma {:induction false} MatchesCount(l: Line, orders: seq<Order>)
    ensures Counting(MatchOne(l, orders))
  {
    if orders != [] {
      MatchesCount(l, orders[1..]);
    }
  }

  lemma {:induction false} JoinedCounts(lines: seq<Line>, orders: seq<Order>)
    ensures Counting(Joined(lines, orders))
  {
    if lines != [] {
      MatchesCount(lines[0], orders);
      JoinedCounts(lines[1..], orders);
    }
  }

  lemma {:induction false} CountIsPresence<L>(cells: seq<Cell<Pair>>, f: Pair -> L, key: L)
    requires Counting(cells)
    ensures Total(cells, f, key).cnt >= 0
    ensures Total(cells, f, key).cnt > 0 <==> HasKey(cells, f, key)
  {
    if cells != [] {
      CountIsPresence(cells[1..], f, key);
      if HasKey(cells[1..], f, key) {
        var i :| 0 <= i < |cells[1..]| && f(cells[1..][i].key) == key;
        assert f(cells[i + 1].key) == key;
      }
      if HasKey(cells, f, key) && f(cells[0].key) != key {
        var i :| 0 <= i < |cells| && f(cells[i].key) == key;
        assert f(cells[1..][i - 1].key) == key;
      }
    }
  }

  // ---- the stale view with the residual ----

  /** SELECT key, SUM, SUM FROM (stale UNION ALL residual) GROUP BY key. */
  ghost predicate IsStalePlusResidual<L(!new)>(result: seq<Cell<L>>, stale: seq<Cell<L>>, residual: seq<Cell<L>>) {
    IsGroupBy(result, stale + residual, Identity())
  }

  lemma IdentityTotal<L(!new)>(out: seq<Cell<L>>, cells: seq<Cell<Pair>>, f: Pair -> L, key: L)
    requires IsGroupBy(out, cells, f)
    ensures Total(out, Identity(), key) == Total(cells, f, key)
  {
    hide Total, HasKey;
    RollupTotal(out, cells, f, Identity(), key);
    SameFunction(cells, Composed(f, Identity()), f, key);
  }

  /** A row of the result carries the totals of old rows plus changes. */
  lemma ResultTotal<L(!new)>(result: seq<Cell<L>>, stale: seq<Cell<L>>, residual: seq<Cell<L>>,
                             old_: seq<Cell<Pair>>, changes: seq<Cell<Pair>>, f: Pair -> L, i: nat)
    requires IsGroupBy(stale, old_, f) && IsGroupBy(residual, changes, f)
    requires IsStalePlusResidual(result, stale, residual) && i < |result|
    ensures result[i].m == Plus(Total(old_, f, result[i].key), Total(changes, f, result[i].key))
  {
    hide Total, HasKey;
    var key := result[i].key;
    IdentityTotal(stale, old_, f, key);
    IdentityTotal(residual, changes, f, key);
    TotalAppend(stale, residual, Identity(), key);
  }

  /** A key is in the result exactly if it is in the old rows or in the changes. */
  lemma ResultKeys<L(!new)>(result: seq<Cell<L>>, stale: seq<Cell<L>>, residual: seq<Cell<L>>,
                            old_: seq<Cell<Pair>>, changes: seq<Cell<Pair>>, f: Pair -> L, key: L)
    requires IsGroupBy(stale, old_, f) && IsGroupBy(residual, changes, f)
    requires IsStalePlusResidual(result, stale, residual)
    ensures key in Keys(result) <==> HasKey(old_, f, key) || HasKey(changes, f, key)
  {
    hide Total;
    assert key in Keys(result) <==> HasKey(stale + residual, Identity(), key);
    if HasKey(stale + residual, Identity(), key) {
      var i :| 0 <= i < |stale + residual| && (stale + residual)[i].key == key;
      if i < |stale| {
        assert Keys(stale)[i] == key;
      } else {
        assert Keys(residual)[i - |stale|] == key;
      }
    }
    if key in Keys(stale) {
      var i :| 0 <= i < |stale| && Keys(stale)[i] == key;
      assert Identity<L>()((stale + residual)[i].key) == key;
    }
    if key in Keys(residual) {
      var i :| 0 <= i < |residual| && Keys(residual)[i] == key;
      assert Identity<L>()((stale + residual)[|stale| + i].key) == key;
    }
  }

  /** What a reader sees who leaves out groups of count zero. */
  ghost predicate AgreesOnLiveGroups<L(!new)>(result: seq<Cell<L>>, direct: seq<Cell<L>>) {
    && (forall i :: 0 <= i < |result| && result[i].m.cnt != 0 ==> result[i] in direct)
    && (forall j :: 0 <= j < |direct| ==> direct[j] in result && direct[j].m.cnt != 0)
  }

  lemma RowOf<L(!new)>(out: seq<Cell<L>>, cells: seq<Cell<Pair>>, f: Pair -> L, key: L)
    requires IsGroupBy(out, cells, f) && HasKey(cells, f, key)
    ensures Cell(key, Total(cells, f, key)) in out
  {
    hide Total, HasKey;
    assert key in Keys(out);
    var i :| 0 <= i < |out| && Keys(out)[i] == key;
    assert out[i] == Cell(key, Total(cells, f, key));
  }

  lemma KeysOf<L(!new)>(out: seq<Cell<L>>, cells: seq<Cell<Pair>>, f: Pair -> L, key: L)
    requires IsGroupBy(out, cells, f)
    ensures key in Keys(out) <==> HasKey(cells, f, key)
  {
    hide Total, HasKey;
  }

  lemma RowIs<L(!new)>(out: seq<Cell<L>>, cells: seq<Cell<Pair>>, f: Pair -> L, j: nat)
    requires IsGroupBy(out, cells, f) && j < |out|
    ensures out[j].m == Total(cells, f, out[j].key) && HasKey(cells, f, out[j].key)
  {
    hide Total, HasKey;
    assert Keys(out)[j] in Keys(out);
  }

  /** The totals of old rows plus changes are those of the new rows. */
  ghost predicate TotalsAgree<L(!new)>(old_: seq<Cell<Pair>>, changes: seq<Cell<Pair>>, new_: seq<Cell<Pair>>, f: Pair -> L) {
    forall key :: Plus(Total(old_, f, key), Total(changes, f, key)) == Total(new_, f, key)
  }

  lemma LiveRow<L(!new)>(old_: seq<Cell<Pair>>, changes: seq<Cell<Pair>>, new_: seq<Cell<Pair>>, f: Pair -> L,
                         stale: seq<Cell<L>>, residual: seq<Cell<L>>, result: seq<Cell<L>>, direct: seq<Cell<L>>, j: nat)
    requires TotalsAgree(old_, changes, new_, f) && Counting(new_) && j < |direct|
    requires IsGroupBy(stale, old_, f) && IsGroupBy(residual, changes, f)
    requires IsStalePlusResidual(result, stale, residual) && IsGroupBy(direct, new_, f)
    ensures direct[j] in result && direct[j].m.cnt != 0
  {
    hide Total, HasKey, IsGroupBy, IsStalePlusResidual, Counting;
    var key := direct[j].key;
    RowIs(direct, new_, f, j);
    CountIsPresence(new_, f, key);
    ResultKeys(result, stale, residual, old_, changes, f, key);
    if !HasKey(old_, f, key) && !HasKey(changes, f, key) {
      NoKeyNoTotal(old_, f, key);
      NoKeyNoTotal(changes, f, key);
    }
    assert key in Keys(result);
    var i :| 0 <= i < |result| && Keys(result)[i] == key;
    ResultTotal(result, stale, residual, old_, changes, f, i);
    assert result[i] == direct[j];
  }

  /** If the totals agree, so do the result and the direct query on the live groups; all other rows read zero. */
  lemma RowsFollowTotals<L(!new)>(old_: seq<Cell<Pair>>, changes: seq<Cell<Pair>>, new_: seq<Cell<Pair>>, f: Pair -> L,
                                  stale: seq<Cell<L>>, residual: seq<Cell<L>>, result: seq<Cell<L>>, direct: seq<Cell<L>>)
    requires TotalsAgree(old_, changes, new_, f) && Counting(new_)
    requires IsGroupBy(stale, old_, f) && IsGroupBy(residual, changes, f)
    requires IsStalePlusResidual(result, stale, residual) && IsGroupBy(direct, new_, f)
    ensures AgreesOnLiveGroups(result, direct)
    ensures forall i :: 0 <= i < |result| && result[i].m.cnt == 0 ==> result[i].m == NOTHING && result[i].key !in Keys(direct)
  {
    hide Total, HasKey, IsGroupBy, IsStalePlusResidual, Counting;
    forall i | 0 <= i < |result|
      ensures result[i].m.cnt != 0 ==> result[i] in direct
      ensures result[i].m.cnt == 0 ==> result[i].m == NOTHING && result[i].key !in Keys(direct)
    {
      var key := result[i].key;
      ResultTotal(result, stale, residual, old_, changes, f, i);
      CountIsPresence(new_, f, key);
      if HasKey(new_, f, key) {
        RowOf(direct, new_, f, key);
      } else {
        NoKeyNoTotal(new_, f, key);
        KeysOf(direct, new_, f, key);
      }
    }
    forall j | 0 <= j < |direct|
      ensures direct[j] in result && direct[j].m.cnt != 0
    {
      LiveRow(old_, changes, new_, f, stale, residual, result, direct, j);
    }
  }

  /** Reading the stale rollup and re-aggregating it with the signed changes joined to orders equals the query over the
      changed base on all groups of non-zero count; the remaining rows are groups that vanished, and they read zero. */
  lemma StalePlusResidualIsFresh<L(!new)>(before: seq<Line>, changes: seq<Change>, after: seq<Line>, orders: seq<Order>,
                                          f: Pair -> L, stale: seq<Cell<L>>, residual: seq<Cell<L>>,
                                          result: seq<Cell<L>>, direct: seq<Cell<L>>)
    requires Changed(before, changes, after)
    requires IsGroupBy(stale, Joined(before, orders), f) && IsGroupBy(residual, JoinedChanges(changes, orders), f)
    requires IsStalePlusResidual(result, stale, residual) && IsGroupBy(direct, Joined(after, orders), f)
    ensures AgreesOnLiveGroups(result, direct)
    ensures forall i :: 0 <= i < |result| && result[i].m.cnt == 0 ==> result[i].m == NOTHING && result[i].key !in Keys(direct)
  {
    hide Total, Joined, JoinedChanges, Changed, IsGroupBy, IsStalePlusResidual, AgreesOnLiveGroups, Counting;
    var olds, news, ds := Joined(before, orders), Joined(after, orders), JoinedChanges(changes, orders);
    forall key ensures Plus(Total(olds, f, key), Total(ds, f, key)) == Total(news, f, key) {
      ChangeTotals(before, changes, after, orders, f, key);
    }
    JoinedCounts(after, orders);
    RowsFollowTotals(olds, ds, news, f, stale, residual, result, direct);
  }

  // ---- orders grow as well ----

  lemma {:induction false} MatchAppend(l: Line, a: seq<Order>, b: seq<Order>)
    ensures MatchOne(l, a + b) == MatchOne(l, a) + MatchOne(l, b)
  {
    if a == [] {
      assert a + b == b;
    } else {
      assert (a + b)[1..] == a[1..] + b;
      MatchAppend(l, a[1..], b);
    }
  }

  lemma {:induction false} OrdersAppend<L>(lines: seq<Line>, a: seq<Order>, b: seq<Order>, f: Pair -> L, key: L)
    ensures Total(Joined(lines, a + b), f, key) == Plus(Total(Joined(lines, a), f, key), Total(Joined(lines, b), f, key))
  {
    hide Total, Joined, Plus, LineTotal;
    if lines == [] {
      NothingJoined(a + b, f, key);
      NothingJoined(a, f, key);
      NothingJoined(b, f, key);
      PlusLaws(NOTHING, NOTHING, NOTHING);
    } else {
      OrdersAppend(lines[1..], a, b, f, key);
      Exchange(LineTotal(lines[0], a, f, key), LineTotal(lines[0], b, f, key),
               Total(Joined(lines[1..], a), f, key), Total(Joined(lines[1..], b), f, key));
      JoinedStep(lines, a + b, f, key);
      JoinedStep(lines, a, f, key);
      JoinedStep(lines, b, f, key);
      LineTotalAppend(lines[0], a, b, f, key);
    }
  }

  lemma LineTotalAppend<L>(l: Line, a: seq<Order>, b: seq<Order>, f: Pair -> L, key: L)
    ensures LineTotal(l, a + b, f, key) == Plus(LineTotal(l, a, f, key), LineTotal(l, b, f, key))
  {
    hide Total, MatchOne;
    MatchAppend(l, a, b);
    TotalAppend(MatchOne(l, a), MatchOne(l, b), f, key);
  }

  /** Some line refers to one of the orders. */
  predicate Refers(lines: seq<Line>, orders: seq<Order>) {
    exists i, j :: 0 <= i < |lines| && 0 <= j < |orders| && lines[i].orderId == orders[j].id
  }

  lemma {:induction false} MatchesReference(l: Line, orders: seq<Order>)
    ensures MatchOne(l, orders) == [] <==> forall j :: 0 <= j < |orders| ==> l.orderId != orders[j].id
  {
    if orders != [] {
      MatchesReference(l, orders[1..]);
      if forall j :: 0 <= j < |orders[1..]| ==> l.orderId != orders[1..][j].id {
        forall j | 1 <= j < |orders|
          ensures l.orderId != orders[j].id
        {
          assert orders[j] == orders[1..][j - 1];
        }
      }
    }
  }

  lemma {:induction false} JoinedReference(lines: seq<Line>, orders: seq<Order>)
    ensures Joined(lines, orders) == [] <==> !Refers(lines, orders)
  {
    if lines != [] {
      JoinedReference(lines[1..], orders);
      MatchesReference(lines[0], orders);
      if Refers(lines[1..], orders) {
        var i, j :| 0 <= i < |lines[1..]| && 0 <= j < |orders| && lines[1..][i].orderId == orders[j].id;
        assert lines[i + 1].orderId == orders[j].id;
      }
      if Refers(lines, orders) {
        var i, j :| 0 <= i < |lines| && 0 <= j < |orders| && lines[i].orderId == orders[j].id;
        assert i > 0 ==> lines[1..][i - 1].orderId == orders[j].id;
      }
    }
  }

  /** What the stale view misses are the old lines joined to the added orders. */
  lemma MissingTotals<L(!new)>(before: seq<Line>, changes: seq<Change>, after: seq<Line>,
                               orders: seq<Order>, added: seq<Order>, f: Pair -> L)
    requires Changed(before, changes, after)
    ensures forall key :: Plus(Plus(Total(Joined(before, orders), f, key), Total(JoinedChanges(changes, orders + added), f, key)),
                               Total(Joined(before, added), f, key))
                          == Total(Joined(after, orders + added), f, key)
  {
    hide Total, Joined, JoinedChanges, Changed;
    forall key
      ensures Plus(Plus(Total(Joined(before, orders), f, key), Total(JoinedChanges(changes, orders + added), f, key)),
                   Total(Joined(before, added), f, key)) == Total(Joined(after, orders + added), f, key)
    {
      ChangeTotals(before, changes, after, orders + added, f, key);
      OrdersAppend(before, orders, added, f, key);
    }
  }

  /** When orders were added too, stale view and residual still have the totals of the fresh query at every key exactly if
      no line item from before refers to an added order. */
  lemma GrowingOrdersExactly<L(!new)>(before: seq<Line>, changes: seq<Change>, after: seq<Line>,
                                      orders: seq<Order>, added: seq<Order>, f: Pair -> L)
    requires Changed(before, changes, after)
    ensures TotalsAgree(Joined(before, orders), JoinedChanges(changes, orders + added), Joined(after, orders + added), f)
            <==> !Refers(before, added)
  {
    hide Total, Joined, JoinedChanges, Changed, Refers;
    var missing := Joined(before, added);
    MissingTotals(before, changes, after, orders, added, f);
    JoinedReference(before, added);
    if missing == [] {
      forall key
        ensures Total(missing, f, key) == NOTHING
      {
        TotalOfNone(f, key);
      }
    } else {
      var key := f(missing[0].key);
      JoinedCounts(before, added);
      CountIsPresence(missing, f, key);
      assert HasKey(missing, f, key);
      assert Plus(Total(Joined(before, orders), f, key), Total(JoinedChanges(changes, orders + added), f, key))
          != Total(Joined(after, orders + added), f, key);
    }
  }

  /** A row of count zero has no partner. */
  lemma DeadRow<L(!new)>(result: seq<Cell<L>>, direct: seq<Cell<L>>, i: nat)
    requires Distinct(Keys(result)) && AgreesOnLiveGroups(result, direct) && i < |result| && result[i].m.cnt == 0
    ensures result[i].key !in Keys(direct)
  {
    forall j | 0 <= j < |direct| ensures Keys(direct)[j] != result[i].key {
      var k :| 0 <= k < |result| && result[k] == direct[j];
      assert Keys(result)[k] != Keys(result)[i];
    }
  }

  /** A key that is not in the result is not in the direct query. */
  lemma AbsentKey<L(!new)>(result: seq<Cell<L>>, direct: seq<Cell<L>>, key: L)
    requires AgreesOnLiveGroups(result, direct) && key !in Keys(result)
    ensures key !in Keys(direct)
  {
    forall j | 0 <= j < |direct| ensures Keys(direct)[j] != key {
      var i :| 0 <= i < |result| && result[i] == direct[j];
      assert Keys(result)[i] in Keys(result);
    }
  }

  lemma KeysDistinct<K(!new), L(!new)>(out: seq<Cell<L>>, cells: seq<Cell<K>>, f: K -> L)
    requires IsGroupBy(out, cells, f)
    ensures Distinct(Keys(out))
  {
    hide Total, HasKey;
  }

  lemma PresentTotal<L(!new)>(new_: seq<Cell<Pair>>, missing: seq<Cell<Pair>>, f: Pair -> L,
                              result: seq<Cell<L>>, direct: seq<Cell<L>>, i: nat)
    requires IsGroupBy(direct, new_, f) && Counting(new_) && Counting(missing)
    requires Distinct(Keys(result)) && AgreesOnLiveGroups(result, direct) && i < |result|
    requires Plus(result[i].m, Total(missing, f, result[i].key)) == Total(new_, f, result[i].key)
    ensures result[i].m == Total(new_, f, result[i].key)
  {
    hide Total, HasKey, Counting, IsGroupBy;
    if result[i].m.cnt != 0 {
      var j :| 0 <= j < |direct| && direct[j] == result[i];
      RowIs(direct, new_, f, j);
    } else {
      DeadRow(result, direct, i);
      NothingMissing(new_, missing, f, direct, result[i].key);
    }
  }

  lemma AbsentTotal<L(!new)>(old_: seq<Cell<Pair>>, changes: seq<Cell<Pair>>, new_: seq<Cell<Pair>>, f: Pair -> L,
                             result: seq<Cell<L>>, direct: seq<Cell<L>>, key: L)
    requires IsGroupBy(direct, new_, f) && AgreesOnLiveGroups(result, direct) && key !in Keys(result)
    requires !HasKey(old_, f, key) && !HasKey(changes, f, key)
    ensures Plus(Total(old_, f, key), Total(changes, f, key)) == Total(new_, f, key)
  {
    hide Total, HasKey, IsGroupBy, AgreesOnLiveGroups;
    NoKeyNoTotal(old_, f, key);
    NoKeyNoTotal(changes, f, key);
    AbsentKey(result, direct, key);
    KeysOf(direct, new_, f, key);
    NoKeyNoTotal(new_, f, key);
  }

  /** If the rows agree on the live groups, so do the totals at a key. */
  lemma TotalsFollowRows<L(!new)>(old_: seq<Cell<Pair>>, changes: seq<Cell<Pair>>, new_: seq<Cell<Pair>>, missing: seq<Cell<Pair>>,
                                  f: Pair -> L, stale: seq<Cell<L>>, residual: seq<Cell<L>>,
                                  result: seq<Cell<L>>, direct: seq<Cell<L>>, key: L)
    requires IsGroupBy(stale, old_, f) && IsGroupBy(residual, changes, f)
    requires IsStalePlusResidual(result, stale, residual) && IsGroupBy(direct, new_, f)
    requires Counting(new_) && Counting(missing)
    requires Plus(Plus(Total(old_, f, key), Total(changes, f, key)), Total(missing, f, key)) == Total(new_, f, key)
    requires AgreesOnLiveGroups(result, direct)
    ensures Plus(Total(old_, f, key), Total(changes, f, key)) == Total(new_, f, key)
  {
    hide Total, HasKey, Counting, IsGroupBy, IsStalePlusResidual, AgreesOnLiveGroups, Plus, Distinct;
    ResultKeys(result, stale, residual, old_, changes, f, key);
    if key in Keys(result) {
      var i :| 0 <= i < |result| && Keys(result)[i] == key;
      ResultTotal(result, stale, residual, old_, changes, f, i);
      ResultDistinct(result, stale, residual);
      PresentTotal(new_, missing, f, result, direct, i);
    } else {
      AbsentTotal(old_, changes, new_, f, result, direct, key);
    }
  }

  lemma ResultDistinct<L(!new)>(result: seq<Cell<L>>, stale: seq<Cell<L>>, residual: seq<Cell<L>>)
    requires IsStalePlusResidual(result, stale, residual)
    ensures Distinct(Keys(result))
  {
    hide IsGroupBy;
    KeysDistinct(result, stale + residual, Identity());
  }

  lemma NothingMissing<L(!new)>(new_: seq<Cell<Pair>>, missing: seq<Cell<Pair>>, f: Pair -> L, direct: seq<Cell<L>>, key: L)
    requires IsGroupBy(direct, new_, f) && key !in Keys(direct) && Counting(missing)
    requires Total(missing, f, key).cnt == Total(new_, f, key).cnt
    ensures Total(new_, f, key) == NOTHING && Total(missing, f, key) == NOTHING
  {
    hide Total, HasKey, Counting;
    KeysOf(direct, new_, f, key);
    NoKeyNoTotal(new_, f, key);
    CountIsPresence(missing, f, key);
    NoKeyNoTotal(missing, f, key);
  }

  /** And so for the rows a reader sees: with added orders the result agrees with the fresh query on the live groups
      exactly if no line item from before refers to an added order. */
  lemma GrowingOrdersRowsExactly<L(!new)>(before: seq<Line>, changes: seq<Change>, after: seq<Line>,
                                          orders: seq<Order>, added: seq<Order>, f: Pair -> L,
                                          stale: seq<Cell<L>>, residual: seq<Cell<L>>,
                                          result: seq<Cell<L>>, direct: seq<Cell<L>>)
    requires Changed(before, changes, after)
    requires IsGroupBy(stale, Joined(before, orders), f) && IsGroupBy(residual, JoinedChanges(changes, orders + added), f)
    requires IsStalePlusResidual(result, stale, residual) && IsGroupBy(direct, Joined(after, orders + added), f)
    ensures AgreesOnLiveGroups(result, direct) <==> !Refers(before, added)
  {
    hide Total, Joined, JoinedChanges, Changed, Refers, IsGroupBy, IsStalePlusResidual, AgreesOnLiveGroups, Counting;
    var olds, news, ds := Joined(before, orders), Joined(after, orders + added), JoinedChanges(changes, orders + added);
    var missing := Joined(before, added);
    JoinedCounts(after, orders + added);
    JoinedCounts(before, added);
    MissingTotals(before, changes, after, orders, added, f);
    GrowingOrdersExactly(before, changes, after, orders, added, f);
    if AgreesOnLiveGroups(result, direct) {
      forall key ensures Plus(Total(olds, f, key), Total(ds, f, key)) == Total(news, f, key) {
        TotalsFollowRows(olds, ds, news, missing, f, stale, residual, result, direct, key);
      }
    }
    if !Refers(before, added) {
      RowsFollowTotals(olds, ds, news, f, stale, residual, result, direct);
    }
  }

  lemma TotalOfNone<L>(f: Pair -> L, key: L)
    ensures Total([], f, key) == NOTHING
  {
  }

  // ---- the views of the experiment ----

  function RegionAndProduct(): Pair -> (string, int) {
    (p: Pair) => (p.order.region, p.line.product)
  }

  function RegionOf(): ((string, int)) -> string {
    (k: (string, int)) => k.0
  }

  function Region(): Pair -> string {
    (p: Pair) => p.order.region
  }

  lemma SameGrouping<K(!new), L(!new)>(out: seq<Cell<L>>, cells: seq<Cell<K>>, f: K -> L, g: K -> L)
    requires IsGroupBy(out, cells, f) && forall k :: f(k) == g(k)
    ensures IsGroupBy(out, cells, g)
  {
    hide Total, HasKey;
    forall l
      ensures Total(cells, f, l) == Total(cells, g, l)
      ensures HasKey(cells, f, l) <==> HasKey(cells, g, l)
    {
      SameFunction(cells, f, g, l);
    }
  }

  /** mv_a groups the join by region and product, mv_b groups mv_a by region: mv_b is the query over the base tables. */
  lemma ChainedView(cells: seq<Cell<Pair>>, mvA: seq<Cell<(string, int)>>, mvB: seq<Cell<string>>)
    requires IsGroupBy(mvA, cells, RegionAndProduct()) && IsGroupBy(mvB, mvA, RegionOf())
    ensures IsGroupBy(mvB, cells, Region())
  {
    hide IsGroupBy;
    RollupOfRollup(mvB, mvA, cells, RegionAndProduct(), RegionOf());
    SameGrouping(mvB, cells, Composed(RegionAndProduct(), RegionOf()), Region());
  }

  /** Reading the stale mv_b of the chain with the residual of lineitem, without refreshing any view, agrees with the
      query over the current base tables on every region that has line items. */
  lemma StaleChainPlusResidual(before: seq<Line>, changes: seq<Change>, after: seq<Line>, orders: seq<Order>,
                               mvA: seq<Cell<(string, int)>>, mvB: seq<Cell<string>>, residual: seq<Cell<string>>,
                               result: seq<Cell<string>>, bypass: seq<Cell<string>>)
    requires Changed(before, changes, after)
    requires IsGroupBy(mvA, Joined(before, orders), RegionAndProduct()) && IsGroupBy(mvB, mvA, RegionOf())
    requires IsGroupBy(residual, JoinedChanges(changes, orders), Region())
    requires IsStalePlusResidual(result, mvB, residual) && IsGroupBy(bypass, Joined(after, orders), Region())
    ensures AgreesOnLiveGroups(result, bypass)
  {
    hide IsGroupBy, IsStalePlusResidual, AgreesOnLiveGroups, Changed, Joined, JoinedChanges;
    ChainedView(Joined(before, orders), mvA, mvB);
    StalePlusResidualIsFresh(before, changes, after, orders, Region(), mvB, residual, result, bypass);
  }
}
