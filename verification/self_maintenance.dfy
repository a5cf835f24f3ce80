/** Derived aggregates kept up to date from their hidden columns. */
module SelfMaintenance {
  import opened SqlValues
  import opened DerivedAggregates
  import opened Plans

  /** A pending change of one argument value of the group. */
  datatype Change = Change(value: Value, isInsert: bool)

  /** The hidden columns of a delta row: SUM over the signed changes, NULL where there is nothing to sum. */
  function DeltaColumn(changes: seq<Change>, g: Value -> real): Value {
    if forall i :: 0 <= i < |changes| ==> changes[i].value.Null? then Null else Num(SignedSum(changes, g))
  }

  function SignedSum(changes: seq<Change>, g: Value -> real): real {
    if changes == [] then 0.0
    else SignedSum(changes[..|changes| - 1], g) + SignedOne(changes[|changes| - 1], g)
  }

  function SignedOne(c: Change, g: Value -> real): real {
    if c.isInsert then g(c.value) else -g(c.value)
  }

  function Itself(): Value -> real {
    (v: Value) => Number(v)
  }

  function Squared(): Value -> real {
    (v: Value) => Number(v) * Number(v)
  }

  function Counted(): Value -> real {
    (v: Value) => if v.Null? then 0.0 else 1.0
  }

  function DeltaHidden(changes: seq<Change>): Hidden {
    Hidden(DeltaColumn(changes, Itself()), DeltaColumn(changes, Squared()), Num(SignedSum(changes, Counted())))
  }

  function Add(a: Value, b: Value): Value {
    if a.Null? || b.Null? then Null else Num(Number(a) + Number(b))
  }

  /** COALESCE(v + d, v, d). */
  function MergedColumn(v: Value, d: Value): Value {
    if !Add(v, d).Null? then Add(v, d) else if !v.Null? then v else d
  }

  function Merged(v: Hidden, d: Hidden): Hidden {
    Hidden(MergedColumn(v.sum, d.sum), MergedColumn(v.sumSq, d.sumSq), MergedColumn(v.count, d.count))
  }

  // ---- sums over bags ----

  function SumOf(vs: seq<Value>, g: Value -> real): real {
    if vs == [] then 0.0 else SumOf(vs[..|vs| - 1], g) + g(vs[|vs| - 1])
  }

  function ValuesOf(changes: seq<Change>, inserted: bool): seq<Value> {
    if changes == [] then []
    else
      ValuesOf(changes[..|changes| - 1], inserted)
      + if changes[|changes| - 1].isInsert == inserted then [changes[|changes| - 1].value] else []
  }

  /** after is before with the changes made, as bags. */
  ghost predicate Changed(before: seq<Value>, changes: seq<Change>, after: seq<Value>) {
    multiset(after) + multiset(ValuesOf(changes, false)) == multiset(before) + multiset(ValuesOf(changes, true))
  }

  lemma {:induction false} SumAppend(a: seq<Value>, b: seq<Value>, g: Value -> real)
    ensures SumOf(a + b, g) == SumOf(a, g) + SumOf(b, g)
  {
    if b == [] {
      assert a + b == a;
    } else {
      assert (a + b)[..|a + b| - 1] == a + b[..|b| - 1];
      SumAppend(a, b[..|b| - 1], g);
    }
  }

  lemma RemovedFromBag(a: seq<Value>, b: seq<Value>, i: nat)
    requires a != [] && i < |b| && b[i] == a[|a| - 1] && multiset(a) == multiset(b)
    ensures multiset(a[..|a| - 1]) == multiset(b[..i] + b[i + 1..])
  {
    assert a == a[..|a| - 1] + [a[|a| - 1]];
    assert b == b[..i] + [b[i]] + b[i + 1..];
    assert multiset(a[..|a| - 1]) == multiset(a) - multiset{a[|a| - 1]};
    assert multiset(b[..i] + b[i + 1..]) == multiset(b) - multiset{b[i]};
  }

  lemma {:induction false} SumOfBag(a: seq<Value>, b: seq<Value>, g: Value -> real)
    requires multiset(a) == multiset(b)
    ensures SumOf(a, g) == SumOf(b, g)
  {
    if a == [] {
      assert |multiset(b)| == |b|;
    } else {
      var last := a[|a| - 1];
      assert last in multiset(a);
      assert last in multiset(b);
      var i :| 0 <= i < |b| && b[i] == last;
      RemovedFromBag(a, b, i);
      var front, back := b[..i], b[i + 1..];
      SumOfBag(a[..|a| - 1], front + back, g);
      assert b == front + ([last] + back);
      SumAppend(front, back, g);
      SumAppend(front, [last] + back, g);
      SumAppend([last], back, g);
      assert [last][..0] == [];
      assert SumOf([last], g) == g(last);
    }
  }

  lemma {:induction false} SignedIsDifference(changes: seq<Change>, g: Value -> real)
    ensures SignedSum(changes, g) == SumOf(ValuesOf(changes, true), g) - SumOf(ValuesOf(changes, false), g)
  {
    if changes != [] {
      var front, c := changes[..|changes| - 1], changes[|changes| - 1];
      SignedIsDifference(front, g);
      SumAppend(ValuesOf(front, c.isInsert), [c.value], g);
      assert ValuesOf(changes, c.isInsert) == ValuesOf(front, c.isInsert) + [c.value];
      assert ValuesOf(changes, !c.isInsert) == ValuesOf(front, !c.isInsert);
      assert [c.value][..0] == [];
      assert SumOf([c.value], g) == g(c.value);
    }
  }

  lemma ChangedSum(before: seq<Value>, changes: seq<Change>, after: seq<Value>, g: Value -> real)
    requires Changed(before, changes, after)
    ensures SumOf(after, g) == SumOf(before, g) + SignedSum(changes, g)
  {
    hide SumOf, SignedSum, ValuesOf;
    var ins, del := ValuesOf(changes, true), ValuesOf(changes, false);
    assert multiset(after + del) == multiset(before + ins);
    SumOfBag(after + del, before + ins, g);
    SumAppend(after, del, g);
    SumAppend(before, ins, g);
    SignedIsDifference(changes, g);
  }

  // ---- sums and the numbers of a group ----

  lemma {:induction false} NonNullAppend(a: seq<Value>, b: seq<Value>)
    ensures NonNull(a + b) == NonNull(a) + NonNull(b)
  {
    if a == [] {
      assert a + b == b;
    } else {
      assert (a + b)[1..] == a[1..] + b;
      NonNullAppend(a[1..], b);
    }
  }

  lemma {:induction false} NumbersAppend(a: seq<Value>, b: seq<Value>)
    ensures Numbers(a + b) == Numbers(a) + Numbers(b)
  {
    if a == [] {
      assert a + b == b;
    } else {
      assert (a + b)[1..] == a[1..] + b;
      NumbersAppend(a[1..], b);
    }
  }

  lemma {:induction false} TotalSnoc(xs: seq<real>, x: real)
    ensures Total(xs + [x]) == Total(xs) + x && SquareTotal(xs + [x]) == SquareTotal(xs) + x * x
  {
    if xs == [] {
      assert xs + [x] == [x];
    } else {
      assert (xs + [x])[1..] == xs[1..] + [x];
      TotalSnoc(xs[1..], x);
    }
  }

  /** Sum, sum of squares and number of the non-null values, as sums over all values. */
  lemma {:induction false} NumbersAsSums(vs: seq<Value>)
    ensures var xs := Numbers(NonNull(vs));
            && Total(xs) == SumOf(vs, Itself()) && SquareTotal(xs) == SumOf(vs, Squared())
            && |xs| as real == SumOf(vs, Counted())
  {
    hide Numbers, NonNull, Total, SquareTotal;
    if vs == [] {
      NoNumbers();
    } else {
      var front, v := vs[..|vs| - 1], vs[|vs| - 1];
      NumbersAsSums(front);
      assert vs == front + [v];
      NumbersSnoc(front, v);
      if v.Null? {
        assert Number(v) == 0.0;
      } else {
        TotalSnoc(Numbers(NonNull(front)), Number(v));
      }
    }
  }

  lemma NoNumbers()
    ensures Numbers(NonNull([])) == [] && Total([]) == 0.0 && SquareTotal([]) == 0.0
  {
  }

  lemma NumbersSnoc(front: seq<Value>, v: Value)
    ensures v.Null? ==> Numbers(NonNull(front + [v])) == Numbers(NonNull(front))
    ensures !v.Null? ==> Numbers(NonNull(front + [v])) == Numbers(NonNull(front)) + [Number(v)]
  {
    NonNullAppend(front, [v]);
    assert [v][1..] == [];
    if v.Null? {
      assert NonNull([v]) == [];
      assert NonNull(front + [v]) == NonNull(front);
    } else {
      assert NonNull([v]) == [v];
      NumbersAppend(NonNull(front), [v]);
      assert Numbers([v]) == [Number(v)];
    }
  }

  // ---- the invariant ----

  /** A stored column stands for a sum: it is the sum, or NULL where the sum is over no value. */
  predicate Stands(stored: Value, sum: real, count: nat) {
    !stored.Text? && Number(stored) == sum && (count > 0 ==> stored.Num?)
  }

  /** The hidden columns stand for the non-null values of a group. */
  predicate Represents(h: Hidden, vs: seq<Value>) {
    var xs := Numbers(NonNull(vs));
    Stands(h.sum, Total(xs), |xs|) && Stands(h.sumSq, SquareTotal(xs), |xs|) && h.count == Num(|xs| as real)
  }

  lemma CreatedRepresents(vs: seq<Value>)
    ensures Represents(HiddenOf(Numbers(NonNull(vs))), vs)
  {
  }

  /** Whatever the columns stand for rebuilds to the aggregate over it. */
  lemma RepresentsRebuilds(name: AggName, h: Hidden, vs: seq<Value>, root: real -> real)
    requires IsDerivedName(name) && Represents(h, vs)
    ensures Rebuilt(name, h, root) == DerivedValue(name, Numbers(NonNull(vs)), root)
  {
    hide DerivedValue, VarianceOf, Numbers, NonNull, Total, SquareTotal;
    var xs := Numbers(NonNull(vs));
    RebuiltIsDefinition(name, xs, root);
    if xs == [] {
      EmptyGroup(name, h, root);
      EmptyGroup(name, HiddenOf(xs), root);
    } else {
      assert h == HiddenOf(xs);
    }
  }

  /** A group without values rebuilds to NULL, whatever its sums say. */
  lemma EmptyGroup(name: AggName, h: Hidden, root: real -> real)
    requires IsDerivedName(name) && h.count == Num(0.0)
    ensures Rebuilt(name, h, root) == Null
  {
  }

  lemma {:induction false} NullChanges(changes: seq<Change>, g: Value -> real)
    requires g(Null) == 0.0 && forall i :: 0 <= i < |changes| ==> changes[i].value.Null?
    ensures SignedSum(changes, g) == 0.0
  {
    if changes != [] {
      NullChanges(changes[..|changes| - 1], g);
    }
  }

  lemma {:induction false} ValuesAreOfChanges(changes: seq<Change>, inserted: bool)
    requires forall i :: 0 <= i < |changes| ==> changes[i].value.Null?
    ensures forall i :: 0 <= i < |ValuesOf(changes, inserted)| ==> ValuesOf(changes, inserted)[i].Null?
  {
    if changes != [] {
      ValuesAreOfChanges(changes[..|changes| - 1], inserted);
    }
  }

  /** One column: the merged value stands for the new sum. */
  lemma MergedStands(stored: Value, delta: Value, sum: real, count: nat, change: real, newCount: nat)
    requires Stands(stored, sum, count) && !delta.Text? && Number(delta) == change
    requires delta.Null? ==> newCount == count
    ensures Stands(MergedColumn(stored, delta), sum + change, newCount)
  {
  }

  lemma DeltaColumnIs(changes: seq<Change>, g: Value -> real)
    requires g(Null) == 0.0
    ensures !DeltaColumn(changes, g).Text? && Number(DeltaColumn(changes, g)) == SignedSum(changes, g)
  {
    if forall i :: 0 <= i < |changes| ==> changes[i].value.Null? {
      NullChanges(changes, g);
    }
  }

  /** One refresh keeps the columns standing for the group: stored columns plus those of the signed changes are those of the
      updated bag. */
  lemma RefreshKeepsRepresents(h: Hidden, before: seq<Value>, changes: seq<Change>, after: seq<Value>)
    requires Represents(h, before) && Changed(before, changes, after)
    ensures Represents(Merged(h, DeltaHidden(changes)), after)
  {
    hide SumOf, SignedSum, Numbers, NonNull, Total, SquareTotal, Changed, MergedColumn, DeltaColumn, Stands;
    NumbersAsSums(before);
    NumbersAsSums(after);
    ChangedSum(before, changes, after, Itself());
    ChangedSum(before, changes, after, Squared());
    ChangedSum(before, changes, after, Counted());
    DeltaColumnIs(changes, Itself());
    DeltaColumnIs(changes, Squared());
    var xs, ys := Numbers(NonNull(before)), Numbers(NonNull(after));
    UncountedChanges(changes);
    MergedStands(h.sum, DeltaColumn(changes, Itself()), Total(xs), |xs|, SignedSum(changes, Itself()), |ys|);
    MergedStands(h.sumSq, DeltaColumn(changes, Squared()), SquareTotal(xs), |xs|, SignedSum(changes, Squared()), |ys|);
    CountsMerge(|xs| as real, SignedSum(changes, Counted()));
  }

  lemma CountsMerge(n: real, d: real)
    ensures MergedColumn(Num(n), Num(d)) == Num(n + d)
  {
  }

  lemma UncountedChanges(changes: seq<Change>)
    ensures DeltaColumn(changes, Itself()).Null? ==> SignedSum(changes, Counted()) == 0.0
    ensures DeltaColumn(changes, Squared()).Null? ==> SignedSum(changes, Counted()) == 0.0
  {
    if forall i :: 0 <= i < |changes| ==> changes[i].value.Null? {
      NullChanges(changes, Counted());
    }
  }

  // ---- any number of refreshes ----

  /** States of a group, each the one before with a batch of changes made. */
  ghost predicate IsHistory(states: seq<seq<Value>>, batches: seq<seq<Change>>) {
    && |states| == |batches| + 1
    && forall i :: 0 <= i < |batches| ==> Changed(states[i], batches[i], states[i + 1])
  }

  /** The hidden columns after refreshing with every batch. */
  function Refreshed(h: Hidden, batches: seq<seq<Change>>): Hidden {
    if batches == [] then h
    else Merged(Refreshed(h, batches[..|batches| - 1]), DeltaHidden(batches[|batches| - 1]))
  }

  lemma {:induction false} HistoryKeepsRepresents(h: Hidden, states: seq<seq<Value>>, batches: seq<seq<Change>>)
    requires IsHistory(states, batches) && Represents(h, states[0])
    ensures Represents(Refreshed(h, batches), states[|batches|])
  {
    hide Represents, Changed, Merged, DeltaHidden;
    if batches != [] {
      var n := |batches| - 1;
      HistoryKeepsRepresents(h, states[..n + 1], batches[..n]);
      RefreshKeepsRepresents(Refreshed(h, batches[..n]), states[n], batches[n], states[n + 1]);
    }
  }

  /** Derived aggregates maintain themselves: after any number of refreshes from the columns of the first load, the
      replacement expression over the stored columns is the aggregate over the current values of the group. */
  lemma SelfMaintained(name: AggName, states: seq<seq<Value>>, batches: seq<seq<Change>>, root: real -> real)
    requires IsDerivedName(name) && IsHistory(states, batches)
    ensures Rebuilt(name, Refreshed(HiddenOf(Numbers(NonNull(states[0]))), batches), root)
            == DerivedValue(name, Numbers(NonNull(states[|batches|])), root)
  {
    hide Represents, Refreshed, Rebuilt, DerivedValue, HiddenOf;
    CreatedRepresents(states[0]);
    HistoryKeepsRepresents(HiddenOf(Numbers(NonNull(states[0]))), states, batches);
    RepresentsRebuilds(name, Refreshed(HiddenOf(Numbers(NonNull(states[0]))), batches), states[|batches|], root);
  }

  /** The columns themselves are those a fresh load would store exactly if the group still has a value, or never had one
      and none was touched: once all values are deleted, the sums stay at zero where a fresh load stores NULL. */
  lemma ColumnsAreFreshExactly(before: seq<Value>, changes: seq<Change>, after: seq<Value>)
    requires Changed(before, changes, after)
    ensures Merged(HiddenOf(Numbers(NonNull(before))), DeltaHidden(changes)) == HiddenOf(Numbers(NonNull(after)))
            <==> Numbers(NonNull(after)) != []
                 || (Numbers(NonNull(before)) == [] && forall i :: 0 <= i < |changes| ==> changes[i].value.Null?)
  {
    hide SumOf, SignedSum, Numbers, NonNull, Total, SquareTotal, Changed;
    CreatedRepresents(before);
    RefreshKeepsRepresents(HiddenOf(Numbers(NonNull(before))), before, changes, after);
  }
}
