/** Making the group columns of a view distinct by numbered suffixes.

    Columns are taken in order. One that is internal by its name is passed over; any other takes the first candidate
    that no earlier column was given: its own name, then the name with the suffixes _1, _2 and so on. Numerals differ
    and no two suffixed names of one base coincide, so a free candidate comes up after at most as many as were given. */
module GroupColumns {
  import opened Decimals

  const INTERNAL_PREFIX := "openivm_"

  predicate IsInternalColumn(name: string) {
    INTERNAL_PREFIX <= name
  }

  /** The k-th name tried for a column: the name itself, then with suffixes 1, 2, ... */
  function Candidate(name: string, k: nat): string {
    if k == 0 then name else name + "_" + Decimal(k)
  }

  lemma CandidatesDiffer(name: string, j: nat, k: nat)
    requires j < k
    ensures Candidate(name, j) != Candidate(name, k)
  {
    hide Decimal;
    assert Candidate(name, k)[|name| + 1..] == Decimal(k);
    assert |Candidate(name, k)| > |name|;
    if j > 0 {
      assert Candidate(name, j)[|name| + 1..] == Decimal(j);
      NumeralsDiffer(j, k);
    }
  }

  lemma NumeralsDiffer(j: nat, k: nat)
    requires j != k
    ensures Decimal(j) != Decimal(k)
  {
    if Decimal(j) == Decimal(k) {
      DecimalInjective(j, k);
    }
  }

  /** The first n candidates of a name. */
  function Tried(name: string, n: nat): set<string> {
    if n == 0 then {} else Tried(name, n - 1) + {Candidate(name, n - 1)}
  }

  lemma {:induction false} NotYetTried(name: string, n: nat, k: nat)
    requires n <= k
    ensures Candidate(name, k) !in Tried(name, n)
  {
    hide Candidate;
    if n > 0 {
      NotYetTried(name, n - 1, k);
      CandidatesDiffer(name, n - 1, k);
    }
  }

  lemma {:induction false} TriedSize(name: string, n: nat)
    ensures |Tried(name, n)| == n
  {
    hide Candidate;
    if n > 0 {
      TriedSize(name, n - 1);
      NotYetTried(name, n - 1, n - 1);
    }
  }

  lemma {:induction false} TriedAreTaken(name: string, n: nat, seen: set<string>)
    requires Taken(name, n, seen)
    ensures Tried(name, n) <= seen
  {
    hide Candidate;
    if n > 0 {
      TriedAreTaken(name, n - 1, seen);
    }
  }

  lemma SubsetSize<T>(a: set<T>, b: set<T>)
    requires a <= b
    ensures |a| <= |b|
  {
    if a != {} {
      var x :| x in a;
      SubsetSize(a - {x}, b - {x});
    }
  }

  /** Only finitely many names are taken, so some candidate is free. */
  lemma TakenAreFew(name: string, n: nat, seen: set<string>)
    requires Taken(name, n, seen)
    ensures n <= |seen|
  {
    TriedSize(name, n);
    TriedAreTaken(name, n, seen);
    SubsetSize(Tried(name, n), seen);
  }

  /** The first free candidate. */
  method FreeCandidate(name: string, seen: set<string>) returns (candidate: string, ghost k: nat)
    ensures candidate == Candidate(name, k) && candidate !in seen
    ensures Taken(name, k, seen)
  {
    candidate, k := name, 0;
    var suffix := 1;
    TakenAreFew(name, k, seen);
    while candidate in seen
      invariant suffix == k + 1 && candidate == Candidate(name, k) && k <= |seen|
      invariant Taken(name, k, seen)
      decreases |seen| - k
    {
      TakenAreFew(name, k + 1, seen);
      candidate := name + "_" + Decimal(suffix);
      suffix := suffix + 1;
      k := k + 1;
    }
  }

  /** b is a with later duplicates of the non-internal names renamed: every such name is the first candidate of the old
      name that none of the names before it took. */
  ghost predicate Deduplicated(a: seq<string>, b: seq<string>) {
    && |b| == |a|
    && (forall i :: 0 <= i < |a| && IsInternalColumn(a[i]) ==> b[i] == a[i])
    && (forall i :: 0 <= i < |a| && !IsInternalColumn(a[i]) ==> FirstFree(a, b, i))
  }

  /** The names given out before position i. */
  ghost function Seen(a: seq<string>, b: seq<string>, i: nat): set<string>
    requires i <= |a| <= |b|
  {
    set j | 0 <= j < i && !IsInternalColumn(a[j]) :: b[j]
  }

  ghost predicate Taken(name: string, k: nat, seen: set<string>) {
    forall j: nat :: j < k ==> Candidate(name, j) in seen
  }

  ghost predicate FirstFree(a: seq<string>, b: seq<string>, i: nat)
    requires i < |a| <= |b|
  {
    exists k: nat :: b[i] == Candidate(a[i], k) && b[i] !in Seen(a, b, i) && Taken(a[i], k, Seen(a, b, i))
  }

  /** Terminates on every input. */
  method DeduplicateGroupColumns(a: array<string>)
    modifies a
    ensures Deduplicated(old(a[..]), a[..])
  {
    ghost var was := a[..];
    var seen: set<string> := {};
    var i := 0;
    while i < a.Length
      invariant i <= a.Length && a[i..] == was[i..]
      invariant seen == Seen(was, a[..], i)
      invariant forall j :: 0 <= j < i && IsInternalColumn(was[j]) ==> a[j] == was[j]
      invariant forall j :: 0 <= j < i && !IsInternalColumn(was[j]) ==> FirstFree(was, a[..], j)
    {
      assert a[i] == was[i];
      if !IsInternalColumn(a[i]) {
        ghost var before := a[..];
        ghost var k;
        var candidate;
        candidate, k := FreeCandidate(a[i], seen);
        seen := seen + {candidate};
        a[i] := candidate;
        SeenPrefix(was, before, a[..], i);
        assert FirstFree(was, a[..], i);
        forall j | 0 <= j < i && !IsInternalColumn(was[j])
          ensures FirstFree(was, a[..], j)
        {
          assert FirstFree(was, before, j);
          SeenPrefix(was, before, a[..], j);
        }
      }
      i := i + 1;
    }
  }

  lemma SeenPrefix(a: seq<string>, b: seq<string>, c: seq<string>, i: nat)
    requires i <= |a| == |b| == |c| && b[..i] == c[..i]
    ensures Seen(a, b, i) == Seen(a, c, i)
  {
    forall j | 0 <= j < i
      ensures b[j] == c[j]
    {
      assert b[j] == b[..i][j] == c[..i][j];
    }
  }

  /** Afterwards the columns that were not internal have pairwise distinct names, and the first bearer of a name keeps it
      unless it was given out before. */
  lemma DeduplicatedIsDistinct(a: seq<string>, b: seq<string>, i: nat, j: nat)
    requires Deduplicated(a, b) && i < j < |a| && !IsInternalColumn(a[i]) && !IsInternalColumn(a[j])
    ensures b[i] != b[j]
  {
    assert FirstFree(a, b, j);
    assert b[i] in Seen(a, b, j);
  }

  /** Names that are already distinct stay as they are. */
  lemma {:induction false} DistinctStayPut(a: seq<string>, b: seq<string>, n: nat)
    requires Deduplicated(a, b) && n <= |a|
    requires forall i, j :: 0 <= i < j < |a| ==> a[i] != a[j]
    ensures forall i :: 0 <= i < n ==> b[i] == a[i]
  {
    if n > 0 {
      DistinctStayPut(a, b, n - 1);
      if !IsInternalColumn(a[n - 1]) {
        assert FirstFree(a, b, n - 1);
        var k: nat :| b[n - 1] == Candidate(a[n - 1], k) && b[n - 1] !in Seen(a, b, n - 1)
                      && Taken(a[n - 1], k, Seen(a, b, n - 1));
        assert Candidate(a[n - 1], 0) !in Seen(a, b, n - 1);
      }
    }
  }

  // ---- visible columns may become internal ----

  const PREFIX_STEM := "openivm"

  /** The one visible name that a suffix turns into an internal one. */
  lemma InternalCandidateExactly(name: string, k: nat)
    requires !IsInternalColumn(name)
    ensures IsInternalColumn(Candidate(name, k)) <==> k > 0 && name == PREFIX_STEM
  {
    hide Decimal;
    if k > 0 {
      var c := Candidate(name, k);
      assert c == name + ("_" + Decimal(k));
      if |name| >= 8 {
        assert c[..8] == name[..8];
      } else if INTERNAL_PREFIX <= c {
        assert c[..|name|] == name == INTERNAL_PREFIX[..|name|];
        assert INTERNAL_PREFIX[|name|] == c[|name|] == '_';
        assert |name| == 7;
      }
      if name == PREFIX_STEM {
        assert c[..8] == INTERNAL_PREFIX;
      }
    }
  }

  lemma StemIsNotSuffixed(name: string, k: nat)
    requires k > 0
    ensures Candidate(name, k) != PREFIX_STEM
  {
    hide Decimal;
    assert Candidate(name, k)[|name|] == '_';
    assert forall i :: 0 <= i < |PREFIX_STEM| ==> PREFIX_STEM[i] != '_';
  }

  lemma StemSeenExactly(a: seq<string>, b: seq<string>, i: nat)
    requires Deduplicated(a, b) && i <= |a|
    ensures PREFIX_STEM in Seen(a, b, i) <==> exists j :: 0 <= j < i && a[j] == PREFIX_STEM
  {
    hide Candidate;
    assert |PREFIX_STEM| < |INTERNAL_PREFIX|;
    if PREFIX_STEM in Seen(a, b, i) {
      var j :| 0 <= j < i && !IsInternalColumn(a[j]) && b[j] == PREFIX_STEM;
      assert FirstFree(a, b, j);
      var k: nat :| b[j] == Candidate(a[j], k) && b[j] !in Seen(a, b, j) && Taken(a[j], k, Seen(a, b, j));
      NameOrSuffixed(a[j], k);
    }
    if j :| 0 <= j < i && a[j] == PREFIX_STEM {
      assert FirstFree(a, b, j);
      var k: nat :| b[j] == Candidate(a[j], k) && b[j] !in Seen(a, b, j) && Taken(a[j], k, Seen(a, b, j));
      NameOrSuffixed(a[j], k);
      assert k > 0 ==> Candidate(a[j], 0) in Seen(a, b, j);
      assert Seen(a, b, j) <= Seen(a, b, i) && b[j] in Seen(a, b, i);
    }
  }

  lemma NameOrSuffixed(name: string, k: nat)
    ensures Candidate(name, 0) == name
    ensures k > 0 ==> Candidate(name, k) != PREFIX_STEM
  {
    if k > 0 {
      StemIsNotSuffixed(name, k);
    }
  }

  /** A visible column becomes internal exactly when it is called openivm and an earlier column was, too. */
  lemma BecomesInternalExactly(a: seq<string>, b: seq<string>, i: nat)
    requires Deduplicated(a, b) && i < |a| && !IsInternalColumn(a[i])
    ensures IsInternalColumn(b[i]) <==> a[i] == PREFIX_STEM && exists j :: 0 <= j < i && a[j] == PREFIX_STEM
  {
    hide Candidate, IsInternalColumn;
    assert FirstFree(a, b, i);
    var k: nat :| b[i] == Candidate(a[i], k) && b[i] !in Seen(a, b, i) && Taken(a[i], k, Seen(a, b, i));
    InternalCandidateExactly(a[i], k);
    NameOrSuffixed(a[i], k);
    StemSeenExactly(a, b, i);
    assert k > 0 ==> Candidate(a[i], 0) in Seen(a, b, i);
  }
}
