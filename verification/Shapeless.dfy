/** The shapeless half of crafting/match.go: a backtracking pairing of occupied cells with ingredients. */
module Shapeless {
  import opened Options
  import opened Grids
  import opened Recipes

  // ----- Enumerations without repetition -----

  ghost predicate Distinct<T>(s: seq<T>) {
    forall i, j :: 0 <= i < j < |s| ==> s[i] != s[j]
  }

  ghost function Elements<T>(s: seq<T>): set<T> {
    set x | x in s
  }

  lemma {:induction false} DistinctSize<T>(s: seq<T>)
    requires Distinct(s)
    ensures |Elements(s)| == |s|
  {
    if s != [] {
      var init, last := s[..|s| - 1], s[|s| - 1];
      DistinctSize(init);
      assert s == init + [last];
      assert Elements(s) == Elements(init) + {last};
      assert last !in init;
    }
  }

  ghost function Below(n: nat): (below: set<nat>)
    ensures |below| == n && forall i: nat :: i in below <==> i < n
  {
    if n == 0 then {} else Below(n - 1) + {n - 1}
  }

  lemma SubsetEqualSize<T>(a: set<T>, b: set<T>)
    requires a <= b && |a| == |b|
    ensures a == b
  {
    assert |b - a| == |b| - |a|;
  }

  /** As many different indices as there are indices: every one of them occurs. */
  lemma AllOccur(a: seq<nat>)
    requires Distinct(a) && forall k :: 0 <= k < |a| ==> a[k] < |a|
    ensures forall i: nat :: i < |a| ==> i in a
  {
    DistinctSize(a);
    var below := Below(|a|);
    assert Elements(a) <= below;
    SubsetEqualSize(Elements(a), below);
    forall i: nat | i < |a|
      ensures i in a
    {
      assert i in below;
    }
  }

  lemma SameElementsSameLength<T>(a: seq<T>, b: seq<T>)
    requires Distinct(a) && Distinct(b) && (forall x :: x in a <==> x in b)
    ensures |a| == |b|
  {
    DistinctSize(a);
    DistinctSize(b);
    assert Elements(a) == Elements(b);
  }

  // ----- The search -----

  /** Every cell from `from` on has its own unused ingredient that it satisfies. */
  ghost predicate Assigns(cells: seq<Cell>, wants: seq<Ingredient>, rule: Rule,
                          used: seq<bool>, from: nat, a: seq<nat>)
  {
    && from <= |cells| && |used| == |wants|
    && |a| == |cells| - from && Distinct(a)
    && forall k :: 0 <= k < |a| ==> a[k] < |wants| && !used[a[k]] && rule(cells[from + k], wants[a[k]])
  }

  ghost predicate Assignable(cells: seq<Cell>, wants: seq<Ingredient>, rule: Rule, used: seq<bool>, from: nat) {
    exists a :: Assigns(cells, wants, rule, used, from, a)
  }

  lemma AssignsHead(cells: seq<Cell>, wants: seq<Ingredient>, rule: Rule, used: seq<bool>, from: nat, a: seq<nat>)
    requires from < |cells| && Assigns(cells, wants, rule, used, from, a)
    ensures a[0] < |wants| && !used[a[0]] && rule(cells[from], wants[a[0]])
    ensures Assigns(cells, wants, rule, used[a[0] := true], from + 1, a[1..])
  {
    forall k | 0 <= k < |a| - 1
      ensures a[1..][k] != a[0] && rule(cells[from + 1 + k], wants[a[1..][k]]) && !used[a[1..][k]]
    {
      assert a[0] != a[k + 1];
    }
  }

  lemma AssignsCons(cells: seq<Cell>, wants: seq<Ingredient>, rule: Rule,
                    used: seq<bool>, from: nat, w: nat, a: seq<nat>)
    requires from < |cells| && w < |wants| == |used| && !used[w] && rule(cells[from], wants[w])
    requires Assigns(cells, wants, rule, used[w := true], from + 1, a)
    ensures Assigns(cells, wants, rule, used, from, [w] + a)
  {
  }

  /** An assignment exists whose first cell takes ingredient w. */
  ghost predicate Through(cells: seq<Cell>, wants: seq<Ingredient>, rule: Rule, used: seq<bool>, from: nat, w: nat) {
    && from < |cells| && w < |wants| == |used| && !used[w] && rule(cells[from], wants[w])
    && Assignable(cells, wants, rule, used[w := true], from + 1)
  }

  lemma AssignableThrough(cells: seq<Cell>, wants: seq<Ingredient>, rule: Rule, used: seq<bool>, from: nat)
    requires from < |cells| && |used| == |wants|
    ensures Assignable(cells, wants, rule, used, from) <==> exists w: nat :: Through(cells, wants, rule, used, from, w)
  {
    if Assignable(cells, wants, rule, used, from) {
      var a :| Assigns(cells, wants, rule, used, from, a);
      AssignsHead(cells, wants, rule, used, from, a);
      assert Through(cells, wants, rule, used, from, a[0]);
    }
    if exists w: nat :: Through(cells, wants, rule, used, from, w) {
      var w: nat :| Through(cells, wants, rule, used, from, w);
      var a :| Assigns(cells, wants, rule, used[w := true], from + 1, a);
      AssignsCons(cells, wants, rule, used, from, w, a);
    }
  }

  /** Decides whether the remaining cells can be paired; a failure leaves `used` as it found it. */
  method Pair(cells: seq<Cell>, wants: seq<Ingredient>, rule: Rule, used: array<bool>, at: nat) returns (paired: bool)
    requires at <= |cells| && used.Length == |wants|
    modifies used
    ensures paired <==> Assignable(cells, wants, rule, old(used[..]), at)
    ensures !paired ==> used[..] == old(used[..])
    decreases |cells| - at
  {
    ghost var free := used[..];
    if at == |cells| {
      assert Assigns(cells, wants, rule, free, at, []);
      return true;
    }
    AssignableThrough(cells, wants, rule, free, at);
    for w := 0 to |wants|
      invariant used[..] == free
      invariant forall v: nat :: v < w ==> !Through(cells, wants, rule, free, at, v)
    {
      assert used[w] == free[w];
      if used[w] || !rule(cells[at], wants[w]) {
        continue;
      }
      used[w] := true;
      assert used[..] == free[w := true];
      var rest := Pair(cells, wants, rule, used, at + 1);
      if rest {
        assert Through(cells, wants, rule, free, at, w);
        return true;
      }
      used[w] := false;
      assert used[..] == free;
    }
    return false;
  }

  // ----- From positions on the grid to the list of cells and back -----

  /** `at` names every occupied position once, and `cells` what lies there. */
  ghost predicate Enumerates(t: Grid, cells: seq<Cell>, at: seq<(int, int)>)
    requires t.Valid()
  {
    && |at| == |cells| && Distinct(at)
    && (forall i :: 0 <= i < |at| ==> Holds(t, at[i].0, at[i].1) == Some(cells[i]))
    && (forall p: (int, int) {:trigger p in at} :: Holds(t, p.0, p.1).Some? ==> p in at)
  }

  method OccupiedCells(t: Grid) returns (cells: seq<Cell>, ghost at: seq<(int, int)>)
    requires t.Valid()
    ensures Enumerates(t, cells, at)
  {
    cells, at := [], [];
    ghost var index: seq<int> := [];
    for i := 0 to |t.cells|
      invariant |index| == |at| == |cells|
      invariant forall k :: 0 <= k < |at| ==> 0 <= index[k] < i && PositionOf(t, index[k], at[k], cells[k])
      invariant forall j, k :: 0 <= j < k < |at| ==> index[j] < index[k]
      invariant forall n :: 0 <= n < i && !t.cells[n].Empty() ==> n in index
    {
      if !t.cells[i].Empty() {
        ghost var p := Locate(t, i);
        InMore(index, i);
        cells, at, index := cells + [t.cells[i]], at + [p], index + [i];
      }
    }
    AllPositions(t, cells, at, index);
  }

  lemma InMore(index: seq<int>, i: int)
    ensures i in index + [i] && forall n :: n in index ==> n in index + [i]
  {
    assert (index + [i])[|index|] == i;
  }

  ghost predicate PositionOf(t: Grid, i: int, p: (int, int), cell: Cell)
    requires t.Valid()
  {
    && 0 <= p.0 < t.width && 0 <= p.1 < t.height && i == p.1 * t.width + p.0
    && 0 <= i < |t.cells| && cell == t.cells[i] && !cell.Empty()
  }

  lemma Locate(t: Grid, i: nat) returns (p: (int, int))
    requires t.Valid() && i < |t.cells| && !t.cells[i].Empty()
    ensures PositionOf(t, i, p, t.cells[i])
  {
    assert t.width != 0;
    p := (i % t.width, i / t.width);
    assert i == i / t.width * t.width + i % t.width;
    QuotientBelow(i, t.width, t.height);
  }

  lemma QuotientBelow(i: nat, width: nat, height: nat)
    requires width > 0 && i < height * width
    ensures i / width < height
  {
    assert i == i / width * width + i % width;
    MulMonotone(height, i / width, width);
  }

  lemma MulMonotone(a: int, b: int, width: nat)
    ensures a <= b ==> a * width <= b * width
  {
  }

  lemma AllPositions(t: Grid, cells: seq<Cell>, at: seq<(int, int)>, index: seq<int>)
    requires t.Valid() && |index| == |at| == |cells|
    requires forall k :: 0 <= k < |at| ==> PositionOf(t, index[k], at[k], cells[k])
    requires forall j, k :: 0 <= j < k < |at| ==> index[j] < index[k]
    requires forall n :: 0 <= n < |t.cells| && !t.cells[n].Empty() ==> n in index
    ensures Enumerates(t, cells, at)
  {
    forall j, k | 0 <= j < k < |at|
      ensures at[j] != at[k]
    {
      assert index[j] < index[k];
    }
    forall p: (int, int) | Holds(t, p.0, p.1).Some?
      ensures p in at
    {
      InRow(p.0, p.1, t.width, t.height);
      var n := p.1 * t.width + p.0;
      assert n in index;
      var k :| 0 <= k < |index| && index[k] == n;
      SameQuotient(p.1, p.0, at[k].1, at[k].0, t.width);
      assert at[k] == p;
    }
  }

  lemma PairingFromAssignment(t: Grid, cells: seq<Cell>, at: seq<(int, int)>,
                              wants: seq<Ingredient>, rule: Rule, a: seq<nat>)
    requires t.Valid() && Enumerates(t, cells, at) && |cells| == |wants|
    requires Assigns(cells, wants, rule, seq(|wants|, _ => false), 0, a)
    ensures ShapelessCrafts(t, wants, rule)
  {
    AllOccur(a);
    // The cell each ingredient went to.
    var back := seq(|wants|, w requires 0 <= w < |wants| => CellFor(a, w));
    var placed := seq(|wants|, w requires 0 <= w < |wants| => at[back[w]]);
    forall v, w | 0 <= v < w < |placed|
      ensures placed[v] != placed[w]
    {
      assert a[back[v]] == v && a[back[w]] == w;
    }
    forall p: (int, int) | Holds(t, p.0, p.1).Some?
      ensures p in placed
    {
      assert p in at;
      var k :| 0 <= k < |at| && at[k] == p;
      assert a[back[a[k]]] == a[k];
      assert placed[a[k]] == p;
    }
    assert Pairing(t, wants, rule, placed);
  }

  ghost function CellFor(a: seq<nat>, w: nat): (k: nat)
    requires w in a
    ensures k < |a| && a[k] == w
  {
    var k: nat :| k < |a| && a[k] == w;
    k
  }

  lemma AssignmentFromPairing(t: Grid, cells: seq<Cell>, at: seq<(int, int)>,
                              wants: seq<Ingredient>, rule: Rule, placed: seq<(int, int)>)
    requires t.Valid() && Enumerates(t, cells, at) && Pairing(t, wants, rule, placed)
    ensures |cells| == |wants|
    ensures Assignable(cells, wants, rule, seq(|wants|, _ => false), 0)
  {
    forall p
      ensures p in at <==> p in placed
    {
      if p in at {
        assert Holds(t, p.0, p.1).Some?;
      }
      if p in placed {
        assert Holds(t, p.0, p.1).Some?;
      }
    }
    SameElementsSameLength(at, placed);
    var a := seq(|cells|, k requires 0 <= k < |cells| => WantAt(placed, at[k]));
    forall j, k | 0 <= j < k < |a|
      ensures a[j] != a[k]
    {
      assert placed[a[j]] == at[j] && placed[a[k]] == at[k];
    }
    assert Assigns(cells, wants, rule, seq(|wants|, _ => false), 0, a);
  }

  ghost function WantAt(placed: seq<(int, int)>, p: (int, int)): (w: nat)
    requires p in placed
    ensures w < |placed| && placed[w] == p
  {
    var w: nat :| w < |placed| && placed[w] == p;
    w
  }

  /** True exactly when the occupied cells and the ingredients can be paired one to one. */
  method ShapelessMatch(wants: seq<Ingredient>, rule: Rule, t: Grid) returns (matched: bool)
    requires t.Valid()
    ensures matched <==> ShapelessCrafts(t, wants, rule)
  {
    var cells, at := OccupiedCells(t);
    if ShapelessCrafts(t, wants, rule) {
      ghost var placed: seq<(int, int)> :| Pairing(t, wants, rule, placed);
      AssignmentFromPairing(t, cells, at, wants, rule, placed);
    }
    if |cells| != |wants| {
      return false;
    }
    var used := new bool[|wants|](_ => false);
    assert used[..] == seq(|wants|, _ => false);
    ghost var free := used[..];
    matched := Pair(cells, wants, rule, used, 0);
    if matched {
      ghost var a :| Assigns(cells, wants, rule, free, 0, a);
      PairingFromAssignment(t, cells, at, wants, rule, a);
    }
  }
}
