/** Tab stops: setting them up, and moving to the next or previous ones. */
module TabStops {
  import opened Sequences

  /** The first stop right of x, or the last column. */
  function NextStop(tabs: set<int>, cols: int, x: int): (r: int)
    requires 1 <= cols && 0 <= x
    ensures 0 <= r < cols
    decreases cols - x
  {
    if x + 1 >= cols then cols - 1
    else if x + 1 in tabs then x + 1
    else NextStop(tabs, cols, x + 1)
  }

  /** The first stop left of x, or column 0. */
  function PrevStop(tabs: set<int>, cols: int, x: int): (r: int)
    requires 1 <= cols && 0 <= x <= cols
    ensures 0 <= r < cols && r <= x
  {
    if x <= 1 then 0
    else if x - 1 in tabs then x - 1
    else PrevStop(tabs, cols, x - 1)
  }

  function ForwardTabs(tabs: set<int>, cols: int, x: int, n: nat): (r: int)
    requires 1 <= cols && 0 <= x <= cols
    ensures 0 <= r <= cols
    decreases n
  {
    if n == 0 then x else ForwardTabs(tabs, cols, NextStop(tabs, cols, x), n - 1)
  }

  function BackwardTabs(tabs: set<int>, cols: int, x: int, n: nat): (r: int)
    requires 1 <= cols && 0 <= x <= cols
    ensures 0 <= r <= cols
    decreases n
  {
    if n == 0 then x else BackwardTabs(tabs, cols, PrevStop(tabs, cols, x), n - 1)
  }

  predicate EveryEighth(start: int, i: int) { (i - start) % 8 == 0 }

  /** Stops every eight columns from the given start. */
  function StopsFrom(start: int, cols: int): set<int> {
    set i | start <= i < cols && EveryEighth(start, i)
  }

  /** `setupStops(i)` with the column count that is current when it runs. */
  function SetupStops(tabs: set<int>, cols: int, i: int): set<int>
    requires 1 <= cols && 0 <= i <= cols
  {
    tabs + StopsFrom(if i in tabs then i else PrevStop(tabs, cols, i), cols)
  }

  /** The stops strictly between two columns. */
  ghost function Between(tabs: set<int>, lo: int, hi: int): set<int> {
    set t | t in tabs && lo < t < hi
  }

  lemma {:induction false} NextStopIsFirst(tabs: set<int>, cols: int, x: int)
    requires 1 <= cols && 0 <= x
    ensures var r := NextStop(tabs, cols, x);
      if Between(tabs, x, cols) == {} then r == cols - 1
      else r in tabs && x < r && Between(tabs, x, r) == {}
    decreases cols - x
  {
    if x + 1 < cols && x + 1 !in tabs {
      NextStopIsFirst(tabs, cols, x + 1);
      assert Between(tabs, x, cols) == Between(tabs, x + 1, cols);
      var r := NextStop(tabs, cols, x);
      assert Between(tabs, x, r) == Between(tabs, x + 1, r);
    } else if x + 1 < cols {
      assert x + 1 in Between(tabs, x, cols);
    }
  }

  lemma {:induction false} PrevStopIsLast(tabs: set<int>, cols: int, x: int)
    requires 1 <= cols && 0 <= x <= cols
    ensures var r := PrevStop(tabs, cols, x);
      if Between(tabs, 0, x) == {} then r == 0
      else r in tabs && 0 < r < x && Between(tabs, r, x) == {}
  {
    if x > 1 && x - 1 !in tabs {
      PrevStopIsLast(tabs, cols, x - 1);
      assert Between(tabs, 0, x) == Between(tabs, 0, x - 1);
      var r := PrevStop(tabs, cols, x);
      assert Between(tabs, r, x) == Between(tabs, r, x - 1);
    } else if x > 1 {
      assert x - 1 in Between(tabs, 0, x);
    }
  }

  /** CHT n lands on the n-th stop right of the cursor, or on the last column when
      there are fewer. */
  lemma {:induction false} ForwardReachesNth(tabs: set<int>, cols: int, x: int, n: nat)
    requires 1 <= cols && 0 <= x <= cols && n >= 1
    ensures var r := ForwardTabs(tabs, cols, x, n);
      if |Between(tabs, x, cols)| >= n
      then r in tabs && x < r < cols && |Between(tabs, x, r + 1)| == n
      else r == cols - 1
    decreases n
  {
    var z := NextStop(tabs, cols, x);
    NextStopIsFirst(tabs, cols, x);
    if Between(tabs, x, cols) == {} {
      StaysAtEdge(tabs, cols, n - 1);
    } else {
      assert Between(tabs, x, cols) == {z} + Between(tabs, z, cols);
      assert Between(tabs, x, z + 1) == {z};
      if n > 1 {
        ForwardReachesNth(tabs, cols, z, n - 1);
        var r := ForwardTabs(tabs, cols, x, n);
        if |Between(tabs, x, cols)| >= n {
          assert Between(tabs, x, r + 1) == {z} + Between(tabs, z, r + 1);
        }
      }
    }
  }

  lemma {:induction false} StaysAtEdge(tabs: set<int>, cols: int, n: nat)
    requires 1 <= cols
    ensures ForwardTabs(tabs, cols, cols - 1, n) == cols - 1
    ensures BackwardTabs(tabs, cols, 0, n) == 0
  {
    if n > 0 { StaysAtEdge(tabs, cols, n - 1); }
  }

  /** CBT n lands on the n-th stop left of the cursor, or on column 0. */
  lemma {:induction false} BackwardReachesNth(tabs: set<int>, cols: int, x: int, n: nat)
    requires 1 <= cols && 0 <= x <= cols && n >= 1
    ensures var r := BackwardTabs(tabs, cols, x, n);
      if |Between(tabs, 0, x)| >= n
      then r in tabs && 0 < r < x && |Between(tabs, r - 1, x)| == n
      else r == 0
    decreases n
  {
    var z := PrevStop(tabs, cols, x);
    PrevStopIsLast(tabs, cols, x);
    if Between(tabs, 0, x) == {} {
      StaysAtEdge(tabs, cols, n - 1);
    } else {
      assert Between(tabs, 0, x) == {z} + Between(tabs, 0, z);
      assert Between(tabs, z - 1, x) == {z};
      if n > 1 {
        BackwardReachesNth(tabs, cols, z, n - 1);
        var r := BackwardTabs(tabs, cols, x, n);
        if |Between(tabs, 0, x)| >= n {
          assert Between(tabs, r - 1, x) == {z} + Between(tabs, r - 1, z);
        }
      }
    }
  }
}
