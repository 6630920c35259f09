/** Values shared by every module: UTF-16 code units, options, and the two
    block moves (up and down) that every line and cell operation reduces to. */
module Sequences {

  type CodeUnit = u: int | 0 <= u < 0x1_0000

  type Text = seq<CodeUnit>

  datatype Option<+T> = None | Some(value: T)

  function Min(a: int, b: int): int { if a <= b then a else b }

  function Max(a: int, b: int): int { if a >= b then a else b }

  /** The last n elements of s, or all of s when it is shorter. */
  function LastN<T>(s: seq<T>, n: nat): (r: seq<T>)
    ensures |r| == Min(n, |s|)
  {
    if n <= |s| then s[|s| - n..] else s
  }

  ghost predicate IsSuffix<T>(r: seq<T>, s: seq<T>) {
    |r| <= |s| && r == s[|s| - |r|..]
  }

  function Copies<T>(n: nat, v: T): (r: seq<T>)
    ensures |r| == n && forall i :: 0 <= i < n ==> r[i] == v
  {
    seq(n, _ => v)
  }

  /** Moves the block [a, b) up by n places and fills the vacated tail with v. */
  function ShiftUp<T>(s: seq<T>, a: nat, b: nat, n: nat, v: T): (r: seq<T>)
    requires a <= b <= |s|
    ensures |r| == |s|
  {
    var k := Min(n, b - a);
    s[..a] + s[a + k..b] + Copies(k, v) + s[b..]
  }

  /** Moves the block [a, b) down by n places and fills the vacated head with v. */
  function ShiftDown<T>(s: seq<T>, a: nat, b: nat, n: nat, v: T): (r: seq<T>)
    requires a <= b <= |s|
    ensures |r| == |s|
  {
    var k := Min(n, b - a);
    s[..a] + Copies(k, v) + s[a..b - k] + s[b..]
  }

  /** Overwrites [a, b) with v, lengthening s when b lies beyond its end. */
  function Fill<T>(s: seq<T>, a: nat, b: nat, v: T): (r: seq<T>)
    requires a <= |s|
    ensures |r| == if a < b then Max(|s|, b) else |s|
  {
    if b <= a then s else s[..a] + Copies(b - a, v) + s[Min(b, |s|)..]
  }

  /** The two moves, element by element. */
  lemma ShiftedElements<T>(s: seq<T>, a: nat, b: nat, n: nat, v: T)
    requires a <= b <= |s|
    ensures var up := ShiftUp(s, a, b, n, v); forall i {:trigger up[i]} :: 0 <= i < |s| ==>
      up[i] == if a <= i < b then (if i + n < b then s[i + n] else v) else s[i]
    ensures var down := ShiftDown(s, a, b, n, v); forall i {:trigger down[i]} :: 0 <= i < |s| ==>
      down[i] == if a <= i < b then (if a <= i - n then s[i - n] else v) else s[i]
  {
  }

  lemma FilledElements<T>(s: seq<T>, a: nat, b: nat, v: T)
    requires a <= |s|
    ensures var f := Fill(s, a, b, v); forall i {:trigger f[i]} :: 0 <= i < |f| ==> f[i] == if a <= i < b then v else s[i]
  {
  }

  /** `s.splice(i, 0, v)` for an index inside the array or just behind it. */
  function InsertAt<T>(s: seq<T>, i: nat, v: T): (r: seq<T>)
    requires i <= |s|
    ensures |r| == |s| + 1
  {
    s[..i] + [v] + s[i..]
  }

  /** `s.splice(i, 1)` for an index inside the array. */
  function RemoveAt<T>(s: seq<T>, i: nat): (r: seq<T>)
    requires i < |s|
    ensures |r| == |s| - 1
  {
    s[..i] + s[i + 1..]
  }

  /** One line inserted at a and the one pushed past b - 1 removed: a step of IL, RI and ICH. */
  lemma InsertThenRemove<T>(s: seq<T>, a: nat, b: nat, v: T)
    requires a <= b <= |s|
    ensures RemoveAt(InsertAt(s, a, v), b) == ShiftDown(s, a, b, 1, v)
    ensures RemoveAt(InsertAt(s, b, v), a) == ShiftUp(s, a, b, 1, v)
  {
    var down := InsertAt(s, a, v);
    var up := InsertAt(s, b, v);
    assert forall i {:trigger down[i]} :: 0 <= i < |down| ==>
      down[i] == if i < a then s[i] else if i == a then v else s[i - 1];
    assert forall i {:trigger up[i]} :: 0 <= i < |up| ==> up[i] == if i < b then s[i] else if i == b then v else s[i - 1];
    assert RemoveAt(down, b) == ShiftDown(s, a, b, 1, v);
    assert RemoveAt(up, a) == ShiftUp(s, a, b, 1, v);
  }

  /** The same two moves with the removal first: a step of SU and SD. */
  lemma RemoveThenInsert<T>(s: seq<T>, a: nat, b: nat, v: T)
    requires a < b <= |s|
    ensures InsertAt(RemoveAt(s, a), b - 1, v) == ShiftUp(s, a, b, 1, v)
    ensures InsertAt(RemoveAt(s, b - 1), a, v) == ShiftDown(s, a, b, 1, v)
  {
    var up := RemoveAt(s, a);
    var down := RemoveAt(s, b - 1);
    assert forall i {:trigger up[i]} :: 0 <= i < |up| ==> up[i] == if i < a then s[i] else s[i + 1];
    assert forall i {:trigger down[i]} :: 0 <= i < |down| ==> down[i] == if i < b - 1 then s[i] else s[i + 1];
    assert InsertAt(up, b - 1, v) == ShiftUp(s, a, b, 1, v);
    assert InsertAt(down, a, v) == ShiftDown(s, a, b, 1, v);
  }

  /** m steps and then n are m + n steps. */
  lemma ShiftsAdd<T>(s: seq<T>, a: nat, b: nat, m: nat, n: nat, v: T)
    requires a <= b <= |s|
    ensures ShiftUp(ShiftUp(s, a, b, m, v), a, b, n, v) == ShiftUp(s, a, b, m + n, v)
    ensures ShiftDown(ShiftDown(s, a, b, m, v), a, b, n, v) == ShiftDown(s, a, b, m + n, v)
  {
    hide ShiftUp, ShiftDown;
    var up, down := ShiftUp(s, a, b, m, v), ShiftDown(s, a, b, m, v);
    ShiftedElements(s, a, b, m, v);
    ShiftedElements(s, a, b, m + n, v);
    ShiftedElements(up, a, b, n, v);
    ShiftedElements(down, a, b, n, v);
    assert ShiftUp(up, a, b, n, v) == ShiftUp(s, a, b, m + n, v);
    assert ShiftDown(down, a, b, n, v) == ShiftDown(s, a, b, m + n, v);
  }

  lemma NoShift<T>(s: seq<T>, a: nat, b: nat, v: T)
    requires a <= b <= |s|
    ensures ShiftUp(s, a, b, 0, v) == s == ShiftDown(s, a, b, 0, v)
  {
  }

  /** A block move behind a prefix leaves the prefix alone. */
  lemma ShiftBehind<T>(p: seq<T>, s: seq<T>, a: nat, b: nat, n: nat, v: T)
    requires a <= b <= |s|
    ensures ShiftUp(p + s, |p| + a, |p| + b, n, v) == p + ShiftUp(s, a, b, n, v)
    ensures ShiftDown(p + s, |p| + a, |p| + b, n, v) == p + ShiftDown(s, a, b, n, v)
  {
    hide ShiftUp, ShiftDown;
    ShiftedElements(s, a, b, n, v);
    ShiftedElements(p + s, |p| + a, |p| + b, n, v);
  }

  /** Moving a block down and up again restores it but for its last min(n, b - a) elements. */
  lemma DownThenUp<T>(s: seq<T>, a: nat, b: nat, n: nat, v: T, w: T)
    requires a <= b <= |s|
    ensures ShiftUp(ShiftDown(s, a, b, n, v), a, b, n, w) == Fill(s, b - Min(n, b - a), b, w)
  {
    hide ShiftUp, ShiftDown, Fill;
    var down := ShiftDown(s, a, b, n, v);
    ShiftedElements(s, a, b, n, v);
    ShiftedElements(down, a, b, n, w);
    FilledElements(s, b - Min(n, b - a), b, w);
    assert |ShiftUp(down, a, b, n, w)| == |Fill(s, b - Min(n, b - a), b, w)|;
  }
}
