/** The towers of Hanoi on three arrays: zeros, then disks of increasing size; the right
    end is the bottom.  The pile height N of the program is the length of the arrays. */
module Hanoi {
  import opened Basics
  import opened HanoiGame

  /** Disk sizes from the top down. */
  ghost predicate Increasing(d: seq<int>) {
    (forall i :: 0 <= i < |d| ==> d[i] > 0) && Ascending(d)
  }

  /** The array holds the disks `d` at its right end, and zeros before them. */
  ghost predicate Holds(a: array<int>, d: seq<int>)
    reads a
  {
    && |d| <= a.Length
    && Increasing(d)
    && (forall i :: 0 <= i < a.Length - |d| ==> a[i] == 0)
    && a[a.Length - |d|..] == d
  }

  /** How many slots are free above the first disk. */
  ghost function FreeSlots(s: seq<int>): nat {
    if s == [] || s[0] != 0 then 0 else 1 + FreeSlots(s[1..])
  }

  lemma {:induction false} FreeSlotsAre(s: seq<int>, k: nat)
    requires k <= |s| && (forall i :: 0 <= i < k ==> s[i] == 0) && (k < |s| ==> s[k] != 0)
    ensures FreeSlots(s) == k
  {
    if k != 0 {
      FreeSlotsAre(s[1..], k - 1);
    }
  }

  lemma HoldsFreeSlots(a: array<int>, d: seq<int>)
    requires Holds(a, d)
    ensures |d| == a.Length - FreeSlots(a[..])
  {
    if d != [] {
      assert a[a.Length - |d|] == a[a.Length - |d|..][0] == d[0];
    }
    FreeSlotsAre(a[..], a.Length - |d|);
  }

  /** An array holds at most one tower, so `Holds` describes it completely. */
  lemma HoldsUnique(a: array<int>, d: seq<int>, e: seq<int>)
    requires Holds(a, d) && Holds(a, e)
    ensures d == e
  {
    HoldsFreeSlots(a, d);
    HoldsFreeSlots(a, e);
  }

  /** Every disk of `above` may lie on every disk of `below`. */
  ghost predicate AllBelow(above: seq<int>, below: seq<int>) {
    forall i, j :: 0 <= i < |above| && 0 <= j < |below| ==> above[i] < below[j]
  }

  lemma StackIncreasing(above: seq<int>, below: seq<int>)
    requires Increasing(above) && Increasing(below) && AllBelow(above, below)
    ensures Increasing(above + below)
  {
    var d := above + below;
    forall i, j | 0 <= i < j < |d| ensures d[i] < d[j] {
      assert d[i] == if i < |above| then above[i] else below[i - |above|];
      assert d[j] == if j < |above| then above[j] else below[j - |above|];
    }
  }

  lemma PartsIncreasing(d: seq<int>, n: nat)
    requires Increasing(d) && n <= |d|
    ensures Increasing(d[..n]) && Increasing(d[n..]) && AllBelow(d[..n], d[n..])
  {
  }

  /** `Move` takes the top disk of `source` to the lowest free slot of `dest`.  It is only
      called when there is such a disk and such a slot, and the disk is smaller than all
      disks of `dest`.  `step` records the move; `to` is the peg that `dest` stands for. */
  method Move(source: array<int>, dest: array<int>, ghost s: seq<int>, ghost d: seq<int>, ghost to: Peg)
    returns (moved: int, ghost step: Step)
    requires source != dest && Holds(source, s) && Holds(dest, d)
    requires s != [] && |d| < dest.Length
    requires AllBelow([s[0]], d)
    modifies source, dest
    ensures moved == s[0] && step == Step(moved, to)
    ensures Holds(source, s[1..]) && Holds(dest, [s[0]] + d)
  {
    ghost var free, room := source.Length - |s|, dest.Length - |d|;
    assert source[free] == source[free..][0];
    assert d != [] ==> dest[room] == dest[room..][0];
    var i, j := 0, 0;
    while i < source.Length && source[i] == 0
      invariant i <= free
    {
      i := i + 1;
    }
    while j < dest.Length && dest[j] == 0
      invariant j <= room
    {
      j := j + 1;
    }
    PartsIncreasing(s, 1);
    StackIncreasing([s[0]], d);
    ghost var below := dest[room..];
    dest[j - 1] := source[i];
    assert dest[room..] == below;
    assert dest[room - 1..] == [s[0]] + below;
    ghost var rest := source[free + 1..];
    source[i] := 0;
    assert source[free + 1..] == rest == s[1..];
    moved := dest[j - 1];
    step := Step(moved, to);
  }

  /** `Hanoi` moves the top `n` disks of `source` onto `dest` and leaves all other disks in
      place.  The moves it makes, in order, are those of the recursive solution of the game. */
  method Hanoi(n: nat, source: array<int>, dest: array<int>, spare: array<int>,
               ghost s: seq<int>, ghost d: seq<int>, ghost p: seq<int>, ghost a: Peg, ghost b: Peg, ghost c: Peg)
    returns (ghost trace: seq<Step>)
    requires n >= 1
    requires source != dest && source != spare && dest != spare && a != b && a != c && b != c
    requires source.Length == dest.Length == spare.Length
    requires Holds(source, s) && Holds(dest, d) && Holds(spare, p)
    requires n <= |s| && |s| + |d| + |p| <= source.Length
    requires AllBelow(s[..n], d) && AllBelow(s[..n], p)
    modifies source, dest, spare
    ensures Holds(source, s[n..]) && Holds(dest, s[..n] + d) && Holds(spare, p)
    ensures trace == Moves(s[..n], a, b, c) && |trace| == Pow2(n) - 1
    ensures TakesAmongLarger(trace, s[..n], a, b)
    decreases n
  {
    MovesTakeAmongLarger(s[..n], a, b, c);
    if n == 1 {
      assert [s[0]] == s[..1] && s[..1][..0] == [];
      var _, step := Move(source, dest, s, d, b);
      return [] + [step] + [];
    }
    ghost var top, disk, rest := s[..n - 1], s[n - 1], s[n..];
    assert s[..n][..n - 1] == top && s[..n][n - 1] == disk;
    TopOfStack(s, n, d, p);
    ghost var t1 := Hanoi(n - 1, source, spare, dest, s, p, d, a, c, b);
    var _, step := Move(source, dest, s[n - 1..], d, b);
    ghost var t2 := Hanoi(n - 1, spare, dest, source, top + p, [disk] + d, rest, c, b, a);
    trace := t1 + [step] + t2;
  }

  /** The whole program: a pile of `n` disks on the first array ends on the second, by
      legal moves, and no play of the game does that in fewer. */
  method Solve(n: nat) returns (a: array<int>, b: array<int>, c: array<int>, ghost trace: seq<Step>)
    requires n >= 1
    ensures a.Length == b.Length == c.Length == n
    ensures Holds(a, []) && Holds(b, UpTo(n)) && Holds(c, [])
    ensures Takes(trace, UpTo(n), A, B) && forall ms :: Takes(ms, UpTo(n), A, B) ==> |trace| <= |ms|
  {
    a, b, c := new int[n](i => i + 1), new int[n](_ => 0), new int[n](_ => 0);
    ghost var s := UpTo(n);
    assert a[0..] == s && b[n..] == [] && c[n..] == [];
    assert s[..n] == s;
    trace := Hanoi(n, a, b, c, s, [], [], A, B, C);
    assert s[..n] + [] == s && s[n..] == [];
    MovesTake(s, A, B, C);
    forall ms | Takes(ms, s, A, B) ensures |trace| <= |ms| {
      MovesAreOptimal(s, ms, A, B, C);
    }
  }

  ghost function UpTo(n: nat): (s: seq<int>)
    ensures |s| == n && Increasing(s)
  {
    seq(n, i => i + 1)
  }

  /** What the two recursive calls and the move between them rely on. */
  lemma TopOfStack(s: seq<int>, n: nat, d: seq<int>, p: seq<int>)
    requires 2 <= n <= |s| && Increasing(s)
    requires AllBelow(s[..n], d) && AllBelow(s[..n], p)
    ensures var (top, disk, rest) := (s[..n - 1], s[n - 1], s[n..]);
      && AllBelow(top, d) && AllBelow(top, p) && AllBelow([disk], d)
      && AllBelow(top, [disk] + d) && AllBelow(top, rest)
      && s[n - 1..] == [disk] + rest && s[n - 1..][1..] == rest && s[n - 1..][0] == disk
      && (top + p)[..n - 1] == top && (top + p)[n - 1..] == p
      && top + ([disk] + d) == s[..n] + d
  {
    var (top, disk, rest) := (s[..n - 1], s[n - 1], s[n..]);
    assert forall i :: 0 <= i < n - 1 ==> top[i] == s[..n][i];
    assert disk == s[..n][n - 1];
    forall i, j | 0 <= i < |top| && 0 <= j < |[disk] + d| ensures top[i] < ([disk] + d)[j] {
      if j > 0 {
        assert ([disk] + d)[j] == d[j - 1];
      }
    }
  }
}
