/** The game of the towers of Hanoi: which sequences of moves are legal, and how many moves
    any of them needs to take a pile to another peg. */
module HanoiGame {
  import opened Basics

  datatype Peg = A | B | C

  /** On which peg each disk is; a disk is named by its size. */
  type Config = map<int, Peg>

  datatype Step = Step(disk: int, to: Peg)

  /** Only the top disk of a peg moves, and only onto a larger one. */
  ghost predicate Legal(c: Config, m: Step) {
    && m.disk in c && m.to != c[m.disk]
    && forall e :: e in c && e < m.disk ==> c[e] != c[m.disk] && c[e] != m.to
  }

  function Do(c: Config, m: Step): Config {
    c[m.disk := m.to]
  }

  ghost predicate Playable(c: Config, ms: seq<Step>)
    decreases ms
  {
    ms == [] || (Legal(c, ms[0]) && Playable(Do(c, ms[0]), ms[1..]))
  }

  function After(c: Config, ms: seq<Step>): Config
    decreases ms
  {
    if ms == [] then c else After(Do(c, ms[0]), ms[1..])
  }

  lemma {:induction false} PlayInTurn(c: Config, ms: seq<Step>, ns: seq<Step>)
    requires Playable(c, ms) && Playable(After(c, ms), ns)
    ensures Playable(c, ms + ns) && After(c, ms + ns) == After(After(c, ms), ns)
    decreases ms
  {
    if ms == [] {
      assert ms + ns == ns;
    } else {
      assert (ms + ns)[1..] == ms[1..] + ns;
      PlayInTurn(Do(c, ms[0]), ms[1..], ns);
    }
  }

  /** All disks of `big` are larger than all disks of `c`. */
  ghost predicate Larger(big: Config, c: Config) {
    forall d, e :: d in big && e in c ==> e < d
  }

  /** A play is also legal, and does the same, when there are larger disks on any pegs. */
  lemma {:induction false} PlayAmongLarger(c: Config, ms: seq<Step>, big: Config)
    requires Playable(c, ms) && Larger(big, c)
    ensures Playable(big + c, ms) && After(big + c, ms) == big + After(c, ms)
    decreases ms
  {
    if ms != [] {
      var (c', m) := (big + c, ms[0]);
      forall e | e in c' && e < m.disk ensures c'[e] != c'[m.disk] && c'[e] != m.to {
        assert e in c;
      }
      assert Do(c', m) == big + Do(c, m);
      PlayAmongLarger(Do(c, m), ms[1..], big);
    }
  }

  lemma OneLarger(c: Config, ms: seq<Step>, x: int, r: Peg)
    requires Playable(c, ms) && forall e :: e in c ==> e < x
    ensures Playable(c[x := r], ms) && After(c[x := r], ms) == After(c, ms)[x := r]
  {
    DisksStay(c, ms);
    var big := map[x := r];
    assert c[x := r] == big + c && After(c, ms)[x := r] == big + After(c, ms);
    PlayAmongLarger(c, ms, big);
  }

  lemma OneMove(c: Config, m: Step)
    requires Legal(c, m)
    ensures Playable(c, [m]) && After(c, [m]) == Do(c, m)
  {
    assert [m][1..] == [];
  }

  /** A play, a move of a larger disk, and another play. */
  lemma PlayThree(c0: Config, t1: seq<Step>, c1: Config, t2: seq<Step>, c2: Config, x: int, p: Peg, q: Peg)
    requires Playable(c0, t1) && After(c0, t1) == c1 && Playable(c1, t2) && After(c1, t2) == c2
    requires c1.Keys == c0.Keys && (forall e :: e in c0 ==> e < x)
    requires Legal(c1[x := p], Step(x, q))
    ensures Playable(c0[x := p], t1 + [Step(x, q)] + t2)
    ensures After(c0[x := p], t1 + [Step(x, q)] + t2) == c2[x := q]
  {
    var m := Step(x, q);
    OneLarger(c0, t1, x, p);
    OneLarger(c1, t2, x, q);
    OneMove(c1[x := p], m);
    assert Do(c1[x := p], m) == c1[x := q];
    PlayInTurn(c0[x := p], t1, [m]);
    PlayInTurn(c0[x := p], t1 + [m], t2);
  }

  // ----- piles

  ghost predicate Ascending(ds: seq<int>) {
    forall i, j :: 0 <= i < j < |ds| ==> ds[i] < ds[j]
  }

  /** The disks `ds` are all on peg `p`. */
  ghost predicate Pile(c: Config, ds: seq<int>, p: Peg) {
    forall d :: d in ds ==> d in c && c[d] == p
  }

  /** The disks `ds` on peg `p`, and nothing else. */
  function All(ds: seq<int>, p: Peg): Config {
    map d | d in ds :: p
  }

  lemma AllSnoc(ds: seq<int>, p: Peg)
    requires ds != []
    ensures All(ds, p) == All(ds[..|ds| - 1], p)[ds[|ds| - 1] := p]
  {
    assert ds == ds[..|ds| - 1] + [ds[|ds| - 1]];
  }

  /** The play `ms` takes the disks `ds`, and nothing else, from peg `p` to peg `q`. */
  ghost predicate Takes(ms: seq<Step>, ds: seq<int>, p: Peg, q: Peg) {
    Playable(All(ds, p), ms) && After(All(ds, p), ms) == All(ds, q)
  }

  /** Two plays of a pile with a move of the next larger disk between them. */
  lemma TakesRecursion(t1: seq<Step>, t2: seq<Step>, top: seq<int>, x: int, a: Peg, b: Peg, c: Peg)
    requires a != b && a != c && b != c && forall d :: d in top ==> d < x
    requires Takes(t1, top, a, c) && Takes(t2, top, c, b)
    ensures Takes(t1 + [Step(x, b)] + t2, top + [x], a, b)
  {
    PlayThree(All(top, a), t1, All(top, c), t2, All(top, b), x, a, b);
    assert (top + [x])[..|top|] == top;
    AllSnoc(top + [x], a);
    AllSnoc(top + [x], b);
  }

  lemma TakesNothing(p: Peg, q: Peg)
    ensures Takes([], [], p, q)
  {
    assert All([], p) == All([], q);
  }

  /** The moves of the recursive solution for the disks `ds`, the last one the largest. */
  function Moves(ds: seq<int>, a: Peg, b: Peg, c: Peg): (ms: seq<Step>)
    ensures |ms| == Pow2(|ds|) - 1
    decreases ds
  {
    if ds == [] then []
    else
      var n := |ds| - 1;
      Moves(ds[..n], a, c, b) + [Step(ds[n], b)] + Moves(ds[..n], c, b, a)
  }

  /** They are a play that takes the pile from peg `a` to peg `b`. */
  lemma {:induction false} MovesTake(ds: seq<int>, a: Peg, b: Peg, c: Peg)
    requires Ascending(ds) && a != b && a != c && b != c
    ensures Takes(Moves(ds, a, b, c), ds, a, b)
    decreases ds
  {
    if ds == [] {
      TakesNothing(a, b);
    } else {
      var top := ds[..|ds| - 1];
      AscendingTop(ds);
      MovesTake(top, a, c, b);
      MovesTake(top, c, b, a);
      TakesRecursion(Moves(top, a, c, b), Moves(top, c, b, a), top, ds[|ds| - 1], a, b, c);
    }
  }

  /** The play `ms` takes the disks `ds` from peg `p` to peg `q`, and only these, whatever
      larger disks there are and wherever they are. */
  ghost predicate TakesAmongLarger(ms: seq<Step>, ds: seq<int>, p: Peg, q: Peg) {
    forall big | Larger(big, All(ds, p)) ::
      Playable(big + All(ds, p), ms) && After(big + All(ds, p), ms) == big + All(ds, q)
  }

  /** The moves of the recursive solution do that. */
  lemma MovesTakeAmongLarger(ds: seq<int>, a: Peg, b: Peg, c: Peg)
    requires Ascending(ds) && a != b && a != c && b != c
    ensures TakesAmongLarger(Moves(ds, a, b, c), ds, a, b)
  {
    MovesTake(ds, a, b, c);
    forall big | Larger(big, All(ds, a))
      ensures Playable(big + All(ds, a), Moves(ds, a, b, c))
      ensures After(big + All(ds, a), Moves(ds, a, b, c)) == big + All(ds, b)
    {
      PlayAmongLarger(All(ds, a), Moves(ds, a, b, c), big);
    }
  }

  lemma AscendingTop(ds: seq<int>)
    requires Ascending(ds) && ds != []
    ensures var (top, x) := (ds[..|ds| - 1], ds[|ds| - 1]);
      Ascending(top) && ds == top + [x] && forall d :: d in top ==> d < x
  {
    var (top, x) := (ds[..|ds| - 1], ds[|ds| - 1]);
    forall d | d in top ensures d < x {
      var i :| 0 <= i < |top| && top[i] == d;
      assert ds[i] == d;
    }
  }

  /** No play that takes the pile over has fewer moves. */
  lemma MovesAreOptimal(ds: seq<int>, ms: seq<Step>, a: Peg, b: Peg, c: Peg)
    requires Ascending(ds) && a != b && Takes(ms, ds, a, b)
    ensures |Moves(ds, a, b, c)| <= |ms|
  {
    TakesIsLong(ms, ds, a, b);
  }

  lemma PileOfAll(ds: seq<int>, p: Peg)
    ensures Pile(All(ds, p), ds, p)
  {
  }

  // ----- the lower bound

  /** Moves of disks of `ds`. */
  function Count(ms: seq<Step>, ds: seq<int>): nat {
    if ms == [] then 0 else (if ms[0].disk in ds then 1 else 0) + Count(ms[1..], ds)
  }

  lemma {:induction false} CountConcat(ms: seq<Step>, ns: seq<Step>, ds: seq<int>)
    ensures Count(ms + ns, ds) == Count(ms, ds) + Count(ns, ds)
  {
    if ms == [] {
      assert ms + ns == ns;
    } else {
      assert (ms + ns)[1..] == ms[1..] + ns;
      CountConcat(ms[1..], ns, ds);
    }
  }

  lemma {:induction false} CountMonotone(ms: seq<Step>, ds: seq<int>, es: seq<int>)
    requires forall d :: d in ds ==> d in es
    ensures Count(ms, ds) <= Count(ms, es) <= |ms|
  {
    if ms != [] {
      CountMonotone(ms[1..], ds, es);
    }
  }

  lemma {:induction false} PlaySplits(c: Config, ms: seq<Step>, j: nat)
    requires Playable(c, ms) && j <= |ms|
    ensures Playable(c, ms[..j]) && Playable(After(c, ms[..j]), ms[j..])
    ensures After(c, ms) == After(After(c, ms[..j]), ms[j..])
    decreases ms
  {
    if j == 0 {
      assert ms[0..] == ms;
    } else {
      var rest := ms[1..];
      assert ms[..j][1..] == rest[..j - 1] && rest[j - 1..] == ms[j..];
      PlaySplits(Do(c, ms[0]), rest, j - 1);
      PlayStep(c, ms);
      PlayStep(c, ms[..j]);
    }
  }

  lemma PlayStep(c: Config, ms: seq<Step>)
    requires ms != []
    ensures Playable(c, ms) <==> Legal(c, ms[0]) && Playable(Do(c, ms[0]), ms[1..])
    ensures After(c, ms) == After(Do(c, ms[0]), ms[1..])
  {
  }

  /** A disk that ends elsewhere moves, for the first time from where it was ... */
  lemma {:induction false} FirstMove(c: Config, ms: seq<Step>, d: int) returns (j: nat)
    requires Playable(c, ms) && d in c && d in After(c, ms) && After(c, ms)[d] != c[d]
    ensures j < |ms| && ms[j].disk == d
    ensures d in After(c, ms[..j]) && After(c, ms[..j])[d] == c[d]
    decreases ms
  {
    if ms[0].disk == d {
      j := 0;
    } else {
      j := FirstMove(Do(c, ms[0]), ms[1..], d);
      j := j + 1;
      assert ms[..j][1..] == ms[1..][..j - 1];
    }
  }

  /** ... and for the last time to where it ends. */
  lemma {:induction false} LastMove(c: Config, ms: seq<Step>, d: int) returns (j: nat)
    requires Playable(c, ms) && d in c && exists i :: 0 <= i < |ms| && ms[i].disk == d
    ensures j < |ms| && ms[j].disk == d
    ensures d in After(c, ms) && After(c, ms)[d] == ms[j].to
    ensures forall i :: j < i < |ms| ==> ms[i].disk != d
    decreases ms
  {
    var c', rest := Do(c, ms[0]), ms[1..];
    if i :| 0 <= i < |rest| && rest[i].disk == d {
      j := LastMove(c', rest, d);
      j := j + 1;
    } else {
      j := 0;
      forall i | 0 < i < |ms| ensures ms[i].disk != d {
        assert ms[i] == rest[i - 1];
      }
      Stays(c', rest, d);
    }
  }

  lemma {:induction false} Stays(c: Config, ms: seq<Step>, d: int)
    requires Playable(c, ms) && d in c && forall i :: 0 <= i < |ms| ==> ms[i].disk != d
    ensures d in After(c, ms) && After(c, ms)[d] == c[d]
    decreases ms
  {
    if ms != [] {
      forall i | 0 <= i < |ms[1..]| ensures ms[1..][i].disk != d {
        assert ms[1..][i] == ms[i + 1];
      }
      Stays(Do(c, ms[0]), ms[1..], d);
    }
  }

  lemma {:induction false} DisksStay(c: Config, ms: seq<Step>)
    requires Playable(c, ms)
    ensures After(c, ms).Keys == c.Keys
    decreases ms
  {
    if ms != [] {
      DisksStay(Do(c, ms[0]), ms[1..]);
    }
  }

  function Third(p: Peg, q: Peg): (r: Peg)
    requires p != q
    ensures r != p && r != q
  {
    if p != A && q != A then A else if p != B && q != B then B else C
  }

  /** When a disk moves, all smaller disks are piled on the third peg. */
  lemma SmallerAside(c: Config, m: Step, ds: seq<int>)
    requires Legal(c, m) && forall d :: d in ds ==> d in c && d < m.disk
    ensures Pile(c, ds, Third(c[m.disk], m.to)) && Pile(Do(c, m), ds, Third(c[m.disk], m.to))
  {
  }

  /** Taking a pile of `n` disks to another peg needs 2^n - 1 moves of these disks, whatever
      other disks there are and wherever they are. */
  lemma {:induction false} AtLeast(c: Config, ms: seq<Step>, ds: seq<int>, p: Peg, q: Peg)
    requires Playable(c, ms) && p != q && Ascending(ds)
    requires Pile(c, ds, p) && Pile(After(c, ms), ds, q)
    ensures Count(ms, ds) >= Pow2(|ds|) - 1
    decreases |ds|
  {
    if ds != [] {
      var d, small := ds[|ds| - 1], ds[..|ds| - 1];
      AscendingTop(ds);
      var f := FirstMove(c, ms, d);
      var before := FirstPart(c, ms, f, small, d, p);
      var l := LastMove(c, ms, d);
      var after := LastPart(c, ms, l, small, d, q);
      AtLeast(c, ms[..f], small, p, before);
      AtLeast(After(c, ms[..l + 1]), ms[l + 1..], small, after, q);
      CountThree(ms, f, l, d, small, ds);
    }
  }

  /** Up to the first move of disk `d` the smaller disks `small` go to a third peg. */
  lemma FirstPart(c: Config, ms: seq<Step>, f: nat, small: seq<int>, d: int, p: Peg) returns (r: Peg)
    requires Playable(c, ms) && f < |ms| && ms[f].disk == d && forall e :: e in small ==> e in c && e < d
    requires d in After(c, ms[..f]) && After(c, ms[..f])[d] == p
    ensures Playable(c, ms[..f]) && r != p && Pile(After(c, ms[..f]), small, r)
  {
    PlaySplits(c, ms, f);
    DisksStay(c, ms[..f]);
    var c' := After(c, ms[..f]);
    assert ms[f..][0] == ms[f];
    SmallerAside(c', ms[f], small);
    r := Third(c'[d], ms[f].to);
  }

  /** After the last move of disk `d` the smaller disks `small` come from a third peg. */
  lemma LastPart(c: Config, ms: seq<Step>, l: nat, small: seq<int>, d: int, q: Peg) returns (r: Peg)
    requires Playable(c, ms) && l < |ms| && ms[l] == Step(d, q) && forall e :: e in small ==> e in c && e < d
    ensures Playable(After(c, ms[..l + 1]), ms[l + 1..])
    ensures After(After(c, ms[..l + 1]), ms[l + 1..]) == After(c, ms)
    ensures r != q && Pile(After(c, ms[..l + 1]), small, r)
  {
    PlaySplits(c, ms, l);
    PlaySplits(c, ms, l + 1);
    DisksStay(c, ms[..l]);
    var c' := After(c, ms[..l]);
    assert ms[l..][0] == ms[l];
    SmallerAside(c', ms[l], small);
    r := Third(c'[d], q);
    AfterSnoc(c, ms, l);
  }

  lemma AfterSnoc(c: Config, ms: seq<Step>, l: nat)
    requires Playable(c, ms) && l < |ms|
    ensures After(c, ms[..l + 1]) == Do(After(c, ms[..l]), ms[l])
  {
    PlaySplits(c, ms, l + 1);
    PlaySplits(c, ms[..l + 1], l);
    assert ms[..l + 1][..l] == ms[..l] && ms[..l + 1][l..] == [ms[l]];
  }

  lemma CountThree(ms: seq<Step>, f: nat, l: nat, d: int, small: seq<int>, ds: seq<int>)
    requires f <= l < |ms| && ms[f].disk == d && d in ds && forall e :: e in small ==> e in ds
    ensures Count(ms, ds) >= Count(ms[..f], small) + 1 + Count(ms[l + 1..], small)
  {
    var mid := ms[f..l + 1];
    assert ms == ms[..f] + (mid + ms[l + 1..]);
    CountConcat(ms[..f], mid + ms[l + 1..], ds);
    CountConcat(mid, ms[l + 1..], ds);
    CountMonotone(ms[..f], small, ds);
    CountMonotone(ms[l + 1..], small, ds);
    assert mid[0].disk in ds;
  }

  /** No play that takes a pile of disks to another peg has fewer than 2^n - 1 moves. */
  lemma PlaysAreLong(c: Config, ms: seq<Step>, ds: seq<int>, p: Peg, q: Peg)
    requires Playable(c, ms) && p != q && Ascending(ds)
    requires Pile(c, ds, p) && Pile(After(c, ms), ds, q)
    ensures |ms| >= Pow2(|ds|) - 1
  {
    AtLeast(c, ms, ds, p, q);
    CountMonotone(ms, ds, ds);
  }

  lemma TakesIsLong(ms: seq<Step>, ds: seq<int>, p: Peg, q: Peg)
    requires Ascending(ds) && p != q && Takes(ms, ds, p, q)
    ensures |ms| >= Pow2(|ds|) - 1
  {
    PileOfAll(ds, p);
    PileOfAll(ds, q);
    PlaysAreLong(All(ds, p), ms, ds, p, q);
  }
}
