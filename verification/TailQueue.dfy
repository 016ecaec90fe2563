/** The TAILQ macros: a doubly linked list whose back links are addresses of next fields,
    and whose head knows the address of the last next field. */
module TailQueue {
  import opened Basics

  /** The address of a pointer to an element: the first pointer of a head, or the next
      field of an element. */
  datatype Loc = Nowhere | FirstOf(h: Head) | NextOf(e: Elm)

  class Elm {
    var next: Elm?
    var prev: Loc

    constructor ()
    {
      next, prev := null, Nowhere;
    }
  }

  function Cell(l: Loc): set<object> {
    match l
    case Nowhere => {}
    case FirstOf(h) => {h}
    case NextOf(e) => {e}
  }

  /** `*l`. */
  function Load(l: Loc): Elm?
    requires l != Nowhere
    reads Cell(l)
  {
    match l
    case FirstOf(h) => h.first
    case NextOf(e) => e.next
  }

  /** A head and an element's link field are both a pointer to an element followed by an
      address; this is the address that follows the pointer at `l`. */
  function SecondWord(l: Loc): Loc
    requires l != Nowhere
    reads Cell(l)
  {
    match l
    case FirstOf(h) => h.last
    case NextOf(e) => e.prev
  }

  /** `*l = v`. */
  method Store(l: Loc, v: Elm?)
    requires l != Nowhere
    modifies (if l.FirstOf? then {l.h} else {})`first, (if l.NextOf? then {l.e} else {})`next
    ensures Load(l) == v
    ensures l.FirstOf? ==> l.h.first == v
    ensures l.NextOf? ==> l.e.next == v
  {
    match l {
      case FirstOf(h) => h.first := v;
      case NextOf(e) => e.next := v;
    }
  }

  class Head {
    var first: Elm?
    var last: Loc
    ghost var elms: seq<Elm>

    /** The address that holds element `i`, or the final null. */
    ghost function Holder(i: nat): Loc
      requires i <= |elms|
      reads this
    {
      if i == 0 then FirstOf(this) else NextOf(elms[i - 1])
    }

    ghost predicate Valid()
      reads this, elms
    {
      && Distinct(elms)
      && first == (if elms == [] then null else elms[0])
      && (forall i {:trigger elms[i].next} :: 0 <= i < |elms| ==>
            elms[i].next == if i + 1 < |elms| then elms[i + 1] else null)
      && (forall i {:trigger elms[i].prev} :: 0 <= i < |elms| ==> elms[i].prev == Holder(i))
      && last == Holder(|elms|)
    }

    ghost function IndexOf(e: Elm): (i: nat)
      requires e in elms
      reads this
      ensures i < |elms| && elms[i] == e
    {
      var i: nat :| i < |elms| && elms[i] == e; i
    }

    constructor Init()
      ensures Valid() && elms == []
    {
      first, elms := null, [];
      new;
      last := FirstOf(this);
    }

    /** What the locations of a valid list contain. */
    lemma HolderLoads(i: nat)
      requires Valid() && i <= |elms|
      ensures Holder(i) != Nowhere
      ensures Cell(Holder(i)) == if i == 0 then {this} else {elms[i - 1]}
      ensures Load(Holder(i)) == if i < |elms| then elms[i] else null
      ensures SecondWord(Holder(i)) == if i == 0 then last else Holder(i - 1)
    {
    }

    // ----- reading

    /** TAILQ_LAST, through the cast of the last next field to a head. */
    method Last() returns (e: Elm?)
      requires Valid()
      ensures e == if elms == [] then null else elms[|elms| - 1]
    {
      HolderLoads(|elms|);
      var w := SecondWord(last);
      if elms != [] { HolderLoads(|elms| - 1); }
      e := Load(w);
    }

    /** TAILQ_PREV, through the cast of the previous next field to a head. */
    method Prev(elm: Elm) returns (e: Elm?)
      requires Valid() && elm in elms
      ensures e == if elm == elms[0] then null else elms[IndexOf(elm) - 1]
    {
      ghost var i := IndexOf(elm);
      OnlyAt<Elm>(elms, i);
      HolderLoads(i);
      HolderLoads(|elms|);
      var w := SecondWord(elm.prev);
      if i > 0 { HolderLoads(i - 1); }
      e := Load(w);
    }

    /** TAILQ_LAST_FAST: the containing element of the last next field. */
    method LastFast() returns (e: Elm?)
      requires Valid()
      ensures e == if elms == [] then null else elms[|elms| - 1]
    {
      e := if first == null then null else last.e;
    }

    /** TAILQ_FOREACH_REVERSE visits the elements from the last to the first. */
    method ForeachReverse() returns (visited: seq<Elm>)
      requires Valid()
      ensures |visited| == |elms|
      ensures forall i :: 0 <= i < |elms| ==> visited[i] == elms[|elms| - 1 - i]
    {
      visited := [];
      var e := Last();
      while e != null
        invariant |visited| <= |elms|
        invariant forall i :: 0 <= i < |visited| ==> visited[i] == elms[|elms| - 1 - i]
        invariant e == if |visited| == |elms| then null else elms[|elms| - 1 - |visited|]
        decreases |elms| - |visited|
      {
        ghost var k := |elms| - 1 - |visited|;
        visited := visited + [e];
        OnlyAt<Elm>(elms, k);
        assert IndexOf(e) == k;
        e := Prev(e);
      }
    }

    // ----- insertion

    /** Links of the elements `s` with `x` linked in at position `i` make a valid list. */
    ghost predicate Spliced(s: seq<Elm>, i: nat, x: Elm)
      requires i <= |s|
      reads this, s, x
    {
      && first == (if i == 0 then x else s[0])
      && last == NextOf(if i == |s| then x else s[|s| - 1])
      && x.next == (if i < |s| then s[i] else null)
      && x.prev == (if i == 0 then FirstOf(this) else NextOf(s[i - 1]))
      && (forall k {:trigger s[k].next} :: 0 <= k < |s| ==>
            s[k].next == if k + 1 == i then x else if k + 1 < |s| then s[k + 1] else null)
      && (forall k {:trigger s[k].prev} :: 0 <= k < |s| ==>
            s[k].prev == if k == i then NextOf(x) else if k == 0 then FirstOf(this) else NextOf(s[k - 1]))
    }

    lemma SplicedIsValid(s: seq<Elm>, i: nat, x: Elm)
      requires i <= |s| && Distinct(s) && x !in s && Spliced(s, i, x)
      requires elms == InsertAt(s, i, x)
      ensures Valid()
    {
      InsertAtDistinct(s, i, x);
      var t := elms;
      forall k {:trigger t[k].next} | 0 <= k < |t| ensures t[k].next == if k + 1 < |t| then t[k + 1] else null {
        if k < i { assert t[k] == s[k]; } else if k > i { assert t[k] == s[k - 1]; }
      }
      forall k {:trigger t[k].prev} | 0 <= k < |t| ensures t[k].prev == Holder(k) {
        if k < i { assert t[k] == s[k]; } else if k > i { assert t[k] == s[k - 1]; }
      }
    }

    method InsertHead(elm: Elm)
      requires Valid() && elm !in elms
      modifies this, elms, elm
      ensures Valid() && elms == [elm] + old(elms)
    {
      if elms != [] { OnlyAt<Elm>(elms, 0); }
      elm.next := first;
      if elm.next != null {
        first.prev := NextOf(elm);
      } else {
        last := NextOf(elm);
      }
      first := elm;
      elm.prev := FirstOf(this);
      ghost var s := elms;
      elms := InsertAt(s, 0, elm);
      SplicedIsValid(s, 0, elm);
    }

    method InsertTail(elm: Elm)
      requires Valid() && elm !in elms
      modifies this, elms, elm
      ensures Valid() && elms == old(elms) + [elm]
    {
      ConcatDistinct(elms, [elm]);
      if elms != [] { OnlyAt<Elm>(elms, |elms| - 1); }
      HolderLoads(|elms|);
      elm.next := null;
      elm.prev := last;
      Store(last, elm);
      last := NextOf(elm);
      elms := elms + [elm];
    }

    method InsertAfter(listelm: Elm, elm: Elm)
      requires Valid() && listelm in elms && elm !in elms
      modifies this, elms, elm
      ensures Valid()
      ensures elms == InsertAt(old(elms), old(IndexOf(listelm)) + 1, elm)
    {
      ghost var s, i := elms, IndexOf(listelm);
      OnlyAt<Elm>(s, i);
      if i + 1 < |s| { OnlyAt<Elm>(s, i + 1); }
      elm.next := listelm.next;
      if elm.next != null {
        elm.next.prev := NextOf(elm);
      } else {
        last := NextOf(elm);
      }
      listelm.next := elm;
      elm.prev := NextOf(listelm);
      elms := InsertAt(s, i + 1, elm);
      SplicedIsValid(s, i + 1, elm);
    }

    // ----- removal and replacement

    /** Links of the elements `s` that bypass position `i` make a valid list of the others. */
    ghost predicate Bypassed(s: seq<Elm>, i: nat)
      requires i < |s|
      reads this, s
    {
      && first == (if |s| == 1 then null else if i == 0 then s[1] else s[0])
      && last == (if |s| == 1 then FirstOf(this) else NextOf(if i + 1 == |s| then s[|s| - 2] else s[|s| - 1]))
      && (forall k {:trigger s[k].next} :: 0 <= k < |s| && k != i && k + 1 != i ==>
            s[k].next == if k + 1 < |s| then s[k + 1] else null)
      && (forall k {:trigger s[k].prev} :: 0 <= k < |s| && k != i && k != i + 1 ==>
            s[k].prev == if k == 0 then FirstOf(this) else NextOf(s[k - 1]))
      && (i > 0 ==> s[i - 1].next == if i + 1 < |s| then s[i + 1] else null)
      && (i + 1 < |s| ==> s[i + 1].prev == if i == 0 then FirstOf(this) else NextOf(s[i - 1]))
    }

    lemma BypassedIsValid(s: seq<Elm>, i: nat)
      requires i < |s| && Distinct(s) && Bypassed(s, i)
      requires elms == RemoveAt(s, i)
      ensures Valid()
    {
      RemoveAtDistinct(s, i);
      var t := elms;
      forall k {:trigger t[k].next} | 0 <= k < |t| ensures t[k].next == if k + 1 < |t| then t[k + 1] else null {
        if k < i { assert t[k] == s[k]; } else { assert t[k] == s[k + 1]; }
      }
      forall k {:trigger t[k].prev} | 0 <= k < |t| ensures t[k].prev == Holder(k) {
        if k < i { assert t[k] == s[k]; } else { assert t[k] == s[k + 1]; }
      }
    }

    method Remove(elm: Elm)
      requires Valid() && elm in elms
      modifies this, elms
      ensures Valid()
      ensures elms == RemoveAt(old(elms), old(IndexOf(elm)))
    {
      ghost var s, i := elms, IndexOf(elm);
      if i > 0 { OnlyAt<Elm>(s, i - 1); }
      if i + 1 < |s| { OnlyAt<Elm>(s, i + 1); }
      HolderLoads(i);
      ghost var holder := if i == 0 then FirstOf(this) else NextOf(s[i - 1]);
      assert elm.prev == holder;
      if elm.next != null {
        elm.next.prev := elm.prev;
      } else {
        last := elm.prev;
      }
      assert elm.prev == holder && elm.next == if i + 1 < |s| then s[i + 1] else null;
      // as in Store(elm.prev, elm.next)
      match elm.prev {
        case FirstOf(h) => h.first := elm.next;
        case NextOf(e) => e.next := elm.next;
      }
      forall k {:trigger s[k].next} | 0 <= k < |s| && k + 1 != i ensures s[k].next == old(s[k].next) {
        assert holder != NextOf(s[k]);
      }
      forall k {:trigger s[k].prev} | 0 <= k < |s| && k != i + 1 ensures s[k].prev == old(s[k].prev) {
      }
      elms := RemoveAt(s, i);
      BypassedIsValid(s, i);
    }

    method Replace(elm: Elm, elm2: Elm)
      requires Valid() && elm in elms && elm2 !in elms
      modifies this, elms, elm2
      ensures Valid()
      ensures elms == old(elms)[old(IndexOf(elm)) := elm2]
    {
      ghost var s, i := elms, IndexOf(elm);
      if i > 0 { OnlyAt<Elm>(s, i - 1); }
      if i + 1 < |s| { OnlyAt<Elm>(s, i + 1); }
      HolderLoads(i);
      elm2.next := elm.next;
      if elm2.next != null {
        elm2.next.prev := NextOf(elm2);
      } else {
        last := NextOf(elm2);
      }
      elm2.prev := elm.prev;
      Store(elm2.prev, elm2);
      forall k {:trigger s[k].next} | 0 <= k < |s| && k + 1 != i ensures s[k].next == old(s[k].next) {
      }
      forall k {:trigger s[k].prev} | 0 <= k < |s| && k != i + 1 ensures s[k].prev == old(s[k].prev) {
      }
      elms := s[i := elm2];
      ReplacedIsValid(s, i, elm2);
    }

    /** Links of the elements `s` with `x` in place of element `i`. */
    ghost predicate Replaced(s: seq<Elm>, i: nat, x: Elm)
      requires i < |s|
      reads this, s, x
    {
      && first == (if i == 0 then x else s[0])
      && last == NextOf(if i + 1 == |s| then x else s[|s| - 1])
      && x.next == (if i + 1 < |s| then s[i + 1] else null)
      && x.prev == (if i == 0 then FirstOf(this) else NextOf(s[i - 1]))
      && (forall k {:trigger s[k].next} :: 0 <= k < |s| && k != i && k + 1 != i ==>
            s[k].next == if k + 1 < |s| then s[k + 1] else null)
      && (forall k {:trigger s[k].prev} :: 0 <= k < |s| && k != i && k != i + 1 ==>
            s[k].prev == if k == 0 then FirstOf(this) else NextOf(s[k - 1]))
      && (i > 0 ==> s[i - 1].next == x)
      && (i + 1 < |s| ==> s[i + 1].prev == NextOf(x))
    }

    lemma ReplacedIsValid(s: seq<Elm>, i: nat, x: Elm)
      requires i < |s| && Distinct(s) && x !in s && Replaced(s, i, x)
      requires elms == s[i := x]
      ensures Valid()
    {
      UpdateDistinct(s, i, x);
      var t := elms;
      forall k {:trigger t[k].next} | 0 <= k < |t| ensures t[k].next == if k + 1 < |t| then t[k + 1] else null {
        if k != i { assert t[k] == s[k]; }
      }
      forall k {:trigger t[k].prev} | 0 <= k < |t| ensures t[k].prev == Holder(k) {
        if k != i { assert t[k] == s[k]; }
      }
    }

    // ----- two lists

    ghost predicate Apart(other: Head)
      reads this, other
    {
      && this != other
      && forall k {:trigger elms[k]} :: 0 <= k < |elms| ==> elms[k] !in other.elms
    }

    /** Links of `a` and of `b`, with the last of `a` linked to the first of `b`. */
    ghost predicate Joined(a: seq<Elm>, b: seq<Elm>)
      requires b != []
      reads this, a, b
    {
      && first == (if a == [] then b[0] else a[0]) && last == NextOf(b[|b| - 1])
      && (forall k {:trigger a[k].next} :: 0 <= k < |a| ==> a[k].next == if k + 1 < |a| then a[k + 1] else b[0])
      && (forall k {:trigger b[k].next} :: 0 <= k < |b| ==> b[k].next == if k + 1 < |b| then b[k + 1] else null)
      && (forall k {:trigger a[k].prev} :: 0 <= k < |a| ==>
            a[k].prev == if k == 0 then FirstOf(this) else NextOf(a[k - 1]))
      && (forall k {:trigger b[k].prev} :: 0 <= k < |b| ==>
            b[k].prev == if k > 0 then NextOf(b[k - 1]) else if a == [] then FirstOf(this) else NextOf(a[|a| - 1]))
    }

    lemma JoinedIsValid(a: seq<Elm>, b: seq<Elm>)
      requires b != [] && Joined(a, b) && elms == a + b
      requires Distinct(a) && Distinct(b)
      requires forall k {:trigger a[k]} :: 0 <= k < |a| ==> a[k] !in b
      ensures Valid()
    {
      ConcatDistinct(a, b);
      forall k {:trigger elms[k].next} | 0 <= k < |elms|
        ensures elms[k].next == if k + 1 < |elms| then elms[k + 1] else null
      {
        if k < |a| { assert elms[k] == a[k]; } else { assert elms[k] == b[k - |a|]; }
      }
      forall k {:trigger elms[k].prev} | 0 <= k < |elms| ensures elms[k].prev == Holder(k) {
        if k < |a| { assert elms[k] == a[k]; } else { assert elms[k] == b[k - |a|]; }
      }
    }

    method Concat(head2: Head)
      requires Valid() && head2.Valid() && Apart(head2)
      modifies this, elms, head2, head2.elms
      ensures Valid() && head2.Valid()
      ensures elms == old(elms) + old(head2.elms) && head2.elms == []
    {
      if head2.first != null {
        ghost var (a, b) := (elms, head2.elms);
        if a != [] { OnlyAt<Elm>(a, |a| - 1); }
        OnlyAt<Elm>(b, 0);
        HolderLoads(|a|);
        assert last == if a == [] then FirstOf(this) else NextOf(a[|a| - 1]);
        Store(last, head2.first);
        head2.first.prev := last;
        last := head2.last;
        head2.first := null;
        head2.last := FirstOf(head2);
        elms, head2.elms := a + b, [];
        JoinedIsValid(a, b);
      }
    }

    method Swap(head2: Head)
      requires Valid() && head2.Valid() && Apart(head2)
      modifies this, elms, head2, head2.elms
      ensures Valid() && head2.Valid()
      ensures elms == old(head2.elms) && head2.elms == old(elms)
    {
      if elms != [] { OnlyAt<Elm>(elms, 0); }
      if head2.elms != [] { OnlyAt<Elm>(head2.elms, 0); }
      var swapFirst := first;
      var swapLast := last;
      first := head2.first;
      last := head2.last;
      head2.first := swapFirst;
      head2.last := swapLast;
      swapFirst := first;
      if swapFirst != null {
        swapFirst.prev := FirstOf(this);
      } else {
        last := FirstOf(this);
      }
      swapFirst := head2.first;
      if swapFirst != null {
        swapFirst.prev := FirstOf(head2);
      } else {
        head2.last := FirstOf(head2);
      }
      elms, head2.elms := head2.elms, elms;
    }
  }

  /** TAILQ_INSERT_BEFORE gets no head: only the proof knows on which list `listelm` is. */
  method InsertBefore(listelm: Elm, elm: Elm, ghost head: Head)
    requires head.Valid() && listelm in head.elms && elm !in head.elms
    modifies head, head.elms, elm
    ensures head.Valid()
    ensures head.elms == InsertAt(old(head.elms), old(head.IndexOf(listelm)), elm)
  {
    ghost var s, i := head.elms, head.IndexOf(listelm);
    OnlyAt<Elm>(s, i);
    if i > 0 { OnlyAt<Elm>(s, i - 1); }
    head.HolderLoads(i);
    elm.prev := listelm.prev;
    elm.next := listelm;
    assert listelm.prev == if i == 0 then FirstOf(head) else NextOf(s[i - 1]);
    Store(listelm.prev, elm);
    listelm.prev := NextOf(elm);
    forall k {:trigger s[k].next} | 0 <= k < |s| && k + 1 != i ensures s[k].next == old(s[k].next) {
    }
    forall k {:trigger s[k].prev} | 0 <= k < |s| && k != i ensures s[k].prev == old(s[k].prev) {
    }
    head.elms := InsertAt(s, i, elm);
    head.SplicedIsValid(s, i, elm);
  }
}
