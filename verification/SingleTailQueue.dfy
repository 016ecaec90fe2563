/** The STAILQ macros: a singly linked list whose head knows the address of the last
    next field. */
module SingleTailQueue {
  import opened Basics

  /** The address of a pointer to an element. */
  datatype Loc = Nowhere | FirstOf(h: Head) | NextOf(e: Elm)

  class Elm {
    var next: Elm?

    constructor ()
    {
      next := null;
    }
  }

  /** `*l = v`. */
  method Store(l: Loc, v: Elm?)
    requires l != Nowhere
    modifies (if l.FirstOf? then {l.h} else {})`first, (if l.NextOf? then {l.e} else {})`next
    ensures l.FirstOf? ==> l.h.first == v
    ensures l.NextOf? ==> l.e.next == v
  {
    match l {
      case FirstOf(h) => h.first := v;
      case NextOf(e) => e.next := v;
    }
  }

  class Head {
    var first: Elm?
    var last: Loc
    ghost var elms: seq<Elm>

    ghost predicate Valid()
      reads this, elms
    {
      && Distinct(elms)
      && first == (if elms == [] then null else elms[0])
      && (forall i {:trigger elms[i].next} :: 0 <= i < |elms| ==>
            elms[i].next == if i + 1 < |elms| then elms[i + 1] else null)
      && last == (if elms == [] then FirstOf(this) else NextOf(elms[|elms| - 1]))
    }

    ghost function IndexOf(e: Elm): (i: nat)
      requires e in elms
      reads this
      ensures i < |elms| && elms[i] == e
    {
      var i: nat :| i < |elms| && elms[i] == e; i
    }

    constructor Init()
      ensures Valid() && elms == []
    {
      first, elms := null, [];
      new;
      last := FirstOf(this);
    }

    method Last() returns (e: Elm?)
      requires Valid()
      ensures e == if elms == [] then null else elms[|elms| - 1]
    {
      e := if first == null then null else last.e;
    }

    method InsertHead(elm: Elm)
      requires Valid() && elm !in elms
      modifies this, elms, elm
      ensures Valid() && elms == [elm] + old(elms)
    {
      DistinctCons(elm, elms);
      if elms != [] { OnlyAt<Elm>(elms, 0); }
      elm.next := first;
      if elm.next == null {
        last := NextOf(elm);
      }
      first := elm;
      elms := [elm] + elms;
    }

    method InsertTail(elm: Elm)
      requires Valid() && elm !in elms
      modifies this, elms, elm
      ensures Valid() && elms == old(elms) + [elm]
    {
      ConcatDistinct(elms, [elm]);
      if elms != [] { OnlyAt<Elm>(elms, |elms| - 1); }
      elm.next := null;
      Store(last, elm);
      last := NextOf(elm);
      elms := elms + [elm];
    }

    method InsertAfter(tqelm: Elm, elm: Elm)
      requires Valid() && tqelm in elms && elm !in elms
      modifies this, elms, elm
      ensures Valid()
      ensures elms == InsertAt(old(elms), old(IndexOf(tqelm)) + 1, elm)
    {
      ghost var s, i := elms, IndexOf(tqelm);
      OnlyAt<Elm>(s, i);
      elm.next := tqelm.next;
      if elm.next == null {
        last := NextOf(elm);
      }
      tqelm.next := elm;
      InsertAtDistinct(s, i + 1, elm);
      elms := InsertAt(s, i + 1, elm);
    }

    method RemoveHead()
      requires Valid() && elms != []
      modifies this
      ensures Valid() && elms == old(elms)[1..]
    {
      DistinctTail(elms);
      first := first.next;
      if first == null {
        last := FirstOf(this);
      }
      elms := elms[1..];
    }

    /** Removes the element after `elm`. */
    method RemoveAfter(elm: Elm)
      requires Valid() && elm in elms && elm != elms[|elms| - 1]
      modifies this, elm
      ensures Valid()
      ensures elms == RemoveAt(old(elms), old(IndexOf(elm)) + 1)
    {
      ghost var s, i := elms, IndexOf(elm);
      OnlyAt<Elm>(s, i);
      if i + 2 < |s| { OnlyAt<Elm>(s, |s| - 1); }
      assert s[i].next == s[i + 1] && s[i + 1].next == if i + 2 < |s| then s[i + 2] else null;
      elm.next := elm.next.next;
      if elm.next == null {
        last := NextOf(elm);
      }
      elms := RemoveAt(s, i + 1);
      BypassedIsValid(s, i);
    }

    /** Links of `s` with element `i` linked to what followed element `i + 1`. */
    lemma BypassedIsValid(s: seq<Elm>, i: nat)
      requires i + 1 < |s| && Distinct(s) && elms == RemoveAt(s, i + 1)
      requires first == s[0] && last == NextOf(if i + 2 < |s| then s[|s| - 1] else s[i])
      requires s[i].next == if i + 2 < |s| then s[i + 2] else null
      requires forall k {:trigger s[k].next} :: 0 <= k < |s| && k != i ==>
        s[k].next == if k + 1 < |s| then s[k + 1] else null
      ensures Valid()
    {
      RemoveAtDistinct(s, i + 1);
      var t := elms;
      forall k {:trigger t[k].next} | 0 <= k < |t| ensures t[k].next == if k + 1 < |t| then t[k + 1] else null {
        if k <= i { assert t[k] == s[k]; } else { assert t[k] == s[k + 1]; }
      }
    }

    /** STAILQ_REMOVE searches for the predecessor of `elm`; on a valid list the search ends. */
    method Remove(elm: Elm)
      requires Valid() && elm in elms
      modifies this, elms
      ensures Valid()
      ensures elms == RemoveAt(old(elms), old(IndexOf(elm)))
    {
      ghost var i := IndexOf(elm);
      OnlyAt<Elm>(elms, i);
      if first == elm {
        RemoveHead();
      } else {
        var curelm := first;
        ghost var k := 0;
        while curelm.next != elm
          invariant k < i && curelm == elms[k]
          decreases i - k
        {
          assert elms[k].next == elms[k + 1];
          curelm := curelm.next;
          k := k + 1;
        }
        assert elms[k].next == elms[k + 1];
        OnlyAt<Elm>(elms, k);
        assert IndexOf(curelm) == k;
        RemoveAfter(curelm);
      }
    }

    ghost predicate Apart(other: Head)
      reads this, other
    {
      && this != other
      && forall k {:trigger elms[k]} :: 0 <= k < |elms| ==> elms[k] !in other.elms
    }

    method Concat(head2: Head)
      requires Valid() && head2.Valid() && Apart(head2)
      modifies this, elms, head2
      ensures Valid() && head2.Valid()
      ensures elms == old(elms) + old(head2.elms) && head2.elms == []
    {
      if head2.first != null {
        ghost var (a, b) := (elms, head2.elms);
        if a != [] { OnlyAt<Elm>(a, |a| - 1); }
        Store(last, head2.first);
        last := head2.last;
        head2.first := null;
        head2.last := FirstOf(head2);
        elms, head2.elms := a + b, [];
        JoinedIsValid(a, b);
      }
    }

    lemma JoinedIsValid(a: seq<Elm>, b: seq<Elm>)
      requires b != [] && elms == a + b && Distinct(a) && Distinct(b)
      requires forall k {:trigger a[k]} :: 0 <= k < |a| ==> a[k] !in b
      requires first == (if a == [] then b[0] else a[0]) && last == NextOf(b[|b| - 1])
      requires forall k {:trigger a[k].next} :: 0 <= k < |a| ==> a[k].next == if k + 1 < |a| then a[k + 1] else b[0]
      requires forall k {:trigger b[k].next} :: 0 <= k < |b| ==> b[k].next == if k + 1 < |b| then b[k + 1] else null
      ensures Valid()
    {
      ConcatDistinct(a, b);
      forall k {:trigger elms[k].next} | 0 <= k < |elms|
        ensures elms[k].next == if k + 1 < |elms| then elms[k + 1] else null
      {
        if k < |a| { assert elms[k] == a[k]; } else { assert elms[k] == b[k - |a|]; }
      }
    }

    method Swap(head2: Head)
      requires Valid() && head2.Valid() && Apart(head2)
      modifies this, head2
      ensures Valid() && head2.Valid()
      ensures elms == old(head2.elms) && head2.elms == old(elms)
    {
      var swapFirst := first;
      var swapLast := last;
      first := head2.first;
      last := head2.last;
      head2.first := swapFirst;
      head2.last := swapLast;
      if first == null {
        last := FirstOf(this);
      }
      if head2.first == null {
        head2.last := FirstOf(head2);
      }
      elms, head2.elms := head2.elms, elms;
    }
  }
}
