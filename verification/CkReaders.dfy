/** CK_SLIST and CK_STAILQ with one writer and any number of concurrent readers.  Every
    store of the writer to a shared pointer is one step; so is every load of a reader. */
module CkReaders {
  import opened Basics

  /** A cell is a pointer field: cell 0 is the head's first pointer, and cell `n` is the
      next field of node `n`.  Node and next field are identified. */
  type Cell = nat
  const HEAD: Cell := 0

  type Link = Option<Cell>

  /** Where the writer is inside a macro: between macros, before the publishing store of
      an insertion, or before the store to the tail pointer that only CK_STAILQ has. */
  datatype Writer = Idle | Publishing(at: Cell, b: Cell) | FixingTail(l: Cell)

  datatype Kind = Slist | Stailq

  /** `live` are the nodes of the list and the head.  `pos` is a history variable: its keys
      are the nodes that have ever been in the list, and it fixes an order of them. */
  datatype List = List(
    kind: Kind, next: map<Cell, Link>, tail: Cell,
    live: set<Cell>, pos: map<Cell, nat>, writer: Writer)

  ghost function Linked(s: List): set<Cell> {
    s.live - {HEAD}
  }

  ghost predicate EverLinked(s: List, n: Cell) {
    n in s.pos && n != HEAD
  }

  // ----- invariant of the shared structure

  ghost predicate Shaped(s: List) {
    && HEAD in s.live && s.live <= s.pos.Keys <= s.next.Keys
    && s.pos[HEAD] == 0
    && forall m, n {:trigger s.pos[m], s.pos[n]} :: m in s.pos && n in s.pos && m != n ==> s.pos[m] != s.pos[n]
  }

  /** Pointers, also those of removed nodes, lead forward to nodes that have been linked;
      pointers of the list lead to nodes of the list. */
  ghost predicate LeadsForward(s: List)
    requires Shaped(s)
  {
    forall l {:trigger s.next[l]} :: l in s.pos && s.next[l].Some? ==>
      var w := s.next[l].value;
      w in s.pos && s.pos[w] > s.pos[l] && (l in s.live ==> w in s.live)
  }

  /** No pointer, not even that of a removed node, jumps over a node of the list. */
  ghost predicate SkipsNothing(s: List)
    requires Shaped(s)
  {
    forall l, p {:trigger s.next[l], p in s.live} :: l in s.pos && p in s.live && s.pos[p] > s.pos[l] ==>
      s.next[l].Some? && s.next[l].value in s.pos && s.pos[s.next[l].value] <= s.pos[p]
  }

  ghost predicate WriterFits(s: List)
    requires Shaped(s)
  {
    match s.writer
    case Idle => true
    case Publishing(at, b) => b !in s.pos && b in s.next && at in s.live && s.next[b] == s.next[at]
    case FixingTail(l) => s.kind == Stailq && l in s.live
  }

  /** The tail pointer names the last next field, except right before it is set to it. */
  ghost predicate TailFits(s: List)
    requires Shaped(s)
  {
    s.kind == Stailq ==>
      || (s.tail in s.live && s.next[s.tail].None?)
      || (s.writer.FixingTail? && s.writer.l in s.live && s.next[s.writer.l].None?)
  }

  ghost predicate ListInv(s: List) {
    Shaped(s) && LeadsForward(s) && SkipsNothing(s) && WriterFits(s) && TailFits(s)
  }

  /** The state after the INIT macro. */
  ghost predicate Empty(s: List) {
    && s.next == map[HEAD := None] && s.tail == HEAD && s.live == {HEAD}
    && s.pos == map[HEAD := 0] && s.writer.Idle?
  }

  // ----- the writer's stores

  datatype WriterStep =
    | Prepare(at: Cell, b: Cell) // elm->next = *at, in INSERT_HEAD, INSERT_AFTER and INSERT_TAIL
    | Publish                    // *at = elm
    | Unlink(at: Cell)           // *at = (*at)->next, in REMOVE_HEAD, REMOVE_AFTER and REMOVE
    | FixTail                    // if (*l == NULL) head->last = l

  /** The callers' duties: only nodes that were never in the list are inserted, and only
      at cells of the list. */
  ghost predicate Allowed(s: List, w: WriterStep)
    requires Shaped(s)
  {
    match w
    case Prepare(at, b) => s.writer.Idle? && at in s.live && b !in s.pos
    case Publish => s.writer.Publishing?
    case Unlink(at) => s.writer.Idle? && at in s.live && s.next[at].Some? && s.next[at].value in s.next
    case FixTail => s.writer.FixingTail?
  }

  function AfterStore(s: List, l: Cell): Writer {
    if s.kind == Stailq then FixingTail(l) else Idle
  }

  /** The published node is placed right behind the cell that now points to it. */
  function PublishPos(pos: map<Cell, nat>, at: Cell, b: Cell): map<Cell, nat>
    requires at in pos
  {
    map n | n in pos.Keys + {b} :: if n == b then 2 * pos[at] + 1 else 2 * pos[n]
  }

  ghost function WriterNext(s: List, w: WriterStep): List
    requires Shaped(s) && WriterFits(s) && Allowed(s, w)
  {
    match w
    case Prepare(at, b) =>
      s.(next := s.next[b := s.next[at]], writer := Publishing(at, b))
    case Publish =>
      var (at, b) := (s.writer.at, s.writer.b);
      s.(next := s.next[at := Some(b)], live := s.live + {b},
         pos := PublishPos(s.pos, at, b), writer := AfterStore(s, b))
    case Unlink(at) =>
      var v := s.next[at].value;
      s.(next := s.next[at := s.next[v]], live := s.live - {v}, writer := AfterStore(s, at))
    case FixTail =>
      s.(tail := if s.next[s.writer.l].None? then s.writer.l else s.tail, writer := Idle)
  }

  /** The effect of the publishing store on the shared structure. */
  ghost predicate Published(s: List, s': List, at: Cell, b: Cell)
    requires Shaped(s) && at in s.live
  {
    && b !in s.pos && b in s.next && s.next[b] == s.next[at]
    && s'.next == s.next[at := Some(b)] && s'.live == s.live + {b}
    && s'.pos.Keys == s.pos.Keys + {b}
    && (forall n {:trigger s'.pos[n]} {:trigger s.pos[n]} :: n in s.pos ==> s'.pos[n] == 2 * s.pos[n])
    && s'.pos[b] == 2 * s.pos[at] + 1
  }

  lemma PublishShaped(s: List, s': List, at: Cell, b: Cell)
    requires Shaped(s) && at in s.live && Published(s, s', at, b)
    ensures Shaped(s')
  {
  }

  lemma PublishLeadsForward(s: List, s': List, at: Cell, b: Cell)
    requires Shaped(s) && LeadsForward(s) && at in s.live && Published(s, s', at, b)
    requires Shaped(s')
    ensures LeadsForward(s')
  {
    forall l | l in s'.pos && s'.next[l].Some?
      ensures var w := s'.next[l].value;
        w in s'.pos && s'.pos[w] > s'.pos[l] && (l in s'.live ==> w in s'.live)
    {
      PublishLeads(s, s', at, b, l);
    }
  }

  lemma PublishLeads(s: List, s': List, at: Cell, b: Cell, l: Cell)
    requires Shaped(s) && LeadsForward(s) && at in s.live && Published(s, s', at, b)
    requires l in s'.pos && l in s'.next && s'.next[l].Some?
    ensures var w := s'.next[l].value;
      w in s'.pos && s'.pos[w] > s'.pos[l] && (l in s'.live ==> w in s'.live)
  {
    if l == b {
      assert s'.next[b] == s.next[at];
      assert s.pos[s.next[at].value] > s.pos[at];
    } else if l == at {
      assert s'.next[at] == Some(b);
    } else {
      assert s'.next[l] == s.next[l];
    }
  }

  lemma PublishSkipsNothing(s: List, s': List, at: Cell, b: Cell)
    requires Shaped(s) && SkipsNothing(s) && at in s.live && Published(s, s', at, b)
    requires Shaped(s')
    ensures SkipsNothing(s')
  {
    forall l, p | l in s'.pos && p in s'.live && s'.pos[p] > s'.pos[l]
      ensures s'.next[l].Some? && s'.next[l].value in s'.pos && s'.pos[s'.next[l].value] <= s'.pos[p]
    {
      PublishSkips(s, s', at, b, l, p);
    }
  }

  lemma PublishSkips(s: List, s': List, at: Cell, b: Cell, l: Cell, p: Cell)
    requires Shaped(s) && SkipsNothing(s) && at in s.live && Published(s, s', at, b)
    requires l in s'.pos && p in s'.live && s'.pos[p] > s'.pos[l]
    ensures s'.next[l].Some? && s'.next[l].value in s'.pos && s'.pos[s'.next[l].value] <= s'.pos[p]
  {
    if l == b {
      assert p in s.live && s.pos[p] > s.pos[at];
      assert s'.next[b] == s.next[at];
    } else if l == at {
      assert s'.next[l] == Some(b);
    } else {
      assert s'.next[l] == s.next[l];
      var p' := if p == b then at else p;
      assert p' in s.live && s.pos[p'] > s.pos[l];
    }
  }

  lemma PublishKeeps(s: List, s': List, at: Cell, b: Cell)
    requires ListInv(s) && s.writer == Publishing(at, b) && at in s.live && Published(s, s', at, b)
    requires s'.kind == s.kind && s'.tail == s.tail && s'.writer == AfterStore(s, b)
    ensures ListInv(s')
  {
    PublishShaped(s, s', at, b);
    PublishLeadsForward(s, s', at, b);
    PublishSkipsNothing(s, s', at, b);
    PublishTailFits(s, s', at, b);
  }

  lemma PublishTailFits(s: List, s': List, at: Cell, b: Cell)
    requires ListInv(s) && s.writer == Publishing(at, b) && at in s.live && Published(s, s', at, b) && Shaped(s')
    requires s'.kind == s.kind && s'.tail == s.tail && s'.writer == AfterStore(s, b)
    ensures WriterFits(s') && TailFits(s')
  {
    if s.kind == Stailq {
      if s.next[at].None? {
        LastIsUnique(s, s.tail, at);
      } else {
        assert s.tail != at && s.tail != b && s'.next[s.tail] == s.next[s.tail];
      }
    }
  }

  /** Only one pointer of the list is null. */
  lemma LastIsUnique(s: List, l: Cell, m: Cell)
    requires Shaped(s) && SkipsNothing(s) && l in s.live && m in s.live
    requires s.next[l].None? && s.next[m].None?
    ensures l == m
  {
    if s.pos[l] < s.pos[m] || s.pos[m] < s.pos[l] {
      assert false;
    }
  }

  /** The cell of the list that holds a given node is unique. */
  lemma HolderUnique(s: List, l: Cell, m: Cell)
    requires Shaped(s) && LeadsForward(s) && SkipsNothing(s) && l in s.live && m in s.live
    requires s.next[l].Some? && s.next[l] == s.next[m]
    ensures l == m
  {
    if s.pos[l] < s.pos[m] || s.pos[m] < s.pos[l] {
      assert false;
    }
  }

  ghost predicate Unlinked(s: List, s': List, at: Cell, v: Cell)
    requires Shaped(s) && at in s.live
  {
    && s.next[at] == Some(v) && v in s.next
    && s'.next == s.next[at := s.next[v]] && s'.live == s.live - {v} && s'.pos == s.pos
  }

  lemma UnlinkShaped(s: List, s': List, at: Cell, v: Cell)
    requires Shaped(s) && LeadsForward(s) && at in s.live && Unlinked(s, s', at, v)
    ensures v in s.live && s.pos[v] > s.pos[at] && v != HEAD
    ensures Shaped(s')
  {
  }

  lemma UnlinkLeadsForward(s: List, s': List, at: Cell, v: Cell)
    requires Shaped(s) && LeadsForward(s) && SkipsNothing(s) && at in s.live && Unlinked(s, s', at, v)
    requires Shaped(s') && v in s.live && s.pos[v] > s.pos[at]
    ensures LeadsForward(s')
  {
    forall l | l in s'.pos && s'.next[l].Some?
      ensures var w := s'.next[l].value;
        w in s'.pos && s'.pos[w] > s'.pos[l] && (l in s'.live ==> w in s'.live)
    {
      UnlinkLeads(s, s', at, v, l);
    }
  }

  lemma UnlinkLeads(s: List, s': List, at: Cell, v: Cell, l: Cell)
    requires Shaped(s) && LeadsForward(s) && SkipsNothing(s) && at in s.live && Unlinked(s, s', at, v)
    requires v in s.live && s.pos[v] > s.pos[at] && l in s'.pos && s'.next[l].Some?
    ensures var w := s'.next[l].value;
      w in s'.pos && s'.pos[w] > s'.pos[l] && (l in s'.live ==> w in s'.live)
  {
    if l == at {
      assert s'.next[at] == s.next[v];
    } else {
      assert s'.next[l] == s.next[l];
      if l in s'.live && s.next[l].value == v {
        HolderUnique(s, l, at);
      }
    }
  }

  lemma UnlinkSkipsNothing(s: List, s': List, at: Cell, v: Cell)
    requires Shaped(s) && SkipsNothing(s) && at in s.live && Unlinked(s, s', at, v) && Shaped(s')
    requires v in s.live
    ensures SkipsNothing(s')
  {
    forall l, p | l in s'.pos && p in s'.live && s'.pos[p] > s'.pos[l]
      ensures s'.next[l].Some? && s'.next[l].value in s'.pos && s'.pos[s'.next[l].value] <= s'.pos[p]
    {
      UnlinkSkips(s, s', at, v, l, p);
    }
  }

  lemma UnlinkSkips(s: List, s': List, at: Cell, v: Cell, l: Cell, p: Cell)
    requires Shaped(s) && SkipsNothing(s) && at in s.live && Unlinked(s, s', at, v) && v in s.live
    requires l in s'.pos && p in s'.live && s'.pos[p] > s'.pos[l]
    ensures s'.next[l].Some? && s'.next[l].value in s'.pos && s'.pos[s'.next[l].value] <= s'.pos[p]
  {
    assert p in s.live && s.next[l].Some? && s.pos[s.next[l].value] <= s.pos[p];
    if l == at {
      assert s.pos[p] > s.pos[v];
      assert s'.next[at] == s.next[v];
    } else {
      assert s'.next[l] == s.next[l];
    }
  }

  lemma UnlinkTailFits(s: List, s': List, at: Cell, v: Cell)
    requires ListInv(s) && s.writer.Idle? && at in s.live && Unlinked(s, s', at, v) && Shaped(s')
    requires v in s.live && s.pos[v] > s.pos[at]
    requires s'.kind == s.kind && s'.tail == s.tail && s'.writer == AfterStore(s, at)
    ensures WriterFits(s') && TailFits(s')
  {
    if s.kind == Stailq && s.tail != v {
      assert s.tail != at && s'.next[s.tail] == s.next[s.tail];
    }
  }

  lemma UnlinkKeeps(s: List, s': List, at: Cell, v: Cell)
    requires ListInv(s) && s.writer.Idle? && at in s.live && Unlinked(s, s', at, v)
    requires s'.kind == s.kind && s'.tail == s.tail && s'.writer == AfterStore(s, at)
    ensures ListInv(s')
  {
    UnlinkShaped(s, s', at, v);
    UnlinkLeadsForward(s, s', at, v);
    UnlinkSkipsNothing(s, s', at, v);
    UnlinkTailFits(s, s', at, v);
  }

  lemma PrivateStoreKeeps(s: List, s': List, b: Cell, v: Link)
    requires Shaped(s) && LeadsForward(s) && SkipsNothing(s) && b !in s.pos
    requires s'.next == s.next[b := v] && s'.pos == s.pos && s'.live == s.live
    ensures Shaped(s') && LeadsForward(s') && SkipsNothing(s')
    ensures forall l :: l in s.pos ==> s'.next[l] == s.next[l]
  {
    assert forall l :: l in s.pos ==> s'.next[l] == s.next[l];
  }

  lemma PrepareKeeps(s: List, s': List, at: Cell, b: Cell)
    requires ListInv(s) && s.writer.Idle? && at in s.live && b !in s.pos
    requires s' == s.(next := s.next[b := s.next[at]], writer := Publishing(at, b))
    ensures ListInv(s')
  {
    PrivateStoreKeeps(s, s', b, s.next[at]);
  }

  /** Every store of the writer keeps the invariant. */
  lemma WriterKeeps(s: List, w: WriterStep)
    requires ListInv(s) && Allowed(s, w)
    ensures ListInv(WriterNext(s, w))
  {
    var s' := WriterNext(s, w);
    match w
    case Prepare(at, b) => PrepareKeeps(s, s', at, b);
    case Publish => PublishKeeps(s, s', s.writer.at, s.writer.b);
    case Unlink(at) => UnlinkKeeps(s, s', at, s.next[at].value);
    case FixTail =>
  }

  // ----- readers

  /** A reader in CK_*_FOREACH or CK_*_FOREACH_SAFE: in the loop body at a node, or (SAFE)
      past the load of the saved next pointer.  `since` are the nodes that were in the list
      when it started.  `seen` is a history variable: all cells that have been in the list at
      some moment since then. */
  datatype Phase = Ready | Body(v: Cell) | Saved(t: Link) | Done

  datatype Reader = Reader(phase: Phase, visited: seq<Cell>, since: set<Cell>, seen: set<Cell>)

  function Enter(r: Reader, t: Link): Reader {
    if t.None? then r.(phase := Done)
    else r.(phase := Body(t.value), visited := r.visited + [t.value])
  }

  datatype ReaderStep =
    | Begin    // var = FIRST(head)
    | Advance  // var = NEXT(var)
    | Save     // tvar = NEXT(var)
    | Resume   // var = tvar

  predicate CanRead(s: List, r: Reader, a: ReaderStep) {
    match a
    case Begin => r.phase.Ready? && HEAD in s.next
    case Advance => r.phase.Body? && r.phase.v in s.next
    case Save => r.phase.Body? && r.phase.v in s.next
    case Resume => r.phase.Saved?
  }

  ghost function ReaderNext(s: List, r: Reader, a: ReaderStep): Reader
    requires CanRead(s, r, a)
  {
    match a
    case Begin => Enter(r.(since := Linked(s), seen := s.live), s.next[HEAD])
    case Advance => Enter(r, s.next[r.phase.v])
    case Save => r.(phase := Saved(s.next[r.phase.v]))
    case Resume => Enter(r, r.phase.t)
  }

  /** The nodes in the list ever since the reader started: removed nodes never return. */
  ghost function Persistent(s: List, r: Reader): set<Cell> {
    r.since * s.live
  }

  ghost predicate InOrder(s: List, ns: seq<Cell>) {
    && (forall i :: 0 <= i < |ns| ==> EverLinked(s, ns[i]))
    && (forall i, j :: 0 <= i < j < |ns| ==> s.pos[ns[i]] < s.pos[ns[j]])
  }

  /** Node `t` comes after all nodes visited. */
  ghost predicate Beyond(s: List, r: Reader, t: Cell)
    requires InOrder(s, r.visited)
  {
    EverLinked(s, t) && forall i :: 0 <= i < |r.visited| ==> s.pos[r.visited[i]] < s.pos[t]
  }

  /** All persistent nodes before the target, or all if there is none, have been visited. */
  ghost predicate NothingMissed(s: List, r: Reader, t: Link)
    requires t.Some? ==> t.value in s.pos
  {
    forall p :: p in Persistent(s, r) && p in s.pos && (t.None? || s.pos[p] < s.pos[t.value]) ==> p in r.visited
  }

  ghost predicate ReaderInv(s: List, r: Reader) {
    && (forall n :: n in r.since ==> EverLinked(s, n))
    && InOrder(s, r.visited)
    && match r.phase
       case Ready => r.visited == []
       case Body(v) =>
         && r.visited != [] && v == r.visited[|r.visited| - 1]
         && NothingMissed(s, r, Some(v))
       case Saved(t) => (t.Some? ==> Beyond(s, r, t.value)) && NothingMissed(s, r, t)
       case Done => NothingMissed(s, r, None)
  }

  lemma EnterKeeps(s: List, r: Reader, t: Link)
    requires forall n :: n in r.since ==> EverLinked(s, n)
    requires InOrder(s, r.visited)
    requires t.Some? ==> Beyond(s, r, t.value)
    requires NothingMissed(s, r, t)
    ensures ReaderInv(s, Enter(r, t))
  {
    if t.Some? {
      var ns := r.visited + [t.value];
      assert forall p :: p in r.visited ==> p in ns;
      assert InOrder(s, ns);
    }
  }

  /** A load of a reader, at any moment of the writer's macro, keeps its invariant. */
  lemma ReaderKeeps(s: List, r: Reader, a: ReaderStep)
    requires ListInv(s) && ReaderInv(s, r) && CanRead(s, r, a)
    ensures ReaderInv(s, ReaderNext(s, r, a))
  {
    match a
    case Begin => EnterKeeps(s, r.(since := Linked(s), seen := s.live), s.next[HEAD]);
    case Advance => BodyKeeps(s, r); EnterKeeps(s, r, s.next[r.phase.v]);
    case Save => BodyKeeps(s, r);
    case Resume => EnterKeeps(s, r, r.phase.t);
  }

  lemma BodyKeeps(s: List, r: Reader)
    requires ListInv(s) && ReaderInv(s, r) && r.phase.Body?
    ensures var t := s.next[r.phase.v];
      (t.Some? ==> Beyond(s, r, t.value)) && NothingMissed(s, r, t)
  {
    var v := r.phase.v;
    var t := s.next[v];
    forall p | p in Persistent(s, r) && p in s.pos && (t.None? || s.pos[p] < s.pos[t.value])
      ensures p in r.visited
    {
      if s.pos[p] <= s.pos[v] && p != v {
        assert s.pos[p] < s.pos[v];
      }
    }
  }

  /** After a store a reader that has started counts what is now in the list as seen. */
  function Notice(s: List, r: Reader): Reader {
    if r.phase.Ready? then r else r.(seen := r.seen + s.live)
  }

  /** The order of nodes that have been in the list does not change, and a node that a
      reader counts as persistent was in the list before. */
  lemma WriterKeepsOrder(s: List, w: WriterStep, r: Reader)
    requires ListInv(s) && Allowed(s, w) && ReaderInv(s, r)
    ensures var s' := WriterNext(s, w);
      && s.pos.Keys <= s'.pos.Keys
      && (forall m, n {:trigger s'.pos[m], s'.pos[n]} :: m in s.pos && n in s.pos ==>
            (s'.pos[m] < s'.pos[n] <==> s.pos[m] < s.pos[n]))
      && Persistent(s', r) <= Persistent(s, r)
  {
  }

  lemma SameOrderKeepsReader(s: List, s': List, r: Reader)
    requires ReaderInv(s, r) && s.pos.Keys <= s'.pos.Keys
    requires forall m, n {:trigger s'.pos[m], s'.pos[n]} :: m in s.pos && n in s.pos ==>
      (s'.pos[m] < s'.pos[n] <==> s.pos[m] < s.pos[n])
    requires Persistent(s', r) <= Persistent(s, r)
    ensures ReaderInv(s', r)
  {
  }

  /** A store of the writer does not disturb a reader, wherever that reader is. */
  lemma WriterKeepsReader(s: List, w: WriterStep, r: Reader)
    requires ListInv(s) && Allowed(s, w) && ReaderInv(s, r)
    ensures ReaderInv(WriterNext(s, w), Notice(WriterNext(s, w), r))
  {
    WriterKeepsOrder(s, w, r);
    SameOrderKeepsReader(s, WriterNext(s, w), r);
    NoticeKeeps(WriterNext(s, w), r);
  }

  lemma NoticeKeeps(s: List, r: Reader)
    requires ReaderInv(s, r)
    ensures ReaderInv(s, Notice(s, r))
  {
  }

  /** A reader that has started is on the way to, or at, nodes that were in the list since; and
      from these all pointers, also those of removed nodes, lead to such nodes. */
  ghost predicate SeenInv(s: List, r: Reader)
    requires Shaped(s)
  {
    r.phase.Ready? ||
      (&& s.live <= r.seen <= s.pos.Keys
       && (forall l {:trigger s.next[l]} :: l in r.seen && s.next[l].Some? ==> s.next[l].value in r.seen)
       && (forall n :: n in r.visited ==> n in r.seen)
       && (r.phase.Saved? && r.phase.t.Some? ==> r.phase.t.value in r.seen))
  }

  lemma ReaderKeepsSeen(s: List, r: Reader, a: ReaderStep)
    requires ListInv(s) && ReaderInv(s, r) && SeenInv(s, r) && CanRead(s, r, a)
    ensures SeenInv(s, ReaderNext(s, r, a))
  {
    if r.phase.Body? {
      assert r.phase.v in r.visited;
    }
  }

  /** A store changes no pointer of a removed node. */
  lemma RemovedStay(s: List, w: WriterStep, l: Cell)
    requires ListInv(s) && Allowed(s, w) && l in s.pos
    ensures var s' := WriterNext(s, w);
      && s.pos.Keys <= s'.pos.Keys
      && (l !in s'.live ==> l in s'.next && s'.next[l] == s.next[l])
  {
  }

  lemma WriterKeepsSeen(s: List, w: WriterStep, r: Reader)
    requires ListInv(s) && Allowed(s, w) && SeenInv(s, r)
    ensures ListInv(WriterNext(s, w)) && SeenInv(WriterNext(s, w), Notice(WriterNext(s, w), r))
  {
    WriterKeeps(s, w);
    if !r.phase.Ready? {
      SeenGrows(s, w, WriterNext(s, w), r);
    }
  }

  lemma SeenGrows(s: List, w: WriterStep, s': List, r: Reader)
    requires ListInv(s) && Allowed(s, w) && SeenInv(s, r) && !r.phase.Ready?
    requires ListInv(s') && s' == WriterNext(s, w)
    ensures SeenInv(s', Notice(s', r))
  {
    var seen := r.seen + s'.live;
    forall l {:trigger s'.next[l]} | l in seen && s'.next[l].Some? ensures s'.next[l].value in seen {
      if l !in s'.live {
        RemovedStay(s, w, l);
      }
    }
    RemovedStay(s, w, HEAD);
  }

  // ----- runs

  datatype System = System(list: List, readers: seq<Reader>)

  datatype Event = Write(w: WriterStep) | Read(i: nat, a: ReaderStep)

  ghost predicate SystemInv(y: System) {
    && ListInv(y.list)
    && forall i :: 0 <= i < |y.readers| ==> ReaderInv(y.list, y.readers[i]) && SeenInv(y.list, y.readers[i])
  }

  ghost predicate Next(y: System, e: Event, y': System) {
    match e
    case Write(w) =>
      && Shaped(y.list) && WriterFits(y.list) && Allowed(y.list, w)
      && y'.list == WriterNext(y.list, w) && |y'.readers| == |y.readers|
      && forall i :: 0 <= i < |y.readers| ==> y'.readers[i] == Notice(y'.list, y.readers[i])
    case Read(i, a) =>
      && i < |y.readers| && CanRead(y.list, y.readers[i], a)
      && y' == y.(readers := y.readers[i := ReaderNext(y.list, y.readers[i], a)])
  }

  lemma NextKeeps(y: System, e: Event, y': System)
    requires SystemInv(y) && Next(y, e, y')
    ensures SystemInv(y')
  {
    match e
    case Write(w) =>
      WriterKeeps(y.list, w);
      forall i | 0 <= i < |y.readers| ensures ReaderInv(y'.list, y'.readers[i]) && SeenInv(y'.list, y'.readers[i]) {
        WriterKeepsReader(y.list, w, y.readers[i]);
        WriterKeepsSeen(y.list, w, y.readers[i]);
      }
    case Read(i, a) =>
      ReaderKeeps(y.list, y.readers[i], a);
      ReaderKeepsSeen(y.list, y.readers[i], a);
  }

  /** Any interleaving of the writer's stores with the readers' loads, from an empty list. */
  ghost predicate Run(ys: seq<System>, es: seq<Event>) {
    && |ys| == |es| + 1
    && Empty(ys[0].list)
    && (forall i :: 0 <= i < |ys[0].readers| ==> ys[0].readers[i] == Reader(Ready, [], {}, {}))
    && forall k :: 0 <= k < |es| ==> Next(ys[k], es[k], ys[k + 1])
  }

  lemma {:induction false} RunKeeps(ys: seq<System>, es: seq<Event>, k: nat)
    requires Run(ys, es) && k <= |es|
    ensures SystemInv(ys[k])
  {
    if k != 0 {
      RunKeeps(ys, es, k - 1);
      NextKeeps(ys[k - 1], es[k - 1], ys[k]);
    }
  }

  // ----- the list as a sequence

  ghost function Ahead(s: List, l: Cell): set<Cell>
    requires l in s.pos
  {
    set n | n in s.pos && s.pos[n] > s.pos[l]
  }

  /** Following a pointer leaves fewer nodes ahead. */
  lemma LoadShrinksAhead(s: List, l: Cell)
    requires ListInv(s) && l in s.pos && s.next[l].Some?
    ensures s.next[l].value in s.pos
    ensures |Ahead(s, s.next[l].value)| < |Ahead(s, l)|
  {
    var w := s.next[l].value;
    assert w in Ahead(s, l) && w !in Ahead(s, w);
    SubsetSize(Ahead(s, w), Ahead(s, l) - {w});
  }

  /** What a reader at cell `l` still sees if the writer stands still. */
  ghost function Follow(s: List, l: Cell): (ns: seq<Cell>)
    requires ListInv(s) && l in s.pos
    ensures |ns| <= |Ahead(s, l)|
    decreases |Ahead(s, l)|
  {
    if s.next[l].None? then []
    else
      LoadShrinksAhead(s, l);
      [s.next[l].value] + Follow(s, s.next[l].value)
  }

  /** The contents of the list, in list order. */
  ghost function Contents(s: List): seq<Cell>
    requires ListInv(s)
  {
    Follow(s, HEAD)
  }

  lemma FollowStep(s: List, l: Cell)
    requires ListInv(s) && l in s.pos && s.next[l].Some?
    ensures s.next[l].value in s.pos && s.pos[s.next[l].value] > s.pos[l]
    ensures l in s.live ==> s.next[l].value in s.live
    ensures Follow(s, l) == [s.next[l].value] + Follow(s, s.next[l].value)
    ensures |Ahead(s, s.next[l].value)| < |Ahead(s, l)|
  {
    LoadShrinksAhead(s, l);
  }

  /** From a cell of the list the pointers lead, in order, through later nodes of the list. */
  lemma {:induction false} FollowInOrder(s: List, l: Cell)
    requires ListInv(s) && l in s.live
    ensures InOrder(s, Follow(s, l))
    ensures forall n :: n in Follow(s, l) ==> n in s.live && s.pos[n] > s.pos[l]
    decreases |Ahead(s, l)|
  {
    if s.next[l].Some? {
      FollowStep(s, l);
      var w := s.next[l].value;
      FollowInOrder(s, w);
      InOrderCons(s, w, Follow(s, w));
    }
  }

  lemma InOrderCons(s: List, w: Cell, rest: seq<Cell>)
    requires EverLinked(s, w) && InOrder(s, rest)
    requires forall n :: n in rest ==> s.pos[n] > s.pos[w]
    ensures InOrder(s, [w] + rest)
  {
    forall i | 0 <= i < |rest| ensures s.pos[rest[i]] > s.pos[w] {
      assert rest[i] in rest;
    }
  }

  /** ... and through all of them. */
  lemma {:induction false} FollowReaches(s: List, l: Cell, n: Cell)
    requires ListInv(s) && l in s.live && n in s.live && s.pos[n] > s.pos[l]
    ensures n in Follow(s, l)
    decreases |Ahead(s, l)|
  {
    FollowStep(s, l);
    var w := s.next[l].value;
    if n != w {
      assert s.pos[n] != s.pos[w];
      FollowReaches(s, w, n);
    }
  }

  lemma ContentsAreLinked(s: List)
    requires ListInv(s)
    ensures InOrder(s, Contents(s))
    ensures forall n :: n in Contents(s) <==> n in Linked(s)
  {
    FollowInOrder(s, HEAD);
    forall n | n in Linked(s) ensures n in Contents(s) {
      assert s.pos[n] != s.pos[HEAD];
      FollowReaches(s, HEAD, n);
    }
  }

  // ----- what a reader gets

  ghost predicate Precedes(ns: seq<Cell>, p: Cell, q: Cell) {
    exists i, j :: 0 <= i < j < |ns| && ns[i] == p && ns[j] == q
  }

  lemma InOrderPrecedes(s: List, ns: seq<Cell>, p: Cell, q: Cell)
    requires InOrder(s, ns) && p in ns && q in ns
    ensures Precedes(ns, p, q) <==> s.pos[p] < s.pos[q]
  {
    var i :| 0 <= i < |ns| && ns[i] == p;
    var j :| 0 <= j < |ns| && ns[j] == q;
    if i < j {
      assert Precedes(ns, p, q);
    }
  }

  /** Reader `i` started at event `b`, before state `k`. */
  ghost predicate StartedAt(ys: seq<System>, es: seq<Event>, b: nat, k: nat, i: nat) {
    b < k <= |es| == |ys| - 1 && es[b] == Read(i, Begin)
  }

  /** Cell `n` was in the list at some moment from state `b` to state `k`. */
  ghost predicate LinkedDuring(ys: seq<System>, b: nat, k: nat, n: Cell)
    requires b <= k < |ys|
  {
    exists m :: b <= m <= k && n in ys[m].list.live
  }

  /** One event: a reader has started before it, or starts with it, or has not started. */
  lemma SeenStep(y: System, e: Event, y': System, i: nat)
    requires Next(y, e, y') && i < |y.readers| && !y'.readers[i].phase.Ready?
    ensures y.readers[i].phase.Ready? ==> e == Read(i, Begin) && y'.readers[i].seen == y'.list.live
    ensures !y.readers[i].phase.Ready? ==> y'.readers[i].seen <= y.readers[i].seen + y'.list.live
  {
  }

  /** What a reader counts as seen was in the list during its traversal. */
  lemma {:induction false} SeenWasLinked(ys: seq<System>, es: seq<Event>, k: nat, i: nat) returns (b: nat)
    requires Run(ys, es) && k <= |es| && i < |ys[k].readers| && !ys[k].readers[i].phase.Ready?
    ensures StartedAt(ys, es, b, k, i)
    ensures forall n :: n in ys[k].readers[i].seen ==> LinkedDuring(ys, b, k, n)
  {
    SeenStep(ys[k - 1], es[k - 1], ys[k], i);
    if ys[k - 1].readers[i].phase.Ready? {
      b := k - 1;
    } else {
      b := SeenWasLinked(ys, es, k - 1, i);
      forall n | n in ys[k].readers[i].seen ensures LinkedDuring(ys, b, k, n) {
        if n !in ys[k].list.live {
          var m :| b <= m <= k - 1 && n in ys[m].list.live;
        }
      }
    }
  }

  /** In every run, a reader that has finished visited each node at most once, only nodes that
      were in the list at some moment of its traversal, every node that was in the list all the
      time, and these in list order. */
  lemma TraversalIsSound(ys: seq<System>, es: seq<Event>, k: nat, i: nat) returns (b: nat)
    requires Run(ys, es) && k <= |es| && i < |ys[k].readers|
    requires ys[k].readers[i].phase.Done?
    ensures ListInv(ys[k].list) && StartedAt(ys, es, b, k, i)
    ensures
      var (s, r) := (ys[k].list, ys[k].readers[i]);
      && Distinct(r.visited)
      && (forall n :: n in r.visited ==> EverLinked(s, n) && LinkedDuring(ys, b, k, n))
      && (forall n :: n in Persistent(s, r) ==> n in r.visited && n in Contents(s))
      && (forall p, q :: p in Persistent(s, r) && q in Persistent(s, r) ==>
            (Precedes(r.visited, p, q) <==> Precedes(Contents(s), p, q)))
  {
    RunKeeps(ys, es, k);
    b := SeenWasLinked(ys, es, k, i);
    DoneIsSound(ys[k].list, ys[k].readers[i]);
  }

  lemma DoneIsSound(s: List, r: Reader)
    requires ListInv(s) && ReaderInv(s, r) && r.phase.Done?
    ensures
      && Distinct(r.visited)
      && (forall n :: n in r.visited ==> EverLinked(s, n))
      && (forall n :: n in Persistent(s, r) ==> n in r.visited && n in Contents(s))
      && (forall p, q :: p in Persistent(s, r) && q in Persistent(s, r) ==>
            (Precedes(r.visited, p, q) <==> Precedes(Contents(s), p, q)))
  {
    ContentsAreLinked(s);
    forall n | n in Persistent(s, r) ensures n in r.visited && n in Contents(s) {
      assert n in Linked(s);
    }
    forall p, q | p in Persistent(s, r) && q in Persistent(s, r)
      ensures Precedes(r.visited, p, q) <==> Precedes(Contents(s), p, q)
    {
      InOrderPrecedes(s, r.visited, p, q);
      InOrderPrecedes(s, Contents(s), p, q);
    }
  }

  // ----- when the writer stands still

  /** What a reader has still to visit if the writer stands still. */
  ghost function Remaining(s: List, r: Reader): seq<Cell>
    requires ListInv(s) && ReaderInv(s, r)
  {
    match r.phase
    case Ready => Follow(s, HEAD)
    case Body(v) => Follow(s, v)
    case Saved(t) => if t.None? then [] else [t.value] + Follow(s, t.value)
    case Done => []
  }

  /** At most this many loads are left: two for each node, as in FOREACH_SAFE, and the end. */
  ghost function LoadsLeft(s: List, r: Reader): nat
    requires ListInv(s) && ReaderInv(s, r)
  {
    match r.phase
    case Done => 0
    case Saved(t) => 2 * |Remaining(s, r)| + 1
    case _ => 2 * |Remaining(s, r)| + 2
  }

  lemma EnterRemaining(s: List, r: Reader, t: Link)
    requires ListInv(s) && ReaderInv(s, Enter(r, t)) && (t.Some? ==> t.value in s.pos)
    ensures
      var r' := Enter(r, t);
      var rest := if t.None? then [] else [t.value] + Follow(s, t.value);
      r'.visited + Remaining(s, r') == r.visited + rest && LoadsLeft(s, r') <= 2 * |rest|
  {
    if t.Some? {
      AppendCons(r.visited, t.value, Follow(s, t.value));
    }
  }

  lemma FollowNext(s: List, l: Cell)
    requires ListInv(s) && l in s.pos
    ensures var t := s.next[l];
      (t.Some? ==> t.value in s.pos) && Follow(s, l) == if t.None? then [] else [t.value] + Follow(s, t.value)
  {
    if s.next[l].Some? {
      FollowStep(s, l);
    }
  }

  /** Any load of any reader, in whichever phase, brings it nearer to its end, and does not
      change what it will have visited then. */
  lemma LoadAdvances(s: List, r: Reader, a: ReaderStep)
    requires ListInv(s) && ReaderInv(s, r) && CanRead(s, r, a)
    ensures
      var r' := ReaderNext(s, r, a);
      && ReaderInv(s, r') && LoadsLeft(s, r') < LoadsLeft(s, r)
      && r'.visited + Remaining(s, r') == r.visited + Remaining(s, r)
  {
    ReaderKeeps(s, r, a);
    match a
    case Begin =>
      FollowNext(s, HEAD);
      EnterRemaining(s, r.(since := Linked(s), seen := s.live), s.next[HEAD]);
    case Advance =>
      FollowNext(s, r.phase.v);
      EnterRemaining(s, r, s.next[r.phase.v]);
    case Save =>
      FollowNext(s, r.phase.v);
    case Resume =>
      EnterRemaining(s, r, r.phase.t);
  }

  /** A reader that is not done has a load to do, and can do it. */
  lemma ReaderCanGoOn(s: List, r: Reader)
    requires ListInv(s) && ReaderInv(s, r) && !r.phase.Done?
    ensures exists a :: CanRead(s, r, a)
  {
    match r.phase
    case Ready => assert CanRead(s, r, Begin);
    case Body(v) => assert CanRead(s, r, Advance);
    case Saved(t) => assert CanRead(s, r, Resume);
  }

  /** How many loads reader `i` does in events `m` up to `k`. */
  function LoadsOf(es: seq<Event>, i: nat, m: nat, k: nat): nat
    requires m <= k <= |es|
  {
    if m == k then 0 else LoadsOf(es, i, m, k - 1) + if es[k - 1].Read? && es[k - 1].i == i then 1 else 0
  }

  lemma QuietEvent(y: System, e: Event, y': System, i: nat)
    requires Next(y, e, y') && e.Read? && i < |y.readers|
    ensures y'.list == y.list && |y'.readers| == |y.readers|
    ensures e.i != i ==> y'.readers[i] == y.readers[i]
    ensures e.i == i ==> CanRead(y.list, y.readers[i], e.a) && y'.readers[i] == ReaderNext(y.list, y.readers[i], e.a)
  {
  }

  /** One event that is not a store. */
  lemma QuietStep(y: System, e: Event, y': System, i: nat)
    requires SystemInv(y) && Next(y, e, y') && e.Read? && i < |y.readers|
    ensures SystemInv(y') && y'.list == y.list && |y'.readers| == |y.readers|
    ensures
      var (s, r, r') := (y.list, y.readers[i], y'.readers[i]);
      && r'.visited + Remaining(s, r') == r.visited + Remaining(s, r)
      && LoadsLeft(s, r') + (if e.i == i then 1 else 0) <= LoadsLeft(s, r)
  {
    NextKeeps(y, e, y');
    QuietEvent(y, e, y', i);
    if e.i == i {
      LoadAdvances(y.list, y.readers[i], e.a);
    }
  }

  lemma {:induction false} QuietStretch(ys: seq<System>, es: seq<Event>, m: nat, k: nat, i: nat)
    requires Run(ys, es) && m <= k <= |es| && i < |ys[m].readers|
    requires forall j :: m <= j < k ==> es[j].Read?
    ensures SystemInv(ys[m]) && SystemInv(ys[k])
    ensures ys[k].list == ys[m].list && |ys[k].readers| == |ys[m].readers|
    ensures
      var (s, r, r') := (ys[m].list, ys[m].readers[i], ys[k].readers[i]);
      && LoadsOf(es, i, m, k) + LoadsLeft(s, r') <= LoadsLeft(s, r)
      && r'.visited + Remaining(s, r') == r.visited + Remaining(s, r)
    decreases k
  {
    RunKeeps(ys, es, m);
    if m < k {
      QuietStretch(ys, es, m, k - 1, i);
      QuietStep(ys[k - 1], es[k - 1], ys[k], i);
    }
  }

  /** From any state of a run on in which the writer stands still: however the readers load and
      interleave, each does at most `LoadsLeft` loads more, after as many it is done, while it is
      not it can go on, and in the end it has visited exactly what it had remaining. */
  lemma ReadersFinish(ys: seq<System>, es: seq<Event>, m: nat, k: nat, i: nat)
    requires Run(ys, es) && m <= k <= |es| && i < |ys[m].readers|
    requires forall j :: m <= j < k ==> es[j].Read?
    ensures SystemInv(ys[m]) && SystemInv(ys[k])
    ensures ys[k].list == ys[m].list && |ys[k].readers| == |ys[m].readers|
    ensures
      var (s, r, r') := (ys[m].list, ys[m].readers[i], ys[k].readers[i]);
      && LoadsOf(es, i, m, k) + LoadsLeft(s, r') <= LoadsLeft(s, r)
      && r'.visited + Remaining(s, r') == r.visited + Remaining(s, r)
      && (LoadsOf(es, i, m, k) == LoadsLeft(s, r) ==> r'.phase.Done?)
      && (!r'.phase.Done? ==> exists a :: CanRead(s, r', a))
      && (r'.phase.Done? ==> r'.visited == r.visited + Remaining(s, r))
  {
    QuietStretch(ys, es, m, k, i);
    WhenDone(ys[k].list, ys[k].readers[i]);
  }

  lemma WhenDone(s: List, r: Reader)
    requires ListInv(s) && ReaderInv(s, r)
    ensures LoadsLeft(s, r) == 0 ==> r.phase.Done?
    ensures r.phase.Done? ==> Remaining(s, r) == []
    ensures !r.phase.Done? ==> exists a :: CanRead(s, r, a)
  {
    if !r.phase.Done? {
      ReaderCanGoOn(s, r);
    }
  }

  /** A traversal that starts and ends while the writer stands still visits exactly the contents
      of the list, in order. */
  lemma QuietTraversal(ys: seq<System>, es: seq<Event>, m: nat, k: nat, i: nat)
    requires Run(ys, es) && m <= k <= |es| && i < |ys[m].readers| == |ys[k].readers|
    requires forall j :: m <= j < k ==> es[j].Read?
    requires ys[m].readers[i].phase.Ready? && ys[k].readers[i].phase.Done?
    ensures ListInv(ys[m].list) && ys[k].readers[i].visited == Contents(ys[m].list)
  {
    ReadersFinish(ys, es, m, k, i);
  }

  // ----- what the writer's macros do to the contents

  /** A store before a cell does not change what follows that cell. */
  lemma {:induction false} FollowUnchanged(s: List, s': List, l: Cell)
    requires ListInv(s) && ListInv(s') && l in s.live && s.live <= s'.pos.Keys
    requires forall m :: m in s.live && s.pos[m] >= s.pos[l] ==> s'.next[m] == s.next[m]
    ensures Follow(s', l) == Follow(s, l)
    decreases |Ahead(s, l)|
  {
    if s.next[l].Some? {
      FollowStep(s, l);
      FollowStep(s', l);
      FollowUnchanged(s, s', s.next[l].value);
    }
  }

  /** What a reader sees on its way from cell `l` to cell `at` of the list. */
  ghost function Upto(s: List, l: Cell, at: Cell): seq<Cell>
    requires ListInv(s) && l in s.live && at in s.live && s.pos[l] <= s.pos[at]
    decreases |Ahead(s, l)|
  {
    if l == at then []
    else
      StepTowards(s, l, at);
      [s.next[l].value] + Upto(s, s.next[l].value, at)
  }

  lemma StepTowards(s: List, l: Cell, at: Cell)
    requires ListInv(s) && l in s.live && at in s.live && s.pos[l] <= s.pos[at] && l != at
    ensures s.next[l].Some? && s.next[l].value in s.live && s.pos[l] < s.pos[s.next[l].value] <= s.pos[at]
    ensures |Ahead(s, s.next[l].value)| < |Ahead(s, l)|
  {
    assert s.pos[l] != s.pos[at];
    FollowStep(s, l);
  }

  lemma ConsAppend(w: Cell, a: seq<Cell>, b: seq<Cell>)
    ensures [w] + (a + b) == ([w] + a) + b
    ensures ([w] + a)[|a|] == if a == [] then w else a[|a| - 1]
  {
  }

  lemma {:induction false} FollowIsUpto(s: List, l: Cell, at: Cell)
    requires ListInv(s) && l in s.live && at in s.live && s.pos[l] <= s.pos[at]
    ensures Follow(s, l) == Upto(s, l, at) + Follow(s, at)
    ensures l != at ==> Upto(s, l, at) != [] && Upto(s, l, at)[|Upto(s, l, at)| - 1] == at
    decreases |Ahead(s, l)|
  {
    if l != at {
      var w := s.next[l].value;
      StepTowards(s, l, at);
      FollowIsUpto(s, w, at);
      FollowStep(s, l);
      ConsAppend(w, Upto(s, w, at), Follow(s, at));
    }
  }

  /** A store at or beyond a cell of the list does not change the way to it. */
  lemma {:induction false} UptoUnchanged(s: List, s': List, l: Cell, at: Cell)
    requires ListInv(s) && l in s.live && at in s.live && s.pos[l] <= s.pos[at]
    requires ListInv(s') && l in s'.live && at in s'.live && s'.pos[l] <= s'.pos[at]
    requires forall m :: m in s.live && s.pos[m] < s.pos[at] ==> m in s'.pos && s'.next[m] == s.next[m]
    ensures Upto(s', l, at) == Upto(s, l, at)
    decreases |Ahead(s, l)|
  {
    if l != at {
      StepTowards(s, l, at);
      assert s.pos[l] < s.pos[at];
      StepTowards(s', l, at);
      UptoUnchanged(s, s', s.next[l].value, at);
    }
  }

  lemma PublishedFollow(s: List, s': List, at: Cell, b: Cell)
    requires ListInv(s) && ListInv(s') && at in s.live && Published(s, s', at, b)
    ensures Follow(s', at) == [b] + Follow(s, at)
  {
    assert s'.next[at] == Some(b);
    FollowStep(s', at);
    assert s'.next[b] == s.next[at];
    if s.next[at].Some? {
      FollowStep(s, at);
      FollowStep(s', b);
      PublishedRest(s, s', at, b, s.next[at].value);
    }
  }

  lemma PublishedRest(s: List, s': List, at: Cell, b: Cell, w: Cell)
    requires ListInv(s) && ListInv(s') && at in s.live && Published(s, s', at, b)
    requires w in s.live && s.pos[w] > s.pos[at]
    ensures Follow(s', w) == Follow(s, w)
  {
    forall m | m in s.live && s.pos[m] >= s.pos[w] ensures s'.next[m] == s.next[m] {
      assert m != at;
    }
    FollowUnchanged(s, s', w);
  }

  lemma PublishedUpto(s: List, s': List, at: Cell, b: Cell)
    requires ListInv(s) && ListInv(s') && at in s.live && Published(s, s', at, b)
    ensures at in s'.live && Upto(s', HEAD, at) == Upto(s, HEAD, at)
  {
    forall m | m in s.live && s.pos[m] < s.pos[at] ensures m in s'.pos && s'.next[m] == s.next[m] {
      assert m != at;
    }
    UptoUnchanged(s, s', HEAD, at);
  }

  lemma PublishedContents(s: List, s': List, at: Cell, b: Cell) returns (pre: seq<Cell>, post: seq<Cell>)
    requires ListInv(s) && ListInv(s') && at in s.live && Published(s, s', at, b)
    ensures Contents(s) == pre + post && Contents(s') == pre + [b] + post
    ensures if at == HEAD then pre == [] else pre != [] && pre[|pre| - 1] == at
  {
    pre, post := Upto(s, HEAD, at), Follow(s, at);
    FollowIsUpto(s, HEAD, at);
    PublishedUpto(s, s', at, b);
    FollowIsUpto(s', HEAD, at);
    PublishedFollow(s, s', at, b);
    AppendCons(pre, b, post);
  }

  lemma AppendCons(a: seq<Cell>, w: Cell, b: seq<Cell>)
    ensures a + ([w] + b) == a + [w] + b
  {
  }

  /** The publishing store inserts the new node, at once, right behind its cell. */
  lemma PublishInserts(s: List) returns (pre: seq<Cell>, post: seq<Cell>)
    requires ListInv(s) && Allowed(s, Publish)
    ensures ListInv(WriterNext(s, Publish))
    ensures Contents(s) == pre + post
    ensures Contents(WriterNext(s, Publish)) == pre + [s.writer.b] + post
    ensures if s.writer.at == HEAD then pre == [] else pre != [] && pre[|pre| - 1] == s.writer.at
  {
    WriterKeeps(s, Publish);
    pre, post := PublishedContents(s, WriterNext(s, Publish), s.writer.at, s.writer.b);
  }

  lemma UnlinkedFollow(s: List, s': List, at: Cell, v: Cell)
    requires ListInv(s) && ListInv(s') && at in s.live && Unlinked(s, s', at, v)
    ensures v in s.pos && Follow(s, at) == [v] + Follow(s, v) && Follow(s', at) == Follow(s, v)
  {
    FollowStep(s, at);
    assert s'.next[at] == s.next[v];
    if s.next[v].Some? {
      var w := s.next[v].value;
      FollowStep(s, v);
      FollowStep(s', at);
      RestUnchanged(s, s', at, v, w);
    }
  }

  lemma RestUnchanged(s: List, s': List, at: Cell, v: Cell, w: Cell)
    requires ListInv(s) && ListInv(s') && at in s.live && Unlinked(s, s', at, v)
    requires w in s.live && s.pos[w] > s.pos[at]
    ensures Follow(s', w) == Follow(s, w)
  {
    forall m | m in s.live && s.pos[m] >= s.pos[w] ensures s'.next[m] == s.next[m] {
      assert m != at;
    }
    FollowUnchanged(s, s', w);
  }

  lemma UnlinkedUpto(s: List, s': List, at: Cell, v: Cell)
    requires ListInv(s) && ListInv(s') && at in s.live && Unlinked(s, s', at, v)
    ensures at in s'.live && Upto(s', HEAD, at) == Upto(s, HEAD, at)
  {
    FollowStep(s, at);
    forall m | m in s.live && s.pos[m] < s.pos[at] ensures m in s'.pos && s'.next[m] == s.next[m] {
      assert m != at;
    }
    UptoUnchanged(s, s', HEAD, at);
  }

  lemma UnlinkedContents(s: List, s': List, at: Cell, v: Cell) returns (pre: seq<Cell>, post: seq<Cell>)
    requires ListInv(s) && ListInv(s') && at in s.live && Unlinked(s, s', at, v)
    ensures Contents(s) == pre + [v] + post && Contents(s') == pre + post
  {
    UnlinkedFollow(s, s', at, v);
    pre, post := Upto(s, HEAD, at), Follow(s, v);
    FollowIsUpto(s, HEAD, at);
    UnlinkedUpto(s, s', at, v);
    FollowIsUpto(s', HEAD, at);
    AppendCons(pre, v, post);
  }

  /** The unlinking store removes exactly the node behind its cell. */
  lemma UnlinkRemoves(s: List, at: Cell) returns (pre: seq<Cell>, post: seq<Cell>)
    requires ListInv(s) && Allowed(s, Unlink(at))
    ensures ListInv(WriterNext(s, Unlink(at)))
    ensures Contents(s) == pre + [s.next[at].value] + post
    ensures Contents(WriterNext(s, Unlink(at))) == pre + post
  {
    WriterKeeps(s, Unlink(at));
    pre, post := UnlinkedContents(s, WriterNext(s, Unlink(at)), at, s.next[at].value);
  }

  lemma LastHasNoNext(s: List, l: Cell)
    requires ListInv(s) && l in s.live && s.next[l].None?
    ensures l == if Contents(s) == [] then HEAD else Contents(s)[|Contents(s)| - 1]
  {
    assert Follow(s, l) == [];
    if l != HEAD {
      FollowIsUpto(s, HEAD, l);
      NothingAppended(Upto(s, HEAD, l));
    }
  }

  lemma NothingAppended(a: seq<Cell>)
    ensures a + [] == a
  {
  }

  /** Between macros the tail pointer of a CK_STAILQ names the last next field. */
  lemma TailIsLast(s: List)
    requires ListInv(s) && s.kind == Stailq && s.writer.Idle?
    ensures s.tail == if Contents(s) == [] then HEAD else Contents(s)[|Contents(s)| - 1]
  {
    assert s.tail in s.live && s.next[s.tail].None?;
    LastHasNoNext(s, s.tail);
  }

  /** The stores before and after the publishing store do not change the contents. */
  lemma OtherStoresKeepContents(s: List, w: WriterStep)
    requires ListInv(s) && Allowed(s, w) && (w.Prepare? || w.FixTail?)
    ensures ListInv(WriterNext(s, w)) && Contents(WriterNext(s, w)) == Contents(s)
  {
    WriterKeeps(s, w);
    var s' := WriterNext(s, w);
    forall m | m in s.live ensures s'.next[m] == s.next[m] {
      assert w.Prepare? ==> m != w.b;
    }
    FollowUnchanged(s, s', HEAD);
  }

  /** The search loop of CK_SLIST_REMOVE and CK_STAILQ_REMOVE: it ends, at the cell that
      holds the node to be removed. */
  method FindHolder(s: List, elm: Cell) returns (at: Cell)
    requires ListInv(s) && elm in Linked(s)
    ensures at in s.live && s.next[at] == Some(elm)
    ensures s.writer.Idle? ==> Allowed(s, Unlink(at))
  {
    if s.next[HEAD] == Some(elm) {
      return HEAD;
    }
    var curelm := s.next[HEAD].value;
    while s.next[curelm] != Some(elm)
      invariant curelm in s.live && s.pos[curelm] < s.pos[elm]
      decreases s.pos[elm] - s.pos[curelm]
    {
      curelm := s.next[curelm].value;
    }
    return curelm;
  }
}
