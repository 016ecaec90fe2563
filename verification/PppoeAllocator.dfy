/** The loop that draws session identifiers: which candidates it tries, that it finds the
    identifier the specification names, and exactly when it finds one at all. */
module PppoeAllocator {
  import opened Basics
  import opened PppoeNode

  /** The candidate of one turn and the counter after it: after 0xFFFF comes 1. */
  function Turn(counter: uint16): (uint16, uint16) {
    if counter == 0xffff then (1, 1) else (counter, counter + 1)
  }

  function CounterAfter(counter: uint16, turns: nat): uint16 {
    if turns == 0 then counter else Turn(CounterAfter(counter, turns - 1)).1
  }

  /** The candidate of turn number `turn`, counted from 0. */
  function Candidate(counter: uint16, turn: nat): uint16 {
    Turn(CounterAfter(counter, turn)).0
  }

  lemma {:induction false} CandidateInRange(counter: uint16, turn: nat)
    requires 1 <= counter
    ensures 1 <= CounterAfter(counter, turn) && 1 <= Candidate(counter, turn) <= SID_MAX
  {
    if turn != 0 {
      CandidateInRange(counter, turn - 1);
    }
  }

  lemma {:induction false} CounterCountsUp(counter: uint16, turns: nat)
    requires counter + turns <= 0xffff
    ensures CounterAfter(counter, turns) == counter + turns
  {
    if turns != 0 {
      CounterCountsUp(counter, turns - 1);
    }
  }

  lemma {:induction false} TurnsAdd(counter: uint16, m: nat, k: nat)
    ensures CounterAfter(counter, m + k) == CounterAfter(CounterAfter(counter, m), k)
  {
    if k != 0 {
      TurnsAdd(counter, m, k - 1);
    }
  }

  /** Every identifier from 1 to 0xFFFE comes up as a candidate. */
  lemma EveryIdIsTried(counter: uint16, v: uint16) returns (turn: nat)
    requires 1 <= counter && 1 <= v <= SID_MAX
    ensures Candidate(counter, turn) == v
  {
    if counter <= v {
      turn := v - counter;
      CounterCountsUp(counter, turn);
    } else {
      var wrap := 0xffff - counter;
      CounterCountsUp(counter, wrap);
      assert CounterAfter(counter, wrap + 1) == 1;
      CounterCountsUp(1, v - 1);
      turn := wrap + 1 + (v - 1);
      TurnsAdd(counter, wrap + 1, v - 1);
    }
  }

  /** Some turn of the allocator finds an unused candidate if and only if some identifier is
      unused.  With every one in use each turn starts over. */
  lemma AllocatorReturnsIff(c: Core)
    requires CoreSafe(c)
    ensures (exists turn: nat :: !IdInUse(c, Candidate(c.nextSid, turn))) <==> SomeIdFree(c)
  {
    if turn: nat :| !IdInUse(c, Candidate(c.nextSid, turn)) {
      CandidateInRange(c.nextSid, turn);
    }
    if SomeIdFree(c) {
      var f: uint16 :| 1 <= f <= SID_MAX && !IdInUse(c, f);
      var turn := EveryIdIsTried(c.nextSid, f);
    }
  }

  // ----- one turn

  lemma SameIdsInUse(c: Core, next: uint16, v: uint16)
    requires CoreSafe(c) && 1 <= next
    ensures IdInUse(c.(nextSid := next), v) == IdInUse(c, v)
  {
  }

  lemma {:induction false} SameLeastFree(c: Core, next: uint16, v: nat)
    requires CoreSafe(c) && 1 <= next
    ensures LeastFree(c.(nextSid := next), v) == LeastFree(c, v)
    decreases 0x1_0000 - v
  {
    if v <= SID_MAX {
      SameIdsInUse(c, next, v);
      SameLeastFree(c, next, v + 1);
    }
  }

  lemma NewSidFrom(c: Core, c': Core)
    requires CoreSafe(c) && SomeIdFree(c) && CoreSafe(c') && SomeIdFree(c')
    requires LeastFree(c', c'.nextSid) == LeastFree(c, c.nextSid) && LeastFree(c', 1) == LeastFree(c, 1)
    requires IdInUse(c', 1) == IdInUse(c, 1)
    ensures NewSid(c) == NewSid(c')
  {
  }

  lemma LeastFreeStep(c: Core, v: uint16)
    requires CoreSafe(c) && v != 0xffff
    ensures LeastFree(c, v) == if IdInUse(c, v) then LeastFree(c, v + 1) else Some(v)
  {
  }

  /** One turn of the allocator: a free candidate is the answer, a taken one can be skipped. */
  lemma SkipTaken(c: Core)
    requires CoreSafe(c) && SomeIdFree(c) && c.nextSid != 0xffff
    ensures
      var c' := c.(nextSid := c.nextSid + 1);
      if IdInUse(c, c.nextSid) then SomeIdFree(c') && NewSid(c) == NewSid(c')
      else NewSid(c) == (c.nextSid, c'.nextSid)
  {
    LeastFreeStep(c, c.nextSid);
    if IdInUse(c, c.nextSid) {
      SameSomeIdFree(c, c.nextSid + 1);
      SameIdsInUse(c, c.nextSid + 1, 1);
      SameLeastFree(c, c.nextSid + 1, 1);
      SameLeastFree(c, c.nextSid + 1, c.nextSid + 1);
      NewSidFrom(c, c.(nextSid := c.nextSid + 1));
    }
  }

  lemma SkipReserved(c: Core)
    requires CoreSafe(c) && SomeIdFree(c) && c.nextSid == 0xffff
    ensures
      var c' := c.(nextSid := 1);
      if IdInUse(c, 1) then SomeIdFree(c') && NewSid(c) == NewSid(c') else NewSid(c) == (1, 1)
  {
    SameSomeIdFree(c, 1);
    SameLeastFree(c, 1, 1);
    assert LeastFree(c, 0xffff) == None;
  }

  lemma SameSomeIdFree(c: Core, next: uint16)
    requires CoreSafe(c) && SomeIdFree(c) && 1 <= next
    ensures SomeIdFree(c.(nextSid := next))
  {
    var f: uint16 :| 1 <= f <= SID_MAX && !IdInUse(c, f);
    SameIdsInUse(c, next, f);
  }

  /** How many candidates are tried before `f`, from counter value `c` on. */
  ghost function Distance(c: int, f: int): int {
    if c <= f then f - c else 0xffff - c + f + 1
  }

  /** One turn keeps the answer of the specification, or gives it, and comes nearer to any
      free identifier `f`. */
  lemma TurnMakesProgress(c: Core, f: uint16)
    requires CoreSafe(c) && 1 <= f <= SID_MAX && !IdInUse(c, f)
    ensures
      var (val, next) := Turn(c.nextSid);
      var c' := c.(nextSid := next);
      && CoreSafe(c') && SomeIdFree(c) && SomeIdFree(c') && !IdInUse(c', f) && IdInUse(c', val) == IdInUse(c, val)
      && if IdInUse(c, val)
         then NewSid(c) == NewSid(c') && 0 <= Distance(next, f) < Distance(c.nextSid, f)
         else NewSid(c) == (val, next)
  {
    var (val, next) := Turn(c.nextSid);
    SameIdsInUse(c, next, f);
    SameIdsInUse(c, next, val);
    if c.nextSid == 0xffff { SkipReserved(c); } else { SkipTaken(c); }
  }
}
