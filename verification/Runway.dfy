/** The runway scheduler: the tick function and its helpers, and whole days with planes
    joining either queue at any time. */
module Runway {
  import opened Basics

  const INT_MAX: int := 0x7fff_ffff

  datatype Mode = Inactive | Active

  datatype State = State(
    modeA: Mode, modeD: Mode, waitA: int, waitD: int, runwayTime: int, planeCounter: int)

  predicate Valid(s: State) {
    && !(s.modeA.Active? && s.modeD.Active?)
    && s.waitA >= 0 && s.waitD >= 0
    && 0 <= s.runwayTime <= 5
    && 0 <= s.planeCounter <= 3
    && (s.modeA.Inactive? && s.modeD.Inactive? ==> s.planeCounter == 0)
    && (s.runwayTime > 0 ==> s.modeA.Active? || s.modeD.Active?)
    && (s.planeCounter > 0 && s.modeA.Active? ==> s.waitD > 0)
    && (s.planeCounter > 0 && s.modeD.Active? ==> s.waitA > 0)
  }

  function Init(): State {
    State(Inactive, Inactive, 0, 0, 0, 0)
  }

  function IncrementPlaneCounter(s: State): State {
    s.(planeCounter := s.planeCounter + 1)
  }

  function ResetPlaneCounter(s: State): State {
    s.(planeCounter := 0)
  }

  function IncrementRunwayTime(s: State): State {
    s.(runwayTime := s.runwayTime + 1)
  }

  function ResetRunwayTime(s: State): State {
    s.(runwayTime := 0)
  }

  function Arrive(s: State): State {
    var t := s.(waitA := s.waitA - 1);
    if s.waitD > 0 then IncrementPlaneCounter(t) else t
  }

  function Depart(s: State): State {
    var t := s.(waitD := s.waitD - 1);
    if s.waitA > 0 then IncrementPlaneCounter(t) else t
  }

  function Flip(m: Mode): Mode {
    if m.Inactive? then Active else Inactive
  }

  function SwitchModes(s: State): State {
    s.(modeA := Flip(s.modeA), modeD := Flip(s.modeD))
  }

  function Tick(s: State): State {
    if s.runwayTime > 0 then
      if s.runwayTime == 5 then ResetRunwayTime(s) else IncrementRunwayTime(s)
    else if s.modeA.Active? && s.waitA > 0 && s.planeCounter < 3 then
      IncrementRunwayTime(Arrive(s))
    else if s.modeD.Active? && s.waitD > 0 && s.planeCounter < 3 then
      IncrementRunwayTime(Depart(s))
    else if s.modeA.Active? then
      var t := SwitchModes(ResetPlaneCounter(s));
      if t.waitD > 0 then IncrementRunwayTime(Depart(t)) else t
    else if s.modeD.Active? then
      var t := SwitchModes(ResetPlaneCounter(s));
      if t.waitA > 0 then IncrementRunwayTime(Arrive(t)) else t
    else if s.waitA > 0 then
      IncrementRunwayTime(Arrive(s.(modeA := Active)))
    else if s.waitD > 0 then
      IncrementRunwayTime(Depart(s.(modeD := Active)))
    else s.(modeA := Active)
  }

  // ----- one tick

  /** What a tick takes off the two queues. */
  function AdmittedA(s: State): int { s.waitA - Tick(s).waitA }
  function AdmittedD(s: State): int { s.waitD - Tick(s).waitD }
  function Admitted(s: State): int { AdmittedA(s) + AdmittedD(s) }

  lemma TickKeepsValid(s: State)
    requires Valid(s)
    ensures Valid(Tick(s))
  {
  }

  /** A tick admits one plane, of the mode that is then active, exactly when the runway is
      free and some plane waits; otherwise it admits none. */
  lemma TickAdmits(s: State)
    requires Valid(s)
    ensures Admitted(s) == if s.runwayTime == 0 && (s.waitA > 0 || s.waitD > 0) then 1 else 0
    ensures 0 <= AdmittedA(s) <= 1 && 0 <= AdmittedD(s) <= 1
    ensures AdmittedA(s) == 1 ==> Tick(s).modeA.Active?
    ensures AdmittedD(s) == 1 ==> Tick(s).modeD.Active?
    ensures Admitted(s) == 1 ==> Tick(s).runwayTime == 1
  {
  }

  /** The modes after a tick.  On a busy runway they stay.  On a free one the active mode stays
      exactly while a plane of its queue can be taken, and else the other one follows, also when
      nobody waits; with neither active, arrival mode follows unless only departures wait. */
  lemma TickModes(s: State)
    requires Valid(s)
    ensures var t := Tick(s);
      && (s.runwayTime > 0 ==> t.modeA == s.modeA && t.modeD == s.modeD)
      && (s.runwayTime == 0 && s.modeA.Active? ==> (t.modeA.Active? <==> s.waitA > 0 && s.planeCounter < 3))
      && (s.runwayTime == 0 && s.modeD.Active? ==> (t.modeD.Active? <==> s.waitD > 0 && s.planeCounter < 3))
      && (s.modeA.Inactive? && s.modeD.Inactive? ==> (t.modeA.Active? <==> s.waitA > 0 || s.waitD == 0))
      && (t.modeA.Active? <==> !t.modeD.Active?)
      && (s.runwayTime == 0 && s.waitA > 0 && s.waitD == 0 ==> t.modeA.Active?)
      && (s.runwayTime == 0 && s.waitD > 0 && s.waitA == 0 ==> t.modeD.Active?)
  {
  }

  /** The two counters after a tick: the runway is busy for five more ticks after an admission;
      admissions are counted while a plane of the other queue waits, anew after a change. */
  lemma TickCounters(s: State)
    requires Valid(s)
    ensures var t := Tick(s);
      && t.runwayTime == (if Admitted(s) == 1 then 1 else if s.runwayTime == 0 || s.runwayTime == 5 then 0
                          else s.runwayTime + 1)
      && var changed := (s.modeA.Active? && t.modeD.Active?) || (s.modeD.Active? && t.modeA.Active?);
         var counted := (AdmittedA(s) == 1 && s.waitD > 0) || (AdmittedD(s) == 1 && s.waitA > 0);
         t.planeCounter == (if changed then 0 else s.planeCounter) + (if counted then 1 else 0)
  {
  }

  // ----- days

  /** Planes that join the queues before a tick. */
  datatype Joins = Joins(a: nat, d: nat)

  function Join(s: State, j: Joins): State {
    s.(waitA := s.waitA + j.a, waitD := s.waitD + j.d)
  }

  function Minute(s: State, j: Joins): State {
    Tick(Join(s, j))
  }

  /** The counters stay within the range in which `tick` may be called. */
  predicate InRange(s: State, j: Joins) {
    s.waitA + j.a < INT_MAX && s.waitD + j.d < INT_MAX
  }

  /** A run of the scheduler: `ss[i + 1]` is the state a minute after `ss[i]`. */
  ghost predicate Run(ss: seq<State>, js: seq<Joins>) {
    && |ss| == |js| + 1
    && forall i :: 0 <= i < |js| ==> InRange(ss[i], js[i]) && ss[i + 1] == Minute(ss[i], js[i])
  }

  ghost predicate Day(ss: seq<State>, js: seq<Joins>) {
    Run(ss, js) && ss[0] == Init()
  }

  lemma {:induction false} RunKeepsValid(ss: seq<State>, js: seq<Joins>, i: nat)
    requires Run(ss, js) && Valid(ss[0]) && i <= |js|
    ensures Valid(ss[i])
  {
    if i != 0 {
      RunKeepsValid(ss, js, i - 1);
      TickKeepsValid(Join(ss[i - 1], js[i - 1]));
    }
  }

  /** Admissions of arrivals and departures in minutes `i` up to `k`. */
  function TotalA(ss: seq<State>, js: seq<Joins>, i: nat, k: nat): int
    requires i <= k <= |js| <= |ss|
    decreases k - i
  {
    if i == k then 0 else AdmittedA(Join(ss[i], js[i])) + TotalA(ss, js, i + 1, k)
  }

  function TotalD(ss: seq<State>, js: seq<Joins>, i: nat, k: nat): int
    requires i <= k <= |js| <= |ss|
    decreases k - i
  {
    if i == k then 0 else AdmittedD(Join(ss[i], js[i])) + TotalD(ss, js, i + 1, k)
  }

  function JoinedA(js: seq<Joins>, i: nat, k: nat): nat
    requires i <= k <= |js|
    decreases k - i
  {
    if i == k then 0 else js[i].a + JoinedA(js, i + 1, k)
  }

  function JoinedD(js: seq<Joins>, i: nat, k: nat): nat
    requires i <= k <= |js|
    decreases k - i
  {
    if i == k then 0 else js[i].d + JoinedD(js, i + 1, k)
  }

  /** No plane is lost or invented: who waits at first or joins is admitted or waits at last. */
  lemma {:induction false} PlanesConserved(ss: seq<State>, js: seq<Joins>, i: nat, k: nat)
    requires Run(ss, js) && i <= k <= |js|
    ensures ss[i].waitA + JoinedA(js, i, k) == ss[k].waitA + TotalA(ss, js, i, k)
    ensures ss[i].waitD + JoinedD(js, i, k) == ss[k].waitD + TotalD(ss, js, i, k)
    decreases k - i
  {
    if i < k {
      PlanesConserved(ss, js, i + 1, k);
    }
  }

  // ----- spacing of admissions

  lemma RunwayClears(s: State, j: Joins)
    requires Valid(s) && s.runwayTime > 0
    ensures Minute(s, j).runwayTime == if s.runwayTime == 5 then 0 else s.runwayTime + 1
    ensures Admitted(Join(s, j)) == 0
  {
  }

  lemma {:induction false} RunwayBusy(ss: seq<State>, js: seq<Joins>, i: nat, k: nat)
    requires Run(ss, js) && Valid(ss[0]) && i < k <= i + 5 && k <= |js|
    requires Admitted(Join(ss[i], js[i])) == 1
    ensures Valid(ss[k]) && ss[k].runwayTime == k - i
    decreases k
  {
    RunKeepsValid(ss, js, i);
    RunKeepsValid(ss, js, k);
    TickAdmits(Join(ss[i], js[i]));
    if k > i + 1 {
      RunwayBusy(ss, js, i, k - 1);
      RunwayClears(ss[k - 1], js[k - 1]);
    }
  }

  /** Two admissions are at least six ticks apart. */
  lemma AdmissionsAreSpaced(ss: seq<State>, js: seq<Joins>, i: nat, k: nat)
    requires Run(ss, js) && Valid(ss[0]) && i < k < |js|
    requires Admitted(Join(ss[i], js[i])) == 1 && Admitted(Join(ss[k], js[k])) == 1
    ensures k >= i + 6
  {
    if k <= i + 5 {
      RunwayBusy(ss, js, i, k);
      RunwayClears(ss[k], js[k]);
    }
  }

  // ----- bounded waiting

  function UntilFree(s: State): int {
    if s.runwayTime > 0 then 6 - s.runwayTime else 0
  }

  /** Upper bound on the ticks up to and including the one that switches modes, while a plane
      waits for the other mode. */
  function UntilSwitch(s: State): int {
    UntilFree(s) + 6 * (3 - s.planeCounter) + 1
  }

  /** While a departure waits for its mode, every tick lowers the bound. */
  lemma ModeDApproaches(s: State)
    requires Valid(s) && s.modeA.Active? && s.waitD > 0
    ensures 0 < UntilSwitch(s) <= 24
    ensures
      || Tick(s).modeD.Active?
      || (Tick(s).modeA.Active? && Tick(s).waitD == s.waitD && UntilSwitch(Tick(s)) < UntilSwitch(s))
  {
  }

  lemma ModeAApproaches(s: State)
    requires Valid(s) && s.modeD.Active? && s.waitA > 0
    ensures 0 < UntilSwitch(s) <= 24
    ensures
      || Tick(s).modeA.Active?
      || (Tick(s).modeD.Active? && Tick(s).waitA == s.waitA && UntilSwitch(Tick(s)) < UntilSwitch(s))
  {
  }

  /** While arrival mode is active, a waiting departure sees its mode within the bound that
      runway time and plane counter give. */
  lemma {:induction false} ModeDWithin(ss: seq<State>, js: seq<Joins>, i: nat) returns (k: nat)
    requires Run(ss, js) && Valid(ss[0]) && i <= |js|
    requires ss[i].modeA.Active? && ss[i].waitD > 0 && |js| - i >= UntilSwitch(ss[i])
    ensures i < k <= i + UntilSwitch(ss[i]) <= i + 24 && k <= |js| && ss[k].modeD.Active?
    decreases |js| - i
  {
    RunKeepsValid(ss, js, i);
    ModeDApproaches(ss[i]);
    ModeDApproaches(Join(ss[i], js[i]));
    if ss[i + 1].modeD.Active? {
      k := i + 1;
    } else {
      k := ModeDWithin(ss, js, i + 1);
    }
  }

  lemma {:induction false} ModeAWithin(ss: seq<State>, js: seq<Joins>, i: nat) returns (k: nat)
    requires Run(ss, js) && Valid(ss[0]) && i <= |js|
    requires ss[i].modeD.Active? && ss[i].waitA > 0 && |js| - i >= UntilSwitch(ss[i])
    ensures i < k <= i + UntilSwitch(ss[i]) <= i + 24 && k <= |js| && ss[k].modeA.Active?
    decreases |js| - i
  {
    RunKeepsValid(ss, js, i);
    ModeAApproaches(ss[i]);
    ModeAApproaches(Join(ss[i], js[i]));
    if ss[i + 1].modeA.Active? {
      k := i + 1;
    } else {
      k := ModeAWithin(ss, js, i + 1);
    }
  }

  // ----- bounded waiting of every single plane

  /** Upper bound on the ticks up to and including the next admission of an arrival. */
  function UntilArrival(s: State): int {
    if s.modeA.Active? && s.planeCounter < 3 then UntilFree(s) + 1
    else if s.modeA.Active? then UntilFree(s) + 19
    else if s.modeD.Active? then UntilFree(s) + 6 * (3 - s.planeCounter) + 1
    else 1
  }

  function UntilDeparture(s: State): int {
    if s.modeD.Active? && s.planeCounter < 3 then UntilFree(s) + 1
    else if s.modeD.Active? then UntilFree(s) + 19
    else if s.modeA.Active? then UntilFree(s) + 6 * (3 - s.planeCounter) + 1
    else if s.waitA > 0 then 19
    else 1
  }

  lemma ArrivalApproaches(s: State)
    requires Valid(s) && s.waitA > 0
    ensures UntilArrival(s) <= 24
    ensures AdmittedA(s) == 1 || (Tick(s).waitA == s.waitA && UntilArrival(Tick(s)) < UntilArrival(s))
    ensures UntilArrival(s) >= 1
  {
  }

  lemma DepartureApproaches(s: State)
    requires Valid(s) && s.waitD > 0
    ensures UntilDeparture(s) <= 24
    ensures AdmittedD(s) == 1 || (Tick(s).waitD == s.waitD && UntilDeparture(Tick(s)) < UntilDeparture(s))
    ensures UntilDeparture(s) >= 1
  {
  }

  /** Joining planes leave the bounds as they are, except for departures before the first
      tick of the day. */
  lemma JoinKeepsBounds(s: State, j: Joins)
    requires Valid(s)
    ensures Valid(Join(s, j))
    ensures UntilArrival(Join(s, j)) == UntilArrival(s)
    ensures s.modeA.Active? || s.modeD.Active? ==> UntilDeparture(Join(s, j)) == UntilDeparture(s)
  {
  }

  lemma TickActivates(s: State)
    requires Valid(s)
    ensures Tick(s).modeA.Active? || Tick(s).modeD.Active?
  {
  }

  /** Whenever an arrival waits, one is admitted within 24 ticks. */
  lemma {:induction false} NextArrival(ss: seq<State>, js: seq<Joins>, i: nat, b: nat) returns (k: nat)
    requires Run(ss, js) && Valid(ss[0]) && i + b <= |js|
    requires ss[i].waitA > 0 && UntilArrival(ss[i]) <= b
    ensures i <= k < i + b && AdmittedA(Join(ss[k], js[k])) == 1
    decreases b
  {
    RunKeepsValid(ss, js, i);
    ArrivalApproaches(ss[i]);
    JoinKeepsBounds(ss[i], js[i]);
    ArrivalApproaches(Join(ss[i], js[i]));
    if AdmittedA(Join(ss[i], js[i])) == 1 {
      k := i;
    } else {
      k := NextArrival(ss, js, i + 1, b - 1);
    }
  }

  lemma {:induction false} NextDepartureFrom(ss: seq<State>, js: seq<Joins>, i: nat, b: nat) returns (k: nat)
    requires Run(ss, js) && Valid(ss[0]) && i + b <= |js|
    requires ss[i].modeA.Active? || ss[i].modeD.Active?
    requires ss[i].waitD > 0 && UntilDeparture(ss[i]) <= b
    ensures i <= k < i + b && AdmittedD(Join(ss[k], js[k])) == 1
    decreases b
  {
    RunKeepsValid(ss, js, i);
    DepartureApproaches(ss[i]);
    JoinKeepsBounds(ss[i], js[i]);
    DepartureApproaches(Join(ss[i], js[i]));
    TickActivates(Join(ss[i], js[i]));
    if AdmittedD(Join(ss[i], js[i])) == 1 {
      k := i;
    } else {
      k := NextDepartureFrom(ss, js, i + 1, b - 1);
    }
  }

  /** Whenever a departure waits, one is admitted within 24 ticks. */
  lemma NextDeparture(ss: seq<State>, js: seq<Joins>, i: nat) returns (k: nat)
    requires Run(ss, js) && Valid(ss[0]) && i + 24 <= |js| && ss[i].waitD > 0
    ensures i <= k < i + 24 && AdmittedD(Join(ss[k], js[k])) == 1
  {
    RunKeepsValid(ss, js, i);
    DepartureApproaches(ss[i]);
    if ss[i].modeA.Active? || ss[i].modeD.Active? {
      k := NextDepartureFrom(ss, js, i, 24);
    } else {
      JoinKeepsBounds(ss[i], js[i]);
      DepartureApproaches(Join(ss[i], js[i]));
      TickActivates(Join(ss[i], js[i]));
      if AdmittedD(Join(ss[i], js[i])) == 1 {
        k := i;
      } else {
        k := NextDepartureFrom(ss, js, i + 1, 23);
      }
    }
  }

  /** Whenever a departure waits, also at the start of the day, departure mode is active
      within 24 ticks. */
  lemma ModeDSoon(ss: seq<State>, js: seq<Joins>, i: nat) returns (k: nat)
    requires Run(ss, js) && Valid(ss[0]) && i + 24 <= |js| && ss[i].waitD > 0
    ensures i < k <= i + 24 && ss[k].modeD.Active?
  {
    var m := NextDeparture(ss, js, i);
    RunKeepsValid(ss, js, m);
    TickAdmits(Join(ss[m], js[m]));
    k := m + 1;
  }

  /** Whenever an arrival waits, also at the start of the day, arrival mode is active within
      24 ticks. */
  lemma ModeASoon(ss: seq<State>, js: seq<Joins>, i: nat) returns (k: nat)
    requires Run(ss, js) && Valid(ss[0]) && i + 24 <= |js| && ss[i].waitA > 0
    ensures i < k <= i + 24 && ss[k].modeA.Active?
  {
    RunKeepsValid(ss, js, i);
    ArrivalApproaches(ss[i]);
    var m := NextArrival(ss, js, i, 24);
    RunKeepsValid(ss, js, m);
    TickAdmits(Join(ss[m], js[m]));
    k := m + 1;
  }

  lemma {:induction false} TotalsSplit(ss: seq<State>, js: seq<Joins>, i: nat, m: nat, k: nat)
    requires i <= m <= k <= |js| <= |ss|
    ensures TotalA(ss, js, i, k) == TotalA(ss, js, i, m) + TotalA(ss, js, m, k)
    ensures TotalD(ss, js, i, k) == TotalD(ss, js, i, m) + TotalD(ss, js, m, k)
    decreases m - i
  {
    if i < m {
      TotalsSplit(ss, js, i + 1, m, k);
    }
  }

  lemma {:induction false} TotalsNonNegative(ss: seq<State>, js: seq<Joins>, i: nat, k: nat)
    requires Run(ss, js) && Valid(ss[0]) && i <= k <= |js|
    ensures TotalA(ss, js, i, k) >= 0 && TotalD(ss, js, i, k) >= 0
    decreases k - i
  {
    if i < k {
      RunKeepsValid(ss, js, i);
      TickAdmits(Join(ss[i], js[i]));
      TotalsNonNegative(ss, js, i + 1, k);
    }
  }

  /** One admission in minute `k` is seen by every stretch of the day around it. */
  lemma AdmissionCounts(ss: seq<State>, js: seq<Joins>, i: nat, k: nat, m: nat)
    requires Run(ss, js) && Valid(ss[0]) && i <= k < m <= |js|
    ensures TotalA(ss, js, i, m) >= AdmittedA(Join(ss[k], js[k]))
    ensures TotalD(ss, js, i, m) >= AdmittedD(Join(ss[k], js[k]))
  {
    TotalsSplit(ss, js, i, k, m);
    TotalsNonNegative(ss, js, i, k);
    TotalsNonNegative(ss, js, k + 1, m);
  }

  lemma ArrivalWindow(ss: seq<State>, js: seq<Joins>, i: nat)
    requires Run(ss, js) && Valid(ss[0]) && i + 24 <= |js| && ss[i].waitA >= 1
    ensures TotalA(ss, js, i, i + 24) >= 1
  {
    assert UntilArrival(ss[i]) <= 24 by {
      RunKeepsValid(ss, js, i);
      ArrivalApproaches(ss[i]);
    }
    var k := NextArrival(ss, js, i, 24);
    AdmissionCounts(ss, js, i, k, i + 24);
  }

  lemma DepartureWindow(ss: seq<State>, js: seq<Joins>, i: nat)
    requires Run(ss, js) && Valid(ss[0]) && i + 24 <= |js| && ss[i].waitD >= 1
    ensures TotalD(ss, js, i, i + 24) >= 1
  {
    var k := NextDeparture(ss, js, i);
    AdmissionCounts(ss, js, i, k, i + 24);
  }

  /** Who waits in minute `i` with `n - 1` planes ahead is admitted within 24 * n ticks,
      however many planes join either queue meanwhile. */
  lemma {:induction false} ArrivalsServed(ss: seq<State>, js: seq<Joins>, i: nat, n: nat)
    requires Run(ss, js) && Valid(ss[0]) && i + 24 * n <= |js| && ss[i].waitA >= n
    ensures TotalA(ss, js, i, i + 24 * n) >= n
    decreases n
  {
    if n != 0 {
      var m := i + 24;
      ArrivalWindow(ss, js, i);
      RunKeepsValid(ss, js, m);
      PlanesConserved(ss, js, i, m);
      TotalsSplit(ss, js, i, m, i + 24 * n);
      var left := if TotalA(ss, js, i, m) < n then n - TotalA(ss, js, i, m) else 0;
      ArrivalsServed(ss, js, m, left);
      TotalsSplit(ss, js, m, m + 24 * left, i + 24 * n);
      TotalsNonNegative(ss, js, m + 24 * left, i + 24 * n);
    }
  }

  lemma {:induction false} DeparturesServed(ss: seq<State>, js: seq<Joins>, i: nat, n: nat)
    requires Run(ss, js) && Valid(ss[0]) && i + 24 * n <= |js| && ss[i].waitD >= n
    ensures TotalD(ss, js, i, i + 24 * n) >= n
    decreases n
  {
    if n != 0 {
      var m := i + 24;
      DepartureWindow(ss, js, i);
      RunKeepsValid(ss, js, m);
      PlanesConserved(ss, js, i, m);
      TotalsSplit(ss, js, i, m, i + 24 * n);
      var left := if TotalD(ss, js, i, m) < n then n - TotalD(ss, js, i, m) else 0;
      DeparturesServed(ss, js, m, left);
      TotalsSplit(ss, js, m, m + 24 * left, i + 24 * n);
      TotalsNonNegative(ss, js, m + 24 * left, i + 24 * n);
    }
  }

  // ----- the bound of 24 ticks is met

  /** `t` ticks after an arrival was admitted, when `3 - a` more and one departure wait. */
  function WorstAt(a: nat, t: nat): State {
    State(Active, Inactive, 3 - a, 1, if t < 5 then t + 1 else 0, a)
  }

  lemma WorstStep(a: nat, t: nat)
    requires a <= 3 && t <= 5
    ensures t < 5 ==> Minute(WorstAt(a, t), Joins(0, 0)) == WorstAt(a, t + 1)
    ensures t == 5 && a < 3 ==> Minute(WorstAt(a, t), Joins(0, 0)) == WorstAt(a + 1, 0)
    ensures t == 5 && a == 3 ==> Minute(WorstAt(a, t), Joins(0, 0)).modeD.Active?
  {
    assert Join(WorstAt(a, t), Joins(0, 0)) == WorstAt(a, t);
  }

  /** A run goes on by one minute. */
  lemma LongerRun(ss: seq<State>, js: seq<Joins>, j: Joins) returns (rs: seq<State>, ks: seq<Joins>)
    requires Run(ss, js) && InRange(ss[|js|], j)
    ensures Run(rs, ks) && |ks| == |js| + 1 && rs[|ks|] == Minute(ss[|js|], j)
    ensures (forall k :: 0 <= k <= |js| ==> rs[k] == ss[k]) && forall k :: 0 <= k < |js| ==> ks[k] == js[k]
  {
    rs, ks := ss + [Minute(ss[|js|], j)], js + [j];
  }

  lemma FirstMinutes()
    ensures Minute(Init(), Joins(4, 0)) == State(Active, Inactive, 3, 0, 1, 0)
    ensures Minute(State(Active, Inactive, 3, 0, 1, 0), Joins(0, 1)) == WorstAt(0, 1)
  {
  }

  /** So far nothing departs, though one departure joined in the second minute. */
  ghost predicate NoDeparture(ss: seq<State>, js: seq<Joins>) {
    && Day(ss, js) && |js| >= 2 && js[1].d == 1 && ss[0].waitD == ss[1].waitD == 0
    && forall k :: 0 <= k <= |js| ==> !ss[k].modeD.Active?
  }

  /** A day that starts with four arrivals; one minute later a departure joins, and no more. */
  lemma WorstDayBegins() returns (ss: seq<State>, js: seq<Joins>)
    ensures NoDeparture(ss, js) && |js| == 2 && ss[2] == WorstAt(0, 1)
  {
    ss, js := [Init(), State(Active, Inactive, 3, 0, 1, 0), WorstAt(0, 1)], [Joins(4, 0), Joins(0, 1)];
    FirstMinutes();
  }

  /** The same day `a` arrivals and `t` minutes later. */
  lemma {:induction false} WorstDay(a: nat, t: nat) returns (ss: seq<State>, js: seq<Joins>)
    requires a <= 3 && t <= 5 && 6 * a + t >= 1
    ensures NoDeparture(ss, js) && |js| == 6 * a + t + 1 && ss[|js|] == WorstAt(a, t)
    decreases a, t
  {
    if a == 0 && t == 1 {
      ss, js := WorstDayBegins();
    } else {
      var b, u := if t > 0 then a else a - 1, if t > 0 then t - 1 else 5;
      var rs, ks := WorstDay(b, u);
      WorstStep(b, u);
      ss, js := LongerRun(rs, ks, Joins(0, 0));
    }
  }

  /** There is a day on which a departure waits all of 24 ticks for its mode. */
  lemma BoundIsTight() returns (ss: seq<State>, js: seq<Joins>)
    ensures Day(ss, js) && |js| == 25
    ensures js[1].d == 1 && ss[0].waitD == ss[1].waitD == 0
    ensures forall k :: 0 <= k < 25 ==> !ss[k].modeD.Active?
    ensures ss[25].modeD.Active?
  {
    var rs, ks := WorstDay(3, 5);
    WorstStep(3, 5);
    ss, js := LongerRun(rs, ks, Joins(0, 0));
  }
}
