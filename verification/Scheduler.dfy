/** The timer queue of websuemf.c: one due entry per call, taken in round-robin order. */
module Scheduler {
  import opened Basics
  import opened Handles

  /** A scheduled call: what to run, and the second from which it is due. */
  datatype Task = Task(routine: int, arg: int, at: int, schedid: nat)

  /** Seconds for a delay in milliseconds, rounded to the nearest. */
  function Seconds(delay: int): (s: int)
    ensures delay >= -500 ==> -500 < 1000 * s - delay <= 500 || (s == 0 && delay < 0)
  {
    TruncDiv(delay + 500, 1000)
  }

  // ----- One call -----

  /** How far slot i lies after slot `start`, going round n slots. */
  function Distance(start: nat, i: nat, n: nat): (d: nat)
    requires start < n && i < n
    ensures d < n
  {
    if i >= start then i - start else i + n - start
  }

  ghost predicate Due(tasks: seq<Option<Task>>, i: nat, now: int)
    requires i < |tasks|
  {
    tasks[i].Some? && tasks[i].value.at <= now
  }

  /** Where a call starts looking. */
  function Start(next: nat, n: nat): (s: nat)
    requires n > 0
    ensures s < n
  {
    if next >= n then 0 else next
  }

  /**
   * One call of the scheduler that began at time `now`: it ran a live entry and moved just past it,
   * with no due entry on the way; or it found no due entry.
   */
  ghost predicate Called(tasks: seq<Option<Task>>, next: nat, ran: Option<nat>, next': nat, now: int)
  {
    if |tasks| == 0 then ran.None? && next' == next else
      var start := Start(next, |tasks|);
      match ran
      case Some(r) =>
        && r < |tasks| && tasks[r].Some? && next' == r + 1
        && forall i :: 0 <= i < |tasks| && Distance(start, i, |tasks|) < Distance(start, r, |tasks|) ==> !Due(tasks, i, now)
      case None =>
        && next' == start
        && forall i :: 0 <= i < |tasks| ==> !Due(tasks, i, now)
  }

  // ----- Bounded waiting -----

  /** Running another entry first brings the scheduler strictly closer to a due one. */
  lemma CloserOrRun(tasks: seq<Option<Task>>, next: nat, ran: Option<nat>, next': nat, now: int, e: nat)
    requires Called(tasks, next, ran, next', now)
    requires e < |tasks| && Due(tasks, e, now)
    ensures ran.Some?
    ensures ran == Some(e) ||
            Distance(Start(next', |tasks|), e, |tasks|) < Distance(Start(next, |tasks|), e, |tasks|)
  {
  }

  /**
   * While the table stays the same and time does not go back, an entry that is due is run within
   * as many calls as the table has slots.
   */
  lemma {:induction false} BoundedWait(tasks: seq<Option<Task>>, nexts: seq<nat>, rans: seq<Option<nat>>,
                                       times: seq<int>, e: nat, from: nat) returns (k: nat)
    requires |nexts| == |rans| + 1 && |times| == |rans|
    requires forall i :: 0 <= i < |rans| ==> Called(tasks, nexts[i], rans[i], nexts[i + 1], times[i])
    requires forall i, j :: 0 <= i <= j < |times| ==> times[i] <= times[j]
    requires e < |tasks| && from < |rans| && Due(tasks, e, times[from])
    requires from + Distance(Start(nexts[from], |tasks|), e, |tasks|) < |rans|
    ensures from <= k <= from + Distance(Start(nexts[from], |tasks|), e, |tasks|) && rans[k] == Some(e)
    decreases |rans| - from
  {
    CloserOrRun(tasks, nexts[from], rans[from], nexts[from + 1], times[from], e);
    if rans[from] == Some(e) {
      k := from;
    } else {
      k := BoundedWait(tasks, nexts, rans, times, e, from + 1);
    }
  }

  // ----- The scheduler -----

  class Scheduler {
    var sched: seq<Option<Task>>     // the entries, up to the greatest live one
    var next: nat                    // where the round robin continues

    ghost predicate Valid()
      reads this
    {
      && (sched != [] ==> sched[|sched| - 1].Some?)
      && forall i :: 0 <= i < |sched| && sched[i].Some? ==> sched[i].value.schedid == i
    }

    constructor ()
      ensures Valid() && sched == [] && next == 0
    {
      sched, next := [], 0;
    }

    method SchedCallback(delay: int, proc: int, arg: int, now: int) returns (schedid: nat)
      requires Valid()
      modifies this`sched
      ensures Valid()
      ensures schedid == FirstFree(old(sched))
      ensures sched == Stored(old(sched), Task(proc, arg, Seconds(delay) + now, schedid))
    {
      schedid := FirstFree(sched);
      sched := Stored(sched, Task(proc, arg, Seconds(delay) + now, schedid));
    }

    method UnschedCallback(schedid: int)
      requires Valid() && schedid >= -1
      modifies this`sched
      ensures Valid()
      ensures sched == if 0 <= schedid < |old(sched)| && old(sched)[schedid].Some?
                       then Cleared(old(sched), schedid) else old(sched)
    {
      if schedid == -1 || schedid >= |sched| || sched[schedid].None? {
        return;
      }
      sched := Cleared(sched, schedid);
    }

    /** Run the first due entry from `next` on. `time` gives the successive readings of the clock. */
    method Process(time: nat -> int) returns (ran: Option<nat>)
      requires Valid() && forall i :: 0 <= i ==> time(0) <= time(i)
      modifies this`next
      ensures Called(sched, old(next), ran, next, time(0))
      ensures ran.Some? ==>
                && ran.value < |sched| && sched[ran.value].Some?
                && exists reading :: 0 <= reading < |sched| && sched[ran.value].value.at <= time(reading)
      ensures ran.None? ==> forall i :: 0 <= i < |sched| && sched[i].Some? ==> time(0) < sched[i].value.at
    {
      if |sched| <= 0 {
        return None;
      }
      if next >= |sched| {
        next := 0;
      }
      var schedid := next;
      var reading := 0;
      while true
        invariant 0 <= schedid < |sched| && next == Start(old(next), |sched|)
        invariant reading == Distance(next, schedid, |sched|)
        invariant forall i :: 0 <= i < |sched| && Distance(next, i, |sched|) < reading ==> !Due(sched, i, time(0))
        decreases |sched| - reading
      {
        if sched[schedid].Some? && sched[schedid].value.at <= time(reading) {
          ran := Some(schedid);
          next := schedid + 1;
          return;
        }
        reading := reading + 1;
        schedid := schedid + 1;
        if schedid >= |sched| {
          schedid := 0;
        }
        if schedid == next {
          forall i | 0 <= i < |sched| && sched[i].Some?
            ensures time(0) < sched[i].value.at
          {
            assert !Due(sched, i, time(0));
          }
          return None;
        }
      }
    }
  }

  /** What is scheduled alone is run by the first call that begins when its delay is over, and not by one that ends before. */
  method ScheduleAndProcess(delay: int, proc: int, arg: int, now: int, later: int) returns (id: nat, ran: Option<nat>)
    requires delay >= 0
    ensures 1000 * (later - now) >= delay + 500 ==> ran == Some(id)
    ensures 1000 * (later - now) <= delay - 500 ==> ran.None?
  {
    var s := new Scheduler();
    id := s.SchedCallback(delay, proc, arg, now);
    assert s.sched[0] == Some(Task(proc, arg, Seconds(delay) + now, 0));
    ran := s.Process(_ => later);
  }
}
