/**
 * `CpuLimit` of `src/cash/_clock.py` (lines 48-95): a limit on a thread's CPU time that reads the
 * CPU clock only when the wall clock has passed a deadline.
 *
 * The clocks are given: `cpu` says what the thread's CPU clock shows at each wall time, and a
 * reading of it comes some time after the wall reading before it.
 */
module CpuLimits {
  const WALL_STRETCH := 10.0

  /** CPU time does not run backwards, and never faster than wall time. */
  ghost predicate NoFasterThanWall(cpu: real -> real)
  {
    forall a: real, b: real {:trigger cpu(a), cpu(b)} | a <= b :: 0.0 <= cpu(b) - cpu(a) <= b - a
  }

  function Min(a: real, b: real): real
  {
    if a <= b then a else b
  }

  /** One call of `passed`: the wall reading, whether it is the limit's own thread, and the CPU reading with when it was taken. */
  datatype Reading = Reading(now: real, own: bool, cpuAt: real, cpuShows: real)

  ghost predicate ReadingOk(cpu: real -> real, r: Reading)
  {
    r.now <= r.cpuAt && (r.own ==> r.cpuShows == cpu(r.cpuAt))
  }

  /** What is left by the CPU clock cannot be spent before as much wall time has gone by. */
  lemma NotSpentBefore(cpu: real -> real, cpuStarted: real, seconds: real, r: Reading, hard: real)
    requires NoFasterThanWall(cpu) && ReadingOk(cpu, r) && r.own && r.cpuShows - cpuStarted < seconds
    ensures cpu(Min(r.now + (seconds - (r.cpuShows - cpuStarted)), hard)) - cpuStarted <= seconds
  {
    var next := Min(r.now + (seconds - (r.cpuShows - cpuStarted)), hard);
    if next <= r.cpuAt {
      assert cpu(next) <= cpu(r.cpuAt);
    } else {
      assert cpu(next) - cpu(r.cpuAt) <= next - r.cpuAt;
    }
  }

  class CpuLimit {
    const seconds: real
    const started: real
    const cpuStarted: real
    const hard: real
    var deadline: real
    ghost const cpu: real -> real

    /** By the wall time `deadline`, no more than `seconds` can have been spent. */
    ghost predicate Valid()
      reads this
    {
      && NoFasterThanWall(cpu)
      && hard == started + seconds * WALL_STRETCH
      && (seconds < 0.0 ==> deadline < started)
      && (seconds >= 0.0 ==> started <= deadline <= hard && cpu(deadline) - cpuStarted <= seconds)
      && cpu(started) <= cpuStarted
    }

    constructor (seconds: real, now: real, cpuShows: real, ghost cpuAt: real, ghost cpu: real -> real)
      requires NoFasterThanWall(cpu) && now <= cpuAt && cpuShows == cpu(cpuAt)
      ensures Valid() && this.seconds == seconds && this.started == now && this.cpuStarted == cpuShows && this.cpu == cpu
      ensures deadline == now + seconds
    {
      this.seconds, started, cpuStarted := seconds, now, cpuShows;
      deadline := now + seconds;
      hard := now + seconds * WALL_STRETCH;
      this.cpu := cpu;
      assert cpu(now) <= cpu(cpuAt);
      assert seconds >= 0.0 ==> cpu(now + seconds) - cpu(now) <= seconds;
      assert now + seconds <= cpuAt ==> cpu(now + seconds) <= cpu(cpuAt);
    }

    /** The CPU seconds spent up to a wall time. */
    ghost function SpentBy(wall: real): real
    {
      cpu(wall) - cpuStarted
    }

    /** An answer the promise allows: False on the own thread only within the limit, True after the hard end. */
    ghost predicate Honest(r: Reading, spent: bool)
    {
      && (r.own && !spent ==> SpentBy(r.now) <= seconds)
      && (seconds >= 0.0 && r.now > hard ==> spent)
    }

    /** `passed`, on this thread or another. */
    method Passed(r: Reading) returns (spent: bool)
      requires Valid() && started <= r.now && ReadingOk(cpu, r)
      modifies this`deadline
      ensures Valid()
      ensures !spent && r.own ==> SpentBy(r.now) <= seconds
      ensures !spent ==> r.now <= deadline
      ensures spent ==> deadline == old(deadline) < r.now
      ensures spent && r.own ==> SpentBy(r.cpuAt) >= seconds || r.now >= hard
      ensures old(deadline) <= deadline && (seconds >= 0.0 ==> deadline <= hard)
      ensures deadline == if spent || r.now <= old(deadline) then old(deadline)
                          else Min(r.now + (seconds - SpentBy(r.cpuAt)), hard)
      ensures seconds >= 0.0 && r.now > hard ==> spent
      ensures seconds < 0.0 ==> spent
    {
      if r.now <= deadline {
        assert cpu(r.now) <= cpu(deadline);
        return false;
      }
      if !r.own {
        return true;
      }
      var left := seconds - (r.cpuShows - cpuStarted);
      assert cpu(r.now) <= cpu(r.cpuAt) && cpu(started) <= cpu(r.now);
      if left <= 0.0 || r.now >= hard {
        return true;
      }
      NotSpentBefore(cpu, cpuStarted, seconds, r, hard);
      deadline := Min(r.now + left, hard);
      return false;
    }
  }

  /** Every run of readings: each False of the own thread is right as of its wall reading. */
  method Ask(limit: CpuLimit, readings: seq<Reading>) returns (answers: seq<bool>)
    requires limit.Valid()
    requires forall r <- readings :: limit.started <= r.now && ReadingOk(limit.cpu, r)
    modifies limit`deadline
    ensures limit.Valid() && |answers| == |readings| && old(limit.deadline) <= limit.deadline
    ensures forall i | 0 <= i < |answers| :: limit.Honest(readings[i], answers[i])
  {
    answers := [];
    for k := 0 to |readings|
      invariant limit.Valid() && |answers| == k && old(limit.deadline) <= limit.deadline
      invariant forall i | 0 <= i < k :: limit.Honest(readings[i], answers[i])
    {
      var spent := limit.Passed(readings[k]);
      answers := answers + [spent];
    }
  }
}
