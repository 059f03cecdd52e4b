/** The sign-in limit (loginCheck in src/rate-limit.js, used by src/routes/sessions.js): a look at the
    counter before the password is tried, and a count after a wrong one. A right password counts
    nothing, and sign-ins in flight have all looked before any of them counts. */
module LoginLimit {
  import opened Bounds
  import opened Options
  import opened RateLimit

  /** loginAttemptsPerWindow and loginWindowMinutes, and the longest window of all limits. */
  datatype Limit = Limit(max: nat, minutes: nat, maxMinutes: nat)

  /** The counters, the wrong passwords so far, and the sign-ins that have looked and not finished. */
  datatype Signins = Signins(entries: map<Slot, nat>, failures: seq<Attempt>, open: map<nat, string>)

  datatype Step =
    | Look(signin: nat, bucket: string, time: int)
    | Fail(signin: nat, time: int)
    | Succeed(signin: nat, time: int)
    | Clean(time: int)

  predicate Sane(limit: Limit) {
    0 < limit.minutes <= limit.maxMinutes
  }

  function Window(limit: Limit, now: int): int
    requires Sane(limit)
  {
    WindowStart(now, limit.minutes * MINUTE)
  }

  /** The early look refuses only on a row that is there. */
  predicate LetsTry(entries: map<Slot, nat>, limit: Limit, bucket: string, now: int)
    requires Sane(limit)
  {
    var slot := Slot(bucket, Window(limit, now));
    !(slot in entries && entries[slot] >= limit.max)
  }

  function Next(limit: Limit, s: Signins, step: Step): Signins
    requires Sane(limit)
  {
    match step
    case Look(id, bucket, now) =>
      if id in s.open || !LetsTry(s.entries, limit, bucket, now) then s else s.(open := s.open[id := bucket])
    case Fail(id, now) =>
      if id !in s.open then s
      else
        var slot := Slot(s.open[id], Window(limit, now));
        Signins(Recorded(s.entries, slot),
                s.failures + [Attempt(s.open[id], now, CountAt(s.entries, slot) + 1 <= limit.max)],
                s.open - {id})
    case Succeed(id, _) => s.(open := s.open - {id})
    case Clean(now) => s.(entries := Cleaned(s.entries, now - limit.maxMinutes * MINUTE))
  }

  /** What a sign-in does: it looks, and is in flight only if its window holds fewer than `max`
      failures on record; then it fails, which counts, or succeeds, which does not. */
  lemma SigninsDo(limit: Limit, s: Signins, id: nat, bucket: string, now: int)
    requires Sane(limit)
    ensures var slot, t := Slot(bucket, WindowStart(now, limit.minutes * 60_000)), Next(limit, s, Look(id, bucket, now));
            t == if id !in s.open && !(slot in s.entries && s.entries[slot] >= limit.max) then s.(open := s.open[id := bucket]) else s
    ensures id in s.open ==>
              var slot, t := Slot(s.open[id], WindowStart(now, limit.minutes * 60_000)), Next(limit, s, Fail(id, now));
              var count := 1 + if slot in s.entries then s.entries[slot] else 0;
              && t.open == s.open - {id} && t.entries == s.entries[slot := count]
              && t.failures == s.failures + [Attempt(s.open[id], now, count <= limit.max)]
    ensures id !in s.open ==> Next(limit, s, Fail(id, now)) == s
    ensures Next(limit, s, Succeed(id, now)) == s.(open := s.open - {id})
    ensures var t := Next(limit, s, Clean(now));
            && t == s.(entries := t.entries)
            && (forall slot :: slot in t.entries <==> slot in s.entries && now <= slot.start + limit.maxMinutes * 60_000)
            && (forall slot :: slot in t.entries ==> t.entries[slot] == s.entries[slot])
  {
  }

  const NO_SIGNINS := Signins(map[], [], map[])

  function Run(limit: Limit, steps: seq<Step>): Signins
    requires Sane(limit)
  {
    if steps == [] then NO_SIGNINS else Next(limit, Run(limit, steps[..|steps| - 1]), steps[|steps| - 1])
  }

  /** One clock: each statement lands in the order it read it. */
  predicate InOrder(steps: seq<Step>) {
    forall i, j :: 0 <= i < j < |steps| ==> steps[i].time <= steps[j].time
  }

  function Span(limit: Limit): int {
    limit.minutes * MINUTE
  }

  function Failures(s: Signins, limit: Limit, bucket: string, start: int): nat {
    Attempts(s.failures, bucket, start, start + Span(limit))
  }

  function OpenOf(s: Signins, bucket: string): set<nat> {
    set id | id in s.open && s.open[id] == bucket
  }

  /** How many wrong passwords it takes before the look refuses: one, when the limit is zero,
      because there is no row to refuse on before the first. */
  function Capacity(limit: Limit): nat {
    if limit.max == 0 then 1 else limit.max
  }

  // -------------------------------------------------------------- invariant

  predicate Past(s: Signins, now: int) {
    && (forall i :: 0 <= i < |s.failures| ==> s.failures[i].time <= now)
    && (forall slot :: slot in s.entries ==> slot.start <= now && s.entries[slot] >= 1)
  }

  predicate OpenWindowIsExact(s: Signins, limit: Limit, bucket: string, now: int)
    requires Sane(limit)
  {
    CountAt(s.entries, Slot(bucket, Window(limit, now))) == Failures(s, limit, bucket, Window(limit, now))
  }

  predicate AnswersAreCapped(s: Signins, limit: Limit, bucket: string, start: int) {
    Admitted(s.failures, bucket, start, start + Span(limit)) == Min(limit.max, Failures(s, limit, bucket, start))
  }

  ghost predicate Inv(s: Signins, limit: Limit, bucket: string, now: int)
    requires Sane(limit)
  {
    && Past(s, now)
    && OpenWindowIsExact(s, limit, bucket, now)
    && (forall start: int :: start % Span(limit) == 0 ==> AnswersAreCapped(s, limit, bucket, start))
  }

  lemma LaterKeepsInv(s: Signins, limit: Limit, bucket: string, now: int, later: int)
    requires Sane(limit) && now <= later && Inv(s, limit, bucket, now)
    ensures Inv(s, limit, bucket, later)
  {
    hide Attempts, Admitted;
    var start, next := Window(limit, now), Window(limit, later);
    if next < start {
      StartsAreApart(next, start, Span(limit));
    } else if start < next {
      StartsAreApart(start, next, Span(limit));
      NoneYet(s.failures, bucket, next, next + Span(limit));
    }
  }

  lemma FailKeepsInv(s: Signins, limit: Limit, bucket: string, id: nat, now: int)
    requires Sane(limit) && Inv(s, limit, bucket, now) && id in s.open
    ensures Inv(Next(limit, s, Fail(id, now)), limit, bucket, now)
  {
    hide Attempts, Admitted;
    var next, span, open := Next(limit, s, Fail(id, now)), Span(limit), Window(limit, now);
    var last := next.failures[|s.failures|];
    assert next.failures == s.failures + [last];
    OneMoreAttempt(s.failures, last, bucket, open, open + span);
    forall start: int | start % span == 0 ensures AnswersAreCapped(next, limit, bucket, start) {
      OneMoreAttempt(s.failures, last, bucket, start, start + span);
      assert AnswersAreCapped(s, limit, bucket, start);
      if start < open {
        StartsAreApart(start, open, span);
      } else if open < start {
        StartsAreApart(open, start, span);
      }
    }
  }

  lemma StepKeepsInv(s: Signins, limit: Limit, bucket: string, step: Step)
    requires Sane(limit) && Inv(s, limit, bucket, step.time)
    ensures Inv(Next(limit, s, step), limit, bucket, step.time)
  {
    hide Attempts, Admitted;
    match step
    case Fail(id, now) =>
      if id in s.open {
        FailKeepsInv(s, limit, bucket, id, now);
      }
    case Clean(now) =>
      SweepSparesOpenCounters(s.entries, Policy(None, limit.minutes), limit.maxMinutes, bucket, now);
      SameFailures(s, Next(limit, s, step), limit, bucket);
    case _ => SameFailures(s, Next(limit, s, step), limit, bucket);
  }

  lemma SameFailures(s: Signins, t: Signins, limit: Limit, bucket: string)
    requires t.failures == s.failures
    ensures forall start: int :: AnswersAreCapped(s, limit, bucket, start) ==> AnswersAreCapped(t, limit, bucket, start)
  {
  }

  lemma {:induction false} RunKeepsInv(limit: Limit, steps: seq<Step>, bucket: string, now: int)
    requires Sane(limit) && InOrder(steps) && forall i :: 0 <= i < |steps| ==> steps[i].time <= now
    ensures Inv(Run(limit, steps), limit, bucket, now)
  {
    hide Inv, Next;
    if steps == [] {
      NobodyHasInv(limit, bucket, now);
    } else {
      var before, last := steps[..|steps| - 1], steps[|steps| - 1];
      RunKeepsInv(limit, before, bucket, last.time);
      StepKeepsInv(Run(limit, before), limit, bucket, last);
      LaterKeepsInv(Run(limit, steps), limit, bucket, last.time, now);
    }
  }

  lemma NobodyHasInv(limit: Limit, bucket: string, now: int)
    requires Sane(limit)
    ensures Inv(NO_SIGNINS, limit, bucket, now)
  {
  }

  // ---------------------------------------------------- what it does bound

  /** In each window the wrong passwords answered as such are the first `max`; the rest are told to
      come back later. */
  lemma FailuresAnswered(limit: Limit, steps: seq<Step>, bucket: string, start: int)
    requires Sane(limit) && InOrder(steps) && start % Span(limit) == 0
    ensures var s := Run(limit, steps);
            Admitted(s.failures, bucket, start, start + Span(limit)) == Min(limit.max, Failures(s, limit, bucket, start))
  {
    hide Run, Attempts, Admitted;
    RunKeepsInv(limit, steps, bucket, if steps == [] then 0 else steps[|steps| - 1].time);
    assert AnswersAreCapped(Run(limit, steps), limit, bucket, start);
  }

  /** A sign-in gets to try a password if and only if fewer than `max` have failed in this window, or
      none has. */
  lemma {:induction false} LookIsExact(limit: Limit, steps: seq<Step>, bucket: string, now: int)
    requires Sane(limit) && InOrder(steps) && forall i :: 0 <= i < |steps| ==> steps[i].time <= now
    ensures var s := Run(limit, steps); var failed := Failures(s, limit, bucket, Window(limit, now));
            LetsTry(s.entries, limit, bucket, now) <==> failed < Capacity(limit)
  {
    hide Run, Attempts, Admitted;
    RunKeepsInv(limit, steps, bucket, now);
  }

  /** Right passwords are free: while none is wrong there is no counter, and every sign-in may try. */
  lemma {:induction false} SuccessesCountNothing(limit: Limit, steps: seq<Step>)
    requires Sane(limit) && forall i :: 0 <= i < |steps| ==> !steps[i].Fail?
    ensures Run(limit, steps).entries == map[]
    ensures forall bucket, now :: LetsTry(Run(limit, steps).entries, limit, bucket, now)
  {
    if steps != [] {
      SuccessesCountNothing(limit, steps[..|steps| - 1]);
    }
  }

  /** At no time are more than `crowd` sign-ins of a bucket in flight. */
  predicate CrowdedAtMost(limit: Limit, steps: seq<Step>, bucket: string, crowd: nat)
    requires Sane(limit)
  {
    forall k :: 0 <= k <= |steps| ==> |OpenOf(Run(limit, steps[..k]), bucket)| <= crowd
  }

  /** What keeps a window from filling past its capacity by more than the sign-ins in flight. */
  predicate WindowHolds(s: Signins, limit: Limit, bucket: string, crowd: nat, start: int, now: int) {
    var failed := Failures(s, limit, bucket, start);
    && failed + 1 <= Capacity(limit) + crowd
    && (now < start + Span(limit) && failed >= Capacity(limit) ==> failed + |OpenOf(s, bucket)| + 1 <= Capacity(limit) + crowd)
  }

  lemma OneFewerOpen(s: Signins, id: nat, bucket: string)
    requires id in s.open
    ensures |OpenOf(s.(open := s.open - {id}), bucket)| == |OpenOf(s, bucket)| - if s.open[id] == bucket then 1 else 0
  {
    var next := s.(open := s.open - {id});
    if s.open[id] == bucket {
      assert OpenOf(next, bucket) == OpenOf(s, bucket) - {id};
    } else {
      assert OpenOf(next, bucket) == OpenOf(s, bucket);
    }
  }

  lemma FailKeepsWindow(s: Signins, limit: Limit, bucket: string, crowd: nat, start: int, id: nat, now: int)
    requires Sane(limit) && start % Span(limit) == 0 && id in s.open && |OpenOf(s, bucket)| <= crowd
    requires WindowHolds(s, limit, bucket, crowd, start, now)
    ensures WindowHolds(Next(limit, s, Fail(id, now)), limit, bucket, crowd, start, now)
  {
    hide Attempts, Admitted;
    var next := Next(limit, s, Fail(id, now));
    var last := next.failures[|s.failures|];
    assert next.failures == s.failures + [last];
    OneMoreAttempt(s.failures, last, bucket, start, start + Span(limit));
    OneFewerOpen(s, id, bucket);
    assert OpenOf(next, bucket) == OpenOf(s.(open := s.open - {id}), bucket);
    assert s.open[id] == bucket ==> id in OpenOf(s, bucket);
  }

  lemma LookKeepsWindow(s: Signins, limit: Limit, bucket: string, crowd: nat, start: int, step: Step)
    requires Sane(limit) && start % Span(limit) == 0 && step.Look? && Inv(s, limit, bucket, step.time)
    requires WindowHolds(s, limit, bucket, crowd, start, step.time)
    ensures WindowHolds(Next(limit, s, step), limit, bucket, crowd, start, step.time)
  {
    hide Attempts, Admitted;
    var next, open := Next(limit, s, step), Window(limit, step.time);
    if step.bucket != bucket {
      assert step.signin !in s.open ==> OpenOf(next, bucket) == OpenOf(s, bucket);
    } else if step.time < start + Span(limit) && Failures(s, limit, bucket, start) >= Capacity(limit) {
      if step.time < start {
        NoneYet(s.failures, bucket, start, start + Span(limit));
      } else if start < open {
        StartsAreApart(start, open, Span(limit));
      } else if open < start {
        StartsAreApart(open, start, Span(limit));
      }
      assert next == s;
    }
  }

  lemma StepKeepsWindow(s: Signins, limit: Limit, bucket: string, crowd: nat, start: int, step: Step)
    requires Sane(limit) && start % Span(limit) == 0 && Inv(s, limit, bucket, step.time) && |OpenOf(s, bucket)| <= crowd
    requires WindowHolds(s, limit, bucket, crowd, start, step.time)
    ensures WindowHolds(Next(limit, s, step), limit, bucket, crowd, start, step.time)
  {
    hide Attempts, Admitted, Inv;
    match step
    case Look(_, _, _) => LookKeepsWindow(s, limit, bucket, crowd, start, step);
    case Fail(id, now) =>
      if id in s.open {
        FailKeepsWindow(s, limit, bucket, crowd, start, id, now);
      }
    case Succeed(id, _) =>
      if id in s.open {
        OneFewerOpen(s, id, bucket);
      } else {
        assert s.open - {id} == s.open;
      }
    case Clean(_) => assert OpenOf(Next(limit, s, step), bucket) == OpenOf(s, bucket);
  }

  lemma {:induction false} RunKeepsWindow(limit: Limit, steps: seq<Step>, bucket: string, crowd: nat, start: int, now: int)
    requires Sane(limit) && InOrder(steps) && crowd >= 1 && start % Span(limit) == 0
    requires forall i :: 0 <= i < |steps| ==> steps[i].time <= now
    requires CrowdedAtMost(limit, steps, bucket, crowd)
    ensures WindowHolds(Run(limit, steps), limit, bucket, crowd, start, now)
  {
    hide Next, Inv, OpenOf;
    if steps != [] {
      var before, last := steps[..|steps| - 1], steps[|steps| - 1];
      assert forall k :: 0 <= k <= |before| ==> before[..k] == steps[..k];
      RunKeepsWindow(limit, before, bucket, crowd, start, last.time);
      RunKeepsInv(limit, before, bucket, last.time);
      assert before[..|before|] == before;
      StepKeepsWindow(Run(limit, before), limit, bucket, crowd, start, last);
    }
  }

  /** Guessing is bounded by the limit and by how many sign-ins run at once: in a window at most as
      many wrong passwords are tried as the limit has room for, and one more for each further
      sign-in in flight. */
  lemma GuessesAreBounded(limit: Limit, steps: seq<Step>, bucket: string, crowd: nat, start: int)
    requires Sane(limit) && InOrder(steps) && crowd >= 1 && start % Span(limit) == 0
    requires CrowdedAtMost(limit, steps, bucket, crowd)
    ensures Failures(Run(limit, steps), limit, bucket, start) <= Capacity(limit) + crowd - 1
  {
    hide Run, Attempts, OpenOf, CrowdedAtMost;
    RunKeepsWindow(limit, steps, bucket, crowd, start, if steps == [] then 0 else steps[|steps| - 1].time);
  }

  /** loginCheck's two halves as the statements they are. */
  class LoginLimiter {
    var entries: map<Slot, nat>

    method Peek(limit: Limit, bucket: string, now: int) returns (allowed: bool)
      requires Sane(limit)
      ensures allowed <==> LetsTry(entries, limit, bucket, now)
    {
      var slot := Slot(bucket, Window(limit, now));
      if slot in entries && entries[slot] >= limit.max { return false; }
      return true;
    }

    /** The closure a wrong password calls. */
    method RecordFailure(limit: Limit, bucket: string, now: int) returns (answered: bool)
      requires Sane(limit)
      modifies this
      ensures forall id, failures, open: map<nat, string> :: id in open && open[id] == bucket ==>
                Next(limit, Signins(old(entries), failures, open), Fail(id, now))
                == Signins(entries, failures + [Attempt(bucket, now, answered)], open - {id})
    {
      var slot := Slot(bucket, Window(limit, now));
      entries := if slot in entries then entries[slot := entries[slot] + 1] else entries[slot := 1];
      answered := entries[slot] <= limit.max;
    }
  }
}
