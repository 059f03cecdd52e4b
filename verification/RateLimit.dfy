/** The fixed-window rate limiter (src/rate-limit.js): counters per bucket and window, the check that
    counts every attempt and rejects, and the interval cleanup beside it. LoginLimit is about the
    sign-in check, which counts failures alone. */
module RateLimit {
  import opened Bounds
  import opened Options

  const MINUTE := 60_000

  /** A row of rate_limit_entries, by its key. */
  datatype Slot = Slot(bucket: string, start: int)

  /** A bucket's limit, None when an operator turned it off, and its window in minutes. */
  datatype Policy = Policy(max: Option<nat>, minutes: nat)

  datatype Attempt = Attempt(bucket: string, time: int, admitted: bool)

  function Span(policy: Policy): int {
    policy.minutes * MINUTE
  }

  function WindowStart(now: int, span: int): (start: int)
    requires span > 0
    ensures start % span == 0 && start <= now < start + span
  {
    Floored(now, span);
    now / span * span
  }

  lemma Floored(now: int, span: int)
    requires span > 0
    ensures now / span * span % span == 0 && now / span * span <= now < now / span * span + span
  {
    assert now == now / span * span + now % span;
    MultipleHasNoRemainder(now / span, span);
  }

  lemma MultipleHasNoRemainder(k: int, span: int)
    requires span > 0
    ensures k * span % span == 0
  {
    var q, r := k * span / span, k * span % span;
    assert k * span == q * span + r;
    assert (k - q) * span == r;
    assert k - q >= 1 ==> (k - q) * span >= span;
    assert k - q <= -1 ==> (k - q) * span <= -span;
  }

  /** Window starts are a whole window apart, so an instant is in one window only. */
  lemma StartsAreApart(a: int, b: int, span: int)
    requires span > 0 && a % span == 0 && b % span == 0 && a < b
    ensures a + span <= b
  {
    assert a == a / span * span && b == b / span * span;
    var i, j := a / span, b / span;
    assert j <= i ==> j * span <= i * span;
    assert j >= i + 1 ==> j * span >= (i + 1) * span;
  }

  function CountAt(entries: map<Slot, nat>, slot: Slot): nat {
    if slot in entries then entries[slot] else 0
  }

  function Recorded(entries: map<Slot, nat>, slot: Slot): map<Slot, nat> {
    entries[slot := CountAt(entries, slot) + 1]
  }

  function Cleaned(entries: map<Slot, nat>, cutoff: int): map<Slot, nat> {
    map slot | slot in entries && slot.start >= cutoff :: entries[slot]
  }

  class Limiter {
    var entries: map<Slot, nat>

    constructor ()
      ensures entries == map[]
    {
      entries := map[];
    }

    /** The upsert that adds one and returns the count. */
    method Record(bucket: string, minutes: nat, now: int) returns (count: nat)
      requires minutes > 0
      modifies this
      ensures entries == Recorded(old(entries), Slot(bucket, WindowStart(now, minutes * MINUTE)))
      ensures count == CountAt(entries, Slot(bucket, WindowStart(now, minutes * MINUTE)))
    {
      var slot := Slot(bucket, WindowStart(now, minutes * MINUTE));
      if slot in entries {
        entries := entries[slot := entries[slot] + 1];
      } else {
        entries := entries[slot := 1];
      }
      count := entries[slot];
    }

    /** windowedCheck: every attempt counts, and a null limit counts nothing. */
    method Check(bucket: string, policy: Policy, now: int) returns (admitted: bool)
      requires policy.minutes > 0
      modifies this
      ensures policy.max.None? ==> admitted && entries == old(entries)
      ensures policy.max.Some? ==>
                var slot := Slot(bucket, WindowStart(now, policy.minutes * 60_000));
                && slot in entries && entries[slot] == 1 + (if slot in old(entries) then old(entries)[slot] else 0)
                && (admitted <==> entries[slot] <= policy.max.value)
                && forall other :: other != slot ==>
                     (other in entries <==> other in old(entries)) && (other in entries ==> entries[other] == old(entries)[other])
      ensures State(entries, [Attempt(bucket, now, admitted)]) == Asked(State(old(entries), []), policy, bucket, now)
    {
      if policy.max.None? { return true; }
      var count := Record(bucket, policy.minutes, now);
      admitted := count <= policy.max.value;
    }

    /** The interval's DELETE: whatever limit a bucket has, the counter of its open window is as it
        was, and no counter is left of a window that no limit can still have open. */
    method Cleanup(maxMinutes: nat, now: int)
      modifies this
      ensures entries == Cleaned(old(entries), now - maxMinutes * MINUTE)
      ensures forall bucket: string, minutes: nat :: 0 < minutes <= maxMinutes ==>
                var slot := Slot(bucket, WindowStart(now, minutes * MINUTE));
                CountAt(entries, slot) == CountAt(old(entries), slot)
      ensures forall slot :: slot in entries ==> now <= slot.start + maxMinutes * MINUTE
    {
      var cutoff := now - maxMinutes * MINUTE;
      entries := map slot | slot in entries && !(slot.start < cutoff) :: entries[slot];
      forall bucket: string, minutes: nat | 0 < minutes <= maxMinutes
        ensures var slot := Slot(bucket, WindowStart(now, minutes * MINUTE));
                CountAt(entries, slot) == CountAt(old(entries), slot)
      {
        SweepSparesOpenCounters(old(entries), Policy(None, minutes), maxMinutes, bucket, now);
      }
    }
  }

  // -------------------------------------------------------------------- runs

  /** The counters and every attempt so far. */
  datatype State = State(entries: map<Slot, nat>, log: seq<Attempt>)

  datatype Op = Ask(bucket: string, time: int) | Sweep(time: int)

  function Asked(s: State, policy: Policy, bucket: string, now: int): State
    requires policy.minutes > 0
  {
    if policy.max.None? then s.(log := s.log + [Attempt(bucket, now, true)])
    else
      var slot := Slot(bucket, WindowStart(now, Span(policy)));
      State(Recorded(s.entries, slot),
            s.log + [Attempt(bucket, now, CountAt(s.entries, slot) + 1 <= policy.max.value)])
  }

  /** What the operations of a run do: an attempt at a limited bucket adds one to the counter of its
      window and is let through up to the limit, one at an unlimited bucket is let through, and the
      cleanup drops the counters that began longer ago than the longest window. */
  lemma OperationsDo(policies: string -> Policy, maxMinutes: nat, s: State, bucket: string, time: int)
    requires Limits(policies, maxMinutes) && policies(bucket).minutes > 0
    ensures var policy, t := policies(bucket), Do(policies, maxMinutes, s, Ask(bucket, time));
            var slot := Slot(bucket, WindowStart(time, policy.minutes * 60_000));
            var count := 1 + if slot in s.entries then s.entries[slot] else 0;
            && t.entries == (if policy.max.None? then s.entries else s.entries[slot := count])
            && t.log == s.log + [Attempt(bucket, time, policy.max.None? || count <= policy.max.value)]
    ensures var t := Do(policies, maxMinutes, s, Sweep(time));
            && t.log == s.log
            && (forall slot :: slot in t.entries <==> slot in s.entries && time <= slot.start + maxMinutes * 60_000)
            && (forall slot :: slot in t.entries ==> t.entries[slot] == s.entries[slot])
  {
  }

  /** The limits in force: every bucket has one, and the cleanup goes by the longest window. */
  ghost predicate Limits(policies: string -> Policy, maxMinutes: nat) {
    forall bucket :: 0 < policies(bucket).minutes <= maxMinutes
  }

  ghost function Do(policies: string -> Policy, maxMinutes: nat, s: State, op: Op): State
    requires Limits(policies, maxMinutes)
  {
    match op
    case Ask(bucket, time) => Asked(s, policies(bucket), bucket, time)
    case Sweep(time) => s.(entries := Cleaned(s.entries, time - maxMinutes * MINUTE))
  }

  ghost function Run(policies: string -> Policy, maxMinutes: nat, s: State, ops: seq<Op>): State
    requires Limits(policies, maxMinutes)
  {
    if ops == [] then s
    else Do(policies, maxMinutes, Run(policies, maxMinutes, s, ops[..|ops| - 1]), ops[|ops| - 1])
  }

  /** An attempt is counted before a cleanup has got past its window. Requests may land in any order
      among themselves. */
  ghost predicate LandInTime(policies: string -> Policy, maxMinutes: nat, ops: seq<Op>)
    requires Limits(policies, maxMinutes)
  {
    forall i, j :: 0 <= i < j < |ops| && ops[i].Sweep? && ops[j].Ask? ==>
      ops[i].time - maxMinutes * MINUTE <= WindowStart(ops[j].time, Span(policies(ops[j].bucket)))
  }

  /** Attempts that read the clock no earlier than the cleanups they land after do. */
  lemma LaterThanSweepsIsInTime(policies: string -> Policy, maxMinutes: nat, ops: seq<Op>)
    requires Limits(policies, maxMinutes)
    requires forall i, j :: 0 <= i < j < |ops| && ops[i].Sweep? && ops[j].Ask? ==> ops[i].time <= ops[j].time
    ensures LandInTime(policies, maxMinutes, ops)
  {
    forall i, j | 0 <= i < j < |ops| && ops[i].Sweep? && ops[j].Ask?
      ensures ops[i].time - maxMinutes * MINUTE <= WindowStart(ops[j].time, Span(policies(ops[j].bucket)))
    {
      assert policies(ops[j].bucket).minutes <= maxMinutes;
    }
  }

  /** Attempts at a bucket in [from, to), and those of them that were let through. */
  function Attempts(log: seq<Attempt>, bucket: string, from: int, to: int): nat {
    if log == [] then 0
    else
      var last := log[|log| - 1];
      Attempts(log[..|log| - 1], bucket, from, to) + if last.bucket == bucket && from <= last.time < to then 1 else 0
  }

  function Admitted(log: seq<Attempt>, bucket: string, from: int, to: int): nat {
    if log == [] then 0
    else
      var last := log[|log| - 1];
      Admitted(log[..|log| - 1], bucket, from, to) + if last.bucket == bucket && from <= last.time < to && last.admitted then 1 else 0
  }

  lemma OneMoreAttempt(log: seq<Attempt>, last: Attempt, bucket: string, from: int, to: int)
    ensures Attempts(log + [last], bucket, from, to)
         == Attempts(log, bucket, from, to) + if last.bucket == bucket && from <= last.time < to then 1 else 0
    ensures Admitted(log + [last], bucket, from, to)
         == Admitted(log, bucket, from, to) + if last.bucket == bucket && from <= last.time < to && last.admitted then 1 else 0
  {
    assert (log + [last])[..|log|] == log;
  }

  lemma {:induction false} NoneYet(log: seq<Attempt>, bucket: string, from: int, to: int)
    requires forall i :: 0 <= i < |log| ==> log[i].time < from
    ensures Attempts(log, bucket, from, to) == 0 == Admitted(log, bucket, from, to)
  {
    if log != [] {
      NoneYet(log[..|log| - 1], bucket, from, to);
    }
  }

  /** A cleanup has been past this window. */
  predicate Swept(maxMinutes: nat, ops: seq<Op>, start: int) {
    exists i :: 0 <= i < |ops| && ops[i].Sweep? && start < ops[i].time - maxMinutes * MINUTE
  }

  /** Of the attempts in a window as many were let through as the limit allows, and no more. */
  predicate WindowIsCapped(s: State, policy: Policy, bucket: string, start: int) {
    policy.max.Some? ==>
      Admitted(s.log, bucket, start, start + Span(policy)) == Min(policy.max.value, Attempts(s.log, bucket, start, start + Span(policy)))
  }

  predicate CounterIsExact(s: State, policy: Policy, bucket: string, start: int) {
    policy.max.Some? ==> CountAt(s.entries, Slot(bucket, start)) == Attempts(s.log, bucket, start, start + Span(policy))
  }

  ghost predicate Inv(s: State, policy: Policy, maxMinutes: nat, ops: seq<Op>, bucket: string)
    requires policy.minutes > 0
  {
    forall start: int :: start % Span(policy) == 0 ==>
      WindowIsCapped(s, policy, bucket, start) && (CounterIsExact(s, policy, bucket, start) || Swept(maxMinutes, ops, start))
  }

  lemma AskKeepsWindow(s: State, policies: string -> Policy, asked: string, now: int, bucket: string, start: int)
    requires policies(asked).minutes > 0 && policies(bucket).minutes > 0 && start % Span(policies(bucket)) == 0
    requires WindowIsCapped(s, policies(bucket), bucket, start)
    requires asked == bucket && start <= now < start + Span(policies(bucket)) ==> CounterIsExact(s, policies(bucket), bucket, start)
    ensures var next := Asked(s, policies(asked), asked, now);
            && WindowIsCapped(next, policies(bucket), bucket, start)
            && (CounterIsExact(s, policies(bucket), bucket, start) ==> CounterIsExact(next, policies(bucket), bucket, start))
  {
    hide Attempts, Admitted;
    var policy, next := policies(bucket), Asked(s, policies(asked), asked, now);
    var span, last := Span(policy), next.log[|s.log|];
    var open := WindowStart(now, span);
    assert next.log == s.log + [last];
    OneMoreAttempt(s.log, last, bucket, start, start + span);
    if start < open {
      StartsAreApart(start, open, span);
    } else if open < start {
      StartsAreApart(open, start, span);
    }
  }

  /** The cleanup goes by the longest window, so it leaves every open counter alone. */
  lemma SweepSparesOpenCounters(entries: map<Slot, nat>, policy: Policy, maxMinutes: nat, bucket: string, now: int)
    requires 0 < policy.minutes <= maxMinutes
    ensures var slot := Slot(bucket, WindowStart(now, Span(policy)));
            CountAt(Cleaned(entries, now - maxMinutes * MINUTE), slot) == CountAt(entries, slot)
  {
  }

  lemma {:induction false} RunKeepsInv(policies: string -> Policy, maxMinutes: nat, ops: seq<Op>, bucket: string)
    requires Limits(policies, maxMinutes) && LandInTime(policies, maxMinutes, ops)
    ensures policies(bucket).minutes > 0
    ensures Inv(Run(policies, maxMinutes, State(map[], []), ops), policies(bucket), maxMinutes, ops, bucket)
  {
    hide Attempts, Admitted, Asked;
    assert 0 < policies(bucket).minutes;
    if ops == [] {
      NothingYetHasInv(policies(bucket), maxMinutes, bucket);
    } else {
      var before, last := ops[..|ops| - 1], ops[|ops| - 1];
      RunKeepsInv(policies, maxMinutes, before, bucket);
      var s, next := Run(policies, maxMinutes, State(map[], []), before), Run(policies, maxMinutes, State(map[], []), ops);
      forall start: int | start % Span(policies(bucket)) == 0
        ensures WindowIsCapped(next, policies(bucket), bucket, start)
        ensures CounterIsExact(next, policies(bucket), bucket, start) || Swept(maxMinutes, ops, start)
      {
        SweptStays(maxMinutes, ops, start);
        assert WindowIsCapped(s, policies(bucket), bucket, start);
        if last.Ask? {
          assert 0 < policies(last.bucket).minutes;
          if last.bucket == bucket && start <= last.time < start + Span(policies(bucket)) {
            LandsUnswept(policies, maxMinutes, ops, start);
          }
          AskKeepsWindow(s, policies, last.bucket, last.time, bucket, start);
        } else if start < last.time - maxMinutes * MINUTE {
          assert ops[|ops| - 1] == last;
        }
      }
    }
  }

  lemma NothingYetHasInv(policy: Policy, maxMinutes: nat, bucket: string)
    requires policy.minutes > 0
    ensures Inv(State(map[], []), policy, maxMinutes, [], bucket)
  {
  }

  lemma SweptStays(maxMinutes: nat, ops: seq<Op>, start: int)
    requires ops != []
    ensures Swept(maxMinutes, ops[..|ops| - 1], start) ==> Swept(maxMinutes, ops, start)
  {
    if Swept(maxMinutes, ops[..|ops| - 1], start) {
      var i :| 0 <= i < |ops| - 1 && ops[..|ops| - 1][i].Sweep? && start < ops[..|ops| - 1][i].time - maxMinutes * MINUTE;
      assert ops[i].Sweep? && start < ops[i].time - maxMinutes * MINUTE;
    }
  }

  /** The window an attempt lands in has not been swept. */
  lemma LandsUnswept(policies: string -> Policy, maxMinutes: nat, ops: seq<Op>, start: int)
    requires Limits(policies, maxMinutes) && LandInTime(policies, maxMinutes, ops) && ops != [] && ops[|ops| - 1].Ask?
    requires 0 < policies(ops[|ops| - 1].bucket).minutes
    requires var span := Span(policies(ops[|ops| - 1].bucket)); start % span == 0 && start <= ops[|ops| - 1].time < start + span
    ensures !Swept(maxMinutes, ops[..|ops| - 1], start)
  {
    var last := ops[|ops| - 1];
    var span := Span(policies(last.bucket));
    var open := WindowStart(last.time, span);
    if start < open {
      StartsAreApart(start, open, span);
    } else if open < start {
      StartsAreApart(open, start, span);
    }
    assert start == open;
  }

  /** In every window of a limited bucket, of the attempts made exactly the first `max` pass. */
  lemma WindowAdmits(policies: string -> Policy, maxMinutes: nat, ops: seq<Op>, bucket: string, start: int)
    requires Limits(policies, maxMinutes) && LandInTime(policies, maxMinutes, ops)
    requires policies(bucket).max.Some? && policies(bucket).minutes > 0 && start % Span(policies(bucket)) == 0
    ensures var policy, log := policies(bucket), Run(policies, maxMinutes, State(map[], []), ops).log;
            Admitted(log, bucket, start, start + Span(policy))
            == Min(policy.max.value, Attempts(log, bucket, start, start + Span(policy)))
  {
    hide Run, Attempts, Admitted;
    RunKeepsInv(policies, maxMinutes, ops, bucket);
    assert WindowIsCapped(Run(policies, maxMinutes, State(map[], []), ops), policies(bucket), bucket, start);
  }

  /** While no cleanup has read a later clock, the counter of the open window is there and exact. */
  lemma OpenCounterIsExact(policies: string -> Policy, maxMinutes: nat, ops: seq<Op>, bucket: string, now: int)
    requires Limits(policies, maxMinutes) && LandInTime(policies, maxMinutes, ops)
    requires policies(bucket).max.Some? && policies(bucket).minutes > 0
    requires forall i :: 0 <= i < |ops| && ops[i].Sweep? ==> ops[i].time <= now
    ensures var s, span := Run(policies, maxMinutes, State(map[], []), ops), Span(policies(bucket));
            var start := WindowStart(now, span);
            CountAt(s.entries, Slot(bucket, start)) == Attempts(s.log, bucket, start, start + span)
  {
    hide Run, Attempts, Admitted;
    RunKeepsInv(policies, maxMinutes, ops, bucket);
    var start := WindowStart(now, Span(policies(bucket)));
    assert policies(bucket).minutes <= maxMinutes;
    assert !Swept(maxMinutes, ops, start);
    assert CounterIsExact(Run(policies, maxMinutes, State(map[], []), ops), policies(bucket), bucket, start);
  }

  lemma {:induction false} TwoWindowsCover(log: seq<Attempt>, bucket: string, from: int, start: int, span: int)
    requires span > 0 && start <= from < start + span
    ensures Admitted(log, bucket, from, from + span)
         <= Admitted(log, bucket, start, start + span) + Admitted(log, bucket, start + span, start + span + span)
  {
    if log != [] {
      TwoWindowsCover(log[..|log| - 1], bucket, from, start, span);
    }
  }

  /** Wherever an interval of one window's length starts, at most twice the limit passes in it. */
  lemma SlidingIntervalAdmits(policies: string -> Policy, maxMinutes: nat, ops: seq<Op>, bucket: string, from: int)
    requires Limits(policies, maxMinutes) && LandInTime(policies, maxMinutes, ops) && policies(bucket).max.Some?
    ensures var policy := policies(bucket);
            Admitted(Run(policies, maxMinutes, State(map[], []), ops).log, bucket, from, from + Span(policy)) <= 2 * policy.max.value
  {
    hide Admitted, Attempts, Run;
    var policy, log := policies(bucket), Run(policies, maxMinutes, State(map[], []), ops).log;
    var span := Span(policy);
    assert 0 < policies(bucket).minutes;
    var start := WindowStart(from, span);
    assert (start + span) % span == 0 by {
      MultipleHasNoRemainder(start / span + 1, span);
      assert start + span == (start / span + 1) * span;
    }
    WindowAdmits(policies, maxMinutes, ops, bucket, start);
    WindowAdmits(policies, maxMinutes, ops, bucket, start + span);
    TwoWindowsCover(log, bucket, from, start, span);
  }
}
