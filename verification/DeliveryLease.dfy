/** One webhook delivery under any number of workers, each with its own clock. The lease deadline
    a claim stamps is the only thing that tells a live holder from a late one. */
module DeliveryLease {
  import opened Options
  import opened Deliveries

  datatype Phase = Sending | Ended(ok: bool, completedAt: int)

  /** An attempt in flight: the row its claim returned, and how far it has come. */
  datatype Attempt = Attempt(worker: nat, claimedAt: int, claim: Delivery, phase: Phase)

  datatype Outcome = Outcome(claimNumber: nat, ok: bool, completedAt: int)

  /** The row, the workers' clocks and the open attempts, keyed by claim number; `tokens` and
      `outcomes` are the history of stamped deadlines and of updates that took effect. */
  datatype State = State(row: Option<Delivery>, clocks: map<nat, int>, open: map<nat, Attempt>,
                         tokens: seq<int>, outcomes: seq<Outcome>)

  datatype Step =
    | Tick(worker: nat, to: int)
    | TickAll(to: int)
    | Claim(worker: nat, now: int)
    | End(k: nat, ok: bool)
    | Record(k: nat)
    | Crash(k: nat)
    | Remove

  predicate Init(s: State) {
    && s.row.Some? && s.row.value == Delivery(Pending, 0, s.row.value.maxAttempts, None)
    && s.row.value.maxAttempts >= 1
    && s.open == map[] && s.tokens == [] && s.outcomes == []
  }

  /** What the environment allows: a worker's own clock never runs backwards, and the time a
      claim carries is a reading its worker took at or before the claim runs. */
  predicate Can(s: State, step: Step) {
    match step
    case Tick(w, to) => w !in s.clocks || s.clocks[w] <= to
    case TickAll(to) => forall w :: w in s.clocks ==> s.clocks[w] <= to
    case Claim(w, now) => w in s.clocks && now <= s.clocks[w] && s.row.Some? && Due(s.row.value, now)
    case End(k, _) => k in s.open && s.open[k].phase.Sending? && s.open[k].worker in s.clocks
    case Record(k) => k in s.open && s.open[k].phase.Ended?
    case Crash(k) => k in s.open
    case Remove => true
  }

  function Do(s: State, step: Step): State
    requires Can(s, step)
  {
    match step
    case Tick(w, to) => s.(clocks := s.clocks[w := to])
    case TickAll(to) => s.(clocks := map w | w in s.clocks :: to)
    case Claim(w, now) =>
      var row := Claimed(s.row.value, now);
      s.(row := Some(row), tokens := s.tokens + [now + DELIVERY_LEASE_MS],
         open := s.open[|s.tokens| := Attempt(w, now, row, Sending)])
    case End(k, ok) =>
      var a := s.open[k];
      s.(open := s.open[k := a.(phase := Ended(ok, s.clocks[a.worker]))])
    case Record(k) =>
      var a := s.open[k];
      var closed := s.(open := s.open - {k});
      if s.row.Some? && HoldsClaim(s.row.value, a.claim) then
        closed.(row := Some(Recorded(s.row.value, a.claim, a.phase.ok, a.phase.completedAt)),
                outcomes := s.outcomes + [Outcome(k, a.phase.ok, a.phase.completedAt)])
      else closed
    case Crash(k) => s.(open := s.open - {k})
    case Remove => s.(row := None)
  }

  predicate CanAll(s: State, steps: seq<Step>)
    decreases |steps|
  {
    steps == [] || (Can(s, steps[0]) && CanAll(Do(s, steps[0]), steps[1..]))
  }

  function DoAll(s: State, steps: seq<Step>): State
    requires CanAll(s, steps)
    decreases |steps|
  {
    if steps == [] then s else DoAll(Do(s, steps[0]), steps[1..])
  }

  // ------------------------------------------------------------ invariant

  predicate StrictlyIncreasing(s: seq<int>) {
    forall i, j :: 0 <= i < j < |s| ==> s[i] < s[j]
  }

  predicate HoldsItsToken(a: Attempt, k: nat, tokens: seq<int>, clocks: map<nat, int>) {
    && k < |tokens| && a.claim.status == Delivering && a.claim.nextAttemptAt == Some(tokens[k])
    && a.claimedAt + DELIVERY_LEASE_MS == tokens[k]
    && a.worker in clocks && a.claimedAt <= clocks[a.worker]
    && (a.phase.Ended? ==> a.claimedAt <= a.phase.completedAt)
  }

  predicate OpenAttemptsHoldTheirTokens(s: State) {
    forall k :: k in s.open ==> HoldsItsToken(s.open[k], k, s.tokens, s.clocks)
  }

  predicate OutcomesFollowClaims(s: State) {
    && (forall i :: 0 <= i < |s.outcomes| ==> s.outcomes[i].claimNumber < |s.tokens|)
    && (forall i, j :: 0 <= i < j < |s.outcomes| ==> s.outcomes[i].claimNumber < s.outcomes[j].claimNumber)
  }

  /** The row's deadline always outruns every token already stamped, once a lease is added. */
  predicate RowMatchesHistory(s: State) {
    s.row.Some? ==>
      var d, n, m := s.row.value, |s.tokens|, |s.outcomes|;
      && d.attempt == m <= d.maxAttempts
      && (d.status in {Delivered, Failed} ==> m > 0 && d.nextAttemptAt.None?)
      && (d.status !in {Delivered, Failed} ==> m < d.maxAttempts)
      && match d.status
         case Pending => n == 0 && m == 0 && d.nextAttemptAt.None?
         case Retrying =>
           && n > 0 && m > 0 && !s.outcomes[m - 1].ok
           && d.nextAttemptAt == Some(s.outcomes[m - 1].completedAt + RetryDelay(m))
           && d.nextAttemptAt.value + DELIVERY_LEASE_MS > s.tokens[n - 1]
         case Delivering =>
           && n > 0 && d.nextAttemptAt == Some(s.tokens[n - 1])
           && (m > 0 ==> s.outcomes[m - 1].claimNumber < n - 1)
           && (n - 1 in s.open ==> s.open[n - 1].claim == d)
         case Delivered => s.outcomes[m - 1].ok
         case Failed => m == d.maxAttempts && !s.outcomes[m - 1].ok
  }

  predicate Inv(s: State) {
    && StrictlyIncreasing(s.tokens)
    && OpenAttemptsHoldTheirTokens(s)
    && OutcomesFollowClaims(s)
    && RowMatchesHistory(s)
  }

  /** A late result never matches: only the newest claim can still change the row. */
  lemma OnlyTheNewestClaimRecords(s: State, k: nat)
    requires Inv(s) && Can(s, Record(k))
    ensures Do(s, Record(k)).row != s.row ==> k == |s.tokens| - 1
    ensures s.row.Some? && s.row.value.status == Delivering && k == |s.tokens| - 1 ==>
              Do(s, Record(k)).row.Some? && Do(s, Record(k)).row.value.attempt == s.row.value.attempt + 1
  {
  }

  lemma ClaimKeepsInv(s: State, worker: nat, now: int)
    requires Inv(s) && Can(s, Claim(worker, now))
    ensures Inv(Do(s, Claim(worker, now)))
  {
    var n := |s.tokens|;
    assert n > 0 ==> s.tokens[n - 1] < now + DELIVERY_LEASE_MS;
    assert forall i :: 0 <= i < n ==> s.tokens[i] <= s.tokens[n - 1];
  }

  lemma RecordKeepsInv(s: State, k: nat)
    requires Inv(s) && Can(s, Record(k))
    ensures Inv(Do(s, Record(k)))
  {
    OnlyTheNewestClaimRecords(s, k);
    var a, t := s.open[k], Do(s, Record(k));
    if s.row.Some? && HoldsClaim(s.row.value, a.claim) {
      assert a.claim == s.row.value;
      RetriesBackOff(s.row.value.attempt + 1);
      assert t.outcomes[|t.outcomes| - 1] == Outcome(k, a.phase.ok, a.phase.completedAt);
    }
  }

  lemma EndKeepsInv(s: State, k: nat, ok: bool)
    requires Inv(s) && Can(s, End(k, ok))
    ensures Inv(Do(s, End(k, ok)))
  {
    hide StrictlyIncreasing;
  }

  lemma QuietStepKeepsInv(s: State, step: Step)
    requires Inv(s) && Can(s, step) && (step.Tick? || step.TickAll? || step.Crash? || step.Remove?)
    ensures Inv(Do(s, step))
  {
    hide StrictlyIncreasing;
  }

  lemma StepKeepsInv(s: State, step: Step)
    requires Inv(s) && Can(s, step)
    ensures Inv(Do(s, step))
  {
    hide Inv, Do;
    match step
    case Claim(w, now) => ClaimKeepsInv(s, w, now);
    case Record(k) => RecordKeepsInv(s, k);
    case End(k, ok) => EndKeepsInv(s, k, ok);
    case Tick(_, _) => QuietStepKeepsInv(s, step);
    case TickAll(_) => QuietStepKeepsInv(s, step);
    case Crash(_) => QuietStepKeepsInv(s, step);
    case Remove => QuietStepKeepsInv(s, step);
  }

  lemma {:induction false} RunKeepsInv(s: State, steps: seq<Step>)
    requires Inv(s) && CanAll(s, steps)
    ensures Inv(DoAll(s, steps))
    decreases |steps|
  {
    if steps != [] {
      StepKeepsInv(s, steps[0]);
      RunKeepsInv(Do(s, steps[0]), steps[1..]);
    }
  }

  /** Fencing: whatever the clocks of the workers say to each other, successive claims stamp
      strictly increasing deadlines, every recorded outcome belongs to a later claim than the one
      before it, and the attempt counter is the number of recorded outcomes, never past the
      maximum. */
  lemma Fencing(s: State, steps: seq<Step>)
    requires Init(s) && CanAll(s, steps)
    ensures
      var t := DoAll(s, steps);
      && (forall i, j :: 0 <= i < j < |t.tokens| ==> t.tokens[i] < t.tokens[j])
      && (forall i, j :: 0 <= i < j < |t.outcomes| ==> t.outcomes[i].claimNumber < t.outcomes[j].claimNumber)
      && (t.row.Some? ==> t.row.value.attempt == |t.outcomes| <= t.row.value.maxAttempts)
  {
    RunKeepsInv(s, steps);
  }

  /** Delivered and failed are final: no run changes such a row, except to remove it. */
  lemma {:induction false} TerminalIsAbsorbing(s: State, steps: seq<Step>)
    requires Inv(s) && CanAll(s, steps)
    requires s.row.Some? && s.row.value.status in {Delivered, Failed}
    ensures DoAll(s, steps).row in {s.row, None}
    decreases |steps|
  {
    if steps != [] {
      StepKeepsInv(s, steps[0]);
      if Do(s, steps[0]).row.Some? {
        TerminalIsAbsorbing(Do(s, steps[0]), steps[1..]);
      } else {
        RemovedStaysRemoved(Do(s, steps[0]), steps[1..]);
      }
    }
  }

  lemma {:induction false} RemovedStaysRemoved(s: State, steps: seq<Step>)
    requires s.row.None? && CanAll(s, steps)
    ensures DoAll(s, steps).row.None?
    decreases |steps|
  {
    if steps != [] {
      RemovedStaysRemoved(Do(s, steps[0]), steps[1..]);
    }
  }

  // ------------------------------------------------------------- progress

  /** After any run a row can be claimed by a reading of a worker's clock if and only if it is
      neither delivered nor failed and has no deadline or one that reading has reached: a lease that
      lapsed with its worker is taken up again. */
  lemma ClaimableExactly(s: State, steps: seq<Step>, worker: nat, now: int)
    requires Init(s) && CanAll(s, steps)
    ensures var t := DoAll(s, steps);
            Can(t, Claim(worker, now)) <==>
              && worker in t.clocks && now <= t.clocks[worker] && t.row.Some?
              && t.row.value.status in {Pending, Retrying, Delivering}
              && (t.row.value.nextAttemptAt == None || t.row.value.nextAttemptAt.value <= now)
  {
    hide StrictlyIncreasing, OpenAttemptsHoldTheirTokens, OutcomesFollowClaims, DoAll, CanAll;
    RunKeepsInv(s, steps);
  }

  /** Clocks move forward, each for itself or all together; a worker can die at any point of its
      attempt, and the row can be removed at any time. */
  lemma AroundTheClaims(s: State, worker: nat, to: int, k: nat)
    ensures Can(s, Tick(worker, to)) <==> worker !in s.clocks || s.clocks[worker] <= to
    ensures Can(s, Tick(worker, to)) ==> Do(s, Tick(worker, to)) == s.(clocks := s.clocks[worker := to])
    ensures Can(s, TickAll(to)) <==> forall w :: w in s.clocks ==> s.clocks[w] <= to
    ensures Can(s, TickAll(to)) ==>
              var t := Do(s, TickAll(to));
              t == s.(clocks := t.clocks) && t.clocks.Keys == s.clocks.Keys && forall w :: w in s.clocks ==> t.clocks[w] == to
    ensures Can(s, Crash(k)) <==> k in s.open
    ensures Can(s, Crash(k)) ==> Do(s, Crash(k)) == s.(open := s.open - {k})
    ensures Can(s, Remove) && Do(s, Remove) == s.(row := None)
  {
  }

  /** An attempt ends at its own worker's clock, and once ended is recorded once, if at all. */
  lemma AttemptsEnd(s: State, k: nat, ok: bool)
    ensures Can(s, End(k, ok)) <==> k in s.open && s.open[k].phase == Sending && s.open[k].worker in s.clocks
    ensures Can(s, End(k, ok)) ==>
              var t := Do(s, End(k, ok));
              t == s.(open := t.open) && t.open == s.open[k := s.open[k].(phase := Ended(ok, s.clocks[s.open[k].worker]))]
    ensures Can(s, Record(k)) <==> k in s.open && s.open[k].phase.Ended?
    ensures Can(s, Record(k)) ==>
              var t, a := Do(s, Record(k)), s.open[k];
              && t.open == s.open - {k} && t.clocks == s.clocks && t.tokens == s.tokens
              && (s.row.Some? && s.row.value.status == Delivering && s.row.value.nextAttemptAt.Some?
                  && s.row.value.nextAttemptAt == a.claim.nextAttemptAt
                  <==> t.outcomes == s.outcomes + [Outcome(k, a.phase.ok, a.phase.completedAt)])
              && (t.outcomes == s.outcomes ==> t.row == s.row)
  {
    assert |s.outcomes + [Outcome(k, true, 0)]| != |s.outcomes|;
  }

  /** The deadline a claim stamps, and the row as it then is. */
  lemma ClaimStamps(s: State, worker: nat, now: int)
    requires Can(s, Claim(worker, now))
    ensures var t := Do(s, Claim(worker, now));
            && t.row.Some? && t.row.value.status == Delivering && t.row.value.nextAttemptAt == Some(now + 60_000)
            && t.row.value.attempt == s.row.value.attempt && t.row.value.maxAttempts == s.row.value.maxAttempts
            && t.tokens == s.tokens + [now + 60_000] && t.outcomes == s.outcomes && t.clocks == s.clocks
            && |s.tokens| in t.open && t.open[|s.tokens|] == Attempt(worker, now, t.row.value, Sending)
  {
  }

  /** The wait before attempt number n + 1, once n have failed. */
  function Wait(failed: nat): int
    requires failed >= 1
  {
    if failed == 1 then 5_000 else if failed == 2 then 30_000 else 300_000
  }

  /** The row after an attempt of this claim has been recorded. */
  predicate Concluded(before: Delivery, after: Delivery, ok: bool, completedAt: int) {
    && after.attempt == before.attempt + 1 && after.maxAttempts == before.maxAttempts
    && (ok ==> after.status == Delivered && after.nextAttemptAt == None)
    && (!ok && after.attempt < after.maxAttempts ==>
          after.status == Retrying && after.nextAttemptAt == Some(completedAt + Wait(after.attempt)))
    && (!ok && after.attempt >= after.maxAttempts ==> after.status == Failed && after.nextAttemptAt == None)
  }

  lemma HeldClaimConcludes(s: State, k: nat, ok: bool)
    requires Can(s, End(k, ok)) && s.row == Some(s.open[k].claim)
    requires s.row.value.status == Delivering && s.row.value.nextAttemptAt.Some?
    ensures var t := Do(s, End(k, ok));
            Can(t, Record(k)) && Do(t, Record(k)).row.Some?
            && Concluded(s.row.value, Do(t, Record(k)).row.value, ok, s.clocks[s.open[k].worker])
  {
  }

  lemma ThreeSteps(s: State, a: Step, b: Step, c: Step)
    requires Can(s, a) && Can(Do(s, a), b) && Can(Do(Do(s, a), b), c)
    ensures CanAll(s, [a, b, c]) && DoAll(s, [a, b, c]) == Do(Do(Do(s, a), b), c)
  {
    hide Can, Do;
    var s3 := Do(Do(Do(s, a), b), c);
    assert [a, b, c][1..] == [b, c] && [b, c][1..] == [c] && [c][1..] == [];
    assert CanAll(s3, []) && DoAll(s3, []) == s3;
    assert CanAll(Do(Do(s, a), b), [c]) && DoAll(Do(Do(s, a), b), [c]) == s3;
    assert CanAll(Do(s, a), [b, c]) && DoAll(Do(s, a), [b, c]) == s3;
  }

  /** Undisturbed, a claim that ends well delivers, and one that ends badly is retried after 5
      seconds, 30 seconds or 5 minutes, until the attempts are used up. */
  lemma AttemptCanFinish(s: State, worker: nat, now: int, ok: bool)
    requires Can(s, Claim(worker, now))
    ensures var steps := [Claim(worker, now), End(|s.tokens|, ok), Record(|s.tokens|)];
            && CanAll(s, steps) && DoAll(s, steps).row.Some?
            && Concluded(s.row.value, DoAll(s, steps).row.value, ok, s.clocks[worker])
  {
    var k, s1 := |s.tokens|, Do(s, Claim(worker, now));
    ClaimStamps(s, worker, now);
    assert Can(s1, End(k, ok));
    HeldClaimConcludes(s1, k, ok);
    ThreeSteps(s, Claim(worker, now), End(k, ok), Record(k));
  }

  // --------------------------------------------------------- shared clock

  /** One clock for every worker, and every open attempt still inside the lease it was claimed
      with: `now` has not reached its deadline. */
  predicate OnTime(s: State, now: int) {
    && (forall w :: w in s.clocks ==> s.clocks[w] == now)
    && (forall k :: k in s.open ==> now < s.open[k].claimedAt + DELIVERY_LEASE_MS)
  }

  predicate AtMostTheNewestIsOpen(s: State) {
    && (forall k :: k in s.open ==> k == |s.tokens| - 1)
    && (s.row.Some? && s.row.value.status != Delivering ==> s.open == map[])
  }

  predicate OnTimeRun(s: State, now: int, steps: seq<Step>)
    decreases |steps|
  {
    && OnTime(s, now)
    && (steps != [] ==>
         && Can(s, steps[0]) && !steps[0].Tick?
         && var later := if steps[0].TickAll? then steps[0].to else now;
            OnTimeRun(Do(s, steps[0]), later, steps[1..]))
  }

  lemma {:induction false} OnTimeRunCan(s: State, now: int, steps: seq<Step>)
    requires OnTimeRun(s, now, steps)
    ensures CanAll(s, steps)
    decreases |steps|
  {
    if steps != [] {
      OnTimeRunCan(Do(s, steps[0]), if steps[0].TickAll? then steps[0].to else now, steps[1..]);
    }
  }

  /** With one clock and attempts that end inside their lease, a delivery never has two open
      attempts, over any run of any number of workers. */
  lemma {:induction false} NeverTwoOpenAttempts(s: State, now: int, steps: seq<Step>)
    requires Inv(s) && AtMostTheNewestIsOpen(s) && OnTimeRun(s, now, steps)
    ensures CanAll(s, steps) && AtMostTheNewestIsOpen(DoAll(s, steps))
    ensures forall j, k :: j in DoAll(s, steps).open && k in DoAll(s, steps).open ==> j == k
    decreases |steps|
  {
    OnTimeRunCan(s, now, steps);
    if steps != [] {
      StepKeepsInv(s, steps[0]);
      OnTimeStepKeepsOneOpen(s, now, steps[0]);
      NeverTwoOpenAttempts(Do(s, steps[0]), if steps[0].TickAll? then steps[0].to else now, steps[1..]);
    }
  }

  lemma OnTimeStepKeepsOneOpen(s: State, now: int, step: Step)
    requires Inv(s) && AtMostTheNewestIsOpen(s) && OnTime(s, now) && Can(s, step)
    ensures AtMostTheNewestIsOpen(Do(s, step))
  {
    // An open attempt's deadline is still ahead, so its row is not due.
    assert forall k :: k in s.open ==> now < s.tokens[k];
    if step.Claim? {
      assert |s.tokens| - 1 !in s.open;
    }
    if step.Record? {
      assert forall k :: k in s.open ==> k == step.k;
    }
  }

  /** A retry waits: it is claimed no earlier than the scheduled delay after the attempt before
      it ended. */
  lemma RetryWaitsOutItsDelay(s: State, now: int, step: Step)
    requires Inv(s) && OnTime(s, now) && step.Claim? && Can(s, step) && s.row.value.status == Retrying
    ensures s.row.value.attempt > 0 && |s.outcomes| == s.row.value.attempt
    ensures now >= s.outcomes[|s.outcomes| - 1].completedAt + Wait(s.row.value.attempt)
  {
    RetriesBackOff(s.row.value.attempt);
  }
}
