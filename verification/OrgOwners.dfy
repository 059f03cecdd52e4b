/** Organization owners when owner removals and account deletions run side by side, statement by
    statement, around the row locks they take (src/routes/orgs.js, src/routes/users.js). A
    transaction's own writes stay invisible until it commits. */
module OrgOwners {

  type Org = nat
  type User = nat

  /** How far an owner removal has got: asked, holding the organization's row, its DELETE done, the
      remaining owners counted. */
  datatype Phase = Asked | Locked | Deleted | Counted

  /** An account deletion takes the organizations it found one lock after another, and then checks. */
  datatype Process =
    | Removal(org: Org, user: User, phase: Phase)
    | Closing(user: User, pending: set<Org>, held: set<Org>, checked: bool)

  datatype State = State(owners: map<Org, set<User>>, users: set<User>, holder: map<Org, nat>, processes: map<nat, Process>)

  datatype Step =
    | SignUp(user: User)
    | Create(org: Org, user: User)
    | Add(org: Org, user: User)
    | Dissolve(org: Org)
    | StartRemoval(process: nat, org: Org, user: User)
    | StartClosing(process: nat, user: User)
    | Lock(process: nat, org: Org)
    | Advance(process: nat)
    | Abort(process: nat)

  function HeldBy(process: Process): set<Org> {
    match process
    case Removal(org, _, phase) => if phase == Asked then {} else {org}
    case Closing(_, _, held, _) => held
  }

  /** The end of a transaction, either way: its locks go with it. */
  function Finished(s: State, p: nat): State
    requires p in s.processes
  {
    s.(processes := s.processes - {p}, holder := s.holder - HeldBy(s.processes[p]))
  }

  /** The next statement of a transaction that is not waiting for a lock. */
  function Advanced(s: State, p: nat): State
    requires p in s.processes
  {
    match s.processes[p]
    case Removal(org, user, Asked) => s
    case Removal(org, user, Locked) =>
      if org in s.owners && user in s.owners[org]
      then s.(processes := s.processes[p := Removal(org, user, Deleted)])
      else Finished(s, p)
    case Removal(org, user, Deleted) =>
      // count(*) sees the transaction's own DELETE
      if org in s.owners && s.owners[org] - {user} != {}
      then s.(processes := s.processes[p := Removal(org, user, Counted)])
      else Finished(s, p)
    case Removal(org, user, Counted) =>
      if org in s.owners then Finished(s, p).(owners := s.owners[org := s.owners[org] - {user}]) else Finished(s, p)
    case Closing(user, pending, held, false) =>
      if pending != {} then s
      else if exists o :: o in s.owners && s.owners[o] == {user} then Finished(s, p)
      else s.(processes := s.processes[p := Closing(user, pending, held, true)])
    case Closing(user, _, _, true) =>
      // DELETE FROM users cascades to every ownership there is by now
      Finished(s, p).(owners := (map o | o in s.owners :: s.owners[o] - {user}), users := s.users - {user})
  }

  function Do(s: State, step: Step): State {
    match step
    case SignUp(user) => s.(users := s.users + {user})
    case Create(org, user) =>
      if org in s.owners || user !in s.users then s else s.(owners := s.owners[org := {user}])
    case Add(org, user) =>
      if org !in s.owners || user !in s.users then s else s.(owners := s.owners[org := s.owners[org] + {user}])
    case Dissolve(org) =>
      if org in s.holder then s else s.(owners := s.owners - {org})
    case StartRemoval(p, org, user) =>
      if p in s.processes then s else s.(processes := s.processes[p := Removal(org, user, Asked)])
    case StartClosing(p, user) =>
      if p in s.processes then s
      else
        var owned := set o | o in s.owners && user in s.owners[o];
        s.(processes := s.processes[p := Closing(user, owned, {}, false)])
    case Lock(p, org) =>
      if p !in s.processes || org in s.holder then s
      else (
        match s.processes[p]
        case Removal(target, user, phase) =>
          if phase != Asked || target != org then s
          else if org !in s.owners then Finished(s, p)
          else s.(processes := s.processes[p := Removal(org, user, Locked)], holder := s.holder[org := p])
        case Closing(user, pending, held, checked) =>
          if checked || org !in pending then s
          else if org !in s.owners then s.(processes := s.processes[p := Closing(user, pending - {org}, held, checked)])
          else s.(processes := s.processes[p := Closing(user, pending - {org}, held + {org}, checked)],
                  holder := s.holder[org := p]))
    case Advance(p) => if p in s.processes then Advanced(s, p) else s
    case Abort(p) => if p in s.processes then Finished(s, p) else s
  }

  function Run(s: State, steps: seq<Step>): State
    decreases |steps|
  {
    if steps == [] then s else Run(Do(s, steps[0]), steps[1..])
  }

  /** Nobody is made an owner while their own account is being deleted. */
  predicate Apart(s: State, step: Step) {
    step.Add? || step.Create? ==>
      forall p :: p in s.processes && s.processes[p].Closing? ==> s.processes[p].user != step.user
  }

  predicate ApartThroughout(s: State, steps: seq<Step>)
    decreases |steps|
  {
    steps == [] || (Apart(s, steps[0]) && ApartThroughout(Do(s, steps[0]), steps[1..]))
  }

  // -------------------------------------------------------------- invariant

  /** Every organization has an owner, and its owners have accounts. */
  predicate Owned(s: State) {
    forall o :: o in s.owners ==> s.owners[o] != {} && s.owners[o] <= s.users
  }

  /** A row lock has one holder, which knows it holds it, and a locked row is there. */
  predicate LocksAgree(s: State) {
    && (forall p, o :: p in s.processes && o in HeldBy(s.processes[p]) ==> o in s.holder && s.holder[o] == p && o in s.owners)
    && (forall o :: o in s.holder ==> s.holder[o] in s.processes && o in HeldBy(s.processes[s.holder[o]]))
  }

  /** What a process that passed its check may rely on, whatever the others do. */
  predicate CheckHolds(s: State, process: Process) {
    match process
    case Removal(org, user, Counted) => org in s.owners && s.owners[org] - {user} != {}
    case Closing(user, pending, held, true) => pending == {} && forall o :: o in held && o in s.owners ==> s.owners[o] - {user} != {}
    case _ => true
  }

  /** An account deletion has locked, or is still to lock, every organization its user owns. */
  predicate Covers(s: State, process: Process) {
    process.Closing? ==> forall o :: o in s.owners && process.user in s.owners[o] ==> o in process.pending + process.held
  }

  ghost predicate Guarded(s: State) {
    LocksAgree(s) && forall p :: p in s.processes ==> CheckHolds(s, s.processes[p])
  }

  ghost predicate Inv(s: State) {
    && Owned(s) && Guarded(s)
    && (forall p :: p in s.processes ==> Covers(s, s.processes[p]))
  }

  lemma FinishKeepsLocks(s: State, p: nat)
    requires LocksAgree(s) && p in s.processes
    ensures LocksAgree(Finished(s, p))
  {
    hide HeldBy;
    var end := Finished(s, p);
    forall q, o | q in end.processes && o in HeldBy(end.processes[q]) ensures o in end.holder && end.holder[o] == q && o in end.owners {
      assert o in s.holder && s.holder[o] == q;
      assert o !in HeldBy(s.processes[p]);
    }
    forall o | o in end.holder ensures end.holder[o] in end.processes && o in HeldBy(end.processes[end.holder[o]]) {
      assert s.holder[o] in s.processes && o in HeldBy(s.processes[s.holder[o]]);
    }
  }

  lemma OtherOwnersKeepLocks(s: State, owners: map<Org, set<User>>, users: set<User>)
    requires LocksAgree(s) && forall o :: o in s.holder ==> o in owners
    ensures LocksAgree(s.(owners := owners, users := users))
  {
    hide HeldBy;
  }

  lemma SameLocksStayAgreed(s: State, p: nat, process: Process)
    requires LocksAgree(s) && HeldBy(process) == if p in s.processes then HeldBy(s.processes[p]) else {}
    ensures LocksAgree(s.(processes := s.processes[p := process]))
  {
    hide HeldBy;
  }

  lemma OneMoreLockAgrees(s: State, p: nat, org: Org, process: Process)
    requires LocksAgree(s) && p in s.processes && org !in s.holder && org in s.owners
    requires HeldBy(process) == HeldBy(s.processes[p]) + {org}
    ensures LocksAgree(s.(processes := s.processes[p := process], holder := s.holder[org := p]))
  {
    hide HeldBy;
  }

  lemma LockStaysAgreed(s: State, p: nat, org: Org)
    requires LocksAgree(s) && p in s.processes
    ensures LocksAgree(Do(s, Lock(p, org)))
  {
    hide LocksAgree;
    match s.processes[p]
    case Removal(target, user, phase) =>
      if phase == Asked && target == org && org !in s.holder {
        if org in s.owners {
          OneMoreLockAgrees(s, p, org, Removal(org, user, Locked));
        } else {
          FinishKeepsLocks(s, p);
        }
      }
    case Closing(user, pending, held, checked) =>
      if !checked && org in pending && org !in s.holder {
        if org in s.owners {
          OneMoreLockAgrees(s, p, org, Closing(user, pending - {org}, held + {org}, checked));
        } else {
          SameLocksStayAgreed(s, p, Closing(user, pending - {org}, held, checked));
        }
      }
  }

  lemma AdvanceStaysAgreed(s: State, p: nat)
    requires LocksAgree(s) && p in s.processes
    ensures LocksAgree(Advanced(s, p))
  {
    FinishKeepsLocks(s, p);
    var end := Finished(s, p);
    assert forall o :: o in end.holder ==> o in s.owners;
    hide LocksAgree;
    match s.processes[p]
    case Removal(org, user, Locked) => SameLocksStayAgreed(s, p, Removal(org, user, Deleted));
    case Removal(org, user, Deleted) => SameLocksStayAgreed(s, p, Removal(org, user, Counted));
    case Removal(org, user, Counted) =>
      if org in s.owners {
        OtherOwnersKeepLocks(end, s.owners[org := s.owners[org] - {user}], s.users);
      }
    case Closing(user, pending, held, false) => SameLocksStayAgreed(s, p, Closing(user, pending, held, true));
    case Closing(user, _, _, true) =>
      OtherOwnersKeepLocks(end, map o | o in s.owners :: s.owners[o] - {user}, s.users - {user});
    case _ =>
  }

  lemma LocksStayAgreed(s: State, step: Step)
    requires LocksAgree(s)
    ensures LocksAgree(Do(s, step))
  {
    assert forall o :: o in s.holder ==> o in s.owners;
    hide LocksAgree, Advanced;
    match step
    case SignUp(user) => OtherOwnersKeepLocks(s, s.owners, s.users + {user});
    case Create(org, user) => OtherOwnersKeepLocks(s, s.owners[org := {user}], s.users);
    case Add(org, user) =>
      if org in s.owners {
        OtherOwnersKeepLocks(s, s.owners[org := s.owners[org] + {user}], s.users);
      }
    case Dissolve(org) =>
      if org !in s.holder {
        OtherOwnersKeepLocks(s, s.owners - {org}, s.users);
      }
    case StartRemoval(p, org, user) =>
      if p !in s.processes {
        SameLocksStayAgreed(s, p, Removal(org, user, Asked));
      }
    case StartClosing(p, user) =>
      if p !in s.processes {
        SameLocksStayAgreed(s, p, Closing(user, set o | o in s.owners && user in s.owners[o], {}, false));
      }
    case Lock(p, org) =>
      if p in s.processes {
        LockStaysAgreed(s, p, org);
      }
    case Advance(p) =>
      if p in s.processes {
        AdvanceStaysAgreed(s, p);
      }
    case Abort(p) =>
      if p in s.processes {
        FinishKeepsLocks(s, p);
      }
  }

  /** Only the holder of an organization's row takes owners off it. */
  lemma OnlyTheHolderTakes(s: State, step: Step, p: nat, o: Org)
    requires Inv(s) && p in s.processes && o in HeldBy(s.processes[p]) && o in s.owners
    requires step != Advance(p)
    ensures o in Do(s, step).owners && s.owners[o] <= Do(s, step).owners[o]
  {
    assert s.holder[o] == p;
    if step.Advance? && step.process in s.processes {
      var q := step.process;
      assert Covers(s, s.processes[q]) && CheckHolds(s, s.processes[q]);
      assert o !in HeldBy(s.processes[q]);
    }
  }

  /** A check once passed stays good while the organizations it is about lose no owner. */
  lemma ChecksAreMonotone(a: State, b: State, process: Process)
    requires CheckHolds(a, process)
    requires forall o :: o in HeldBy(process) ==> o in a.owners && o in b.owners && a.owners[o] <= b.owners[o]
    ensures CheckHolds(b, process)
  {
  }

  /** A process gets past its check only with the check's result. */
  lemma OwnStepIsChecked(s: State, step: Step, p: nat)
    requires Owned(s) && p in Do(s, step).processes && (p in s.processes ==> CheckHolds(s, s.processes[p]))
    requires step == Advance(p) || p !in s.processes || Do(s, step).processes[p] != s.processes[p]
    ensures CheckHolds(Do(s, step), Do(s, step).processes[p])
  {
    hide HeldBy;
  }

  lemma ChecksStayGood(s: State, step: Step, p: nat)
    requires Inv(s) && p in Do(s, step).processes
    ensures CheckHolds(Do(s, step), Do(s, step).processes[p])
  {
    assert p in s.processes ==> forall o :: o in HeldBy(s.processes[p]) ==> o in s.owners;
    hide LocksAgree, Covers, CheckHolds, Do, HeldBy;
    var next := Do(s, step);
    if p in s.processes && next.processes[p] == s.processes[p] && step != Advance(p) {
      forall o | o in HeldBy(s.processes[p]) ensures o in next.owners && s.owners[o] <= next.owners[o] {
        OnlyTheHolderTakes(s, step, p, o);
      }
      ChecksAreMonotone(s, next, s.processes[p]);
    } else {
      OwnStepIsChecked(s, step, p);
    }
  }

  lemma StaysOwned(s: State, step: Step)
    requires Inv(s)
    ensures Owned(Do(s, step))
  {
    if step.Advance? && step.process in s.processes {
      assert CheckHolds(s, s.processes[step.process]) && Covers(s, s.processes[step.process]);
    }
  }

  lemma StaysCovered(s: State, step: Step, p: nat)
    requires Inv(s) && Apart(s, step) && p in Do(s, step).processes
    ensures Covers(Do(s, step), Do(s, step).processes[p])
  {
    hide LocksAgree, CheckHolds, Owned, HeldBy;
    if p in s.processes {
      assert Covers(s, s.processes[p]);
    }
  }

  lemma StepKeepsInv(s: State, step: Step)
    requires Inv(s) && Apart(s, step)
    ensures Inv(Do(s, step))
  {
    var next := Do(s, step);
    LocksStayAgreed(s, step);
    StaysOwned(s, step);
    forall p | p in next.processes ensures CheckHolds(next, next.processes[p]) && Covers(next, next.processes[p]) {
      ChecksStayGood(s, step, p);
      StaysCovered(s, step, p);
    }
  }

  lemma {:induction false} RunKeepsInv(s: State, steps: seq<Step>)
    requires Inv(s) && ApartThroughout(s, steps)
    ensures Inv(Run(s, steps))
    decreases |steps|
  {
    hide Inv, Do, Apart;
    if steps != [] {
      StepKeepsInv(s, steps[0]);
      RunKeepsInv(Do(s, steps[0]), steps[1..]);
    }
  }

  const NOBODY := State(map[], {}, map[], map[])

  /** No interleaving leaves an organization without an owner. */
  lemma EveryOrganizationIsOwned(steps: seq<Step>, org: Org)
    requires ApartThroughout(NOBODY, steps) && org in Run(NOBODY, steps).owners
    ensures exists user :: user in Run(NOBODY, steps).owners[org] && user in Run(NOBODY, steps).users
  {
    hide Run, ApartThroughout;
    assert Inv(NOBODY);
    RunKeepsInv(NOBODY, steps);
    var owners := Run(NOBODY, steps).owners[org];
    assert Owned(Run(NOBODY, steps));
    assert owners != {};
    var user :| user in owners;
    assert user in Run(NOBODY, steps).owners[org] && user in Run(NOBODY, steps).users;
  }

  // ------------------------------------------------- what the statements do

  /** Signing up adds a user, creating and adding an owner need an account, and dissolving needs the
      organization's row to be free. */
  lemma PlainSteps(s: State, org: Org, user: User)
    ensures Do(s, SignUp(user)) == s.(users := s.users + {user})
    ensures var t := Do(s, Create(org, user));
            && (org in t.owners <==> org in s.owners || user in s.users)
            && (org !in s.owners && user in s.users ==> t.owners[org] == {user})
            && (forall o :: o in s.owners ==> o in t.owners && t.owners[o] == s.owners[o])
            && t == s.(owners := t.owners) && t.owners.Keys <= s.owners.Keys + {org}
    ensures var t := Do(s, Add(org, user));
            && t.owners.Keys == s.owners.Keys && t == s.(owners := t.owners)
            && (forall o :: o in s.owners ==> t.owners[o] == s.owners[o] + if o == org && user in s.users then {user} else {})
    ensures var t := Do(s, Dissolve(org));
            && (org in t.owners <==> org in s.owners && org in s.holder)
            && (forall o :: o != org ==> (o in t.owners <==> o in s.owners))
            && (forall o :: o in t.owners ==> t.owners[o] == s.owners[o]) && t == s.(owners := t.owners)
  {
  }

  /** A row lock goes to whoever asks for it first, until the holder's transaction ends; an owner
      removal whose organization is gone ends there. */
  lemma LocksGoTo(s: State, p: nat, org: Org)
    requires p in s.processes
    ensures var t := Do(s, Lock(p, org));
            && t.owners == s.owners && t.users == s.users
            && (org in s.holder ==> t == s)
            && (org !in s.holder && org in s.owners ==>
                  match s.processes[p]
                  case Removal(target, user, phase) =>
                    if phase == Asked && target == org
                    then t.holder == s.holder[org := p] && t.processes == s.processes[p := Removal(org, user, Locked)] else t == s
                  case Closing(user, pending, held, checked) =>
                    if !checked && org in pending
                    then t.holder == s.holder[org := p] && t.processes == s.processes[p := Closing(user, pending - {org}, held + {org}, checked)]
                    else t == s)
            && (org !in s.holder && org !in s.owners && s.processes[p].Removal? && s.processes[p].phase == Asked && s.processes[p].org == org ==>
                  p !in t.processes)
  {
  }

  /** A transaction can be rolled back at any point: nothing changes but that its locks are free. */
  lemma AbortLetsGo(s: State, p: nat)
    requires p in s.processes
    ensures var t := Do(s, Abort(p));
            && t.owners == s.owners && t.users == s.users && t.processes == s.processes - {p}
            && (LocksAgree(s) ==> forall o :: o in t.holder <==> o in s.holder && s.holder[o] != p)
            && (forall o :: o in t.holder ==> t.holder[o] == s.holder[o])
  {
  }

  /** How the two transactions begin: a removal with nothing in hand, a deletion with the organizations
      the user owns then still to lock. */
  lemma BothBegin(s: State, p: nat, org: Org, user: User)
    requires p !in s.processes
    ensures Do(s, StartRemoval(p, org, user)) == s.(processes := s.processes[p := Removal(org, user, Asked)])
    ensures var t := Do(s, StartClosing(p, user));
            && p in t.processes && t.processes[p].Closing? && t.processes[p].user == user
            && (forall o :: o in t.processes[p].pending <==> o in s.owners && user in s.owners[o])
            && t.processes[p].held == {} && !t.processes[p].checked
            && t == s.(processes := s.processes[p := t.processes[p]])
  {
  }

  /** The account deletion's check refuses exactly a user who is the only owner of some organization;
      until it has all its locks it does not check. */
  lemma ClosingChecksExactly(s: State, p: nat)
    requires p in s.processes && s.processes[p].Closing? && !s.processes[p].checked
    ensures var user, t := s.processes[p].user, Do(s, Advance(p));
            && t.owners == s.owners && t.users == s.users
            && (s.processes[p].pending != {} ==> t == s)
            && (s.processes[p].pending == {} ==>
                  && (p in t.processes <==> forall o :: o in s.owners ==> s.owners[o] != {user})
                  && (p in t.processes ==> t.processes[p].Closing? && t.processes[p].checked && t.processes[p].user == user && t.holder == s.holder))
  {
  }

  /** And then the account goes, with every ownership it has. */
  lemma ClosingTakes(s: State, p: nat)
    requires p in s.processes && s.processes[p].Closing? && s.processes[p].checked
    ensures var user, t := s.processes[p].user, Do(s, Advance(p));
            && t.users == s.users - {user} && t.owners.Keys == s.owners.Keys
            && (forall o :: o in s.owners ==> t.owners[o] == s.owners[o] - {user})
            && p !in t.processes && (forall o :: o in t.holder <==> o in s.holder && o !in s.processes[p].held)
  {
  }

  /** With the row in hand an owner removal succeeds exactly when the user is an owner and not the only
      one, and it takes that owner and no other; either way it ends and lets the row go. */
  lemma RemovalSucceedsExactly(s: State, p: nat)
    requires p in s.processes && s.processes[p].Removal? && s.processes[p].phase == Locked && s.processes[p].org in s.owners
    ensures var org, user, t := s.processes[p].org, s.processes[p].user, Run(s, [Advance(p), Advance(p), Advance(p)]);
            && t.owners.Keys == s.owners.Keys && t.users == s.users
            && t.owners[org] == (if user in s.owners[org] && s.owners[org] != {user} then s.owners[org] - {user} else s.owners[org])
            && (forall o :: o in s.owners && o != org ==> t.owners[o] == s.owners[o])
            && p !in t.processes && org !in t.holder
  {
    var s1 := Do(s, Advance(p));
    var s2 := Do(s1, Advance(p));
    ThreeSteps(s, Advance(p), Advance(p), Advance(p));
    var org, user := s.processes[p].org, s.processes[p].user;
    assert s.owners[org] - {user} == {} <==> s.owners[org] <= {user};
    assert user in s.owners[org] && s.owners[org] <= {user} ==> s.owners[org] == {user};
  }

  lemma ThreeSteps(s: State, a: Step, b: Step, c: Step)
    ensures Run(s, [a, b, c]) == Do(Do(Do(s, a), b), c)
  {
    hide Do;
    assert [a, b, c][1..] == [b, c] && [b, c][1..] == [c] && [c][1..] == [];
    assert Run(Do(Do(Do(s, a), b), c), []) == Do(Do(Do(s, a), b), c);
    assert Run(Do(Do(s, a), b), [c]) == Do(Do(Do(s, a), b), c);
    assert Run(Do(s, a), [b, c]) == Do(Do(Do(s, a), b), c);
  }

  lemma {:induction false} Chain(s: State, steps: seq<Step>, more: seq<Step>)
    ensures Run(s, steps + more) == Run(Run(s, steps), more)
    decreases |steps|
  {
    hide Do;
    if steps == [] {
      assert steps + more == more;
    } else {
      assert (steps + more)[1..] == steps[1..] + more;
      Chain(Do(s, steps[0]), steps[1..], more);
    }
  }

  lemma One(s: State, step: Step)
    ensures Run(s, [step]) == Do(s, step)
  {
    hide Do;
    assert [step][1..] == [];
    assert Run(Do(s, step), []) == Do(s, step);
  }

  /** The locks an account deletion is still to take, when nobody else holds any. */
  lemma {:induction false} LocksCanBeTaken(s: State, p: nat, user: User, pending: set<Org>, held: set<Org>) returns (steps: seq<Step>)
    requires p in s.processes && s.processes[p] == Closing(user, pending, held, false)
    requires forall o :: o in pending ==> o in s.owners && o !in s.holder
    ensures var t := Run(s, steps);
            && t.owners == s.owners && t.users == s.users
            && p in t.processes && t.processes[p] == Closing(user, {}, held + pending, false)
    decreases |pending|
  {
    if pending == {} {
      steps := [];
      assert held + pending == held;
    } else {
      var org :| org in pending;
      var next := Do(s, Lock(p, org));
      var rest := LocksCanBeTaken(next, p, user, pending - {org}, held + {org});
      One(s, Lock(p, org));
      Chain(s, [Lock(p, org)], rest);
      steps := [Lock(p, org)] + rest;
      assert held + {org} + (pending - {org}) == held + pending;
    }
  }

  /** A user who is nowhere the only owner can delete their account when nobody holds a lock in their
      way: it goes, and they own nothing. */
  lemma ClosingCanFinish(s: State, p: nat, user: User) returns (steps: seq<Step>)
    requires p !in s.processes && forall o :: o in s.owners && user in s.owners[o] ==> o !in s.holder && s.owners[o] != {user}
    ensures var t := Run(s, steps);
            && user !in t.users && t.owners.Keys == s.owners.Keys
            && forall o :: o in s.owners ==> t.owners[o] == s.owners[o] - {user}
  {
    hide Run;
    var owned := set o | o in s.owners && user in s.owners[o];
    var s1 := Do(s, StartClosing(p, user));
    One(s, StartClosing(p, user));
    var locks := LocksCanBeTaken(s1, p, user, owned, {});
    var s2 := Run(s1, locks);
    ClosingChecksExactly(s2, p);
    assert forall o :: o in s2.owners ==> s2.owners[o] != {user};
    var s3 := Do(s2, Advance(p));
    ClosingTakes(s3, p);
    One(s2, Advance(p));
    One(s3, Advance(p));
    hide Do;
    Chain(s2, [Advance(p)], [Advance(p)]);
    Chain(s1, locks, [Advance(p)] + [Advance(p)]);
    Chain(s, [StartClosing(p, user)], locks + ([Advance(p)] + [Advance(p)]));
    steps := [StartClosing(p, user)] + (locks + ([Advance(p)] + [Advance(p)]));
  }

  /** So can an owner be removed who is not the only one. */
  lemma RemovalCanFinish(s: State, p: nat, org: Org, user: User)
    requires p !in s.processes && org in s.owners && org !in s.holder && user in s.owners[org] && s.owners[org] != {user}
    ensures var t := Run(s, [StartRemoval(p, org, user), Lock(p, org)] + [Advance(p), Advance(p), Advance(p)]);
            t.owners == s.owners[org := s.owners[org] - {user}] && t.users == s.users
  {
    var s1 := Do(s, StartRemoval(p, org, user));
    var s2 := Do(s1, Lock(p, org));
    One(s, StartRemoval(p, org, user));
    One(s1, Lock(p, org));
    RemovalSucceedsExactly(s2, p);
    hide Run;
    Chain(s, [StartRemoval(p, org, user)], [Lock(p, org)]);
    assert [StartRemoval(p, org, user)] + [Lock(p, org)] == [StartRemoval(p, org, user), Lock(p, org)];
    Chain(s, [StartRemoval(p, org, user), Lock(p, org)], [Advance(p), Advance(p), Advance(p)]);
  }

  // -------------------------------------------------------- what goes wrong

  /** The last statement of an account deletion is safe exactly when no organization it never
      locked has this user as its only owner. */
  lemma CascadeIsSafeExactly(s: State, p: nat)
    requires Owned(s) && Guarded(s) && p in s.processes && s.processes[p].Closing? && s.processes[p].checked
    ensures Owned(Do(s, Advance(p)))
       <==> forall o :: o in s.owners && !(o in s.holder && s.holder[o] == p) ==> s.owners[o] != {s.processes[p].user}
  {
    var user, next := s.processes[p].user, Do(s, Advance(p));
    assert CheckHolds(s, s.processes[p]);
    forall o | o in s.owners ensures next.owners[o] != {} <==> s.owners[o] != {user} {
      assert s.owners[o] != {};
      assert s.owners[o] == next.owners[o] || s.owners[o] == next.owners[o] + {user};
    }
  }

  /** Made an owner between the check and the cascade, and then left as the only one. */
  function OverlappingRun(): seq<Step> {
    [SignUp(1), SignUp(2), Create(7, 1),
     StartClosing(0, 2), Advance(0),
     Add(7, 2), StartRemoval(1, 7, 1), Lock(1, 7), Advance(1), Advance(1), Advance(1),
     Advance(0)]
  }

  lemma RunFrom(s: State, steps: seq<Step>, i: nat)
    requires i <= |steps|
    ensures Run(s, steps[i..]) == if i == |steps| then s else Run(Do(s, steps[i]), steps[i + 1..])
  {
    hide Do;
    if i < |steps| {
      assert steps[i..][1..] == steps[i + 1..];
    }
  }

  const CHECKED := map[0 := Closing(2, {}, {}, true)]

  lemma OverlapBegins()
    ensures Run(NOBODY, OverlappingRun()) == Run(State(map[7 := {1}], {1, 2}, map[], CHECKED), OverlappingRun()[5..])
  {
    hide Run;
    var steps := OverlappingRun();
    var s3 := Do(Do(Do(NOBODY, steps[0]), steps[1]), steps[2]);
    assert s3 == State(map[7 := {1}], {1, 2}, map[], map[]);
    var s5 := Do(Do(s3, steps[3]), steps[4]);
    assert s5 == State(map[7 := {1}], {1, 2}, map[], CHECKED);
    RunFrom(NOBODY, steps, 0);
    RunFrom(Do(NOBODY, steps[0]), steps, 1);
    RunFrom(Do(Do(NOBODY, steps[0]), steps[1]), steps, 2);
    RunFrom(s3, steps, 3);
    RunFrom(Do(s3, steps[3]), steps, 4);
    assert steps[0..] == steps;
  }

  lemma OverlapAdds(s: State, steps: seq<Step>)
    requires s == State(map[7 := {1}], {1, 2}, map[], CHECKED) && steps == OverlappingRun()
    ensures Run(s, steps[5..])
         == Run(State(map[7 := {1, 2}], {1, 2}, map[7 := 1], CHECKED[1 := Removal(7, 1, Locked)]), steps[8..])
  {
    hide Run;
    var s6 := Do(s, steps[5]);
    assert {1} + {2} == {1, 2};
    assert s6 == State(map[7 := {1, 2}], {1, 2}, map[], CHECKED);
    var s7 := Do(s6, steps[6]);
    assert Do(s7, steps[7]) == State(map[7 := {1, 2}], {1, 2}, map[7 := 1], CHECKED[1 := Removal(7, 1, Locked)]);
    RunFrom(s, steps, 5);
    RunFrom(s6, steps, 6);
    RunFrom(s7, steps, 7);
  }

  lemma OverlapRemoves(s: State, steps: seq<Step>)
    requires s == State(map[7 := {1, 2}], {1, 2}, map[7 := 1], CHECKED[1 := Removal(7, 1, Locked)])
    requires steps == OverlappingRun()
    ensures Run(s, steps[8..]) == Run(State(map[7 := {2}], {1, 2}, map[], CHECKED), steps[11..])
  {
    hide Run;
    var s9 := Do(s, steps[8]);
    assert s9 == s.(processes := CHECKED[1 := Removal(7, 1, Deleted)]);
    var s10 := Do(s9, steps[9]);
    assert {1, 2} - {1} == {2};
    assert s10 == s.(processes := CHECKED[1 := Removal(7, 1, Counted)]);
    assert Do(s10, steps[10]) == State(map[7 := {2}], {1, 2}, map[], CHECKED);
    RunFrom(s, steps, 8);
    RunFrom(s9, steps, 9);
    RunFrom(s10, steps, 10);
  }

  lemma OverlapLeavesNoOwner()
    ensures var s := Run(NOBODY, OverlappingRun()); 7 in s.owners && s.owners[7] == {}
  {
    hide Run;
    var steps, s11 := OverlappingRun(), State(map[7 := {2}], {1, 2}, map[], CHECKED);
    OverlapBegins();
    OverlapAdds(State(map[7 := {1}], {1, 2}, map[], CHECKED), steps);
    OverlapRemoves(State(map[7 := {1, 2}], {1, 2}, map[7 := 1], CHECKED[1 := Removal(7, 1, Locked)]), steps);
    RunFrom(s11, steps, 11);
    RunFrom(Do(s11, steps[11]), steps, 12);
    assert Do(s11, steps[11]).owners[7] == {2} - {2};
  }
}
