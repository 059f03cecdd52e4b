/** Quotas as a hard limit over whole runs, and what a transfer does to the total charge. */
module Quotas {
  import opened Options
  import opened Sorting
  import opened Registry
  import opened RegistryRuns
  import opened Ledger
  import opened Outcomes
  import opened Scenarios

  predicate Fits(config: Config, account: Account) {
    0 <= account.blobBytes && HasRoom(config, account, 0)
  }

  ghost predicate WithinQuota(config: Config, db: Db) {
    forall ns :: ns in db.users ==> Fits(config, db.users[ns])
  }

  /** Whatever the balance was before, a publish or an accepted transfer that commits leaves the
      account it charged within its quota. */
  lemma CommittedChargeFits(config: Config, db: Db, tx: Tx)
    requires WellFormed(db) && (tx.Publishing? || tx.Accepting?) && Apply(config, db, tx).Done?
    ensures var ns, after := if tx.Publishing? then tx.owner.ns else tx.to, Apply(config, db, tx).db;
            ns in after.users && HasRoom(config, after.users[ns], 0)
  {
    hide Filter, ChargedBytes, MovedRows, CollapsedRedirects, HasStaging, HoldsUnsettled, ExceedsAll, DestinationIsFree;
  }

  /** A new limit leaves the registry within quota exactly when it still covers what is used. */
  lemma LimitFitsExactly(config: Config, db: Db, ns: string, max: Option<int>)
    requires WithinQuota(config, db) && Apply(config, db, Limiting(ns, max)).Done?
    ensures WithinQuota(config, Apply(config, db, Limiting(ns, max)).db)
       <==> HasRoom(config, db.users[ns].(maxBlobBytes := max), 0)
  {
    var after := Apply(config, db, Limiting(ns, max)).db;
    assert Fits(config, after.users[ns]) <==> HasRoom(config, after.users[ns], 0);
  }

  predicate KeepsRoom(config: Config, db: Db, tx: Tx) {
    tx.Limiting? && tx.ns in db.users ==>
      HasRoom(config, db.users[tx.ns].(maxBlobBytes := tx.maxBlobBytes), 0)
  }

  lemma TxStaysWithinQuota(config: Config, db: Db, tx: Tx)
    requires WithinQuota(config, db) && Apply(config, db, tx).Done? && KeepsRoom(config, db, tx)
    requires Fits(config, Account(0, false, 0, None, false))
    ensures WithinQuota(config, Apply(config, db, tx).db)
  {
    hide Filter, ChargedBytes, ChargeIn, WithStatus, MovedRows, CollapsedRedirects, HasStaging, HoldsUnsettled, ExceedsAll, DestinationIsFree;
    var after := Apply(config, db, tx).db;
    forall ns | ns in after.users ensures Fits(config, after.users[ns]) {
      if ns in db.users {
        assert Fits(config, db.users[ns]);
      }
    }
  }

  /** No limit is set below what its account already holds. */
  predicate LimitsKeepRoom(config: Config, w: World, ops: seq<Op>)
    decreases |ops|
  {
    ops == [] ||
    (&& (ops[0].Commit? ==> KeepsRoom(config, w.db, ops[0].tx))
     && LimitsKeepRoom(config, Do(config, w, ops[0]), ops[1..]))
  }

  lemma DoStaysWithinQuota(config: Config, w: World, op: Op)
    requires WithinQuota(config, w.db) && Fits(config, Account(0, false, 0, None, false))
    requires op.Commit? ==> KeepsRoom(config, w.db, op.tx)
    ensures WithinQuota(config, Do(config, w, op).db)
  {
    hide Apply, Remembered, WithinQuota;
    DoRunsItsTx(config, w, op);
    var tx := TxOf(w, op);
    if tx.Some? && Apply(config, w.db, tx.value).Done? {
      TxStaysWithinQuota(config, w.db, tx.value);
    }
  }

  /** However publishes to sibling extensions interleave with everything else, no account ever
      holds more than its quota. */
  lemma {:induction false} RunStaysWithinQuota(config: Config, w: World, ops: seq<Op>)
    requires WithinQuota(config, w.db) && LimitsKeepRoom(config, w, ops)
    requires Fits(config, Account(0, false, 0, None, false))
    ensures WithinQuota(config, Run(config, w, ops).db)
    decreases |ops|
  {
    hide Do, WithinQuota, KeepsRoom;
    if ops != [] {
      DoStaysWithinQuota(config, w, ops[0]);
      RunStaysWithinQuota(config, Do(config, w, ops[0]), ops[1..]);
    }
  }

  /** Within quota so far, the next step leaves everyone within quota if and only if it does not set
      a limit below what its account holds. */
  lemma NextStepFitsExactly(config: Config, w: World, op: Op)
    requires WithinQuota(config, w.db) && Fits(config, Account(0, false, 0, None, false))
    ensures WithinQuota(config, Do(config, w, op).db)
       <==> (op.Commit? && Apply(config, w.db, op.tx).Done? ==> KeepsRoom(config, w.db, op.tx))
  {
    hide Apply, Remembered, WithinQuota, KeepsRoom;
    DoRunsItsTx(config, w, op);
    var tx := TxOf(w, op);
    if tx.Some? && Apply(config, w.db, tx.value).Done? {
      if tx.value.Limiting? {
        LimitingLimits(config, w.db, tx.value);
        LimitFitsExactly(config, w.db, tx.value.ns, tx.value.maxBlobBytes);
      } else {
        OnlyLimitsTakeRoom(config, w.db, tx.value);
        TxStaysWithinQuota(config, w.db, tx.value);
      }
    }
    if op.Commit? && (op.tx.Publishing? || op.tx.Promoting?) {
      OnlyLimitsTakeRoom(config, w.db, op.tx);
    }
  }

  lemma OnlyLimitsTakeRoom(config: Config, db: Db, tx: Tx)
    requires !tx.Limiting?
    ensures KeepsRoom(config, db, tx)
  {
  }

  lemma LimitingLimits(config: Config, db: Db, tx: Tx)
    requires tx.Limiting? && Apply(config, db, tx).Done?
    ensures tx.ns in db.users
    ensures KeepsRoom(config, db, tx) <==> HasRoom(config, db.users[tx.ns].(maxBlobBytes := tx.maxBlobBytes), 0)
  {
  }

  // ------------------------------------------------------- a limit of its own

  /** While the account is there, it has this limit and holds no more. */
  predicate HoldsAtMost(db: Db, who: AccountRef, limit: int) {
    && who.serial < db.nextSerial
    && (Exists(db, who) ==> db.users[who.ns].maxBlobBytes == Some(limit) && db.users[who.ns].blobBytes <= limit)
  }

  lemma TxKeepsLimit(config: Config, db: Db, tx: Tx, ns: string, limit: int)
    requires WellFormed(db) && Apply(config, db, tx).Done? && 0 <= limit && (tx.Limiting? ==> tx.ns != ns)
    requires ns in db.users && db.users[ns].maxBlobBytes == Some(limit) && db.users[ns].blobBytes <= limit
    requires ns in Apply(config, db, tx).db.users
    ensures var account := Apply(config, db, tx).db.users[ns]; account.maxBlobBytes == Some(limit) && account.blobBytes <= limit
  {
    hide Filter, ChargedBytes, ChargeIn, WithStatus, MovedRows, CollapsedRedirects, HasStaging, HoldsUnsettled, ExceedsAll, DestinationIsFree;
  }

  lemma TxHoldsAtMost(config: Config, db: Db, tx: Tx, who: AccountRef, limit: int)
    requires WellFormed(db) && HoldsAtMost(db, who, limit) && Apply(config, db, tx).Done? && 0 <= limit
    requires tx.Limiting? ==> tx.ns != who.ns
    ensures HoldsAtMost(Apply(config, db, tx).db, who, limit)
  {
    hide Apply, WellFormed;
    TxKeepsPeople(config, db, tx);
    if Exists(Apply(config, db, tx).db, who) {
      TxKeepsLimit(config, db, tx, who.ns, limit);
    }
  }

  lemma DoHoldsAtMost(config: Config, w: World, op: Op, who: AccountRef, limit: int)
    requires Sound(w) && HoldsAtMost(w.db, who, limit) && 0 <= limit
    requires op.Commit? && op.tx.Limiting? ==> op.tx.ns != who.ns
    ensures HoldsAtMost(Do(config, w, op).db, who, limit)
  {
    hide Apply, Remembered, WellFormed, HoldsAtMost;
    DoRunsItsTx(config, w, op);
    var tx := TxOf(w, op);
    if tx.Some? && Apply(config, w.db, tx.value).Done? {
      TxHoldsAtMost(config, w.db, tx.value, who, limit);
    }
  }

  lemma {:induction false} RunHoldsAtMost(config: Config, w: World, ops: seq<Op>, who: AccountRef, limit: int)
    requires Sound(w) && HoldsAtMost(w.db, who, limit) && 0 <= limit
    requires forall i :: 0 <= i < |ops| && ops[i].Commit? && ops[i].tx.Limiting? ==> ops[i].tx.ns != who.ns
    ensures HoldsAtMost(Run(config, w, ops).db, who, limit)
    decreases |ops|
  {
    hide Do, Sound, HoldsAtMost;
    if ops != [] {
      DoKeepsSound(config, w, ops[0]);
      DoHoldsAtMost(config, w, ops[0], who, limit);
      RunHoldsAtMost(config, Do(config, w, ops[0]), ops[1..], who, limit);
    }
  }

  /** An admin gives an account a limit of its own that covers what it holds. From then on, until its
      limit is set again, it never holds more, and no publish that fits is too large, whatever the
      configuration says. */
  lemma OwnLimitDecides(config: Config, before: seq<Op>, who: AccountRef, limit: int, after: seq<Op>)
    requires var db := Run(config, EMPTY, before).db;
             Exists(db, who) && db.users[who.ns].blobBytes <= limit && 0 < limit
    requires forall i :: 0 <= i < |after| && after[i].Commit? && after[i].tx.Limiting? ==> after[i].tx.ns != who.ns
    ensures var db := Run(config, Do(config, Run(config, EMPTY, before), Commit(Limiting(who.ns, Some(limit)))), after).db;
            Exists(db, who) ==>
              && db.users[who.ns].blobBytes <= limit
              && forall publisher, id, version, blobSize, sourceSize ::
                   Apply(config, db, Publishing(who, publisher, id, version, blobSize, sourceSize)) == Refused(TooLarge) ==>
                     db.users[who.ns].blobBytes + blobSize + sourceSize > limit
  {
    hide Run, Do, Apply;
    var w := Run(config, EMPTY, before);
    var next := Do(config, w, Commit(Limiting(who.ns, Some(limit))));
    EmptyIsSound();
    RunKeepsSound(config, EMPTY, before);
    DoKeepsSound(config, w, Commit(Limiting(who.ns, Some(limit))));
    LimitIsSet(config, w, who, limit);
    RunHoldsAtMost(config, next, after, who, limit);
    var db := Run(config, next, after).db;
    forall publisher, id, version, blobSize, sourceSize
      | Exists(db, who) && Apply(config, db, Publishing(who, publisher, id, version, blobSize, sourceSize)) == Refused(TooLarge)
      ensures db.users[who.ns].blobBytes + blobSize + sourceSize > limit
    {
      StagesExactly(config, db, who, publisher, id, version, blobSize, sourceSize);
    }
  }

  lemma LimitIsSet(config: Config, w: World, who: AccountRef, limit: int)
    requires Sound(w) && Exists(w.db, who) && w.db.users[who.ns].blobBytes <= limit && 0 < limit
    ensures HoldsAtMost(Do(config, w, Commit(Limiting(who.ns, Some(limit)))).db, who, limit)
  {
    Limits(config, w.db, who.ns, Some(limit));
    hide Remembered;
  }

  // ----------------------------------------------------------- conservation

  ghost function TotalBytes(users: map<string, Account>): int
    decreases |users|
  {
    if users == map[] then 0
    else
      var ns :| ns in users;
      users[ns].blobBytes + TotalBytes(users - {ns})
  }

  /** The total does not depend on the order it is taken in. */
  lemma {:induction false} TotalWithout(users: map<string, Account>, ns: string)
    requires ns in users
    ensures TotalBytes(users) == users[ns].blobBytes + TotalBytes(users - {ns})
    decreases |users|
  {
    var first :| first in users && TotalBytes(users) == users[first].blobBytes + TotalBytes(users - {first});
    if first != ns {
      TotalWithout(users - {first}, ns);
      TotalWithout(users - {ns}, first);
      assert users - {first} - {ns} == users - {ns} - {first};
    }
  }

  lemma TotalAfterUpdate(users: map<string, Account>, ns: string, account: Account)
    requires ns in users
    ensures TotalBytes(users[ns := account]) == TotalBytes(users) - users[ns].blobBytes + account.blobBytes
  {
    TotalWithout(users, ns);
    TotalWithout(users[ns := account], ns);
    assert users[ns := account] - {ns} == users - {ns};
  }

  /** A transfer that commits keeps the total over all accounts: the clamp on the sender takes off
      exactly what the recipient gains. */
  lemma TransferConserves(config: Config, db: Db, source: Address, to: string)
    requires WellFormed(db) && Balanced(db) && Apply(config, db, Accepting(source, to)).Done?
    ensures TotalBytes(Apply(config, db, Accepting(source, to)).db.users) == TotalBytes(db.users)
  {
    hide Filter, ChargedBytes, MovedRows, CollapsedRedirects, HasStaging, DestinationIsFree, ChargeIn, Balanced, TotalBytes;
    var charged := ChargedBytes(Filter(db.rows, AtAddress(source)));
    var refunded := Refunded(db.users, source.ns, charged);
    if charged > 0 {
      RefundsAreCovered(db, Accepting(source, to), source.ns);
      TotalAfterUpdate(db.users, source.ns, refunded[source.ns]);
    }
    TotalAfterUpdate(refunded, to, refunded[to].(blobBytes := refunded[to].blobBytes + charged));
  }

  // -------------------------------------------------------- what goes wrong

  /** A newcomer who signs up under a deleted account's name starts at zero over the bytes a
      co-owner left there. */
  lemma SignupCanUnbalance(config: Config)
    requires QuotaFor(config, ALICE) >= 7
    ensures var db := Run(config, EMPTY, OrphaningRun()).db;
            var after := Apply(config, db, Opening("alice", false));
            Balanced(db) && WellFormed(db) && after.Done? && !Balanced(after.db)
  {
    assert Balanced(EMPTY.db);
    OrphaningRunEnds(config);
    assert [] + [Orphan(Pending)] == [Orphan(Pending)];
    ChargeOfAppended([], Orphan(Pending), "alice");
    assert ChargeIn([], "alice") == 0;
    hide Run, ChargeIn, OrphaningRun, CleanRun, Balanced;
    EmptyIsSound();
    RunKeepsBalance(config, EMPTY, OrphaningRun());
    OpeningBalancesExactly(config, Run(config, EMPTY, OrphaningRun()).db, "alice", false);
  }
}
