/** Publishes held open between their transactions: what happens to the row they staged, and where
    their promotion lands. */
module Flights {
  import opened Options
  import opened Sorting
  import opened Registry
  import opened RegistryRuns
  import opened Redirects
  import opened VersionRules
  import opened Scenarios

  // ----------------------------------------------------- rows still staging

  /** A row that is still staging is where its publish put it. */
  predicate InPlace(db: Db, flight: Flight) {
    flight.Waiting? ==>
      && flight.row < db.nextRow
      && (forall i :: 0 <= i < |db.rows| && db.rows[i].id == flight.row && db.rows[i].status == Staging ==>
            db.rows[i].at == flight.at)
  }

  predicate FlightsInPlace(w: World) {
    forall f :: f in w.flights ==> InPlace(w.db, w.flights[f])
  }

  /** The staging rows after a transaction are staging rows from before, where they were, or the
      one a publish has just added. A transfer and a delete both refuse while there is one. */
  lemma StagingRowsStayPut(config: Config, db: Db, tx: Tx, i: nat)
    requires Apply(config, db, tx).Done? && (tx.Promoting? ==> tx.status != Staging)
    requires i < |Apply(config, db, tx).db.rows| && Apply(config, db, tx).db.rows[i].status == Staging
    ensures var row := Apply(config, db, tx).db.rows[i];
            row in db.rows || (tx.Publishing? && row.id == db.nextRow && row.at == Address(tx.owner.ns, tx.id))
    ensures db.nextRow <= Apply(config, db, tx).db.nextRow
  {
    hide Filter, ChargedBytes, HasStaging, HoldsUnsettled, ExceedsAll, DestinationIsFree;
    match tx
    case Deleting(at) => FilterKeepsIds(db.rows, NotAtAddress(at));
    case Reconciling(row, _) => FilterKeepsIds(db.rows, IsNotRow(row));
    case ClosingAccount(account, _) => FilterKeepsIds(db.rows, NotPublishedBy(account));
    case ClosingOrganization(ns) =>
      FilterKeepsIds(db.rows, NotInNamespace(ns));
      FilterKeepsIds(Filter(db.rows, NotInNamespace(ns)), NotPublishedBy(AccountRef(ns, db.users[ns].serial)));
    case Accepting(source, _) =>
      NoStagingFound(db.rows, source);
    case _ =>
  }

  lemma TxKeepsInPlace(config: Config, db: Db, tx: Tx, flight: Flight)
    requires Apply(config, db, tx).Done? && (tx.Promoting? ==> tx.status != Staging) && InPlace(db, flight)
    ensures InPlace(Apply(config, db, tx).db, flight)
  {
    hide Apply;
    var after := Apply(config, db, tx).db;
    if flight.Waiting? {
      StagingNextRow(config, db, tx);
      forall i | 0 <= i < |after.rows| && after.rows[i].id == flight.row && after.rows[i].status == Staging
        ensures after.rows[i].at == flight.at
      {
        StagingRowsStayPut(config, db, tx, i);
      }
    }
  }

  lemma StagingNextRow(config: Config, db: Db, tx: Tx)
    requires Apply(config, db, tx).Done?
    ensures Apply(config, db, tx).db.nextRow == db.nextRow + if tx.Publishing? then 1 else 0
  {
    hide Filter, ChargedBytes, HasStaging, HoldsUnsettled, ExceedsAll, DestinationIsFree, WithStatus, MovedRows, CollapsedRedirects;
  }

  lemma NewFlightIsInPlace(config: Config, db: Db, tx: Tx, owner: AccountRef, trusted: bool)
    requires WellFormed(db) && tx.Publishing? && Apply(config, db, tx).Done?
    ensures InPlace(Apply(config, db, tx).db, Waiting(db.nextRow, Address(tx.owner.ns, tx.id), owner, trusted))
  {
    hide Filter, HoldsUnsettled, ExceedsAll;
  }

  lemma LoadedIsInPlace(db: Db, flight: Flight)
    requires flight.Loaded?
    ensures InPlace(db, flight)
  {
  }

  lemma DoKeepsFlightsInPlace(config: Config, w: World, op: Op)
    requires Sound(w) && FlightsInPlace(w)
    ensures FlightsInPlace(Do(config, w, op))
  {
    hide Apply, InPlace, Remembered, WellFormed;
    DoRunsItsTx(config, w, op);
    var tx, next := TxOf(w, op), Do(config, w, op);
    forall f | f in next.flights ensures InPlace(next.db, next.flights[f]) {
      if f in w.flights && w.flights[f] == next.flights[f] {
        assert InPlace(w.db, w.flights[f]);
        if tx.Some? && Apply(config, w.db, tx.value).Done? {
          TxKeepsInPlace(config, w.db, tx.value, w.flights[f]);
        }
      } else if op.Stage? {
        NewFlightIsInPlace(config, w.db, tx.value, w.flights[f].owner, w.flights[f].trusted);
      } else {
        LoadedIsInPlace(next.db, next.flights[f]);
      }
    }
  }

  lemma {:induction false} RunKeepsFlightsInPlace(config: Config, w: World, ops: seq<Op>)
    requires Sound(w) && FlightsInPlace(w)
    ensures FlightsInPlace(Run(config, w, ops))
    decreases |ops|
  {
    hide Do, Sound, FlightsInPlace;
    if ops != [] {
      DoKeepsSound(config, w, ops[0]);
      DoKeepsFlightsInPlace(config, w, ops[0]);
      RunKeepsFlightsInPlace(config, Do(config, w, ops[0]), ops[1..]);
    }
  }

  /** After any run: a publish that promotes a row still staging leaves it, with the final status
      it decided on, at the address it was staged at, and that address is not a redirect. */
  lemma PromotedWhereStaged(config: Config, ops: seq<Op>, f: nat, i: nat)
    requires var w := Run(config, EMPTY, ops);
             && f in w.flights && w.flights[f].Waiting? && i < |w.db.rows|
             && w.db.rows[i].id == w.flights[f].row && w.db.rows[i].status == Staging
             && Apply(config, w.db, PromoteTx(w.flights[f])).Done?
    ensures var w := Run(config, EMPTY, ops); var next := Run(config, EMPTY, ops + [Promote(f)]);
            && |next.db.rows| == |w.db.rows|
            && next.db.rows[i] == w.db.rows[i].(status := if w.flights[f].trusted then Published else Pending)
            && next.db.rows[i].at == w.flights[f].at && next.db.rows[i].at !in next.db.redirects
  {
    hide Run;
    var w := Run(config, EMPTY, ops);
    EmptyIsSound();
    EmptyHasInv();
    RunKeepsInv(config, EMPTY, ops);
    RunKeepsFlightsInPlace(config, EMPTY, ops);
    assert InPlace(w.db, w.flights[f]);
    RunOneMore(config, EMPTY, ops, Promote(f));
    assert w.db.rows[i].at !in w.db.redirects;
    PromotionSets(config, w, f, i);
  }

  lemma PromotionSets(config: Config, w: World, f: nat, i: nat)
    requires f in w.flights && w.flights[f].Waiting? && i < |w.db.rows| && w.db.rows[i].id == w.flights[f].row
    requires Apply(config, w.db, PromoteTx(w.flights[f])).Done?
    ensures var next := Do(config, w, Promote(f));
            && next.db.redirects == w.db.redirects && |next.db.rows| == |w.db.rows|
            && next.db.rows[i] == w.db.rows[i].(status := if w.flights[f].trusted then Published else Pending)
  {
    hide Filter, HoldsUnsettled, Remembered;
  }

  /** What ends a row's staging: its publish promotes it, a reconcile settles it, or its publisher's
      account or the organization it is under goes. */
  predicate EndsStaging(tx: Tx, row: Row) {
    match tx
    case Promoting(id, _) => id == row.id
    case Reconciling(id, _) => id == row.id
    case ClosingAccount(account, _) => account == row.publisher
    case ClosingOrganization(ns) => ns == row.at.ns
    case _ => false
  }

  /** The ones that take the row out of the table. */
  predicate TakesStaging(tx: Tx, row: Row) {
    EndsStaging(tx, row) && !tx.Promoting? && !(tx.Reconciling? && tx.complete)
  }

  lemma RowIsKept(rows: seq<Row>, p: Row -> bool, row: Row)
    requires row in rows && p(row)
    ensures row in Filter(rows, p)
  {
    FilterKeepsIds(rows, p);
  }

  lemma EndedRowIsGone(config: Config, db: Db, tx: Tx, i: nat)
    requires WellFormed(db) && Apply(config, db, tx).Done? && Promotes(tx) && i < |db.rows| && db.rows[i].status == Staging
    requires EndsStaging(tx, db.rows[i])
    ensures db.rows[i] !in Apply(config, db, tx).db.rows
  {
    var row := db.rows[i];
    match tx
    case Reconciling(id, _) => FilterKeepsIds(db.rows, IsNotRow(id));
    case ClosingAccount(account, _) => FilterKeepsIds(db.rows, NotPublishedBy(account));
    case ClosingOrganization(ns) =>
      FilterKeepsIds(db.rows, NotInNamespace(ns));
      FilterKeepsIds(Filter(db.rows, NotInNamespace(ns)), NotPublishedBy(AccountRef(ns, db.users[ns].serial)));
      DissolvedRowsAreGone(db.rows, ns, AccountRef(ns, db.users[ns].serial), row);
    case _ =>
    hide Filter, HoldsUnsettled, WellFormed;
  }

  lemma DissolvedRowsAreGone(rows: seq<Row>, ns: string, org: AccountRef, row: Row)
    requires row.at.ns == ns
    ensures row !in Filter(Filter(rows, NotInNamespace(ns)), NotPublishedBy(org))
  {
    FilterMembers(rows, NotInNamespace(ns));
    FilterMembers(Filter(rows, NotInNamespace(ns)), NotPublishedBy(org));
  }

  /** A transfer and a delete take no staging row, and neither does anything else: it stays as it is
      exactly unless its staging is ended. */
  lemma StagingRowsAreLeftAlone(config: Config, db: Db, tx: Tx, i: nat)
    requires WellFormed(db) && Apply(config, db, tx).Done? && Promotes(tx) && i < |db.rows| && db.rows[i].status == Staging
    ensures db.rows[i] in Apply(config, db, tx).db.rows <==> !EndsStaging(tx, db.rows[i])
    ensures var row := db.rows[i];
            || row in Apply(config, db, tx).db.rows
            || (tx.Promoting? && tx.row == row.id) || (tx.Reconciling? && tx.row == row.id)
            || (tx.ClosingAccount? && tx.account == row.publisher) || (tx.ClosingOrganization? && tx.ns == row.at.ns)
  {
    hide Apply, WellFormed;
    if EndsStaging(tx, db.rows[i]) {
      EndedRowIsGone(config, db, tx, i);
    } else if tx.Deleting? || tx.Accepting? {
      TransferOrDeleteLeaves(config, db, tx, i);
    } else if IsDeletion(tx) {
      OtherDeletionLeaves(config, db, tx, i);
    } else {
      RelabelLeaves(config, db, tx, i);
    }
  }

  lemma TransferOrDeleteLeaves(config: Config, db: Db, tx: Tx, i: nat)
    requires Apply(config, db, tx).Done? && i < |db.rows| && db.rows[i].status == Staging && (tx.Deleting? || tx.Accepting?)
    ensures db.rows[i] in Apply(config, db, tx).db.rows
  {
    var at := if tx.Deleting? then tx.at else tx.source;
    NoStagingFound(db.rows, at);
    assert db.rows[i].at != at;
    hide Filter, ChargedBytes, DestinationIsFree, HasStaging;
    if tx.Deleting? {
      RowIsKept(db.rows, NotAtAddress(at), db.rows[i]);
    } else {
      assert Apply(config, db, tx).db.rows[i] == db.rows[i];
    }
  }

  lemma OtherDeletionLeaves(config: Config, db: Db, tx: Tx, i: nat)
    requires WellFormed(db) && Apply(config, db, tx).Done? && i < |db.rows| && IsDeletion(tx) && !tx.Deleting?
    ensures db.rows[i] in Apply(config, db, tx).db.rows || EndsStaging(tx, db.rows[i])
  {
    hide Filter, ChargedBytes;
    var row := db.rows[i];
    if !EndsStaging(tx, row) {
      match tx
      case Reconciling(id, _) => RowIsKept(db.rows, IsNotRow(id), row);
      case ClosingAccount(account, _) => RowIsKept(db.rows, NotPublishedBy(account), row);
      case ClosingOrganization(ns) =>
        RowIsKept(db.rows, NotInNamespace(ns), row);
        RowIsKept(Filter(db.rows, NotInNamespace(ns)), NotPublishedBy(AccountRef(ns, db.users[ns].serial)), row);
    }
  }

  lemma RelabelLeaves(config: Config, db: Db, tx: Tx, i: nat)
    requires WellFormed(db) && Apply(config, db, tx).Done? && i < |db.rows| && db.rows[i].status == Staging
    requires !IsDeletion(tx) && !tx.Accepting?
    ensures db.rows[i] in Apply(config, db, tx).db.rows || EndsStaging(tx, db.rows[i])
  {
    hide Filter, HoldsUnsettled, ExceedsAll, HasPublished, HasStaging, DestinationIsFree, ChargedBytes;
    if tx.Reviewing? || tx.Relabeling? {
      FoundRow(db.rows, tx.row);
    }
    if !EndsStaging(tx, db.rows[i]) {
      assert Apply(config, db, tx).db.rows[i] == db.rows[i];
    }
  }

  /** Nothing in a run ends the staging of this row. */
  predicate Undisturbed(config: Config, w: World, ops: seq<Op>, row: Row)
    decreases |ops|
  {
    ops == [] ||
    (&& (TxOf(w, ops[0]).Some? && Apply(config, w.db, TxOf(w, ops[0]).value).Done? ==> !EndsStaging(TxOf(w, ops[0]).value, row))
     && Undisturbed(config, Do(config, w, ops[0]), ops[1..], row))
  }

  lemma DoLeavesAlone(config: Config, w: World, op: Op, row: Row)
    requires Sound(w) && row in w.db.rows && row.status == Staging
    ensures row in Do(config, w, op).db.rows
         || (TxOf(w, op).Some? && Apply(config, w.db, TxOf(w, op).value).Done? && EndsStaging(TxOf(w, op).value, row))
  {
    hide Apply, WellFormed, EndsStaging, Remembered;
    DoRunsItsTx(config, w, op);
    var tx := TxOf(w, op);
    if tx.Some? && Apply(config, w.db, tx.value).Done? {
      var i :| 0 <= i < |w.db.rows| && w.db.rows[i] == row;
      StagingRowsAreLeftAlone(config, w.db, tx.value, i);
    }
  }

  /** However many publishes, transfers, deletes and reviews run beside it, a staged row stays as it
      was staged until its own publish, a reconcile of it, or the end of an account it hangs on. */
  lemma {:induction false} StagedRowStays(config: Config, w: World, ops: seq<Op>, row: Row)
    requires Sound(w) && row in w.db.rows && row.status == Staging && Undisturbed(config, w, ops, row)
    ensures row in Run(config, w, ops).db.rows
    decreases |ops|
  {
    hide Do, Sound, EndsStaging, Apply;
    if ops != [] {
      DoKeepsSound(config, w, ops[0]);
      DoLeavesAlone(config, w, ops[0], row);
      StagedRowStays(config, Do(config, w, ops[0]), ops[1..], row);
    }
  }

  lemma EndedRowKeepsItsId(config: Config, db: Db, tx: Tx, i: nat)
    requires Apply(config, db, tx).Done? && i < |db.rows| && EndsStaging(tx, db.rows[i]) && !TakesStaging(tx, db.rows[i])
    ensures exists k :: 0 <= k < |Apply(config, db, tx).db.rows| && Apply(config, db, tx).db.rows[k].id == db.rows[i].id
  {
    hide Filter, HoldsUnsettled;
    assert Apply(config, db, tx).db.rows[i].id == db.rows[i].id;
  }

  /** In every reachable registry: a staging row leaves the table only by a reconcile that finds a
      file missing, or with its publisher's account or the organization it is under. */
  lemma StagingRowGoesOnlyBy(config: Config, ops: seq<Op>, op: Op, row: Row)
    requires row in Run(config, EMPTY, ops).db.rows && row.status == Staging
    requires forall later :: later in Do(config, Run(config, EMPTY, ops), op).db.rows ==> later.id != row.id
    ensures op.Commit? && TakesStaging(op.tx, row)
    ensures || op == Commit(Reconciling(row.id, false))
            || (op.tx.ClosingAccount? && op.tx.account == row.publisher) || (op.tx.ClosingOrganization? && op.tx.ns == row.at.ns)
  {
    hide Run, Apply, Remembered;
    var w := Run(config, EMPTY, ops);
    EmptyIsSound();
    RunKeepsSound(config, EMPTY, ops);
    DoLeavesAlone(config, w, op, row);
    DoRunsItsTx(config, w, op);
    var tx, i :| tx == TxOf(w, op) && 0 <= i < |w.db.rows| && w.db.rows[i] == row;
    if !TakesStaging(tx.value, row) {
      EndedRowKeepsItsId(config, w.db, tx.value, i);
    }
  }

  // ------------------------------------------------- where a promotion lands

  /** While its owner's account is there, a flight's row is where its address leads now. */
  predicate Follows(db: Db, flight: Flight) {
    flight.Waiting? ==>
      && flight.row < db.nextRow && flight.owner.ns == flight.at.ns && flight.owner.serial < db.nextSerial
      && (Exists(db, flight.owner) ==>
            forall i :: 0 <= i < |db.rows| && db.rows[i].id == flight.row ==> db.rows[i].at == Lookup(db, flight.at))
  }

  lemma AcceptingLeads(config: Config, db: Db, source: Address, to: string, at: Address)
    requires SourcesAreEmpty(db) && Apply(config, db, Accepting(source, to)).Done?
    ensures var after := Apply(config, db, Accepting(source, to)).db;
            Lookup(after, at) == if Lookup(db, at) == source then Address(to, source.id) else Lookup(db, at)
  {
    hide Filter, ChargedBytes, HasStaging, MovedRows;
    FoundIsThere(db.rows, source);
  }

  lemma AcceptingKeepsFollowing(config: Config, db: Db, source: Address, to: string, flight: Flight)
    requires WellFormed(db) && SourcesAreEmpty(db) && Apply(config, db, Accepting(source, to)).Done? && Follows(db, flight)
    ensures Follows(Apply(config, db, Accepting(source, to)).db, flight)
  {
    hide Filter, ChargedBytes, HasStaging, Lookup, CollapsedRedirects, DestinationIsFree;
    if flight.Waiting? {
      AcceptingLeads(config, db, source, to, flight.at);
    }
  }

  lemma DissolvingKeepsFollowing(config: Config, db: Db, ns: string, flight: Flight)
    requires WellFormed(db) && Apply(config, db, ClosingOrganization(ns)).Done? && Follows(db, flight)
    ensures Follows(Apply(config, db, ClosingOrganization(ns)).db, flight)
  {
    hide Filter;
    var after, rest := Apply(config, db, ClosingOrganization(ns)).db, Filter(db.rows, NotInNamespace(ns));
    FilterKeepsIds(db.rows, NotInNamespace(ns));
    FilterKeepsIds(rest, NotPublishedBy(AccountRef(ns, db.users[ns].serial)));
    forall i | 0 <= i < |after.rows| ensures after.rows[i] in db.rows && after.rows[i].at.ns != ns {
      assert after.rows[i] in rest;
      var k :| 0 <= k < |rest| && rest[k] == after.rows[i];
      assert NotInNamespace(ns)(rest[k]);
    }
  }

  lemma RedirectsUnchanged(config: Config, db: Db, tx: Tx)
    requires Apply(config, db, tx).Done? && !tx.Accepting? && !tx.ClosingOrganization?
    ensures Apply(config, db, tx).db.redirects == db.redirects
  {
    hide Filter, ChargedBytes, HasStaging, HoldsUnsettled, ExceedsAll, DestinationIsFree, WithStatus;
  }

  lemma OthersKeepFollowing(config: Config, db: Db, tx: Tx, flight: Flight)
    requires WellFormed(db) && Apply(config, db, tx).Done? && Promotes(tx) && Follows(db, flight)
    requires !tx.Accepting? && !tx.ClosingOrganization?
    ensures Follows(Apply(config, db, tx).db, flight)
  {
    hide Apply;
    var after := Apply(config, db, tx).db;
    StagingNextRow(config, db, tx);
    TxKeepsPeople(config, db, tx);
    RedirectsUnchanged(config, db, tx);
    if flight.Waiting? && Exists(after, flight.owner) {
      forall i | 0 <= i < |after.rows| && after.rows[i].id == flight.row ensures after.rows[i].at == Lookup(after, flight.at) {
        if !JustPushed(db, tx, after.rows[i]) {
          var k := Ancestor(config, db, tx, i);
        }
      }
    }
  }

  lemma TxKeepsFollowing(config: Config, db: Db, tx: Tx, flight: Flight)
    requires WellFormed(db) && SourcesAreEmpty(db) && Apply(config, db, tx).Done? && Promotes(tx) && Follows(db, flight)
    ensures Follows(Apply(config, db, tx).db, flight)
  {
    hide Apply, WellFormed, SourcesAreEmpty, Follows;
    match tx
    case Accepting(source, to) => AcceptingKeepsFollowing(config, db, source, to, flight);
    case ClosingOrganization(ns) => DissolvingKeepsFollowing(config, db, ns, flight);
    case _ => OthersKeepFollowing(config, db, tx, flight);
  }

  /** A publish that has read its account, but not staged, has nothing to follow. */
  predicate LoadedOwnersAreOld(w: World) {
    forall f :: f in w.flights ==> w.flights[f].owner.serial < w.db.nextSerial
  }

  predicate AllFollow(w: World) {
    LoadedOwnersAreOld(w) && forall f :: f in w.flights ==> Follows(w.db, w.flights[f])
  }

  lemma StagedFollows(config: Config, db: Db, tx: Tx, owner: AccountRef, trusted: bool)
    requires WellFormed(db) && tx.Publishing? && owner == tx.owner && Apply(config, db, tx).Done?
    ensures Follows(Apply(config, db, tx).db, Waiting(db.nextRow, Address(tx.owner.ns, tx.id), owner, trusted))
  {
    hide Filter, HoldsUnsettled, ExceedsAll, HasPublished;
  }

  lemma DoKeepsFollowing(config: Config, w: World, op: Op)
    requires Sound(w) && Redirects.Inv(w) && AllFollow(w)
    ensures AllFollow(Do(config, w, op))
  {
    hide Apply, Follows, Remembered, SourcesAreEmpty, Collapsed, StandsFor, OffersAreOpen;
    DoRunsItsTx(config, w, op);
    DoKeepsSound(config, w, op);
    var tx, next := TxOf(w, op), Do(config, w, op);
    forall f | f in next.flights ensures Follows(next.db, next.flights[f]) && next.flights[f].owner.serial < next.db.nextSerial {
      if f in w.flights && w.flights[f] == next.flights[f] {
        if tx.Some? && Apply(config, w.db, tx.value).Done? {
          TxKeepsFollowing(config, w.db, tx.value, w.flights[f]);
        }
      } else if op.Stage? {
        StagedFollows(config, w.db, tx.value, w.flights[f].owner, w.flights[f].trusted);
      } else {
        LoadedFollows(next.db, next.flights[f]);
      }
    }
  }

  lemma LoadedFollows(db: Db, flight: Flight)
    requires flight.Loaded?
    ensures Follows(db, flight)
  {
  }

  lemma {:induction false} RunKeepsFollowing(config: Config, w: World, ops: seq<Op>)
    requires Sound(w) && Redirects.Inv(w) && AllFollow(w)
    ensures AllFollow(Run(config, w, ops))
    decreases |ops|
  {
    hide Do, Sound, Redirects.Inv, AllFollow;
    if ops != [] {
      DoKeepsSound(config, w, ops[0]);
      Redirects.DoKeepsInv(config, w, ops[0]);
      DoKeepsFollowing(config, w, ops[0]);
      RunKeepsFollowing(config, Do(config, w, ops[0]), ops[1..]);
    }
  }

  /** After any run, while its owner's account is there, a publish promotes its row where its
      address leads, and so at the address it was staged at if and only if that is no redirect. */
  lemma PromotionLandsExactly(config: Config, ops: seq<Op>, f: nat, i: nat)
    requires var w := Run(config, EMPTY, ops);
             && f in w.flights && w.flights[f].Waiting? && i < |w.db.rows| && w.db.rows[i].id == w.flights[f].row
             && Exists(w.db, w.flights[f].owner) && Apply(config, w.db, PromoteTx(w.flights[f])).Done?
    ensures var w := Run(config, EMPTY, ops); var next := Run(config, EMPTY, ops + [Promote(f)]);
            && |next.db.rows| == |w.db.rows| && next.db.redirects == w.db.redirects
            && next.db.rows[i] == w.db.rows[i].(status := if w.flights[f].trusted then Published else Pending)
            && next.db.rows[i].at == Lookup(w.db, w.flights[f].at)
            && (next.db.rows[i].at == w.flights[f].at <==> w.flights[f].at !in w.db.redirects)
  {
    hide Run;
    var w := Run(config, EMPTY, ops);
    EmptyIsSound();
    EmptyHasInv();
    Redirects.RunKeepsInv(config, EMPTY, ops);
    RunKeepsFollowing(config, EMPTY, ops);
    assert Follows(w.db, w.flights[f]);
    RunOneMore(config, EMPTY, ops, Promote(f));
    PromotionSets(config, w, f, i);
  }

  // -------------------------------------------------------- what goes wrong

  /** A publish that stalls for more than an hour after staging: a boot reconcile settles its row,
      the extension is transferred, and the publish wakes up. */
  function StalledRun(): seq<Op> {
    [Commit(Opening("alice", false)), Commit(Opening("bob", false)),
     Load(0, "alice", AccountRef("alice", 0)), Stage(0, "widget", 1, 3, 4), Commit(Reconciling(0, true)),
     Commit(Offering(Address("alice", "widget"), "bob", AccountRef("alice", 0))),
     Commit(Accepting(Address("alice", "widget"), "bob"))]
  }

  const SOURCE := Address("alice", "widget")
  const DEST := Address("bob", "widget")

  function Widget(status: Status): Row {
    Row(0, AccountRef("alice", 0), SOURCE, 1, status, 3, 4)
  }

  predicate Stalled(w: World, status: Status) {
    && w.db.rows == [Widget(status)] && w.db.redirects == map[]
    && w.db.users == map["alice" := ALICE.(blobBytes := 7), "bob" := BOB]
    && w.flights == map[0 := Waiting(0, SOURCE, AccountRef("alice", 0), false)]
  }

  lemma WidgetFound(status: Status)
    ensures Filter([Widget(status)], AtAddress(SOURCE)) == [Widget(status)]
    ensures Filter([Widget(status)], AtAddress(DEST)) == []
    ensures Filter([Widget(status)], IsRow(0)) == [Widget(status)]
    ensures ChargedBytes([Widget(status)]) == 7
  {
    assert [Widget(status)][1..] == [];
  }

  lemma StalledStage(config: Config, w: World)
    requires QuotaFor(config, ALICE) >= 7 && w == Loading(AccountRef("alice", 0))
    ensures Stalled(Do(config, w, StalledRun()[3]), Staging) && Do(config, w, StalledRun()[3]).db.offers == {}
  {
  }

  lemma StalledReconcile(config: Config, w: World)
    requires Stalled(w, Staging) && w.db.offers == {}
    ensures Stalled(Do(config, w, StalledRun()[4]), Pending) && Do(config, w, StalledRun()[4]).db.offers == {}
  {
    WidgetFound(Staging);
    hide Filter;
  }

  lemma StalledOffer(config: Config, w: World)
    requires QuotaFor(config, ALICE) >= 7 && Stalled(w, Pending) && w.db.offers == {}
    ensures Stalled(Do(config, w, StalledRun()[5]), Pending)
    ensures Do(config, w, StalledRun()[5]).db.offers == {Offer(SOURCE, "bob", AccountRef("alice", 0))}
  {
    WidgetFound(Pending);
    hide Filter, ChargedBytes;
  }

  lemma StalledAccept(config: Config, w: World)
    requires QuotaFor(config, ALICE) >= 7 && Stalled(w, Pending)
    requires w.db.offers == {Offer(SOURCE, "bob", AccountRef("alice", 0))}
    ensures var next := Do(config, w, StalledRun()[6]);
            && next.flights == w.flights && next.db.rows == [Widget(Pending).(at := DEST)]
            && next.db.redirects == map[SOURCE := DEST]
  {
    WidgetFound(Pending);
    hide Filter, ChargedBytes;
    assert Offer(SOURCE, "bob", AccountRef("alice", 0)) in w.db.offers;
    assert MovedRows([Widget(Pending)], SOURCE, DEST) == [Widget(Pending).(at := DEST)];
  }

  lemma {:induction false} StalledRunEnds(config: Config, ops: seq<Op>, w: World)
    requires QuotaFor(config, ALICE) >= 7 && ops == StalledRun() && w == Loading(AccountRef("alice", 0))
    ensures var end := Run(config, w, ops[3..]);
            && end.db.rows == [Widget(Pending).(at := DEST)] && end.db.redirects == map[SOURCE := DEST]
            && end.flights == map[0 := Waiting(0, SOURCE, AccountRef("alice", 0), false)]
  {
    assert |ops| == 7;
    hide Do, StalledRun;
    var w4 := Do(config, w, ops[3]);
    StalledStage(config, w);
    var w5 := Do(config, w4, ops[4]);
    StalledReconcile(config, w4);
    var w6 := Do(config, w5, ops[5]);
    StalledOffer(config, w5);
    var w7 := Do(config, w6, ops[6]);
    StalledAccept(config, w6);
    RunFrom(config, w7, ops, 7);
    RunFrom(config, w6, ops, 6);
    RunFrom(config, w5, ops, 5);
    RunFrom(config, w4, ops, 4);
    RunFrom(config, w, ops, 3);
  }

  lemma StalledPromotes(config: Config, w: World)
    requires w.db.rows == [Widget(Pending).(at := DEST)] && 0 in w.flights
    requires w.flights[0] == Waiting(0, SOURCE, AccountRef("alice", 0), false)
    ensures Apply(config, w.db, PromoteTx(w.flights[0])).Done?
  {
    assert w.db.rows[1..] == [];
    assert Filter(w.db.rows, IsRow(0)) == w.db.rows;
  }

  /** The row check matters: promotion goes by row id, so the stalled publish would then write its
      status at an address it was never staged at, behind a redirect. */
  lemma StalledPublishLandsElsewhere(config: Config)
    requires QuotaFor(config, ALICE) >= 7
    ensures var w := Run(config, EMPTY, StalledRun());
            && 0 in w.flights && w.flights[0].Waiting? && |w.db.rows| == 1 && w.db.rows[0].id == w.flights[0].row
            && Apply(config, w.db, PromoteTx(w.flights[0])).Done?
            && w.db.rows[0].at != w.flights[0].at && w.flights[0].at in w.db.redirects
  {
    hide Do, Run;
    StartOfRun(config, StalledRun(), AccountRef("alice", 0));
    StalledRunEnds(config, StalledRun(), Loading(AccountRef("alice", 0)));
    StalledPromotes(config, Run(config, EMPTY, StalledRun()));
  }
}
