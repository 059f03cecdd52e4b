/** The review gate over whole runs: nothing has ever been public without an admin having approved
    it, or having already approved something for the account it was staged into. */
module Moderation {
  import opened Options
  import opened Sorting
  import opened Registry
  import opened RegistryRuns
  import opened Scenarios

  /** What lets a row be public. */
  predicate Vouched(past: History, id: nat) {
    id in past.approvedRows || (id in past.stagedInto && past.stagedInto[id] in past.approvals)
  }

  /** An account is trusted exactly when an admin approved a version for it; serials keep a new
      account from inheriting that. */
  ghost predicate TrustIsEarned(db: Db, past: History) {
    && (forall ns :: ns in db.users ==> (db.users[ns].hasPublished <==> AccountRef(ns, db.users[ns].serial) in past.approvals))
    && (forall account :: account in past.approvals ==> account.serial < db.nextSerial)
  }

  /** A row's account at staging is on record, and a row still staging has never been public. */
  predicate Recorded(past: History, row: Row) {
    row.id in past.stagedInto && (row.status == Staging ==> row.id !in past.publicRows)
  }

  predicate RowsRecorded(db: Db, past: History) {
    forall i :: 0 <= i < |db.rows| ==> Recorded(past, db.rows[i])
  }

  predicate PublicRowsNoted(db: Db, past: History) {
    && (forall i :: 0 <= i < |db.rows| && IsPublic(db.rows[i].status) ==> db.rows[i].id in past.publicRows)
    && (forall id :: id in past.publicRows ==> id < db.nextRow)
  }

  /** An approval takes effect: what an admin approved has been public. */
  predicate ApprovalsTook(past: History) {
    past.approvedRows <= past.publicRows
  }

  ghost predicate Gate(db: Db, past: History) {
    && ApprovalsTook(past)
    && TrustIsEarned(db, past)
    && RowsRecorded(db, past)
    && PublicRowsNoted(db, past)
  }

  predicate FlightTrusted(db: Db, past: History, flight: Flight) {
    && (flight.trusted ==> flight.owner in past.approvals)
    && (flight.Waiting? ==>
          flight.row < db.nextRow && flight.row in past.stagedInto && past.stagedInto[flight.row] == flight.owner)
  }

  ghost predicate Inv(w: World) {
    && Gate(w.db, w.past)
    && (forall f :: f in w.flights ==> FlightTrusted(w.db, w.past, w.flights[f]))
  }

  /** What the history notes of a transaction that committed: the versions that are public after it,
      the version an admin approved, the account a version is staged into, and every change of
      address. */
  lemma HistoryNotes(past: History, db: Db, tx: Tx, after: Db, id: nat)
    ensures var later := Remembered(past, db, tx, after);
            && (id in later.publicRows <==>
                  id in past.publicRows || exists row :: row in after.rows && row.id == id && row.status in {Published, Deprecated, Yanked})
            && (id in later.approvedRows <==>
                  id in past.approvedRows || (tx == Reviewing(id, true) && exists row :: row in db.rows && row.id == id))
            && later.stagedInto == (if tx.Publishing? then past.stagedInto[db.nextRow := tx.owner] else past.stagedInto)
            && later.moves == past.moves + (if tx.Accepting? then [Moved(tx.source, Address(tx.to, tx.source.id))]
                                            else if tx.ClosingOrganization? then [Dissolved(tx.ns)] else [])
  {
    FoundRow(db.rows, id);
    hide Filter, DistinctIds;
    assert past.moves + [] == past.moves;
    assert id in PublicIds(after.rows) <==> exists row :: row in after.rows && row.id == id && row.status in {Published, Deprecated, Yanked};
  }

  /** An approval is noted for the account that then has the namespace of the version, and for no other. */
  lemma ApprovalNotes(past: History, db: Db, tx: Tx, after: Db, row: Row, account: AccountRef)
    requires DistinctIds(db.rows) && row in db.rows
    ensures var later := Remembered(past, db, tx, after);
            && (!tx.Reviewing? || !tx.approve ==> later.approvals == past.approvals)
            && (tx == Reviewing(row.id, true) ==>
                  (account in later.approvals <==>
                     || account in past.approvals
                     || (account.ns == row.at.ns && account.ns in db.users && account.serial == db.users[account.ns].serial)))
  {
    FoundRow(db.rows, row.id);
    var i :| 0 <= i < |db.rows| && db.rows[i] == row;
    hide Filter, DistinctIds, PublicIds;
  }

  // ------------------------------------------------------- one transaction

  /** The three ways a row becomes public. */
  predicate Publishes(db: Db, tx: Tx, row: Row) {
    match tx
    case Promoting(id, status) => id == row.id && IsPublic(status)
    case Reviewing(id, approve) => id == row.id && approve
    case Reconciling(id, complete) =>
      id == row.id && complete && row.status == Staging && row.at.ns in db.users && db.users[row.at.ns].hasPublished
    case _ => false
  }

  predicate CameFrom(db: Db, tx: Tx, before: Row, after: Row) {
    && after.id == before.id
    && (after.status == Staging ==> after == before)
    && (IsPublic(after.status) && !IsPublic(before.status) ==> Publishes(db, tx, before))
  }

  predicate JustStaged(db: Db, tx: Tx, row: Row) {
    tx.Publishing? && row.id == db.nextRow && row.at.ns == tx.owner.ns && row.status == Staging
  }

  /** Where each row of the new table came from. */
  lemma RowOrigin(config: Config, db: Db, tx: Tx, i: nat)
    requires WellFormed(db) && Apply(config, db, tx).Done? && i < |Apply(config, db, tx).db.rows|
    requires tx.Promoting? ==> tx.status != Staging
    ensures var row := Apply(config, db, tx).db.rows[i];
            JustStaged(db, tx, row) || exists j :: 0 <= j < |db.rows| && CameFrom(db, tx, db.rows[j], row)
  {
    hide Filter, ChargedBytes, HasStaging, HoldsUnsettled, ExceedsAll, DestinationIsFree;
    if RelabelsRows(tx) {
      StatusOrigin(config, db, tx, i);
    } else {
      var row := Apply(config, db, tx).db.rows[i];
      match tx {
        case Deleting(at) => FilterKeepsIds(db.rows, NotAtAddress(at));
        case Reconciling(id, _) => FilterKeepsIds(db.rows, IsNotRow(id));
        case ClosingAccount(account, _) => FilterKeepsIds(db.rows, NotPublishedBy(account));
        case ClosingOrganization(ns) =>
          FilterKeepsIds(db.rows, NotInNamespace(ns));
          FilterKeepsIds(Filter(db.rows, NotInNamespace(ns)), NotPublishedBy(AccountRef(ns, db.users[ns].serial)));
        case Accepting(source, _) =>
          NoStagingFound(db.rows, source);
          assert CameFrom(db, tx, db.rows[i], row);
        case _ =>
      }
      if row in db.rows {
        var j :| 0 <= j < |db.rows| && db.rows[j] == row;
        assert CameFrom(db, tx, db.rows[j], row);
      }
    }
  }

  predicate RelabelsRows(tx: Tx) {
    tx.Promoting? || tx.Reviewing? || tx.Relabeling? || (tx.Reconciling? && tx.complete)
  }

  lemma StatusOrigin(config: Config, db: Db, tx: Tx, i: nat)
    requires WellFormed(db) && Apply(config, db, tx).Done? && i < |Apply(config, db, tx).db.rows|
    requires RelabelsRows(tx) && (tx.Promoting? ==> tx.status != Staging)
    ensures i < |db.rows| && CameFrom(db, tx, db.rows[i], Apply(config, db, tx).db.rows[i])
  {
    hide Filter, HoldsUnsettled;
    FoundRow(db.rows, tx.row);
  }

  /** Trust comes from an admin approving a version and from nothing else: not from receiving an
      extension, publishing to somebody else's, or a crash. */
  lemma OnlyApprovalCreatesTrust(config: Config, db: Db, tx: Tx, ns: string)
    requires Apply(config, db, tx).Done?
    requires var after := Apply(config, db, tx).db; ns in after.users && after.users[ns].hasPublished
    ensures var after := Apply(config, db, tx).db;
            || (ns in db.users && db.users[ns].hasPublished && db.users[ns].serial == after.users[ns].serial)
            || (tx.Reviewing? && tx.approve && Filter(db.rows, IsRow(tx.row)) != []
                && Filter(db.rows, IsRow(tx.row))[0].at.ns == ns && AccountRef(ns, after.users[ns].serial) in AccountOf(db, ns))
  {
    hide Filter, ChargedBytes, ChargeIn, HasStaging, HoldsUnsettled, ExceedsAll, DestinationIsFree, WithStatus, MovedRows, CollapsedRedirects;
  }

  /** A promotion to published comes from a publish that read its account as trusted. */
  predicate Licensed(past: History, tx: Tx) {
    tx.Promoting? ==>
      && tx.status in {Published, Pending}
      && (tx.status == Published ==> tx.row in past.stagedInto && past.stagedInto[tx.row] in past.approvals)
  }

  /** An approval takes effect on the account, and nothing takes trust away. */
  lemma ApprovalIsKept(config: Config, db: Db, tx: Tx, ns: string)
    requires Apply(config, db, tx).Done? && ns in Apply(config, db, tx).db.users
    ensures var after := Apply(config, db, tx).db;
            && (tx.Opening? && tx.ns == ns ==> ns !in db.users && after.users[ns].serial == db.nextSerial && !after.users[ns].hasPublished)
            && (ns in db.users ==> after.users[ns].serial == db.users[ns].serial && (db.users[ns].hasPublished ==> after.users[ns].hasPublished))
            && (tx.Reviewing? && tx.approve && Filter(db.rows, IsRow(tx.row)) != [] && Filter(db.rows, IsRow(tx.row))[0].at.ns == ns ==>
                  after.users[ns].hasPublished)
  {
    hide Filter, ChargedBytes, ChargeIn, HasStaging, HoldsUnsettled, ExceedsAll, DestinationIsFree, WithStatus, MovedRows, CollapsedRedirects;
  }

  lemma SerialsGrow(config: Config, db: Db, tx: Tx)
    requires Apply(config, db, tx).Done?
    ensures Apply(config, db, tx).db.nextSerial == db.nextSerial + if tx.Opening? then 1 else 0
  {
    hide Filter, ChargedBytes, ChargeIn, HasStaging, HoldsUnsettled, ExceedsAll, DestinationIsFree, WithStatus, MovedRows, CollapsedRedirects;
  }

  lemma TrustStaysEarned(config: Config, db: Db, past: History, tx: Tx)
    requires WellFormed(db) && TrustIsEarned(db, past) && Apply(config, db, tx).Done?
    ensures TrustIsEarned(Apply(config, db, tx).db, Remembered(past, db, tx, Apply(config, db, tx).db))
  {
    hide Apply, Filter, PublicIds, DistinctIds;
    var after := Apply(config, db, tx).db;
    var later := Remembered(past, db, tx, after);
    SerialsGrow(config, db, tx);
    forall ns | ns in after.users
      ensures after.users[ns].hasPublished <==> AccountRef(ns, after.users[ns].serial) in later.approvals
    {
      ApprovalIsKept(config, db, tx, ns);
      AccountsAfter(config, db, tx, ns);
      if after.users[ns].hasPublished {
        OnlyApprovalCreatesTrust(config, db, tx, ns);
      }
    }
  }

  /** The memory only grows, and a row id is noted once. */
  lemma MemoryGrows(past: History, db: Db, tx: Tx, after: Db)
    ensures var later := Remembered(past, db, tx, after);
            && past.approvals <= later.approvals && past.approvedRows <= later.approvedRows
            && later.publicRows == past.publicRows + PublicIds(after.rows)
            && (forall id :: id in past.stagedInto && id < db.nextRow ==>
                  id in later.stagedInto && later.stagedInto[id] == past.stagedInto[id])
            && (tx.Publishing? ==> db.nextRow in later.stagedInto && later.stagedInto[db.nextRow] == tx.owner)
  {
  }

  /** Which accounts are there after a transaction. */
  lemma AccountsAfter(config: Config, db: Db, tx: Tx, ns: string)
    requires Apply(config, db, tx).Done? && ns in Apply(config, db, tx).db.users
    ensures var after := Apply(config, db, tx).db;
            || (ns in db.users && db.users[ns].serial == after.users[ns].serial)
            || (tx.Opening? && tx.ns == ns && ns !in db.users)
    ensures tx.Publishing? ==> Exists(db, tx.owner)
    ensures tx.Opening? ==> Apply(config, db, tx).db.rows == db.rows
  {
    hide Filter, ChargedBytes, ChargeIn, HasStaging, HoldsUnsettled, ExceedsAll, DestinationIsFree, WithStatus, MovedRows, CollapsedRedirects;
  }

  lemma RowStaysRecorded(config: Config, db: Db, past: History, tx: Tx, i: nat)
    requires WellFormed(db) && ByPerson(db, tx) && Gate(db, past) && Apply(config, db, tx).Done?
    requires Licensed(past, tx) && i < |Apply(config, db, tx).db.rows|
    ensures var after := Apply(config, db, tx).db; Recorded(Remembered(past, db, tx, after), after.rows[i])
  {
    hide Apply, Remembered, AccountOf, Filter, TrustIsEarned;
    var after := Apply(config, db, tx).db;
    var row := after.rows[i];
    RowOrigin(config, db, tx, i);
    MemoryGrows(past, db, tx, after);
    TxKeepsWellFormed(config, db, tx);
    assert row.status == Staging ==> row.id !in PublicIds(after.rows);
    if !JustStaged(db, tx, row) {
      var j :| 0 <= j < |db.rows| && CameFrom(db, tx, db.rows[j], row);
      assert Recorded(past, db.rows[j]);
    }
  }

  /** A reconcile promotes a staging row by the trust of the account now in its namespace, and that
      is another account than the one it was staged into, never approved. */
  predicate SlipsThrough(db: Db, past: History, tx: Tx, id: nat) {
    && tx == Reconciling(id, true)
    && exists i :: 0 <= i < |db.rows| && db.rows[i].id == id && db.rows[i].status == Staging
         && db.rows[i].at.ns in db.users && db.users[db.rows[i].at.ns].hasPublished
         && id in past.stagedInto && past.stagedInto[id] !in past.approvals
  }

  lemma PublishedRowsAreVouched(config: Config, db: Db, past: History, tx: Tx, i: nat)
    requires WellFormed(db) && Gate(db, past) && Apply(config, db, tx).Done?
    requires Licensed(past, tx) && i < |Apply(config, db, tx).db.rows|
    requires var row := Apply(config, db, tx).db.rows[i]; IsPublic(row.status) && row.id !in past.publicRows
    ensures var id := Apply(config, db, tx).db.rows[i].id;
            || tx == Reviewing(id, true)
            || (id in past.stagedInto && past.stagedInto[id] in past.approvals)
            || SlipsThrough(db, past, tx, id)
  {
    hide Apply, Filter, PublicIds, TrustIsEarned;
    var after := Apply(config, db, tx).db;
    RowOrigin(config, db, tx, i);
    var j :| 0 <= j < |db.rows| && CameFrom(db, tx, db.rows[j], after.rows[i]);
    assert !IsPublic(db.rows[j].status);
    assert Recorded(past, db.rows[j]);
  }

  lemma ApprovalIsNoted(config: Config, db: Db, past: History, tx: Tx)
    requires tx.Reviewing? && tx.approve && Apply(config, db, tx).Done?
    ensures tx.row in Remembered(past, db, tx, Apply(config, db, tx).db).approvedRows
  {
    hide Filter, PublicIds, AccountOf;
  }

  lemma ReconcileTrusts(config: Config, db: Db, id: nat, i: nat)
    requires WellFormed(db) && i < |db.rows| && db.rows[i].id == id && db.rows[i].status == Staging
    requires db.rows[i].at.ns in db.users && db.users[db.rows[i].at.ns].hasPublished
    ensures Apply(config, db, Reconciling(id, true)).Done?
    ensures var after := Apply(config, db, Reconciling(id, true)).db;
            i < |after.rows| && after.rows[i].id == id && after.rows[i].status == Published
  {
    FoundRow(db.rows, id);
    hide Filter;
  }

  /** One transaction: of the versions it first makes public it leaves unvouched exactly the one
      that slips through. */
  lemma UnvouchedExactlyIfItSlips(config: Config, db: Db, past: History, tx: Tx, id: nat)
    requires WellFormed(db) && Gate(db, past) && Licensed(past, tx) && id !in past.publicRows
    ensures (Apply(config, db, tx).Done? && var later := Remembered(past, db, tx, Apply(config, db, tx).db);
             id in later.publicRows && !Vouched(later, id))
       <==> SlipsThrough(db, past, tx, id)
  {
    hide Apply, Filter, TrustIsEarned;
    if SlipsThrough(db, past, tx, id) {
      var i :| 0 <= i < |db.rows| && db.rows[i].id == id && db.rows[i].status == Staging
               && db.rows[i].at.ns in db.users && db.users[db.rows[i].at.ns].hasPublished;
      ReconcileTrusts(config, db, id, i);
      assert Recorded(past, db.rows[i]);
      assert id in PublicIds(Apply(config, db, tx).db.rows);
    } else if Apply(config, db, tx).Done? {
      var after := Apply(config, db, tx).db;
      var later := Remembered(past, db, tx, after);
      MemoryGrows(past, db, tx, after);
      if id in later.publicRows {
        var i :| 0 <= i < |after.rows| && IsPublic(after.rows[i].status) && after.rows[i].id == id;
        PublishedRowsAreVouched(config, db, past, tx, i);
        if tx == Reviewing(id, true) {
          ApprovalIsNoted(config, db, past, tx);
        } else {
          RecordIsOld(config, db, past, tx, i);
        }
      }
    }
  }

  /** The record a version is vouched by is not the one a publish is just making. */
  lemma RecordIsOld(config: Config, db: Db, past: History, tx: Tx, i: nat)
    requires WellFormed(db) && Apply(config, db, tx).Done? && Licensed(past, tx)
    requires i < |Apply(config, db, tx).db.rows| && IsPublic(Apply(config, db, tx).db.rows[i].status)
    ensures Apply(config, db, tx).db.rows[i].id < db.nextRow
  {
    hide Apply, Filter;
    RowOrigin(config, db, tx, i);
  }

  lemma NextRowGrows(config: Config, db: Db, tx: Tx)
    requires Apply(config, db, tx).Done?
    ensures db.nextRow <= Apply(config, db, tx).db.nextRow
    ensures tx.Publishing? ==> db.nextRow < Apply(config, db, tx).db.nextRow
  {
    hide Filter, ChargedBytes, HasStaging, HoldsUnsettled, ExceedsAll, DestinationIsFree, WithStatus, MovedRows, CollapsedRedirects;
  }

  lemma ApprovalsTake(config: Config, db: Db, past: History, tx: Tx)
    requires ApprovalsTook(past) && Apply(config, db, tx).Done?
    ensures ApprovalsTook(Remembered(past, db, tx, Apply(config, db, tx).db))
  {
    hide Filter, ChargedBytes, ChargeIn, HasStaging, HoldsUnsettled, ExceedsAll, DestinationIsFree, MovedRows, CollapsedRedirects;
    if tx.Reviewing? && tx.approve {
      FoundRow(db.rows, tx.row);
      var after := Apply(config, db, tx).db;
      var k :| 0 <= k < |db.rows| && db.rows[k].id == tx.row;
      assert after.rows[k].id == tx.row && IsPublic(after.rows[k].status);
    }
  }

  lemma TxKeepsGate(config: Config, db: Db, past: History, tx: Tx)
    requires WellFormed(db) && ByPerson(db, tx) && Gate(db, past) && Apply(config, db, tx).Done? && Licensed(past, tx)
    ensures Gate(Apply(config, db, tx).db, Remembered(past, db, tx, Apply(config, db, tx).db))
  {
    hide Apply, Remembered, WellFormed, Licensed, ByPerson, TrustIsEarned;
    var after := Apply(config, db, tx).db;
    var later := Remembered(past, db, tx, after);
    TrustStaysEarned(config, db, past, tx);
    ApprovalsTake(config, db, past, tx);
    MemoryGrows(past, db, tx, after);
    NextRowGrows(config, db, tx);
    forall i | 0 <= i < |after.rows| ensures Recorded(later, after.rows[i]) {
      RowStaysRecorded(config, db, past, tx, i);
    }
    forall id | id in PublicIds(after.rows) ensures id < after.nextRow {
      TxKeepsWellFormed(config, db, tx);
      RowsAreOld(after, id);
    }
  }

  lemma RowsAreOld(db: Db, id: nat)
    requires WellFormed(db) && id in PublicIds(db.rows)
    ensures id < db.nextRow
  {
  }

  // ------------------------------------------------------------- whole runs

  lemma OpIsLicensed(w: World, op: Op)
    requires Inv(w)
    ensures TxOf(w, op).Some? ==> Licensed(w.past, TxOf(w, op).value)
  {
    hide Gate;
    if op.Promote? && op.flight in w.flights {
      assert FlightTrusted(w.db, w.past, w.flights[op.flight]);
    }
  }

  lemma FlightStaysTrusted(config: Config, db: Db, past: History, tx: Tx, flight: Flight)
    requires Apply(config, db, tx).Done? && FlightTrusted(db, past, flight)
    ensures FlightTrusted(Apply(config, db, tx).db, Remembered(past, db, tx, Apply(config, db, tx).db), flight)
  {
    hide Apply, Remembered;
    MemoryGrows(past, db, tx, Apply(config, db, tx).db);
    NextRowGrows(config, db, tx);
  }

  lemma FlightsStayTrusted(config: Config, w: World, op: Op, f: nat)
    requires Inv(w) && f in Do(config, w, op).flights
    ensures var next := Do(config, w, op); FlightTrusted(next.db, next.past, next.flights[f])
  {
    hide Apply, Remembered, RowsRecorded, PublicRowsNoted, ApprovalsTook;
    DoRunsItsTx(config, w, op);
    var tx, next := TxOf(w, op), Do(config, w, op);
    if f in w.flights {
      assert FlightTrusted(w.db, w.past, w.flights[f]);
      if tx.Some? && Apply(config, w.db, tx.value).Done? {
        FlightStaysTrusted(config, w.db, w.past, tx.value, w.flights[f]);
        MemoryGrows(w.past, w.db, tx.value, next.db);
        NextRowGrows(config, w.db, tx.value);
      }
    }
  }

  lemma DoKeepsInv(config: Config, w: World, op: Op)
    requires Sound(w) && Inv(w)
    ensures Inv(Do(config, w, op))
  {
    hide Apply, Remembered, WellFormed, Licensed, ByPerson, Gate, FlightTrusted;
    var tx, next := TxOf(w, op), Do(config, w, op);
    forall f | f in next.flights ensures FlightTrusted(next.db, next.past, next.flights[f]) {
      FlightsStayTrusted(config, w, op, f);
    }
    DoRunsItsTx(config, w, op);
    OpIsLicensed(w, op);
    OpIsByPerson(w, op);
    if tx.Some? && Apply(config, w.db, tx.value).Done? {
      TxKeepsGate(config, w.db, w.past, tx.value);
    }
  }

  lemma {:induction false} RunKeepsInv(config: Config, w: World, ops: seq<Op>)
    requires Sound(w) && Inv(w)
    ensures Sound(Run(config, w, ops)) && Inv(Run(config, w, ops))
    decreases |ops|
  {
    hide Do, Sound, Inv;
    if ops != [] {
      DoKeepsSound(config, w, ops[0]);
      DoKeepsInv(config, w, ops[0]);
      RunKeepsInv(config, Do(config, w, ops[0]), ops[1..]);
    }
  }

  lemma EmptyHasInv()
    ensures Inv(EMPTY)
  {
  }

  lemma SlipIsCommitted(w: World, op: Op, id: nat)
    ensures TxOf(w, op).Some? && SlipsThrough(w.db, w.past, TxOf(w, op).value, id)
       <==> op.Commit? && SlipsThrough(w.db, w.past, op.tx, id)
  {
  }

  /** After any run at all, whoever signed up for what: the next step makes a version public that
      nothing vouches for if and only if it is a reconcile of a complete staging row whose namespace
      has a trusted account, while the account the row was staged into was never approved. */
  lemma UnvouchedExactlyBySlipping(config: Config, ops: seq<Op>, op: Op, id: nat)
    ensures var w := Run(config, EMPTY, ops); var past := Do(config, w, op).past;
            (id !in w.past.publicRows && id in past.publicRows && !Vouched(past, id))
            <==> op.Commit? && SlipsThrough(w.db, w.past, op.tx, id)
  {
    hide Run, Apply, Remembered, WellFormed, Licensed, Gate;
    EmptyIsSound();
    EmptyHasInv();
    RunKeepsInv(config, EMPTY, ops);
    var w := Run(config, EMPTY, ops);
    var tx := TxOf(w, op);
    DoRunsItsTx(config, w, op);
    OpIsLicensed(w, op);
    SlipIsCommitted(w, op, id);
    if id in w.past.publicRows {
      StagingIsNotPublic(w, id);
    } else if tx.Some? {
      UnvouchedExactlyIfItSlips(config, w.db, w.past, tx.value, id);
    }
  }

  lemma StagingIsNotPublic(w: World, id: nat)
    requires Inv(w) && id in w.past.publicRows
    ensures forall tx :: !SlipsThrough(w.db, w.past, tx, id)
  {
    assert forall i :: 0 <= i < |w.db.rows| ==> Recorded(w.past, w.db.rows[i]);
  }

  /** The order matters too: whatever first makes a version public is its own approval, or finds its
      account approved already, or lets it slip through. */
  lemma VouchedBeforePublic(config: Config, ops: seq<Op>, op: Op, id: nat)
    requires var w := Run(config, EMPTY, ops); id !in w.past.publicRows && id in Do(config, w, op).past.publicRows
    ensures var w := Run(config, EMPTY, ops);
            || op == Commit(Reviewing(id, true))
            || (id in w.past.stagedInto && w.past.stagedInto[id] in w.past.approvals)
            || (op.Commit? && SlipsThrough(w.db, w.past, op.tx, id))
  {
    hide Run, Apply, Remembered, WellFormed, Licensed, Gate, SlipsThrough;
    EmptyIsSound();
    EmptyHasInv();
    RunKeepsInv(config, EMPTY, ops);
    var w := Run(config, EMPTY, ops);
    var tx := TxOf(w, op);
    DoRunsItsTx(config, w, op);
    OpIsLicensed(w, op);
    SlipIsCommitted(w, op, id);
    var after := Apply(config, w.db, tx.value).db;
    MemoryGrows(w.past, w.db, tx.value, after);
    var i :| 0 <= i < |after.rows| && IsPublic(after.rows[i].status) && after.rows[i].id == id;
    PublishedRowsAreVouched(config, w.db, w.past, tx.value, i);
  }

  /** A run in which no reconcile lets a row slip through. */
  predicate NoneSlip(config: Config, w: World, ops: seq<Op>)
    decreases |ops|
  {
    ops == [] ||
    (&& (ops[0].Commit? && ops[0].tx.Reconciling? ==> !SlipsThrough(w.db, w.past, ops[0].tx, ops[0].tx.row))
     && NoneSlip(config, Do(config, w, ops[0]), ops[1..]))
  }

  predicate AllVouched(past: History) {
    forall id :: id in past.publicRows ==> Vouched(past, id)
  }

  lemma DoKeepsVouched(config: Config, w: World, op: Op)
    requires Sound(w) && Inv(w) && AllVouched(w.past)
    requires op.Commit? && op.tx.Reconciling? ==> !SlipsThrough(w.db, w.past, op.tx, op.tx.row)
    ensures AllVouched(Do(config, w, op).past)
  {
    hide Apply, Remembered, WellFormed, Licensed, Gate, Vouched;
    var tx, next := TxOf(w, op), Do(config, w, op);
    DoRunsItsTx(config, w, op);
    OpIsLicensed(w, op);
    forall id | id in next.past.publicRows ensures Vouched(next.past, id) {
      SlipIsCommitted(w, op, id);
      if id !in w.past.publicRows {
        UnvouchedExactlyIfItSlips(config, w.db, w.past, tx.value, id);
      } else if tx.Some? && Apply(config, w.db, tx.value).Done? {
        VouchersStay(config, w, tx.value, id);
      }
    }
  }

  lemma VouchersStay(config: Config, w: World, tx: Tx, id: nat)
    requires Inv(w) && Apply(config, w.db, tx).Done? && id in w.past.publicRows && Vouched(w.past, id)
    ensures Vouched(Remembered(w.past, w.db, tx, Apply(config, w.db, tx).db), id)
  {
    hide Apply, Remembered, TrustIsEarned, RowsRecorded;
    MemoryGrows(w.past, w.db, tx, Apply(config, w.db, tx).db);
  }

  lemma {:induction false} RunKeepsVouched(config: Config, w: World, ops: seq<Op>)
    requires Sound(w) && Inv(w) && AllVouched(w.past) && NoneSlip(config, w, ops)
    ensures AllVouched(Run(config, w, ops).past)
    decreases |ops|
  {
    hide Do, Sound, Inv, AllVouched, SlipsThrough;
    if ops != [] {
      DoKeepsSound(config, w, ops[0]);
      DoKeepsInv(config, w, ops[0]);
      DoKeepsVouched(config, w, ops[0]);
      RunKeepsVouched(config, Do(config, w, ops[0]), ops[1..]);
    }
  }

  /** Over every run in which nothing slips through, a version that is public, or ever was, was
      approved itself or was staged into an account an admin had approved a version for. */
  lemma NothingPublicUnvouched(config: Config, ops: seq<Op>, id: nat)
    requires NoneSlip(config, EMPTY, ops)
    ensures var w := Run(config, EMPTY, ops);
            && (id in w.past.publicRows ==> Vouched(w.past, id))
            && (forall i :: 0 <= i < |w.db.rows| && w.db.rows[i].id == id && w.db.rows[i].status in {Published, Deprecated, Yanked} ==>
                  id in w.past.publicRows && Vouched(w.past, id))
  {
    hide Run, NoneSlip;
    EmptyIsSound();
    EmptyHasInv();
    RunKeepsInv(config, EMPTY, ops);
    RunKeepsVouched(config, EMPTY, ops);
  }

  /** After any run an account is trusted exactly when an admin approved a version for it, and what
      was approved has been public. */
  lemma TrustIsApproval(config: Config, ops: seq<Op>, ns: string)
    requires ns in Run(config, EMPTY, ops).db.users
    ensures var w := Run(config, EMPTY, ops);
            && (w.db.users[ns].hasPublished <==> AccountRef(ns, w.db.users[ns].serial) in w.past.approvals)
            && w.past.approvedRows <= w.past.publicRows
  {
    hide Run;
    EmptyIsSound();
    EmptyHasInv();
    RunKeepsInv(config, EMPTY, ops);
  }

  // ----------------------------------------------------- a cleaner condition

  /** No staging row of a deleted account waits under the namespace somebody signs up with. */
  predicate NoStagingLeftIn(db: Db, ns: string) {
    forall i :: 0 <= i < |db.rows| && db.rows[i].status == Staging ==> db.rows[i].at.ns != ns
  }

  predicate GateClean(db: Db, tx: Tx) {
    tx.Opening? && tx.ns !in db.users ==> NoStagingLeftIn(db, tx.ns)
  }

  predicate OpIsClean(w: World, op: Op) {
    op.Commit? ==> GateClean(w.db, op.tx)
  }

  predicate CleanSignups(config: Config, w: World, ops: seq<Op>)
    decreases |ops|
  {
    ops == [] || (OpIsClean(w, ops[0]) && CleanSignups(config, Do(config, w, ops[0]), ops[1..]))
  }

  /** A staging row sits under the account it was staged into, or under none if that one is gone. */
  predicate StagedUnder(db: Db, past: History, row: Row) {
    && row.id in past.stagedInto
    && (row.status == Staging ==>
          && past.stagedInto[row.id].ns == row.at.ns
          && (row.at.ns in db.users ==> Exists(db, past.stagedInto[row.id])))
  }

  predicate RowsStagedUnder(db: Db, past: History) {
    forall i :: 0 <= i < |db.rows| ==> StagedUnder(db, past, db.rows[i])
  }

  lemma RowsStayStagedUnder(config: Config, db: Db, past: History, tx: Tx, i: nat)
    requires WellFormed(db) && RowsStagedUnder(db, past) && Apply(config, db, tx).Done?
    requires Licensed(past, tx) && GateClean(db, tx) && i < |Apply(config, db, tx).db.rows|
    ensures var after := Apply(config, db, tx).db; StagedUnder(after, Remembered(past, db, tx, after), after.rows[i])
  {
    hide Apply, Remembered, AccountOf, Filter, PublicIds;
    var after := Apply(config, db, tx).db;
    var row := after.rows[i];
    RowOrigin(config, db, tx, i);
    MemoryGrows(past, db, tx, after);
    if row.at.ns in after.users {
      AccountsAfter(config, db, tx, row.at.ns);
    }
    if !JustStaged(db, tx, row) {
      var j :| 0 <= j < |db.rows| && CameFrom(db, tx, db.rows[j], row);
      assert StagedUnder(db, past, db.rows[j]);
    }
  }

  lemma DoKeepsStagedUnder(config: Config, w: World, op: Op)
    requires Sound(w) && Inv(w) && RowsStagedUnder(w.db, w.past) && OpIsClean(w, op)
    ensures RowsStagedUnder(Do(config, w, op).db, Do(config, w, op).past)
  {
    hide Apply, Remembered, WellFormed, Licensed, Gate, GateClean, StagedUnder;
    var tx, next := TxOf(w, op), Do(config, w, op);
    DoRunsItsTx(config, w, op);
    OpIsLicensed(w, op);
    assert tx.Some? ==> GateClean(w.db, tx.value) by {
      OnlyCommitsOpen(w, op);
    }
    if tx.Some? && Apply(config, w.db, tx.value).Done? {
      forall i | 0 <= i < |next.db.rows| ensures StagedUnder(next.db, next.past, next.db.rows[i]) {
        RowsStayStagedUnder(config, w.db, w.past, tx.value, i);
      }
    }
  }

  lemma OnlyCommitsOpen(w: World, op: Op)
    requires OpIsClean(w, op)
    ensures TxOf(w, op).Some? ==> GateClean(w.db, TxOf(w, op).value)
  {
  }

  lemma UnderItsAccountNothingSlips(w: World, tx: Tx, id: nat)
    requires Inv(w) && RowsStagedUnder(w.db, w.past)
    ensures !SlipsThrough(w.db, w.past, tx, id)
  {
    hide RowsRecorded, PublicRowsNoted, ApprovalsTook;
    assert forall i :: 0 <= i < |w.db.rows| ==> StagedUnder(w.db, w.past, w.db.rows[i]);
  }

  /** Signups that find no staging row of a deleted account's co-owners let nothing slip through. */
  lemma {:induction false} CleanSignupsLetNoneSlip(config: Config, w: World, ops: seq<Op>)
    requires Sound(w) && Inv(w) && RowsStagedUnder(w.db, w.past) && CleanSignups(config, w, ops)
    ensures NoneSlip(config, w, ops)
    decreases |ops|
  {
    hide Do, Sound, Inv, RowsStagedUnder, OpIsClean, SlipsThrough;
    if ops != [] {
      DoKeepsSound(config, w, ops[0]);
      DoKeepsInv(config, w, ops[0]);
      DoKeepsStagedUnder(config, w, ops[0]);
      if ops[0].Commit? && ops[0].tx.Reconciling? {
        UnderItsAccountNothingSlips(w, ops[0].tx, ops[0].tx.row);
      }
      CleanSignupsLetNoneSlip(config, Do(config, w, ops[0]), ops[1..]);
    }
  }

  // -------------------------------------------------------- what goes wrong

  /** Bob's publish into Alice's namespace dies while staging and her account is deleted. Somebody
      takes the name, gets a version of their own approved, and a boot reconcile finds the row. */
  function LeftoverRun(): seq<Op> {
    [Commit(Opening("alice", false)), Commit(Opening("bob", false)),
     Load(0, "alice", AccountRef("bob", 1)), Stage(0, "widget", 1, 3, 4),
     Commit(ClosingAccount(AccountRef("alice", 0), false)), Commit(Opening("alice", false)),
     Load(1, "alice", AccountRef("alice", 2)), Stage(1, "gadget", 1, 1, 1), Promote(1),
     Commit(Reviewing(1, true)), Commit(Reconciling(0, true))]
  }

  function Widget(status: Status): Row {
    Row(0, AccountRef("bob", 1), Address("alice", "widget"), 1, status, 3, 4)
  }

  function Gadget(status: Status): Row {
    Row(1, AccountRef("alice", 2), Address("alice", "gadget"), 1, status, 1, 1)
  }

  /** The state the run is in, as far as it matters here. */
  predicate At(w: World, rows: seq<Row>, users: map<string, Account>, nextRow: nat, nextSerial: nat,
               flights: map<nat, Flight>, approvals: set<AccountRef>, approvedRows: set<nat>) {
    && w.db.rows == rows && w.db.users == users && w.db.redirects == map[]
    && w.db.nextRow == nextRow && w.db.nextSerial == nextSerial && w.flights == flights
    && w.past.approvals == approvals && w.past.approvedRows == approvedRows
    && (nextRow >= 1 ==> 0 in w.past.stagedInto && w.past.stagedInto[0] == AccountRef("alice", 0))
  }

  const STUCK := map[0 := Waiting(0, Address("alice", "widget"), AccountRef("alice", 0), false)]
  const NEWCOMER := Account(2, false, 0, None, false)

  lemma WidgetIsStaged(config: Config, w: World)
    requires QuotaFor(config, ALICE) >= 7 && w == Loading(AccountRef("bob", 1))
    ensures At(Do(config, w, LeftoverRun()[3]), [Widget(Staging)], map["alice" := ALICE.(blobBytes := 7), "bob" := BOB],
               1, 2, STUCK, {}, {})
  {
  }

  lemma OnlyBobsRow()
    ensures Filter([Widget(Staging)], NotPublishedBy(AccountRef("alice", 0))) == [Widget(Staging)]
    ensures Filter([Widget(Staging)], PublishedBy(AccountRef("alice", 0))) == []
    ensures Filter([], InNamespace("bob")) == []
  {
    assert [Widget(Staging)][1..] == [];
  }

  lemma AliceLeaves(config: Config, w: World)
    requires At(w, [Widget(Staging)], map["alice" := ALICE.(blobBytes := 7), "bob" := BOB], 1, 2, STUCK, {}, {})
    ensures At(Do(config, w, LeftoverRun()[4]), [Widget(Staging)], map["bob" := BOB], 1, 2, STUCK, {}, {})
  {
    hide Filter, ChargeIn;
    OnlyBobsRow();
    assert RefundedOthers(w.db.users, [], AccountRef("alice", 0)) == map["bob" := BOB];
  }

  lemma NewcomerTakesTheName(config: Config, w: World)
    requires At(w, [Widget(Staging)], map["bob" := BOB], 1, 2, STUCK, {}, {})
    ensures At(Do(config, w, LeftoverRun()[5]), [Widget(Staging)], map["alice" := NEWCOMER, "bob" := BOB], 1, 3, STUCK, {}, {})
  {
    hide Filter;
  }

  lemma NewcomerLoads(config: Config, w: World)
    requires At(w, [Widget(Staging)], map["alice" := NEWCOMER, "bob" := BOB], 1, 3, STUCK, {}, {})
    ensures At(Do(config, w, LeftoverRun()[6]), [Widget(Staging)], map["alice" := NEWCOMER, "bob" := BOB], 1, 3,
               STUCK[1 := Loaded(AccountRef("alice", 2), false, AccountRef("alice", 2))], {}, {})
  {
    hide Filter;
  }

  lemma NewcomerStages(config: Config, w: World)
    requires QuotaFor(config, ALICE) >= 7
    requires At(w, [Widget(Staging)], map["alice" := NEWCOMER, "bob" := BOB], 1, 3,
                STUCK[1 := Loaded(AccountRef("alice", 2), false, AccountRef("alice", 2))], {}, {})
    ensures At(Do(config, w, LeftoverRun()[7]), [Widget(Staging), Gadget(Staging)],
               map["alice" := NEWCOMER.(blobBytes := 2), "bob" := BOB], 2, 3,
               STUCK[1 := Waiting(1, Address("alice", "gadget"), AccountRef("alice", 2), false)], {}, {})
  {
    assert Filter([Widget(Staging)], AtAddress(Address("alice", "gadget"))) == [] by {
      assert [Widget(Staging)][1..] == [];
    }
    hide Filter;
  }

  lemma GadgetFound(first: Status, second: Status)
    ensures Filter([Widget(first), Gadget(second)], IsRow(1)) == [Gadget(second)]
    ensures Filter([Widget(first), Gadget(second)], IsRow(0)) == [Widget(first)]
  {
    assert [Widget(first), Gadget(second)][1..] == [Gadget(second)];
    assert [Gadget(second)][1..] == [];
    assert Filter([Gadget(second)], IsRow(1)) == [Gadget(second)] && Filter([Gadget(second)], IsRow(0)) == [];
  }

  lemma NewcomerWaits(config: Config, w: World)
    requires At(w, [Widget(Staging), Gadget(Staging)], map["alice" := NEWCOMER.(blobBytes := 2), "bob" := BOB], 2, 3,
                STUCK[1 := Waiting(1, Address("alice", "gadget"), AccountRef("alice", 2), false)], {}, {})
    ensures At(Do(config, w, LeftoverRun()[8]), [Widget(Staging), Gadget(Pending)],
               map["alice" := NEWCOMER.(blobBytes := 2), "bob" := BOB], 2, 3, STUCK, {}, {})
  {
    GadgetFound(Staging, Staging);
    hide Filter;
    assert WithStatus(w.db.rows, 1, Pending) == [Widget(Staging), Gadget(Pending)];
  }

  lemma NewcomerIsApproved(config: Config, w: World)
    requires At(w, [Widget(Staging), Gadget(Pending)], map["alice" := NEWCOMER.(blobBytes := 2), "bob" := BOB], 2, 3,
                STUCK, {}, {})
    ensures At(Do(config, w, LeftoverRun()[9]), [Widget(Staging), Gadget(Published)],
               map["alice" := NEWCOMER.(blobBytes := 2, hasPublished := true), "bob" := BOB], 2, 3,
               STUCK, {AccountRef("alice", 2)}, {1})
  {
    GadgetFound(Staging, Pending);
    hide Filter;
    assert WithStatus(w.db.rows, 1, Published) == [Widget(Staging), Gadget(Published)];
  }

  lemma LeftoverIsPublished(config: Config, w: World)
    requires At(w, [Widget(Staging), Gadget(Published)],
                map["alice" := NEWCOMER.(blobBytes := 2, hasPublished := true), "bob" := BOB], 2, 3,
                STUCK, {AccountRef("alice", 2)}, {1})
    ensures var next := Do(config, w, LeftoverRun()[10]);
            next.db.rows == [Widget(Published), Gadget(Published)] && !Vouched(next.past, 0)
  {
    GadgetFound(Staging, Published);
    hide Filter;
  }

  /** So a signup over a leftover staging row can put a version in public that nobody approved and
      whose account was never trusted. */
  lemma LeftoverStagingSlipsThrough(config: Config)
    requires QuotaFor(config, ALICE) >= 7
    ensures var w := Run(config, EMPTY, LeftoverRun());
            |w.db.rows| == 2 && w.db.rows[0].id == 0 && IsPublic(w.db.rows[0].status) && !Vouched(w.past, 0)
  {
    var ops, w3 := LeftoverRun(), Loading(AccountRef("bob", 1));
    StartOfRun(config, ops, AccountRef("bob", 1));
    hide Do;
    WidgetIsStaged(config, w3);
    var w4 := Do(config, w3, ops[3]);
    AliceLeaves(config, w4);
    var w5 := Do(config, w4, ops[4]);
    NewcomerTakesTheName(config, w5);
    var w6 := Do(config, w5, ops[5]);
    NewcomerLoads(config, w6);
    var w7 := Do(config, w6, ops[6]);
    NewcomerStages(config, w7);
    var w8 := Do(config, w7, ops[7]);
    NewcomerWaits(config, w8);
    var w9 := Do(config, w8, ops[8]);
    NewcomerIsApproved(config, w9);
    var w10 := Do(config, w9, ops[9]);
    LeftoverIsPublished(config, w10);
    var w11 := Do(config, w10, ops[10]);
    assert |ops| == 11;
    hide LeftoverRun, At, Vouched;
    RunFrom(config, w10, ops, 10);
    RunFrom(config, w11, ops, 11);
    RunFrom(config, w9, ops, 9);
    RunFrom(config, w8, ops, 8);
    RunFrom(config, w7, ops, 7);
    RunFrom(config, w6, ops, 6);
    RunFrom(config, w5, ops, 5);
    RunFrom(config, w4, ops, 4);
    RunFrom(config, w3, ops, 3);
  }
}
