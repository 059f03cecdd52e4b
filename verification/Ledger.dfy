/** The byte ledger: every account is charged exactly the bytes of the rows in its namespace, no
    refund is ever clipped, quotas hold, and a transfer moves a charge without changing the total. */
module Ledger {
  import opened Options
  import opened Sorting
  import opened Registry
  import opened RegistryRuns

  ghost predicate Balanced(db: Db) {
    forall ns :: ns in db.users ==> db.users[ns].blobBytes == ChargeIn(db.rows, ns)
  }

  // ------------------------------------------------------ sums over tables

  lemma {:induction false} ChargeSplits(rows: seq<Row>, keep: Row -> bool, drop: Row -> bool, ns: string)
    requires forall i :: 0 <= i < |rows| ==> keep(rows[i]) != drop(rows[i])
    ensures ChargeIn(rows, ns) == ChargeIn(Filter(rows, keep), ns) + ChargeIn(Filter(rows, drop), ns)
  {
    if rows != [] {
      var first, rest := rows[0], rows[1..];
      forall i | 0 <= i < |rest| ensures keep(rest[i]) != drop(rest[i]) {
        assert rest[i] == rows[i + 1];
      }
      ChargeSplits(rest, keep, drop, ns);
      ChargeOfHead(rows, ns);
      var kept, lost := if keep(first) then keep else drop, if keep(first) then drop else keep;
      assert Filter(rows, kept) == [first] + Filter(rest, kept);
      assert Filter(rows, lost) == Filter(rest, lost);
      ChargeOfHead([first] + Filter(rest, kept), ns);
      assert ([first] + Filter(rest, kept))[1..] == Filter(rest, kept);
    }
  }

  lemma ChargeOfHead(rows: seq<Row>, ns: string)
    requires rows != []
    ensures ChargeIn(rows, ns) == (if rows[0].at.ns == ns then Charge(rows[0]) else 0) + ChargeIn(rows[1..], ns)
  {
    var tail := Filter(rows[1..], InNamespace(ns));
    if rows[0].at.ns == ns {
      assert Filter(rows, InNamespace(ns)) == [rows[0]] + tail;
      assert ([rows[0]] + tail)[1..] == tail;
    } else {
      assert Filter(rows, InNamespace(ns)) == tail;
    }
  }

  /** What the charge of a namespace is: nothing without rows, and with each row under it its blob's
      and its source's bytes more. */
  lemma {:induction false} ChargeOfAppended(rows: seq<Row>, row: Row, ns: string)
    ensures ChargeIn([], ns) == 0
    ensures ChargeIn(rows + [row], ns) == ChargeIn(rows, ns) + if row.at.ns == ns then row.blobSize + row.sourceSize else 0
  {
    ChargeOfHead(rows + [row], ns);
    if rows == [] {
      assert (rows + [row])[1..] == [];
    } else {
      ChargeOfHead(rows, ns);
      assert (rows + [row])[1..] == rows[1..] + [row];
      ChargeOfAppended(rows[1..], row, ns);
    }
  }

  lemma {:induction false} ChargeInOneNamespace(rows: seq<Row>, home: string, ns: string)
    requires forall i :: 0 <= i < |rows| ==> rows[i].at.ns == home
    ensures ChargeIn(rows, ns) == if ns == home then ChargedBytes(rows) else 0
  {
    if rows != [] {
      ChargeOfHead(rows, ns);
      ChargeInOneNamespace(rows[1..], home, ns);
    }
  }

  lemma {:induction false} ChargeWhereNothingIs(rows: seq<Row>, ns: string)
    requires forall i :: 0 <= i < |rows| ==> rows[i].at.ns != ns
    ensures ChargeIn(rows, ns) == 0
  {
    if rows != [] {
      ChargeOfHead(rows, ns);
      ChargeWhereNothingIs(rows[1..], ns);
    }
  }

  lemma NothingFoundNothingCharged(rows: seq<Row>, ns: string)
    requires Filter(rows, InNamespace(ns)) == []
    ensures ChargeIn(rows, ns) == 0
  {
  }

  lemma {:induction false} RelabelingKeepsCharge(rows: seq<Row>, id: nat, status: Status, ns: string)
    ensures ChargeIn(WithStatus(rows, id, status), ns) == ChargeIn(rows, ns)
  {
    if rows != [] {
      var out := WithStatus(rows, id, status);
      ChargeOfHead(rows, ns);
      ChargeOfHead(out, ns);
      assert out[1..] == WithStatus(rows[1..], id, status);
      RelabelingKeepsCharge(rows[1..], id, status, ns);
    }
  }

  /** Moving an extension takes its charge from one namespace to the other. */
  lemma {:induction false} ChargeMoves(rows: seq<Row>, source: Address, dest: Address, ns: string)
    requires source.ns != dest.ns
    ensures ChargeIn(MovedRows(rows, source, dest), ns)
         == ChargeIn(rows, ns)
          - (if ns == source.ns then ChargedBytes(Filter(rows, AtAddress(source))) else 0)
          + (if ns == dest.ns then ChargedBytes(Filter(rows, AtAddress(source))) else 0)
  {
    if rows != [] {
      var out, rest := MovedRows(rows, source, dest), Filter(rows[1..], AtAddress(source));
      ChargeOfHead(rows, ns);
      ChargeOfHead(out, ns);
      assert out[1..] == MovedRows(rows[1..], source, dest);
      ChargeMoves(rows[1..], source, dest, ns);
      if rows[0].at == source {
        assert Filter(rows, AtAddress(source)) == [rows[0]] + rest;
        assert ([rows[0]] + rest)[1..] == rest;
      } else {
        assert Filter(rows, AtAddress(source)) == rest;
      }
    }
  }

  lemma ChargeAtAddress(rows: seq<Row>, at: Address, ns: string)
    ensures ChargeIn(rows, ns)
         == ChargeIn(Filter(rows, NotAtAddress(at)), ns)
          + if ns == at.ns then ChargedBytes(Filter(rows, AtAddress(at))) else 0
  {
    ChargeSplits(rows, NotAtAddress(at), AtAddress(at), ns);
    FilterKeepsIds(rows, AtAddress(at));
    ChargeInOneNamespace(Filter(rows, AtAddress(at)), at.ns, ns);
  }

  lemma {:induction false} NoneFound(rows: seq<Row>, p: Row -> bool)
    requires forall i :: 0 <= i < |rows| ==> !p(rows[i])
    ensures Filter(rows, p) == []
  {
    if rows != [] {
      assert !p(rows[0]);
      NoneFound(rows[1..], p);
    }
  }

  lemma {:induction false} OneRowFound(rows: seq<Row>, id: nat)
    requires DistinctIds(rows) && Filter(rows, IsRow(id)) != []
    ensures Filter(rows, IsRow(id)) == [Filter(rows, IsRow(id))[0]]
  {
    if rows[0].id == id {
      forall i | 1 <= i < |rows| ensures !IsRow(id)(rows[i]) {
        assert rows[0].id != rows[i].id;
      }
      NoneFound(rows[1..], IsRow(id));
    } else {
      OneRowFound(rows[1..], id);
    }
  }

  lemma ChargeOfOneRow(rows: seq<Row>, id: nat, ns: string)
    requires DistinctIds(rows) && Filter(rows, IsRow(id)) != []
    ensures var row := Filter(rows, IsRow(id))[0];
            ChargeIn(rows, ns) == ChargeIn(Filter(rows, IsNotRow(id)), ns) + if row.at.ns == ns then Charge(row) else 0
  {
    var found := Filter(rows, IsRow(id));
    ChargeSplits(rows, IsNotRow(id), IsRow(id), ns);
    OneRowFound(rows, id);
    ChargeOfHead(found, ns);
    assert found[1..] == [];
  }

  // ------------------------------------------------ one transaction at a time

  /** What a transaction takes off a namespace's account, before any clamp. */
  function RefundTo(db: Db, tx: Tx, ns: string): nat {
    match tx
    case Deleting(at) => if at.ns == ns then ChargedBytes(Filter(db.rows, AtAddress(at))) else 0
    case Accepting(source, to) => if source.ns == ns then ChargedBytes(Filter(db.rows, AtAddress(source))) else 0
    case ClosingAccount(account, _) => ChargeIn(Filter(db.rows, PublishedBy(account)), ns)
    case Reconciling(row, false) =>
      var found := Filter(db.rows, IsRow(row));
      if found != [] && found[0].at.ns == ns then Charge(found[0]) else 0
    case _ => 0
  }

  /** What a transaction adds to a namespace's account. */
  function ChargeTo(db: Db, tx: Tx, ns: string): nat {
    match tx
    case Publishing(owner, _, _, _, blobSize, sourceSize) => if owner.ns == ns then blobSize + sourceSize else 0
    case Accepting(source, to) => if to == ns then ChargedBytes(Filter(db.rows, AtAddress(source))) else 0
    case _ => 0
  }

  /** With balanced books a refund is never more than the account holds, so GREATEST(..., 0)
      always takes its first argument. */
  lemma RefundsAreCovered(db: Db, tx: Tx, ns: string)
    requires WellFormed(db) && Balanced(db) && ns in db.users
    ensures RefundTo(db, tx, ns) <= db.users[ns].blobBytes
  {
    hide Filter, ChargeIn, ChargedBytes;
    match tx
    case Deleting(at) => ChargeAtAddress(db.rows, at, ns);
    case Accepting(source, _) => ChargeAtAddress(db.rows, source, ns);
    case ClosingAccount(account, _) => ChargeSplits(db.rows, NotPublishedBy(account), PublishedBy(account), ns);
    case Reconciling(row, false) =>
      if Filter(db.rows, IsRow(row)) != [] {
        ChargeOfOneRow(db.rows, row, ns);
      }
    case _ =>
  }

  /** The rows: what a committed transaction does to a namespace's bytes on the version table. */
  lemma RowChargeChange(config: Config, db: Db, tx: Tx, ns: string)
    requires WellFormed(db) && Apply(config, db, tx).Done?
    requires !tx.ClosingOrganization?
    ensures ChargeIn(Apply(config, db, tx).db.rows, ns) == ChargeIn(db.rows, ns) + ChargeTo(db, tx, ns) - RefundTo(db, tx, ns)
  {
    hide Filter, ChargeIn, ChargedBytes, WithStatus, MovedRows, CollapsedRedirects, HasStaging, HoldsUnsettled, ExceedsAll, DestinationIsFree;
    match tx
    case Publishing(owner, publisher, id, version, blobSize, sourceSize) =>
      ChargeOfAppended(db.rows, Row(db.nextRow, publisher, Address(owner.ns, id), version, Staging, blobSize, sourceSize), ns);
    case Promoting(row, status) => RelabelingKeepsCharge(db.rows, row, status, ns);
    case Reviewing(row, approve) => RelabelingKeepsCharge(db.rows, row, if approve then Published else Rejected, ns);
    case Relabeling(row, status) => RelabelingKeepsCharge(db.rows, row, status, ns);
    case Deleting(at) => ChargeAtAddress(db.rows, at, ns);
    case Reconciling(row, true) =>
      RelabelingKeepsCharge(db.rows, row, Published, ns);
      RelabelingKeepsCharge(db.rows, row, Pending, ns);
    case Reconciling(row, false) => ChargeOfOneRow(db.rows, row, ns);
    case Accepting(source, to) => ChargeMoves(db.rows, source, Address(to, source.id), ns);
    case ClosingAccount(account, _) => ChargeSplits(db.rows, NotPublishedBy(account), PublishedBy(account), ns);
    case _ =>
  }

  /** The accounts: the same difference, clamped nowhere. */
  lemma AccountChargeChange(config: Config, db: Db, tx: Tx, ns: string)
    requires WellFormed(db) && Balanced(db) && Apply(config, db, tx).Done?
    requires ns in db.users && ns in Apply(config, db, tx).db.users
    ensures Apply(config, db, tx).db.users[ns].blobBytes == db.users[ns].blobBytes + ChargeTo(db, tx, ns) - RefundTo(db, tx, ns)
  {
    hide Filter, ChargeIn, ChargedBytes, WithStatus, MovedRows, CollapsedRedirects, HasStaging, HoldsUnsettled, ExceedsAll, DestinationIsFree, Balanced;
    RefundsAreCovered(db, tx, ns);
    if tx.ClosingAccount? && Filter(Filter(db.rows, PublishedBy(tx.account)), InNamespace(ns)) == [] {
      NothingFoundNothingCharged(Filter(db.rows, PublishedBy(tx.account)), ns);
    }
  }

  /** An organization publishes nothing itself, so its rows are those of its namespace. */
  lemma OrganizationRows(db: Db, ns: string)
    requires WellFormed(db) && ns in db.users && db.users[ns].organization
    ensures var rest := Filter(db.rows, NotInNamespace(ns));
            Filter(rest, PublishedBy(AccountRef(ns, db.users[ns].serial))) == []
  {
    var org, rest := AccountRef(ns, db.users[ns].serial), Filter(db.rows, NotInNamespace(ns));
    FilterKeepsIds(db.rows, NotInNamespace(ns));
    forall i | 0 <= i < |rest| ensures !PublishedBy(org)(rest[i]) {
      assert rest[i] in db.rows;
    }
    NoneFound(rest, PublishedBy(org));
  }

  lemma DissolvingKeepsCharge(db: Db, ns: string, other: string)
    requires WellFormed(db) && ns in db.users && db.users[ns].organization && other != ns
    ensures var rest := Filter(db.rows, NotInNamespace(ns));
            ChargeIn(Filter(rest, NotPublishedBy(AccountRef(ns, db.users[ns].serial))), other) == ChargeIn(db.rows, other)
  {
    hide Filter, ChargeIn, ChargedBytes, WellFormed;
    var org, rest, gone := AccountRef(ns, db.users[ns].serial), Filter(db.rows, NotInNamespace(ns)), Filter(db.rows, InNamespace(ns));
    ChargeSplits(db.rows, NotInNamespace(ns), InNamespace(ns), other);
    FilterKeepsIds(db.rows, InNamespace(ns));
    ChargeInOneNamespace(gone, ns, other);
    ChargeSplits(rest, NotPublishedBy(org), PublishedBy(org), other);
    OrganizationRows(db, ns);
    ChargeWhereNothingIs([], other);
  }

  lemma DissolvingKeepsBalance(config: Config, db: Db, ns: string)
    requires WellFormed(db) && Balanced(db) && Apply(config, db, ClosingOrganization(ns)).Done?
    ensures Balanced(Apply(config, db, ClosingOrganization(ns)).db)
  {
    hide Filter, ChargeIn, WellFormed;
    forall other | other in db.users && other != ns
      ensures ChargeIn(Apply(config, db, ClosingOrganization(ns)).db.rows, other) == ChargeIn(db.rows, other)
    {
      DissolvingKeepsCharge(db, ns, other);
    }
  }

  /** Opening an account balances the books exactly when no bytes were left in its namespace. */
  lemma OpeningBalancesExactly(config: Config, db: Db, ns: string, organization: bool)
    requires Balanced(db) && Apply(config, db, Opening(ns, organization)).Done?
    ensures Balanced(Apply(config, db, Opening(ns, organization)).db) <==> ChargeIn(db.rows, ns) == 0
  {
    hide ChargeIn;
    var after := Apply(config, db, Opening(ns, organization)).db;
    assert after.users[ns].blobBytes == 0;
  }

  lemma TxKeepsBalance(config: Config, db: Db, tx: Tx)
    requires WellFormed(db) && Balanced(db) && Apply(config, db, tx).Done?
    requires tx.Opening? ==> ChargeIn(db.rows, tx.ns) == 0
    ensures Balanced(Apply(config, db, tx).db)
  {
    if tx.Opening? {
      OpeningBalancesExactly(config, db, tx.ns, tx.organization);
    } else if tx.ClosingOrganization? {
      DissolvingKeepsBalance(config, db, tx.ns);
    } else {
      var after := Apply(config, db, tx).db;
      forall ns | ns in after.users ensures after.users[ns].blobBytes == ChargeIn(after.rows, ns) {
        NoNewAccounts(config, db, tx);
        RowChargeChange(config, db, tx, ns);
        AccountChargeChange(config, db, tx, ns);
      }
    }
  }

  lemma NoNewAccounts(config: Config, db: Db, tx: Tx)
    requires !tx.Opening? && Apply(config, db, tx).Done?
    ensures Apply(config, db, tx).db.users.Keys <= db.users.Keys
  {
    hide Filter, ChargedBytes, WithStatus, MovedRows, CollapsedRedirects, HasStaging, HoldsUnsettled, ExceedsAll, DestinationIsFree;
  }

  // ------------------------------------------------------------- whole runs

  lemma OpeningIsNew(config: Config, db: Db, tx: Tx)
    requires tx.Opening? && Apply(config, db, tx).Done?
    ensures tx.ns !in db.users
  {
  }

  lemma DoKeepsBalance(config: Config, w: World, op: Op)
    requires Sound(w) && Balanced(w.db) && (op.Commit? ==> IsClean(w.db, op.tx))
    ensures Balanced(Do(config, w, op).db)
  {
    hide Apply, Balanced, WellFormed, Remembered, ChargeIn;
    DoRunsItsTx(config, w, op);
    var tx := TxOf(w, op);
    if tx.Some? && Apply(config, w.db, tx.value).Done? {
      if tx.value.Opening? {
        OpeningIsNew(config, w.db, tx.value);
      }
      TxKeepsBalance(config, w.db, tx.value);
    }
  }

  lemma {:induction false} RunKeepsBalance(config: Config, w: World, ops: seq<Op>)
    requires Sound(w) && Balanced(w.db) && CleanRun(config, w, ops)
    ensures Sound(Run(config, w, ops)) && Balanced(Run(config, w, ops).db)
    decreases |ops|
  {
    hide Do, Sound, Balanced, IsClean;
    if ops != [] {
      DoKeepsSound(config, w, ops[0]);
      DoKeepsBalance(config, w, ops[0]);
      RunKeepsBalance(config, Do(config, w, ops[0]), ops[1..]);
    }
  }

  /** Every account of every reachable registry is charged what its namespace holds. */
  lemma BooksBalance(config: Config, ops: seq<Op>, ns: string)
    requires CleanRun(config, EMPTY, ops) && ns in Run(config, EMPTY, ops).db.users
    ensures Run(config, EMPTY, ops).db.users[ns].blobBytes == ChargeIn(Run(config, EMPTY, ops).db.rows, ns)
  {
    hide Run, CleanRun;
    EmptyIsSound();
    RunKeepsBalance(config, EMPTY, ops);
  }

  lemma OpeningGoesThrough(config: Config, db: Db, tx: Tx)
    requires tx.Opening?
    ensures Apply(config, db, tx).Done? <==> tx.ns !in db.users
  {
  }

  /** As long as every signup has found no bytes, the next step keeps the books balanced if and only
      if it is not a signup over bytes either. */
  lemma NextStepBalancesExactly(config: Config, ops: seq<Op>, op: Op)
    requires CleanRun(config, EMPTY, ops)
    ensures var w := Run(config, EMPTY, ops);
            Balanced(Do(config, w, op).db) <==> (op.Commit? ==> IsClean(w.db, op.tx))
  {
    hide Run, CleanRun, Apply, Balanced, WellFormed, Remembered, ChargeIn;
    EmptyIsSound();
    assert Balanced(EMPTY.db) by {
      NothingIsBalanced();
    }
    RunKeepsBalance(config, EMPTY, ops);
    var w := Run(config, EMPTY, ops);
    if op.Commit? && !IsClean(w.db, op.tx) {
      OpeningGoesThrough(config, w.db, op.tx);
      OpeningBalancesExactly(config, w.db, op.tx.ns, op.tx.organization);
    } else {
      DoKeepsBalance(config, w, op);
    }
  }

  lemma NothingIsBalanced()
    ensures Balanced(EMPTY.db)
  {
  }
}
