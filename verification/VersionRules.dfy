/** What holds of the version table itself over whole runs: one version in review per publisher,
    and no version twice. */
module VersionRules {
  import opened Options
  import opened Sorting
  import opened Registry
  import opened RegistryRuns
  import opened Scenarios

  /** A publisher has at most one version staging or pending. */
  predicate OneUnsettledEach(rows: seq<Row>) {
    forall i, j :: 0 <= i < j < |rows| && rows[i].publisher == rows[j].publisher ==> !(Unsettled(rows[i]) && Unsettled(rows[j]))
  }

  /** A publisher pushes a version of an extension id once, wherever it is by now. */
  predicate PushedOnce(rows: seq<Row>) {
    forall i, j :: 0 <= i < j < |rows| && rows[i].publisher == rows[j].publisher && rows[i].at.id == rows[j].at.id ==>
      rows[i].version != rows[j].version
  }

  /** An address holds a version once, whoever published it. */
  predicate OneOfEachVersion(rows: seq<Row>) {
    forall i, j :: 0 <= i < j < |rows| && rows[i].at == rows[j].at ==> rows[i].version != rows[j].version
  }

  /** What a row keeps: everything but its status, and its namespace when it is transferred. */
  predicate SameVersion(before: Row, after: Row) {
    after.id == before.id && after.publisher == before.publisher && after.version == before.version
    && after.at.id == before.at.id
  }

  predicate Descends(tx: Tx, before: Row, after: Row) {
    && SameVersion(before, after)
    && (after.at == before.at || (tx.Accepting? && before.at == tx.source && after.at == Address(tx.to, tx.source.id)))
    && (tx.Accepting? && before.at == tx.source ==> after.at == Address(tx.to, tx.source.id))
    && (Unsettled(after) ==> Unsettled(before) || (tx.Promoting? && tx.row == after.id && tx.status == Pending))
  }

  predicate JustPushed(db: Db, tx: Tx, row: Row) {
    tx.Publishing? && row == Row(db.nextRow, tx.publisher, Address(tx.owner.ns, tx.id), tx.version, Staging, tx.blobSize, tx.sourceSize)
  }

  predicate Promotes(tx: Tx) {
    tx.Promoting? ==> tx.status != Staging
  }

  lemma RemovalAncestor(config: Config, db: Db, tx: Tx, i: nat) returns (k: nat)
    requires Apply(config, db, tx).Done? && IsDeletion(tx) && i < |Apply(config, db, tx).db.rows|
    ensures k < |db.rows| && db.rows[k] == Apply(config, db, tx).db.rows[i]
  {
    hide Filter, ChargedBytes, HasStaging;
    var row := Apply(config, db, tx).db.rows[i];
    match tx
    case Deleting(at) => k := Kept(db.rows, NotAtAddress(at), row);
    case Reconciling(id, _) => k := Kept(db.rows, IsNotRow(id), row);
    case ClosingAccount(account, _) => k := Kept(db.rows, NotPublishedBy(account), row);
    case ClosingOrganization(ns) =>
      var rest := Filter(db.rows, NotInNamespace(ns));
      var j := Kept(rest, NotPublishedBy(AccountRef(ns, db.users[ns].serial)), row);
      k := Kept(db.rows, NotInNamespace(ns), rest[j]);
  }

  /** Where a row of the new table was in the old one. */
  lemma Ancestor(config: Config, db: Db, tx: Tx, i: nat) returns (k: nat)
    requires WellFormed(db) && Apply(config, db, tx).Done? && Promotes(tx) && i < |Apply(config, db, tx).db.rows|
    requires !JustPushed(db, tx, Apply(config, db, tx).db.rows[i])
    ensures k < |db.rows| && Descends(tx, db.rows[k], Apply(config, db, tx).db.rows[i])
  {
    if IsDeletion(tx) {
      hide Apply;
      k := RemovalAncestor(config, db, tx, i);
    } else {
      hide Filter, ChargedBytes, HasStaging, HoldsUnsettled, ExceedsAll, DestinationIsFree, HasPublished;
      k := i;
      if tx.Reconciling? {
        FoundRow(db.rows, tx.row);
      }
    }
  }

  lemma Kept(rows: seq<Row>, p: Row -> bool, row: Row) returns (k: nat)
    requires row in Filter(rows, p)
    ensures k < |rows| && rows[k] == row
  {
    FilterMembers(rows, p);
    k :| 0 <= k < |rows| && rows[k] == row;
  }

  /** Two rows of the new table were two rows of the old one. */
  lemma AncestorsDiffer(config: Config, db: Db, tx: Tx, i: nat, j: nat) returns (k: nat, l: nat)
    requires WellFormed(db) && ByPerson(db, tx) && Apply(config, db, tx).Done? && Promotes(tx)
    requires i < j < |Apply(config, db, tx).db.rows|
    requires !JustPushed(db, tx, Apply(config, db, tx).db.rows[i]) && !JustPushed(db, tx, Apply(config, db, tx).db.rows[j])
    ensures k < |db.rows| && l < |db.rows| && k != l
    ensures Descends(tx, db.rows[k], Apply(config, db, tx).db.rows[i]) && Descends(tx, db.rows[l], Apply(config, db, tx).db.rows[j])
  {
    TxKeepsWellFormed(config, db, tx);
    k := Ancestor(config, db, tx, i);
    l := Ancestor(config, db, tx, j);
    hide Apply;
    assert Apply(config, db, tx).db.rows[i].id != Apply(config, db, tx).db.rows[j].id;
  }

  /** A push checks what it must not repeat. */
  lemma PushIsNew(config: Config, db: Db, tx: Tx, k: nat)
    requires tx.Publishing? && Apply(config, db, tx).Done? && k < |db.rows|
    ensures db.rows[k].publisher == tx.publisher ==> !Unsettled(db.rows[k])
    ensures db.rows[k].publisher == tx.publisher && db.rows[k].at.id == tx.id ==> db.rows[k].version != tx.version
    ensures db.rows[k].at == Address(tx.owner.ns, tx.id) ==> db.rows[k].version < tx.version
  {
    var at := Address(tx.owner.ns, tx.id);
    FilterMembers(db.rows, AtAddress(at));
    hide Filter;
    if db.rows[k].at == at {
      assert db.rows[k] in Filter(db.rows, AtAddress(at));
    }
    assert Some(db.rows[k].id) != None;
  }

  lemma OnlyOnePushed(config: Config, db: Db, tx: Tx, i: nat)
    requires Apply(config, db, tx).Done? && i < |Apply(config, db, tx).db.rows| && tx.Publishing?
    ensures Apply(config, db, tx).db.rows == db.rows + [Apply(config, db, tx).db.rows[|db.rows|]]
    ensures JustPushed(db, tx, Apply(config, db, tx).db.rows[|db.rows|])
    ensures i < |db.rows| ==> Apply(config, db, tx).db.rows[i] == db.rows[i]
  {
    hide Filter, HoldsUnsettled, ExceedsAll, HasPublished;
  }

  /** The one-pending index and its checks: a promotion to pending asks about the others. */
  lemma PromotionIsAlone(config: Config, db: Db, tx: Tx, k: nat, l: nat)
    requires WellFormed(db) && tx.Promoting? && tx.status == Pending && Apply(config, db, tx).Done?
    requires k < |db.rows| && l < |db.rows| && k != l && db.rows[k].id == tx.row && db.rows[l].publisher == db.rows[k].publisher
    ensures !Unsettled(db.rows[l])
  {
    FoundRow(db.rows, tx.row);
    hide Filter;
    assert db.rows[k].id != db.rows[l].id;
    assert Some(db.rows[l].id) != Some(tx.row);
  }

  /** Whether the two rows of a pair keep out of each other's way. */
  predicate Apart(a: Row, b: Row) {
    && (a.publisher == b.publisher ==> !(Unsettled(a) && Unsettled(b)))
    && (a.publisher == b.publisher && a.at.id == b.at.id ==> a.version != b.version)
  }

  lemma PairStaysApart(config: Config, db: Db, tx: Tx, i: nat, j: nat)
    requires WellFormed(db) && ByPerson(db, tx) && Apply(config, db, tx).Done? && Promotes(tx)
    requires OneUnsettledEach(db.rows) && PushedOnce(db.rows) && i < j < |Apply(config, db, tx).db.rows|
    ensures Apart(Apply(config, db, tx).db.rows[i], Apply(config, db, tx).db.rows[j])
  {
    if tx.Publishing? {
      OnlyOnePushed(config, db, tx, i);
      OnlyOnePushed(config, db, tx, j);
      PushIsNew(config, db, tx, i);
      hide Apply;
    } else {
      hide Apply, WellFormed;
      var k, l := AncestorsDiffer(config, db, tx, i, j);
      if tx.Promoting? && tx.status == Pending && db.rows[l].publisher == db.rows[k].publisher {
        if db.rows[k].id == tx.row {
          PromotionIsAlone(config, db, tx, k, l);
        }
        if db.rows[l].id == tx.row {
          PromotionIsAlone(config, db, tx, l, k);
        }
      }
    }
  }

  lemma TxKeepsRules(config: Config, db: Db, tx: Tx)
    requires WellFormed(db) && ByPerson(db, tx) && Apply(config, db, tx).Done? && Promotes(tx)
    requires OneUnsettledEach(db.rows) && PushedOnce(db.rows)
    ensures OneUnsettledEach(Apply(config, db, tx).db.rows) && PushedOnce(Apply(config, db, tx).db.rows)
  {
    hide Apply, WellFormed, Unsettled;
    var rows := Apply(config, db, tx).db.rows;
    forall i, j | 0 <= i < j < |rows| ensures Apart(rows[i], rows[j]) {
      PairStaysApart(config, db, tx, i, j);
    }
  }

  // ------------------------------------------------------------- addresses

  /** What a rejected version left at the destination does not share with what moves in. */
  predicate Disjoint(rows: seq<Row>, source: Address, dest: Address) {
    forall i, j :: 0 <= i < |rows| && 0 <= j < |rows| && rows[i].at == source && rows[j].at == dest ==> rows[i].version != rows[j].version
  }

  /** A transfer leaves each address with no version twice exactly when nothing that moves in is
      also among the rejected versions still there. */
  lemma TransferKeepsVersionsExactly(config: Config, db: Db, source: Address, to: string)
    requires WellFormed(db) && OneOfEachVersion(db.rows) && Apply(config, db, Accepting(source, to)).Done?
    ensures OneOfEachVersion(Apply(config, db, Accepting(source, to)).db.rows) <==> Disjoint(db.rows, source, Address(to, source.id))
  {
    hide Filter, ChargedBytes, HasStaging, DestinationIsFree, CollapsedRedirects;
    var dest, rows := Address(to, source.id), Apply(config, db, Accepting(source, to)).db.rows;
    assert source != dest;
    if !Disjoint(db.rows, source, dest) {
      var i, j :| 0 <= i < |db.rows| && 0 <= j < |db.rows| && db.rows[i].at == source && db.rows[j].at == dest
                  && db.rows[i].version == db.rows[j].version;
      assert rows[i].at == dest && rows[j].at == dest;
      assert rows[i].version == rows[j].version && i != j;
    }
  }

  lemma OthersKeepVersions(config: Config, db: Db, tx: Tx)
    requires WellFormed(db) && ByPerson(db, tx) && Apply(config, db, tx).Done? && Promotes(tx)
    requires OneOfEachVersion(db.rows) && !tx.Accepting?
    ensures OneOfEachVersion(Apply(config, db, tx).db.rows)
  {
    hide Apply, WellFormed, Unsettled;
    var rows := Apply(config, db, tx).db.rows;
    forall i, j | 0 <= i < j < |rows| && rows[i].at == rows[j].at ensures rows[i].version != rows[j].version {
      if tx.Publishing? {
        OnlyOnePushed(config, db, tx, i);
        OnlyOnePushed(config, db, tx, j);
        PushIsNew(config, db, tx, i);
      } else {
        var k, l := AncestorsDiffer(config, db, tx, i, j);
      }
    }
  }

  // ------------------------------------------------------------- whole runs

  /** A transfer that goes through brings in no version a rejected one left behind. */
  predicate MovesInClean(config: Config, db: Db, op: Op) {
    op.Commit? && op.tx.Accepting? && Apply(config, db, op.tx).Done? ==>
      Disjoint(db.rows, op.tx.source, Address(op.tx.to, op.tx.source.id))
  }

  predicate CleanMoves(config: Config, w: World, ops: seq<Op>)
    decreases |ops|
  {
    ops == [] || (MovesInClean(config, w.db, ops[0]) && CleanMoves(config, Do(config, w, ops[0]), ops[1..]))
  }

  lemma DoKeepsRules(config: Config, w: World, op: Op)
    requires Sound(w) && OneUnsettledEach(w.db.rows) && PushedOnce(w.db.rows)
    ensures OneUnsettledEach(Do(config, w, op).db.rows) && PushedOnce(Do(config, w, op).db.rows)
    ensures OneOfEachVersion(w.db.rows) && MovesInClean(config, w.db, op) ==> OneOfEachVersion(Do(config, w, op).db.rows)
  {
    hide Apply, WellFormed, Remembered, OneUnsettledEach, PushedOnce, OneOfEachVersion, Disjoint, ByPerson;
    DoRunsItsTx(config, w, op);
    OpIsByPerson(w, op);
    var tx := TxOf(w, op);
    if tx.Some? && Apply(config, w.db, tx.value).Done? {
      TxKeepsRules(config, w.db, tx.value);
      if OneOfEachVersion(w.db.rows) {
        if tx.value.Accepting? {
          TransferKeepsVersionsExactly(config, w.db, tx.value.source, tx.value.to);
        } else {
          OthersKeepVersions(config, w.db, tx.value);
        }
      }
    }
  }

  lemma {:induction false} RunKeepsRules(config: Config, w: World, ops: seq<Op>)
    requires Sound(w) && OneUnsettledEach(w.db.rows) && PushedOnce(w.db.rows) && OneOfEachVersion(w.db.rows)
    ensures OneUnsettledEach(Run(config, w, ops).db.rows) && PushedOnce(Run(config, w, ops).db.rows)
    ensures CleanMoves(config, w, ops) ==> OneOfEachVersion(Run(config, w, ops).db.rows)
    decreases |ops|
  {
    hide Do, Sound, OneUnsettledEach, PushedOnce, OneOfEachVersion, MovesInClean;
    if ops != [] {
      DoKeepsSound(config, w, ops[0]);
      DoKeepsRules(config, w, ops[0]);
      if OneOfEachVersion(Do(config, w, ops[0]).db.rows) {
        RunKeepsRules(config, Do(config, w, ops[0]), ops[1..]);
      } else {
        RunKeepsTurns(config, Do(config, w, ops[0]), ops[1..]);
      }
    }
  }

  lemma {:induction false} RunKeepsTurns(config: Config, w: World, ops: seq<Op>)
    requires Sound(w) && OneUnsettledEach(w.db.rows) && PushedOnce(w.db.rows)
    ensures OneUnsettledEach(Run(config, w, ops).db.rows) && PushedOnce(Run(config, w, ops).db.rows)
    decreases |ops|
  {
    hide Do, Sound, OneUnsettledEach, PushedOnce, OneOfEachVersion, MovesInClean;
    if ops != [] {
      DoKeepsSound(config, w, ops[0]);
      DoKeepsRules(config, w, ops[0]);
      RunKeepsTurns(config, Do(config, w, ops[0]), ops[1..]);
    }
  }

  /** After any run no publisher has two versions waiting, and none has pushed a version of an
      extension id twice, transfers of what they published included. */
  lemma PublishersTakeTurns(config: Config, ops: seq<Op>, i: nat, j: nat)
    requires i < j < |Run(config, EMPTY, ops).db.rows|
    requires Run(config, EMPTY, ops).db.rows[i].publisher == Run(config, EMPTY, ops).db.rows[j].publisher
    ensures var a, b := Run(config, EMPTY, ops).db.rows[i], Run(config, EMPTY, ops).db.rows[j];
            !(a.status in {Staging, Pending} && b.status in {Staging, Pending}) && (a.at.id == b.at.id ==> a.version != b.version)
  {
    hide Run;
    EmptyIsSound();
    RunKeepsTurns(config, EMPTY, ops);
  }

  /** After any run whose transfers move in no version that a rejected one left at their
      destination, no address holds a version twice. */
  lemma AddressesHoldAVersionOnce(config: Config, ops: seq<Op>, i: nat, j: nat)
    requires CleanMoves(config, EMPTY, ops) && i < j < |Run(config, EMPTY, ops).db.rows|
    requires Run(config, EMPTY, ops).db.rows[i].at == Run(config, EMPTY, ops).db.rows[j].at
    ensures Run(config, EMPTY, ops).db.rows[i].version != Run(config, EMPTY, ops).db.rows[j].version
  {
    hide Run, CleanMoves;
    EmptyIsSound();
    RunKeepsRules(config, EMPTY, ops);
  }

  // -------------------------------------------------------- what goes wrong

  /** Alice's first version of widget is rejected and stays in the table. Bob pushes the same
      version of his own widget and transfers it to her. */
  function RejectedRun(): seq<Op> {
    [Commit(Opening("alice", false)), Commit(Opening("bob", false)),
     Load(0, "alice", AccountRef("alice", 0)), Stage(0, "widget", 1, 3, 4), Promote(0), Commit(Reviewing(0, false)),
     Load(1, "bob", AccountRef("bob", 1)), Stage(1, "widget", 1, 3, 4), Promote(1),
     Commit(Offering(HIS, "alice", AccountRef("bob", 1))), Commit(Accepting(HIS, "alice"))]
  }

  const HIS := Address("bob", "widget")
  const HERS := Address("alice", "widget")

  function First(status: Status): Row {
    Row(0, AccountRef("alice", 0), HERS, 1, status, 3, 4)
  }

  function Second(status: Status): Row {
    Row(1, AccountRef("bob", 1), HIS, 1, status, 3, 4)
  }

  function Billed(a: nat, b: nat): map<string, Account> {
    map["alice" := ALICE.(blobBytes := a), "bob" := BOB.(blobBytes := b)]
  }

  function Tables(rows: seq<Row>, users: map<string, Account>, offers: set<Offer>): Db {
    Db(users, rows, map[], offers, |rows|, 2)
  }

  lemma OneFound(first: Status)
    ensures Filter([First(first)], IsRow(0)) == [First(first)]
    ensures Filter([First(first)], AtAddress(HIS)) == []
  {
    assert [First(first)][1..] == [];
  }

  lemma SecondFound(second: Status)
    ensures Filter([Second(second)], IsRow(1)) == [Second(second)]
    ensures Filter([Second(second)], AtAddress(HERS)) == []
    ensures Filter([Second(second)], AtAddress(HIS)) == [Second(second)]
    ensures ChargedBytes([Second(second)]) == 7
  {
    assert [Second(second)][1..] == [];
  }

  lemma TwoFound(first: Status, second: Status)
    ensures Filter([First(first), Second(second)], IsRow(1)) == [Second(second)]
    ensures Filter([First(first), Second(second)], AtAddress(HERS)) == [First(first)]
    ensures Filter([First(first), Second(second)], AtAddress(HIS)) == [Second(second)]
    ensures ChargedBytes([Second(second)]) == 7
  {
    SecondFound(second);
    assert [First(first), Second(second)][1..] == [Second(second)];
  }

  lemma FirstIsStaged(config: Config, w: World)
    requires QuotaFor(config, ALICE) >= 14 && w == Loading(AccountRef("alice", 0))
    ensures var next := Do(config, w, RejectedRun()[3]);
            && next.db == Tables([First(Staging)], Billed(7, 0), {})
            && next.flights == map[0 := Waiting(0, HERS, AccountRef("alice", 0), false)]
  {
  }

  lemma FirstWaits(config: Config, w: World)
    requires w.db == Tables([First(Staging)], Billed(7, 0), {})
    requires w.flights == map[0 := Waiting(0, HERS, AccountRef("alice", 0), false)]
    ensures var next := Do(config, w, RejectedRun()[4]);
            next.db == Tables([First(Pending)], Billed(7, 0), {}) && next.flights == map[]
  {
    OneFound(Staging);
    hide Filter;
    assert WithStatus(w.db.rows, 0, Pending) == [First(Pending)];
  }

  lemma FirstIsRejected(config: Config, w: World)
    requires w.db == Tables([First(Pending)], Billed(7, 0), {}) && w.flights == map[]
    ensures var next := Do(config, w, RejectedRun()[5]);
            next.db == Tables([First(Rejected)], Billed(7, 0), {}) && next.flights == map[]
  {
    OneFound(Pending);
    hide Filter;
    assert WithStatus(w.db.rows, 0, Rejected) == [First(Rejected)];
  }

  lemma SecondLoads(config: Config, w: World)
    requires w.db == Tables([First(Rejected)], Billed(7, 0), {}) && w.flights == map[]
    ensures var next := Do(config, w, RejectedRun()[6]);
            next.db == w.db && next.flights == map[1 := Loaded(AccountRef("bob", 1), false, AccountRef("bob", 1))]
  {
  }

  lemma SecondIsStaged(config: Config, w: World)
    requires QuotaFor(config, ALICE) >= 14 && w.db == Tables([First(Rejected)], Billed(7, 0), {})
    requires w.flights == map[1 := Loaded(AccountRef("bob", 1), false, AccountRef("bob", 1))]
    ensures var next := Do(config, w, RejectedRun()[7]);
            && next.db == Tables([First(Rejected), Second(Staging)], Billed(7, 7), {})
            && next.flights == map[1 := Waiting(1, HIS, AccountRef("bob", 1), false)]
  {
    OneFound(Rejected);
    hide Filter;
  }

  lemma SecondWaits(config: Config, w: World)
    requires w.db == Tables([First(Rejected), Second(Staging)], Billed(7, 7), {})
    requires w.flights == map[1 := Waiting(1, HIS, AccountRef("bob", 1), false)]
    ensures Do(config, w, RejectedRun()[8]).db == Tables([First(Rejected), Second(Pending)], Billed(7, 7), {})
  {
    TwoFound(Rejected, Staging);
    hide Filter;
    assert WithStatus(w.db.rows, 1, Pending) == [First(Rejected), Second(Pending)];
  }

  lemma SecondIsOffered(config: Config, w: World)
    requires QuotaFor(config, ALICE) >= 14 && w.db == Tables([First(Rejected), Second(Pending)], Billed(7, 7), {})
    ensures Do(config, w, RejectedRun()[9]).db
         == Tables([First(Rejected), Second(Pending)], Billed(7, 7), {Offer(HIS, "alice", AccountRef("bob", 1))})
  {
    TwoFound(Rejected, Pending);
    hide Filter, ChargedBytes;
    assert AllRejected([First(Rejected)]);
  }

  lemma SecondMovesIn(config: Config, w: World)
    requires QuotaFor(config, ALICE) >= 14
    requires w.db == Tables([First(Rejected), Second(Pending)], Billed(7, 7), {Offer(HIS, "alice", AccountRef("bob", 1))})
    ensures Apply(config, w.db, Accepting(HIS, "alice")).Done? && !Disjoint(w.db.rows, HIS, HERS)
    ensures Do(config, w, RejectedRun()[10]).db.rows == [First(Rejected), Second(Pending).(at := HERS)]
  {
    TwoFound(Rejected, Pending);
    hide Filter, ChargedBytes, CollapsedRedirects;
    assert AllRejected([First(Rejected)]);
    assert Offer(HIS, "alice", AccountRef("bob", 1)) in w.db.offers;
    assert w.db.rows[1].at == HIS && w.db.rows[0].at == HERS;
    assert MovedRows(w.db.rows, HIS, HERS) == [First(Rejected), Second(Pending).(at := HERS)];
  }

  lemma FirstHalf(config: Config, ops: seq<Op>) returns (w6: World)
    requires QuotaFor(config, ALICE) >= 14 && ops == RejectedRun()
    ensures w6.db == Tables([First(Rejected)], Billed(7, 0), {}) && w6.flights == map[]
    ensures Run(config, EMPTY, ops) == Run(config, w6, ops[6..])
  {
    var w3 := Loading(AccountRef("alice", 0));
    StartOfRun(config, ops, AccountRef("alice", 0));
    hide Do, Apply, Tables, Billed;
    FirstIsStaged(config, w3);
    var w4 := Do(config, w3, ops[3]);
    FirstWaits(config, w4);
    var w5 := Do(config, w4, ops[4]);
    FirstIsRejected(config, w5);
    w6 := Do(config, w5, ops[5]);
    assert |ops| == 11;
    hide RejectedRun;
    RunFrom(config, w5, ops, 5);
    RunFrom(config, w4, ops, 4);
    RunFrom(config, w3, ops, 3);
  }

  lemma SecondHalf(config: Config, ops: seq<Op>, w6: World)
    requires QuotaFor(config, ALICE) >= 14 && ops == RejectedRun()
    requires w6.db == Tables([First(Rejected)], Billed(7, 0), {}) && w6.flights == map[]
    ensures Run(config, w6, ops[6..]).db.rows == [First(Rejected), Second(Pending).(at := HERS)]
  {
    hide Do, Apply, Tables, Billed;
    SecondLoads(config, w6);
    var w7 := Do(config, w6, ops[6]);
    SecondIsStaged(config, w7);
    var w8 := Do(config, w7, ops[7]);
    SecondWaits(config, w8);
    var w9 := Do(config, w8, ops[8]);
    SecondIsOffered(config, w9);
    var w10 := Do(config, w9, ops[9]);
    SecondMovesIn(config, w10);
    var w11 := Do(config, w10, ops[10]);
    assert |ops| == 11;
    hide RejectedRun;
    RunFrom(config, w11, ops, 11);
    RunFrom(config, w10, ops, 10);
    RunFrom(config, w9, ops, 9);
    RunFrom(config, w8, ops, 8);
    RunFrom(config, w7, ops, 7);
    RunFrom(config, w6, ops, 6);
  }

  /** So an address can hold a version twice: the one that was rejected there and one that moved in. */
  lemma RejectedVersionIsRepeated(config: Config)
    requires QuotaFor(config, ALICE) >= 14
    ensures var rows := Run(config, EMPTY, RejectedRun()).db.rows;
            |rows| == 2 && rows[0].at == rows[1].at && rows[0].version == rows[1].version
  {
    var ops := RejectedRun();
    hide Run, RejectedRun, Tables, Billed;
    var w6 := FirstHalf(config, ops);
    SecondHalf(config, ops, w6);
  }
}
