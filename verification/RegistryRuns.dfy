/** Runs of the registry: publishes as their separate transactions, interleaved with everything
    else, and the history the invariants are stated against. */
module RegistryRuns {
  import opened Options
  import opened Sorting
  import opened Registry

  /** A publish between its transactions. The trust that decides its final status is read with
      the namespace account, before anything is staged. */
  datatype Flight =
    | Loaded(owner: AccountRef, trusted: bool, publisher: AccountRef)
    | Waiting(row: nat, at: Address, owner: AccountRef, trusted: bool)

  /** An address change, or an organization going with every redirect that named it. */
  datatype Move = Moved(source: Address, dest: Address) | Dissolved(ns: string)

  /** What happened so far: the moves in order, the accounts an admin approved a version for, the
      rows an admin approved, the rows that have ever been public, and the account each row was
      staged into. */
  datatype History = History(moves: seq<Move>, approvals: set<AccountRef>, approvedRows: set<nat>,
                             publicRows: set<nat>, stagedInto: map<nat, AccountRef>)

  datatype World = World(db: Db, flights: map<nat, Flight>, past: History)

  /** A publish moves through its flight; every other transaction stands alone. */
  datatype Op =
    | Load(flight: nat, ns: string, publisher: AccountRef)
    | Stage(flight: nat, id: string, version: int, blobSize: nat, sourceSize: nat)
    | Promote(flight: nat)
    | Abandon(flight: nat)
    | Commit(tx: Tx)

  predicate IsPublic(status: Status) {
    status in {Published, Deprecated, Yanked}
  }

  function PublicIds(rows: seq<Row>): set<nat> {
    set i | 0 <= i < |rows| && IsPublic(rows[i].status) :: rows[i].id
  }

  function AccountOf(db: Db, ns: string): set<AccountRef> {
    if ns in db.users then {AccountRef(ns, db.users[ns].serial)} else {}
  }

  function Remembered(past: History, db: Db, tx: Tx, after: Db): History {
    var seen := past.(publicRows := past.publicRows + PublicIds(after.rows));
    match tx
    case Publishing(owner, _, _, _, _, _) => seen.(stagedInto := past.stagedInto[db.nextRow := owner])
    case Reviewing(row, true) =>
      var found := Filter(db.rows, IsRow(row));
      if found == [] then seen
      else seen.(approvedRows := past.approvedRows + {row},
                 approvals := past.approvals + AccountOf(db, found[0].at.ns))
    case Accepting(source, to) => seen.(moves := past.moves + [Moved(source, Address(to, source.id))])
    case ClosingOrganization(ns) => seen.(moves := past.moves + [Dissolved(ns)])
    case _ => seen
  }

  /** A transaction that commits replaces the tables; one that refuses leaves them alone. */
  function After(config: Config, w: World, tx: Tx): World {
    var outcome := Apply(config, w.db, tx);
    if outcome.Done? then w.(db := outcome.db, past := Remembered(w.past, w.db, tx, outcome.db)) else w
  }

  function StageTx(flight: Flight, op: Op): Tx
    requires flight.Loaded? && op.Stage?
  {
    Publishing(flight.owner, flight.publisher, op.id, op.version, op.blobSize, op.sourceSize)
  }

  function PromoteTx(flight: Flight): Tx
    requires flight.Waiting?
  {
    Promoting(flight.row, if flight.trusted then Published else Pending)
  }

  function Do(config: Config, w: World, op: Op): World {
    match op
    case Load(f, ns, publisher) =>
      // Only people sign in, so an organization never publishes as itself.
      if f in w.flights || ns !in w.db.users || !Exists(w.db, publisher) || w.db.users[publisher.ns].organization then w
      else w.(flights := w.flights[f := Loaded(AccountRef(ns, w.db.users[ns].serial), w.db.users[ns].hasPublished, publisher)])
    case Stage(f, id, _, _, _) =>
      if f !in w.flights || !w.flights[f].Loaded? then w
      else
        var flight, tx := w.flights[f], StageTx(w.flights[f], op);
        if Apply(config, w.db, tx).Refused? then w.(flights := w.flights - {f})
        else After(config, w, tx).(
          flights := w.flights[f := Waiting(w.db.nextRow, Address(flight.owner.ns, id), flight.owner, flight.trusted)])
    case Promote(f) =>
      if f !in w.flights || !w.flights[f].Waiting? then w
      else After(config, w, PromoteTx(w.flights[f])).(flights := w.flights - {f})
    case Abandon(f) => w.(flights := w.flights - {f})
    case Commit(tx) => if tx.Publishing? || tx.Promoting? then w else After(config, w, tx)
  }

  function Run(config: Config, w: World, ops: seq<Op>): World
    decreases |ops|
  {
    if ops == [] then w else Run(config, Do(config, w, ops[0]), ops[1..])
  }

  const EMPTY := World(Db(map[], [], map[], {}, 0, 0), map[], History([], {}, {}, {}, map[]))

  /** Whoever signs up finds no bytes of a deleted account's co-owners under the name. */
  predicate IsClean(db: Db, tx: Tx) {
    tx.Opening? && tx.ns !in db.users ==> ChargeIn(db.rows, tx.ns) == 0
  }

  /** A run in which every signup finds its namespace holding no bytes. */
  predicate CleanRun(config: Config, w: World, ops: seq<Op>)
    decreases |ops|
  {
    ops == [] ||
    (&& (ops[0].Commit? ==> IsClean(w.db, ops[0].tx))
     && CleanRun(config, Do(config, w, ops[0]), ops[1..]))
  }

  // ----------------------------------------------------------- row tables

  predicate DistinctIds(rows: seq<Row>) {
    forall i, j :: 0 <= i < j < |rows| ==> rows[i].id != rows[j].id
  }

  /** Foreign keys and sequences: what the schema itself keeps true. */
  predicate WellFormed(db: Db) {
    && DistinctIds(db.rows)
    && (forall i :: 0 <= i < |db.rows| ==>
          && db.rows[i].id < db.nextRow
          && Exists(db, db.rows[i].publisher) && !db.users[db.rows[i].publisher.ns].organization)
    && (forall ns :: ns in db.users ==> db.users[ns].serial < db.nextSerial)
    && (forall o :: o in db.offers ==> o.to != o.source.ns)
  }

  /** The publisher a staging transaction names is a person who signed in; whether the account is
      still there is the transaction's own check. */
  predicate ByPerson(db: Db, tx: Tx) {
    tx.Publishing? && Exists(db, tx.publisher) ==> !db.users[tx.publisher.ns].organization
  }

  lemma {:induction false} FilterKeepsIds(rows: seq<Row>, p: Row -> bool)
    ensures DistinctIds(rows) ==> DistinctIds(Filter(rows, p))
    ensures forall i :: 0 <= i < |Filter(rows, p)| ==> Filter(rows, p)[i] in rows && p(Filter(rows, p)[i])
    ensures forall row :: row in rows && p(row) ==> row in Filter(rows, p)
  {
    if rows != [] {
      FilterKeepsIds(rows[1..], p);
      var rest := Filter(rows[1..], p);
      if DistinctIds(rows) {
        forall j | 0 <= j < |rest| ensures rest[j].id != rows[0].id {
          assert rest[j] in rows[1..];
        }
      }
    }
  }

  lemma FoundRow(rows: seq<Row>, id: nat)
    ensures Filter(rows, IsRow(id)) != [] ==>
              Filter(rows, IsRow(id))[0] in rows && Filter(rows, IsRow(id))[0].id == id
    ensures forall i :: 0 <= i < |rows| && rows[i].id == id ==> Filter(rows, IsRow(id)) != []
    ensures DistinctIds(rows) ==> forall i :: 0 <= i < |rows| && rows[i].id == id ==> Filter(rows, IsRow(id))[0] == rows[i]
  {
    FilterKeepsIds(rows, IsRow(id));
    var found := Filter(rows, IsRow(id));
    forall i | 0 <= i < |rows| && rows[i].id == id ensures found != [] {
      assert rows[i] in found;
    }
    if DistinctIds(rows) && found != [] {
      assert found[0] in rows;
      var k :| 0 <= k < |rows| && rows[k] == found[0];
      forall i | 0 <= i < |rows| && rows[i].id == id ensures found[0] == rows[i] {
        assert rows[i].id == rows[k].id;
      }
    }
  }

  lemma NoStagingFound(rows: seq<Row>, at: Address)
    requires !HasStaging(Filter(rows, AtAddress(at)))
    ensures forall i :: 0 <= i < |rows| && rows[i].at == at ==> rows[i].status != Staging
  {
    FilterKeepsIds(rows, AtAddress(at));
    forall i | 0 <= i < |rows| && rows[i].at == at ensures rows[i].status != Staging {
      assert rows[i] in Filter(rows, AtAddress(at));
    }
  }

  /** Rows that keep their ids and publishers, over accounts that keep their identity. */
  predicate SamePeople(a: Db, b: Db) {
    && |a.rows| == |b.rows| && a.nextRow <= b.nextRow && a.nextSerial <= b.nextSerial
    && (forall i :: 0 <= i < |a.rows| ==> b.rows[i].id == a.rows[i].id && b.rows[i].publisher == a.rows[i].publisher)
    && a.users.Keys == b.users.Keys
    && (forall ns :: ns in a.users ==>
          b.users[ns].serial == a.users[ns].serial && b.users[ns].organization == a.users[ns].organization)
    && (forall o :: o in b.offers ==> o.to != o.source.ns)
  }

  lemma SamePeopleStayWellFormed(a: Db, b: Db)
    requires WellFormed(a) && SamePeople(a, b)
    ensures WellFormed(b)
  {
  }

  predicate IsDeletion(tx: Tx) {
    tx.Deleting? || tx.ClosingAccount? || tx.ClosingOrganization? || (tx.Reconciling? && !tx.complete)
  }

  lemma RelabelsKeepPeople(config: Config, db: Db, tx: Tx)
    requires WellFormed(db) && Apply(config, db, tx).Done?
    requires tx.Promoting? || tx.Reviewing? || tx.Relabeling? || (tx.Reconciling? && tx.complete)
    ensures SamePeople(db, Apply(config, db, tx).db)
  {
    hide Filter, HoldsUnsettled;
  }

  lemma TransfersKeepPeople(config: Config, db: Db, tx: Tx)
    requires WellFormed(db) && Apply(config, db, tx).Done?
    requires tx.Accepting? || tx.Offering? || tx.Withdrawing? || tx.Limiting?
    ensures SamePeople(db, Apply(config, db, tx).db)
  {
    hide Filter, CollapsedRedirects, ChargedBytes, DestinationIsFree, HasStaging;
  }

  lemma UpdatesKeepWellFormed(config: Config, db: Db, tx: Tx)
    requires WellFormed(db) && !tx.Opening? && !tx.Publishing? && !IsDeletion(tx)
    ensures Apply(config, db, tx).Done? ==> WellFormed(Apply(config, db, tx).db)
  {
    hide Apply, WellFormed, SamePeople;
    if Apply(config, db, tx).Done? {
      if tx.Accepting? || tx.Offering? || tx.Withdrawing? || tx.Limiting? {
        TransfersKeepPeople(config, db, tx);
      } else {
        RelabelsKeepPeople(config, db, tx);
      }
      SamePeopleStayWellFormed(db, Apply(config, db, tx).db);
    }
  }

  /** Rows that are some of the rows there were, published by accounts that are still there. */
  lemma FewerRowsStayWellFormed(a: Db, b: Db)
    requires WellFormed(a) && DistinctIds(b.rows) && a.nextRow == b.nextRow && a.nextSerial == b.nextSerial
    requires forall i :: 0 <= i < |b.rows| ==>
               b.rows[i] in a.rows && Exists(b, b.rows[i].publisher) && !b.users[b.rows[i].publisher.ns].organization
    requires forall ns :: ns in b.users ==> ns in a.users && b.users[ns].serial == a.users[ns].serial
    requires b.offers <= a.offers
    ensures WellFormed(b)
  {
  }

  lemma DeletionsKeepWellFormed(config: Config, db: Db, tx: Tx)
    requires WellFormed(db) && IsDeletion(tx)
    ensures Apply(config, db, tx).Done? ==> WellFormed(Apply(config, db, tx).db)
  {
    hide Filter, ChargedBytes, HasStaging;
    var outcome := Apply(config, db, tx);
    if outcome.Done? {
      match tx
      case Deleting(at) => FilterKeepsIds(db.rows, NotAtAddress(at));
      case Reconciling(row, _) => FilterKeepsIds(db.rows, IsNotRow(row));
      case ClosingAccount(account, _) => FilterKeepsIds(db.rows, NotPublishedBy(account));
      case ClosingOrganization(ns) =>
        FilterKeepsIds(db.rows, NotInNamespace(ns));
        FilterKeepsIds(Filter(db.rows, NotInNamespace(ns)), NotPublishedBy(AccountRef(ns, db.users[ns].serial)));
      FewerRowsStayWellFormed(db, outcome.db);
    }
  }

  lemma AdditionsKeepWellFormed(config: Config, db: Db, tx: Tx)
    requires WellFormed(db) && ByPerson(db, tx) && (tx.Opening? || tx.Publishing?)
    ensures Apply(config, db, tx).Done? ==> WellFormed(Apply(config, db, tx).db)
  {
    hide Filter, ExceedsAll, HoldsUnsettled;
  }

  lemma TxKeepsWellFormed(config: Config, db: Db, tx: Tx)
    requires WellFormed(db) && ByPerson(db, tx)
    ensures Apply(config, db, tx).Done? ==> WellFormed(Apply(config, db, tx).db)
  {
    hide Apply, WellFormed;
    if IsDeletion(tx) {
      DeletionsKeepWellFormed(config, db, tx);
    } else if tx.Opening? || tx.Publishing? {
      AdditionsKeepWellFormed(config, db, tx);
    } else {
      UpdatesKeepWellFormed(config, db, tx);
    }
  }

  // ---------------------------------------------------------------- steps

  /** The transaction an operation runs, if it runs one. */
  function TxOf(w: World, op: Op): Option<Tx> {
    match op
    case Load(_, _, _) => None
    case Stage(f, _, _, _, _) => if f in w.flights && w.flights[f].Loaded? then Some(StageTx(w.flights[f], op)) else None
    case Promote(f) => if f in w.flights && w.flights[f].Waiting? then Some(PromoteTx(w.flights[f])) else None
    case Abandon(_) => None
    case Commit(tx) => if tx.Publishing? || tx.Promoting? then None else Some(tx)
  }

  /** The tables after an operation: those of the transaction it ran if that committed. */
  function NextDb(config: Config, w: World, op: Op): Db {
    var tx := TxOf(w, op);
    if tx.None? || Apply(config, w.db, tx.value).Refused? then w.db else Apply(config, w.db, tx.value).db
  }

  function NextPast(config: Config, w: World, op: Op): History {
    var tx := TxOf(w, op);
    if tx.None? || Apply(config, w.db, tx.value).Refused? then w.past
    else Remembered(w.past, w.db, tx.value, Apply(config, w.db, tx.value).db)
  }

  lemma DoRunsItsTx(config: Config, w: World, op: Op)
    ensures Do(config, w, op).db == NextDb(config, w, op) && Do(config, w, op).past == NextPast(config, w, op)
  {
    hide Apply, Remembered;
  }

  /** Whoever holds a publish open signed in as a person. */
  predicate FlightsByPeople(w: World) {
    forall f :: f in w.flights && w.flights[f].Loaded? ==>
      var publisher := w.flights[f].publisher;
      && publisher.serial < w.db.nextSerial
      && (Exists(w.db, publisher) ==> !w.db.users[publisher.ns].organization)
  }

  predicate Sound(w: World) {
    WellFormed(w.db) && FlightsByPeople(w)
  }

  /** Accounts keep their kind, and a serial number is never handed out twice. */
  predicate PeopleStay(a: Db, b: Db) {
    && a.nextSerial <= b.nextSerial
    && (forall ns :: ns in b.users && b.users[ns].serial < a.nextSerial ==>
          ns in a.users && a.users[ns].serial == b.users[ns].serial && a.users[ns].organization == b.users[ns].organization)
  }

  lemma DeletionsKeepPeople(config: Config, db: Db, tx: Tx)
    requires WellFormed(db) && Apply(config, db, tx).Done? && IsDeletion(tx)
    ensures PeopleStay(db, Apply(config, db, tx).db)
  {
    hide Filter, ChargedBytes, ChargeIn, HasStaging;
  }

  lemma AdditionsKeepPeople(config: Config, db: Db, tx: Tx)
    requires WellFormed(db) && Apply(config, db, tx).Done? && (tx.Opening? || tx.Publishing?)
    ensures PeopleStay(db, Apply(config, db, tx).db)
  {
    hide Filter, HoldsUnsettled, ExceedsAll;
  }

  lemma TxKeepsPeople(config: Config, db: Db, tx: Tx)
    requires WellFormed(db)
    ensures Apply(config, db, tx).Done? ==> PeopleStay(db, Apply(config, db, tx).db)
  {
    hide Apply, WellFormed;
    if Apply(config, db, tx).Done? {
      if IsDeletion(tx) {
        DeletionsKeepPeople(config, db, tx);
      } else if tx.Opening? || tx.Publishing? {
        AdditionsKeepPeople(config, db, tx);
      } else if tx.Accepting? || tx.Offering? || tx.Withdrawing? || tx.Limiting? {
        TransfersKeepPeople(config, db, tx);
      } else {
        RelabelsKeepPeople(config, db, tx);
      }
    }
  }

  lemma OpIsByPerson(w: World, op: Op)
    requires Sound(w)
    ensures TxOf(w, op).Some? ==> ByPerson(w.db, TxOf(w, op).value)
  {
  }

  lemma DoKeepsSound(config: Config, w: World, op: Op)
    requires Sound(w)
    ensures Sound(Do(config, w, op))
    ensures PeopleStay(w.db, Do(config, w, op).db)
  {
    var next := Do(config, w, op);
    var tx := TxOf(w, op);
    DoRunsItsTx(config, w, op);
    OpIsByPerson(w, op);
    if tx.Some? {
      TxKeepsWellFormed(config, w.db, tx.value);
      TxKeepsPeople(config, w.db, tx.value);
    }
    assert PeopleStay(w.db, w.db);
    hide Apply, Remembered, PeopleStay;
    assert WellFormed(next.db);
    FlightsStayPeople(config, w, op);
  }

  lemma FlightsStayPeople(config: Config, w: World, op: Op)
    requires Sound(w) && PeopleStay(w.db, Do(config, w, op).db)
    ensures FlightsByPeople(Do(config, w, op))
  {
    hide Apply, Remembered;
    var next := Do(config, w, op);
    forall f | f in next.flights && next.flights[f].Loaded?
      ensures next.flights[f].publisher.serial < next.db.nextSerial
      ensures Exists(next.db, next.flights[f].publisher) ==> !next.db.users[next.flights[f].publisher.ns].organization
    {
      if f in w.flights {
        assert next.flights[f] == w.flights[f];
      } else {
        assert op.Load? && next.db == w.db;
      }
    }
  }

  lemma {:induction false} RunKeepsSound(config: Config, w: World, ops: seq<Op>)
    requires Sound(w)
    ensures Sound(Run(config, w, ops))
    decreases |ops|
  {
    hide Do, Sound;
    if ops != [] {
      DoKeepsSound(config, w, ops[0]);
      RunKeepsSound(config, Do(config, w, ops[0]), ops[1..]);
    }
  }

  lemma EmptyIsSound()
    ensures Sound(EMPTY)
  {
  }
}
