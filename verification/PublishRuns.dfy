/** A publish from beginning to end: what each of its operations does, whatever else runs between
    them, and that it gets there. The trust that decides between published and pending is the one
    its namespace's account had when the publish read it. */
module PublishRuns {
  import opened Options
  import opened Sorting
  import opened Registry
  import opened RegistryRuns
  import opened Outcomes

  /** Operations on this publish. */
  predicate IsAbout(op: Op, f: nat) {
    match op
    case Load(g, _, _) => g == f
    case Stage(g, _, _, _, _) => g == f
    case Promote(g) => g == f
    case Abandon(g) => g == f
    case Commit(_) => false
  }

  /** Who may begin a publish: a signed-in person, into a namespace that has an account. */
  predicate CanLoad(w: World, f: nat, ns: string, publisher: AccountRef) {
    && f !in w.flights && ns in w.db.users
    && publisher.ns in w.db.users && w.db.users[publisher.ns].serial == publisher.serial && !w.db.users[publisher.ns].organization
  }

  /** The first operation reads the account and its trust, and changes no table. */
  lemma LoadReads(config: Config, w: World, f: nat, ns: string, publisher: AccountRef)
    ensures var next := Do(config, w, Load(f, ns, publisher));
            && next.db == w.db && next.past == w.past
            && (forall g :: g in next.flights && g != f <==> g in w.flights && g != f)
            && (forall g :: g in w.flights ==> next.flights[g] == w.flights[g])
            && (f !in w.flights ==> (f in next.flights <==> CanLoad(w, f, ns, publisher)))
            && (CanLoad(w, f, ns, publisher) ==>
                  && next.flights[f].Loaded? && next.flights[f].publisher == publisher
                  && next.flights[f].owner.ns == ns && next.flights[f].owner.serial == w.db.users[ns].serial
                  && next.flights[f].trusted == w.db.users[ns].hasPublished)
  {
  }

  /** The second runs the staging transaction for what was read; a refusal ends the publish. */
  lemma StageRuns(config: Config, w: World, f: nat, id: string, version: int, blobSize: nat, sourceSize: nat)
    requires f in w.flights && w.flights[f].Loaded?
    ensures var flight, next := w.flights[f], Do(config, w, Stage(f, id, version, blobSize, sourceSize));
            var outcome := Apply(config, w.db, Publishing(flight.owner, flight.publisher, id, version, blobSize, sourceSize));
            && next.flights - {f} == w.flights - {f}
            && next.db == (if outcome.Done? then outcome.db else w.db)
            && (f in next.flights <==> outcome.Done?)
            && (outcome.Done? ==>
                  && next.flights[f].Waiting? && next.flights[f].row == w.db.nextRow
                  && next.flights[f].at.ns == flight.owner.ns && next.flights[f].at.id == id
                  && next.flights[f].owner == flight.owner && next.flights[f].trusted == flight.trusted)
  {
    hide Apply, Remembered;
  }

  /** The last promotes the row it staged, by the trust it read, and ends the publish either way. */
  lemma PromoteRuns(config: Config, w: World, f: nat)
    requires f in w.flights && w.flights[f].Waiting?
    ensures var flight, next := w.flights[f], Do(config, w, Promote(f));
            var outcome := Apply(config, w.db, Promoting(flight.row, if flight.trusted then Published else Pending));
            next.flights == w.flights - {f} && next.db == if outcome.Done? then outcome.db else w.db
  {
    hide Apply, Remembered;
  }

  /** Nothing else touches an open publish. */
  lemma OthersLeaveFlight(config: Config, w: World, op: Op, f: nat)
    requires !IsAbout(op, f)
    ensures var next := Do(config, w, op);
            (f in next.flights <==> f in w.flights) && (f in w.flights ==> next.flights[f] == w.flights[f])
  {
    hide Apply, Remembered;
  }

  lemma {:induction false} RunLeavesFlight(config: Config, w: World, ops: seq<Op>, f: nat)
    requires forall i :: 0 <= i < |ops| ==> !IsAbout(ops[i], f)
    ensures var end := Run(config, w, ops);
            (f in end.flights <==> f in w.flights) && (f in w.flights ==> end.flights[f] == w.flights[f])
    decreases |ops|
  {
    hide Do;
    if ops != [] {
      OthersLeaveFlight(config, w, ops[0], f);
      RunLeavesFlight(config, Do(config, w, ops[0]), ops[1..], f);
    }
  }

  /** A transaction that is not part of the operation it is written as. */
  lemma OnlyAFlightPublishes(config: Config, w: World, tx: Tx)
    ensures tx.Publishing? || tx.Promoting? ==> Do(config, w, Commit(tx)) == w
    ensures !tx.Publishing? && !tx.Promoting? ==>
              Do(config, w, Commit(tx)).flights == w.flights
              && Do(config, w, Commit(tx)).db == if Apply(config, w.db, tx).Done? then Apply(config, w.db, tx).db else w.db
    ensures forall f :: Do(config, w, Abandon(f)) == w.(flights := w.flights - {f})
  {
    hide Apply, Remembered;
  }

  /** Whatever runs between reading the account, staging and promoting, an approval that comes or an
      account that goes included: the version is promoted to published if the account was trusted
      when it was read, and to pending if it was not. */
  lemma TrustAsReadDecides(config: Config, w: World, f: nat, ns: string, publisher: AccountRef, between: seq<Op>,
                           id: string, version: int, blobSize: nat, sourceSize: nat, later: seq<Op>)
    requires CanLoad(w, f, ns, publisher)
    requires forall i :: 0 <= i < |between| ==> !IsAbout(between[i], f)
    requires forall i :: 0 <= i < |later| ==> !IsAbout(later[i], f)
    ensures var read := Run(config, Do(config, w, Load(f, ns, publisher)), between);
            var staged := Do(config, read, Stage(f, id, version, blobSize, sourceSize));
            var end := Run(config, staged, later);
            f in staged.flights ==>
              var outcome := Apply(config, end.db, Promoting(read.db.nextRow, if w.db.users[ns].hasPublished then Published else Pending));
              Do(config, end, Promote(f)).db == if outcome.Done? then outcome.db else end.db
  {
    hide Do, Run, Apply;
    LoadReads(config, w, f, ns, publisher);
    var loaded := Do(config, w, Load(f, ns, publisher));
    RunLeavesFlight(config, loaded, between, f);
    var read := Run(config, loaded, between);
    StageRuns(config, read, f, id, version, blobSize, sourceSize);
    var staged := Do(config, read, Stage(f, id, version, blobSize, sourceSize));
    if f in staged.flights {
      RunLeavesFlight(config, staged, later, f);
      PromoteRuns(config, Run(config, staged, later), f);
    }
  }

  lemma LastRowIsPromoted(config: Config, db: Db, rows: seq<Row>, row: Row, status: Status)
    requires DistinctIds(db.rows) && db.rows == rows + [row]
    requires forall other :: other in rows && other.publisher == row.publisher ==> other.status !in {Staging, Pending}
    ensures var outcome := Apply(config, db, Promoting(row.id, status));
            outcome.Done? && outcome.db.rows == rows + [row.(status := status)]
  {
    assert row in db.rows;
    assert forall other :: other in db.rows ==> other in rows || other == row;
    forall i | 0 <= i < |rows| ensures rows[i].id != row.id {
      assert db.rows[i].id != db.rows[|rows|].id;
    }
    hide Apply, DistinctIds;
    Promotes(config, db, row, status);
    var after := Apply(config, db, Promoting(row.id, status)).db;
    assert forall i :: 0 <= i < |rows| ==> db.rows[i] == rows[i];
    assert after.rows == rows + [row.(status := status)];
  }

  lemma StagedRowIsFound(config: Config, db: Db, owner: AccountRef, publisher: AccountRef, id: string, version: int,
                         blobSize: nat, sourceSize: nat, status: Status)
    requires WellFormed(db) && status in {Published, Pending}
    requires !Exists(db, publisher) || !db.users[publisher.ns].organization
    requires Apply(config, db, Publishing(owner, publisher, id, version, blobSize, sourceSize)).Done?
    ensures var staged := Apply(config, db, Publishing(owner, publisher, id, version, blobSize, sourceSize)).db;
            var outcome := Apply(config, staged, Promoting(db.nextRow, status));
            && outcome.Done? && |outcome.db.rows| == |db.rows| + 1 && outcome.db.rows[..|db.rows|] == db.rows
            && outcome.db.rows[|db.rows|] == Row(db.nextRow, publisher, Address(owner.ns, id), version, status, blobSize, sourceSize)
  {
    var tx := Publishing(owner, publisher, id, version, blobSize, sourceSize);
    TxKeepsWellFormed(config, db, tx);
    hide Apply;
    StagesExactly(config, db, owner, publisher, id, version, blobSize, sourceSize);
    StagingChanges(config, db, owner, publisher, id, version, blobSize, sourceSize);
    hide HasRoom;
    var staged := Apply(config, db, tx).db;
    var row := staged.rows[|db.rows|];
    assert staged.rows == db.rows + [row];
    assert row == Row(db.nextRow, publisher, Address(owner.ns, id), version, Staging, blobSize, sourceSize);
    LastRowIsPromoted(config, staged, db.rows, row, status);
  }

  /** A publish that nothing stops goes all the way: its version is there under its address, published
      if its account was trusted and pending review if not, and nothing else about a row changes. */
  lemma PublishCanFinish(config: Config, ops: seq<Op>, f: nat, ns: string, publisher: AccountRef, id: string, version: int,
                         blobSize: nat, sourceSize: nat)
    requires var w := Run(config, EMPTY, ops);
             && CanLoad(w, f, ns, publisher)
             && Apply(config, w.db, Publishing(AccountRef(ns, w.db.users[ns].serial), publisher, id, version, blobSize, sourceSize)).Done?
    ensures var w := Run(config, EMPTY, ops);
            var end := Do(config, Do(config, Do(config, w, Load(f, ns, publisher)), Stage(f, id, version, blobSize, sourceSize)), Promote(f));
            && |end.db.rows| == |w.db.rows| + 1 && end.db.rows[..|w.db.rows|] == w.db.rows
            && end.db.rows[|w.db.rows|]
               == Row(w.db.nextRow, publisher, Address(ns, id), version,
                      if w.db.users[ns].hasPublished then Published else Pending, blobSize, sourceSize)
            && f !in end.flights
  {
    hide Run, Do, Apply;
    var w := Run(config, EMPTY, ops);
    EmptyIsSound();
    RunKeepsSound(config, EMPTY, ops);
    LoadReads(config, w, f, ns, publisher);
    var loaded := Do(config, w, Load(f, ns, publisher));
    var flight := loaded.flights[f];
    assert flight.owner == AccountRef(ns, w.db.users[ns].serial);
    StageRuns(config, loaded, f, id, version, blobSize, sourceSize);
    var staged := Do(config, loaded, Stage(f, id, version, blobSize, sourceSize));
    PromoteRuns(config, staged, f);
    StagedRowIsFound(config, w.db, flight.owner, publisher, id, version, blobSize, sourceSize,
                     if flight.trusted then Published else Pending);
  }
}
