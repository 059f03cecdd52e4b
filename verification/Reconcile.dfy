/** The staging pass of reconcileOnBoot: a loop over a snapshot of aged staging rows, and the one
    pass over the version table it amounts to. */
module Reconcile {
  import opened Options
  import opened Sorting
  import opened Registry
  import opened RegistryRuns

  /** The staging rows a boot finds old enough. */
  function AgedStaging(rows: seq<Row>, aged: set<nat>): seq<Row> {
    Filter(rows, (row: Row) => row.status == Staging && row.id in aged)
  }

  /** The loop: one row of the snapshot after another. */
  function ReconcileAll(db: Db, staging: seq<Row>, complete: set<nat>): Db
    decreases |staging|
  {
    if staging == [] then db
    else
      var outcome := ReconcileRow(db, staging[0].id, staging[0].id in complete);
      ReconcileAll(if outcome.Done? then outcome.db else db, staging[1..], complete)
  }

  predicate Trusted(users: map<string, Account>, ns: string) {
    ns in users && users[ns].hasPublished
  }

  /** What the pass makes of the table: the named rows are promoted by the trust their namespace
      has, or dropped when a file is missing, and every other row is as it was. */
  function Settled(rows: seq<Row>, users: map<string, Account>, ids: set<nat>, complete: set<nat>): seq<Row>
    decreases |rows|
  {
    if rows == [] then []
    else
      var rest := Settled(rows[1..], users, ids, complete);
      if rows[0].id !in ids then [rows[0]] + rest
      else if rows[0].id !in complete then rest
      else [rows[0].(status := if Trusted(users, rows[0].at.ns) then Published else Pending)] + rest
  }

  ghost predicate SameTrust(a: map<string, Account>, b: map<string, Account>) {
    forall ns :: (Trusted(a, ns) <==> Trusted(b, ns))
  }

  lemma {:induction false} SettledSameTrust(rows: seq<Row>, a: map<string, Account>, b: map<string, Account>, ids: set<nat>, complete: set<nat>)
    requires SameTrust(a, b)
    ensures Settled(rows, a, ids, complete) == Settled(rows, b, ids, complete)
  {
    if rows != [] {
      SettledSameTrust(rows[1..], a, b, ids, complete);
      assert Trusted(a, rows[0].at.ns) <==> Trusted(b, rows[0].at.ns);
    }
  }

  lemma {:induction false} SettledAfterPromotion(rows: seq<Row>, users: map<string, Account>, id: nat, status: Status, ids: set<nat>, complete: set<nat>)
    requires id !in ids && id in complete
    requires forall i :: 0 <= i < |rows| && rows[i].id == id ==> status == if Trusted(users, rows[i].at.ns) then Published else Pending
    ensures Settled(WithStatus(rows, id, status), users, ids, complete) == Settled(rows, users, ids + {id}, complete)
  {
    if rows != [] {
      var out := WithStatus(rows, id, status);
      assert out[1..] == WithStatus(rows[1..], id, status);
      SettledAfterPromotion(rows[1..], users, id, status, ids, complete);
    }
  }

  lemma {:induction false} SettledAfterDrop(rows: seq<Row>, users: map<string, Account>, id: nat, ids: set<nat>, complete: set<nat>)
    requires id !in ids && id !in complete
    ensures Settled(Filter(rows, IsNotRow(id)), users, ids, complete) == Settled(rows, users, ids + {id}, complete)
  {
    if rows != [] {
      SettledAfterDrop(rows[1..], users, id, ids, complete);
      var rest := Filter(rows[1..], IsNotRow(id));
      if rows[0].id != id {
        assert Filter(rows, IsNotRow(id)) == [rows[0]] + rest;
        assert ([rows[0]] + rest)[1..] == rest;
      } else {
        assert Filter(rows, IsNotRow(id)) == rest;
      }
    }
  }

  function Ids(rows: seq<Row>): set<nat> {
    set i | 0 <= i < |rows| :: rows[i].id
  }

  /** The snapshot, still as it was read. */
  ghost predicate Snapshot(rows: seq<Row>, staging: seq<Row>) {
    && DistinctIds(rows) && DistinctIds(staging)
    && (forall row :: row in staging ==> row in rows && row.status == Staging)
  }

  lemma SnapshotHead(rows: seq<Row>, staging: seq<Row>)
    requires Snapshot(rows, staging) && staging != []
    ensures DistinctIds(rows) && staging[0] in rows && staging[0].status == Staging
    ensures staging[0].id !in Ids(staging[1..])
  {
    assert staging[0] in staging;
  }

  /** One row of the loop. */
  lemma StepSettles(db: Db, staging: seq<Row>, complete: set<nat>)
    requires Snapshot(db.rows, staging) && staging != []
    ensures var outcome := ReconcileRow(db, staging[0].id, staging[0].id in complete);
            && outcome.Done? && Snapshot(outcome.db.rows, staging[1..]) && SameTrust(db.users, outcome.db.users)
            && Settled(outcome.db.rows, outcome.db.users, Ids(staging[1..]), complete)
               == Settled(db.rows, db.users, Ids(staging), complete)
  {
    hide Filter, Settled, Snapshot, Ids;
    var id := staging[0].id;
    IdsSplit(staging);
    SnapshotHead(db.rows, staging);
    FoundSnapshot(db.rows, staging[0]);
    SnapshotStays(db.rows, staging);
    var outcome := ReconcileRow(db, id, id in complete);
    assert SameTrust(db.users, outcome.db.users);
    SettledSameTrust(outcome.db.rows, db.users, outcome.db.users, Ids(staging[1..]), complete);
    if id in complete {
      var status := if Trusted(db.users, staging[0].at.ns) then Published else Pending;
      forall i | 0 <= i < |db.rows| && db.rows[i].id == id ensures db.rows[i] == staging[0] {
        FoundSnapshot(db.rows, db.rows[i]);
      }
      SettledAfterPromotion(db.rows, db.users, id, status, Ids(staging[1..]), complete);
    } else {
      SettledAfterDrop(db.rows, db.users, id, Ids(staging[1..]), complete);
    }
  }

  lemma IdsSplit(staging: seq<Row>)
    requires staging != []
    ensures Ids(staging) == Ids(staging[1..]) + {staging[0].id}
  {
    forall id | id in Ids(staging) ensures id in Ids(staging[1..]) + {staging[0].id} {
      var i :| 0 <= i < |staging| && staging[i].id == id;
      if i > 0 {
        assert staging[1..][i - 1].id == id;
      }
    }
  }

  lemma SnapshotStays(rows: seq<Row>, staging: seq<Row>)
    requires Snapshot(rows, staging) && staging != []
    ensures forall status :: Snapshot(WithStatus(rows, staging[0].id, status), staging[1..])
    ensures Snapshot(Filter(rows, IsNotRow(staging[0].id)), staging[1..])
  {
    hide Filter;
    FilterKeepsIds(rows, IsNotRow(staging[0].id));
    forall row | row in staging[1..] ensures row in staging && row.id != staging[0].id {
      var k :| 0 <= k < |staging[1..]| && staging[1..][k] == row;
      assert staging[k + 1] == row;
    }
    forall status, row | row in staging[1..] ensures row in WithStatus(rows, staging[0].id, status) {
      assert row in rows;
      var j :| 0 <= j < |rows| && rows[j] == row;
      assert WithStatus(rows, staging[0].id, status)[j] == row;
    }
  }

  lemma {:induction false} LoopSettles(db: Db, staging: seq<Row>, complete: set<nat>)
    requires Snapshot(db.rows, staging)
    ensures ReconcileAll(db, staging, complete).rows == Settled(db.rows, db.users, Ids(staging), complete)
    ensures SameTrust(db.users, ReconcileAll(db, staging, complete).users)
    decreases |staging|
  {
    assert staging == [] ==> Ids(staging) == {};
    hide Snapshot, Ids;
    if staging == [] {
      SettledNothing(db.rows, db.users, complete);
    } else {
      StepSettles(db, staging, complete);
      LoopSettles(ReconcileRow(db, staging[0].id, staging[0].id in complete).db, staging[1..], complete);
    }
  }

  lemma {:induction false} SettledNothing(rows: seq<Row>, users: map<string, Account>, complete: set<nat>)
    ensures Settled(rows, users, {}, complete) == rows
  {
    if rows != [] {
      SettledNothing(rows[1..], users, complete);
    }
  }

  /** The loop is one pass: every aged staging row is settled once, by its own files and its own
      namespace's trust, and no other row is touched. */
  lemma ReconcileIsOnePass(db: Db, aged: set<nat>, complete: set<nat>)
    requires DistinctIds(db.rows)
    ensures ReconcileAll(db, AgedStaging(db.rows, aged), complete).rows
         == Settled(db.rows, db.users, Ids(AgedStaging(db.rows, aged)), complete)
    ensures forall id :: id in Ids(AgedStaging(db.rows, aged)) <==>
              id in aged && exists row :: row in db.rows && row.id == id && row.status == Staging
  {
    hide AgedStaging;
    StagingSnapshot(db.rows, aged);
    var staging := AgedStaging(db.rows, aged);
    LoopSettles(db, staging, complete);
    forall id ensures id in Ids(staging) <==> id in aged && exists row :: row in db.rows && row.id == id && row.status == Staging {
      if id in aged && exists row :: row in db.rows && row.id == id && row.status == Staging {
        var row :| row in db.rows && row.id == id && row.status == Staging;
        assert row in staging;
        var k :| 0 <= k < |staging| && staging[k] == row;
        assert staging[k].id == id;
      }
    }
  }

  lemma {:induction false} SettledRow(rows: seq<Row>, users: map<string, Account>, ids: set<nat>, complete: set<nat>, row: Row)
    requires DistinctIds(rows)
    ensures row in Settled(rows, users, ids, complete) <==>
              || (row in rows && row.id !in ids)
              || (row.id in ids && row.id in complete && exists was ::
                    was in rows && was.id == row.id && row == was.(status := if Trusted(users, was.at.ns) then Published else Pending))
  {
    if rows != [] {
      SettledRow(rows[1..], users, ids, complete, row);
      assert rows == [rows[0]] + rows[1..];
    }
  }

  /** What a boot leaves, row by row: an aged staging row with its files is published if its namespace
      has a trusted account and pending if not, one with a file missing is gone, and any other row is
      as it was. */
  lemma BootSettlesEachRow(db: Db, aged: set<nat>, complete: set<nat>, row: Row)
    requires DistinctIds(db.rows) && row in db.rows
    ensures var after := ReconcileAll(db, AgedStaging(db.rows, aged), complete).rows;
            if row.status != Staging || row.id !in aged then row in after
            else if row.id !in complete then forall other :: other in after ==> other.id != row.id
            else if row.at.ns in db.users && db.users[row.at.ns].hasPublished then row.(status := Published) in after
            else row.(status := Pending) in after
  {
    ReconcileIsOnePass(db, aged, complete);
    var ids, after := Ids(AgedStaging(db.rows, aged)), ReconcileAll(db, AgedStaging(db.rows, aged), complete).rows;
    hide ReconcileAll, AgedStaging, Settled, Ids;
    assert row.id in ids <==> row.status == Staging && row.id in aged by {
      OneRowOfAnId(db.rows, row);
    }
    SettledRow(db.rows, db.users, ids, complete, row);
    SettledRow(db.rows, db.users, ids, complete, row.(status := Published));
    SettledRow(db.rows, db.users, ids, complete, row.(status := Pending));
    forall other | row.id in ids && row.id !in complete && other in after ensures other.id != row.id {
      SettledRow(db.rows, db.users, ids, complete, other);
    }
  }

  lemma OneRowOfAnId(rows: seq<Row>, row: Row)
    requires DistinctIds(rows) && row in rows
    ensures forall other :: other in rows && other.id == row.id ==> other == row
  {
  }

  lemma StagingSnapshot(rows: seq<Row>, aged: set<nat>)
    ensures forall row :: row in AgedStaging(rows, aged) <==> row in rows && row.status == Staging && row.id in aged
    ensures DistinctIds(rows) ==> Snapshot(rows, AgedStaging(rows, aged))
  {
    hide Filter;
    var p := (row: Row) => row.status == Staging && row.id in aged;
    FilterKeepsIds(rows, p);
    FilterMembers(rows, p);
  }

  lemma FoundSnapshot(rows: seq<Row>, row: Row)
    requires DistinctIds(rows) && row in rows
    ensures Filter(rows, IsRow(row.id)) != [] && Filter(rows, IsRow(row.id))[0] == row
  {
    FoundRow(rows, row.id);
  }
}
