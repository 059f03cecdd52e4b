/** The registry's transactions as the statements they are: each reads, checks and writes the
    tables in the order the source does, and is proved to have the effect Registry gives it. A
    thrown error rolls the transaction back. */
module RegistryService {
  import opened Options
  import opened Sorting
  import opened Registry
  import opened RegistryRuns
  import opened Reconcile
  import opened Outcomes
  import Health
  import Redirects
  import Transfers
  import VersionRules

  /** chargedBytes: what an extension's versions are charged, one by one. */
  method SumCharges(versions: seq<Row>) returns (sum: nat)
    ensures sum == ChargedBytes(versions)
  {
    sum := 0;
    for i := 0 to |versions|
      invariant sum + ChargedBytes(versions[i..]) == ChargedBytes(versions)
    {
      assert versions[i..][1..] == versions[i + 1..];
      sum := sum + versions[i].blobSize + versions[i].sourceSize;
    }
  }

  /** maxVersionBySemver: the highest of the versions, or none. */
  method Ceiling(versions: seq<Row>) returns (ceiling: Option<int>)
    ensures ceiling.None? <==> versions == []
    ensures ceiling.Some? ==> exists i :: 0 <= i < |versions| && versions[i].version == ceiling.value
    ensures forall version: int :: ExceedsAll(versions, version) <==> ceiling.None? || version > ceiling.value
  {
    ceiling := None;
    for i := 0 to |versions|
      invariant ceiling.None? <==> i == 0
      invariant ceiling.Some? ==> exists k :: 0 <= k < i && versions[k].version == ceiling.value
      invariant ceiling.Some? ==> forall k :: 0 <= k < i ==> versions[k].version <= ceiling.value
    {
      if ceiling.None? || versions[i].version > ceiling.value {
        ceiling := Some(versions[i].version);
      }
    }
  }

  lemma KeepsHealth(config: Config, before: Db, tx: Tx, after: Db)
    requires Apply(config, before, tx) == Done(after) && !tx.Opening?
    ensures Health.Healthy(before) && ByPerson(before, tx) && VersionRules.Promotes(tx) ==> Health.Healthy(after)
  {
    hide Apply, Health.Healthy, ByPerson;
    if Health.Healthy(before) && ByPerson(before, tx) && VersionRules.Promotes(tx) {
      Health.TxKeepsHealth(config, before, tx);
    }
  }

  lemma PromotesOne(db: Db, i: nat, j: nat)
    requires WellFormed(db) && i < |db.rows| && j < |db.rows| && i != j
    ensures db.rows[i].id != db.rows[j].id
  {
  }

  /** The one version a decision changes. */
  lemma DecidesOne(before: Db, id: nat, approve: bool) returns (i: nat)
    requires DistinctIds(before.rows) && ReviewVersion(before, id, approve).Done?
    ensures i < |before.rows| && before.rows[i].id == id && before.rows[i].status == Pending
    ensures var after, ns := ReviewVersion(before, id, approve).db, before.rows[i].at.ns;
            && after.rows == before.rows[i := before.rows[i].(status := if approve then Published else Rejected)]
            && (approve && ns in after.users ==> after.users[ns].hasPublished)
            && (forall other :: other in after.users && (other != ns || !approve) ==> other in before.users && after.users[other] == before.users[other])
  {
    FoundRow(before.rows, id);
    hide Filter;
    i :| 0 <= i < |before.rows| && before.rows[i] == Filter(before.rows, IsRow(id))[0];
    assert forall k :: 0 <= k < |before.rows| && k != i ==> before.rows[k].id != id;
  }

  lemma OffersWhatIsAcceptable(config: Config, before: Db, source: Address, to: string, actor: AccountRef)
    requires OpenTransfer(config, before, source, to, actor).Done?
    ensures AcceptTransfer(config, OpenTransfer(config, before, source, to, actor).db, source, to).Done? <==> source.ns in before.users
  {
    hide Filter, ChargedBytes, HasStaging, AllRejected, MovedRows, CollapsedRedirects;
    Transfers.OfferedExactlyWhenAcceptable(config, before, source, to, actor);
  }

  /** Which offers an acceptance leaves. */
  ghost predicate LeavesOpen(before: Db, after: Db) {
    forall o :: o in after.offers <==>
      o in before.offers && o.source !in after.redirects && Address(o.to, o.source.id) !in after.redirects
  }

  lemma WhenAccepted(config: Config, db: Db, source: Address, to: string)
    ensures AcceptTransfer(config, db, source, to).Done?
       <==> && to in db.users && source.ns in db.users && Transfers.Offered(db, source, to)
            && (exists row :: row in db.rows && row.at == source) && CanMove(config, db, source, to)
  {
    hide AcceptTransfer, CanMove;
    AcceptsExactly(config, db, source, to);
  }

  lemma OpenOffersAreLeft(config: Config, db: Db, source: Address, to: string)
    requires AcceptTransfer(config, db, source, to).Done?
    ensures Health.Healthy(db) ==> LeavesOpen(db, AcceptTransfer(config, db, source, to).db)
  {
    hide AcceptTransfer, WellFormed, Redirects.Collapsed, Redirects.SourcesAreEmpty, Redirects.OffersAreOpen;
    if Health.Healthy(db) {
      Redirects.OffersLeftOpen(config, db, source, to);
    }
  }

  lemma WhenRelabeled(db: Db, id: nat, status: Status)
    requires status in {Published, Deprecated, Yanked}
    ensures RelabelVersion(db, id, status).Done? ==> Relabeled(db, RelabelVersion(db, id, status).db, id, status)
    ensures DistinctIds(db.rows) ==> forall row :: row in db.rows && row.id == id ==>
              (RelabelVersion(db, id, status).Done? <==> row.status == Published || row.status == Deprecated)
  {
    hide Filter, Relabeled, WithStatus, DistinctIds;
    StatusWritten(db, id, status);
    if DistinctIds(db.rows) {
      forall row | row in db.rows && row.id == id
        ensures RelabelVersion(db, id, status).Done? <==> row.status == Published || row.status == Deprecated
      {
        Relabels(Config(None), db, row, status);
      }
    }
  }

  lemma TakesExactly(rows: seq<Row>, at: Address)
    requires !HasStaging(Filter(rows, AtAddress(at)))
    ensures forall row :: row in Filter(rows, NotAtAddress(at)) <==> row in rows && row.at != at
    ensures forall row :: row in rows && row.status == Staging ==> row in Filter(rows, NotAtAddress(at))
  {
    FilterMembers(rows, NotAtAddress(at));
    NoStagingFound(rows, at);
    forall row | row in rows && row.status == Staging ensures row in Filter(rows, NotAtAddress(at)) {
      var i :| 0 <= i < |rows| && rows[i] == row;
    }
  }

  class Store {
    var users: map<string, Account>
    var rows: seq<Row>
    var redirects: map<Address, Address>
    var offers: set<Offer>
    var nextRow: nat
    var nextSerial: nat

    constructor ()
      ensures Tables() == EMPTY.db && Healthy()
    {
      users, rows, redirects, offers, nextRow, nextSerial := map[], [], map[], {}, 0, 0;
      Health.EmptyIsHealthy();
    }

    function Tables(): Db
      reads this
    {
      Db(users, rows, redirects, offers, nextRow, nextSerial)
    }

    /** The tables are those of the outcome, or the ones there were if it refuses. */
    predicate Reflects(outcome: Outcome, before: Db, error: Option<Error>)
      reads this
    {
      if outcome.Done? then error == None && Tables() == outcome.db
      else error == Some(outcome.error) && Tables() == before
    }

    /** The state every method below leaves the tables in when it finds them in it. */
    ghost predicate Healthy()
      reads this
    {
      Health.Healthy(Tables())
    }

    /** The staging transaction of publishVersion. */
    method StagePublish(config: Config, owner: AccountRef, publisher: AccountRef, id: string, version: int,
                        blobSize: nat, sourceSize: nat)
      returns (error: Option<Error>, staged: nat)
      modifies this
      ensures Reflects(StageVersion(config, old(Tables()), owner, publisher, id, version, blobSize, sourceSize), old(Tables()), error)
      ensures old(Healthy() && ByPerson(Tables(), Publishing(owner, publisher, id, version, blobSize, sourceSize))) ==> Healthy()
      ensures error == None ==>
                && staged == old(nextRow) && owner.ns in users && HasRoom(config, users[owner.ns], 0)
                && Address(owner.ns, id) !in redirects
                && forall row :: row in old(rows) && row.at == Address(owner.ns, id) ==> row.version < version
      ensures owner.ns in old(users) && HasRoom(config, old(users)[owner.ns], blobSize + sourceSize) ==> error != Some(TooLarge)
      ensures owner.ns in old(users) && !HasRoom(config, old(users)[owner.ns], blobSize + sourceSize) ==> error != None
    {
      hide Health.Healthy, ByPerson, Filter;
      StagesExactly(config, Tables(), owner, publisher, id, version, blobSize, sourceSize);
      var at, charge := Address(owner.ns, id), blobSize + sourceSize;
      staged := nextRow;
      if at in redirects { return Some(Conflict), staged; }
      if HoldsUnsettled(rows, publisher, None) { return Some(Forbidden), staged; }
      var existing := Filter(rows, AtAddress(at));
      var ceiling := Ceiling(existing);
      if ceiling.Some? && version <= ceiling.value { return Some(Unprocessable), staged; }
      assert ExceedsAll(existing, version);
      FilterMembers(rows, AtAddress(at));
      if HasPublished(rows, publisher, id, version) { return Some(Conflict), staged; }
      if !Exists(Tables(), publisher) { return Some(Aborted), staged; }
      // The row goes in before the account is locked and its balance read again.
      var rowsBefore := rows;
      rows := rows + [Row(nextRow, publisher, at, version, Staging, blobSize, sourceSize)];
      nextRow := nextRow + 1;
      if !Exists(Tables(), owner) {
        rows, nextRow := rowsBefore, staged;
        return Some(Aborted), staged;
      }
      var account := users[owner.ns];
      if account.blobBytes + charge > QuotaFor(config, account) {
        rows, nextRow := rowsBefore, staged;
        return Some(TooLarge), staged;
      }
      users := users[owner.ns := account.(blobBytes := account.blobBytes + charge)];
      KeepsHealth(config, old(Tables()), Publishing(owner, publisher, id, version, blobSize, sourceSize), Tables());
      return None, staged;
    }

    /** The promoting transaction of publishVersion: by id, whatever the row's status is by now. */
    method Promote(id: nat, status: Status) returns (error: Option<Error>)
      modifies this
      ensures Reflects(PromoteVersion(old(Tables()), id, status), old(Tables()), error)
      ensures old(Healthy()) && status != Staging ==> Healthy()
      ensures error == None ==>
                && users == old(users) && |rows| == |old(rows)|
                && forall i :: 0 <= i < |rows| ==>
                     rows[i] == if old(rows)[i].id == id then old(rows)[i].(status := status) else old(rows)[i]
      ensures error == None && status == Pending && old(WellFormed(Tables())) ==>
                forall i, j :: (0 <= i < |rows| && 0 <= j < |rows| && i != j && rows[i].id == id
                                && rows[j].publisher == rows[i].publisher) ==> rows[j].status !in {Staging, Pending}
    {
      hide Filter, Health.Healthy, WellFormed;
      var found := Filter(rows, IsRow(id));
      if |found| == 0 { return Some(Conflict); }
      if status == Pending && HoldsUnsettled(rows, found[0].publisher, Some(id)) { return Some(Forbidden); }
      rows := WithStatus(rows, id, status);
      KeepsHealth(Config(None), old(Tables()), Promoting(id, status), Tables());
      if old(WellFormed(Tables())) && status == Pending {
        forall i, j | 0 <= i < |rows| && 0 <= j < |rows| && i != j && rows[i].id == id && rows[j].publisher == rows[i].publisher
          ensures !Unsettled(rows[j])
        {
          VersionRules.PromotionIsAlone(Config(None), old(Tables()), Promoting(id, status), i, j);
          PromotesOne(old(Tables()), i, j);
        }
      }
      return None;
    }

    /** The delete handler's transaction. */
    method Delete(at: Address) returns (error: Option<Error>)
      modifies this
      ensures Reflects(DeleteExtension(old(Tables()), at), old(Tables()), error)
      ensures old(Healthy()) ==> Healthy()
      ensures error == None ==>
                && (forall row :: row in rows <==> row in old(rows) && row.at != at)
                && (forall row :: row in old(rows) && row.status == Staging ==> row in rows)
                && (forall o :: o in offers <==> o in old(offers) && o.source != at)
    {
      hide Health.Healthy, Filter;
      var found := Filter(rows, AtAddress(at));
      if |found| == 0 { return Some(NotFound); }
      if HasStaging(found) { return Some(Conflict); }
      TakesExactly(rows, at);
      rows := Filter(rows, NotAtAddress(at));
      offers := set o | o in offers && o.source != at;
      var charged := SumCharges(found);
      if charged > 0 && at.ns in users {
        var account := users[at.ns];
        users := users[at.ns := account.(blobBytes := if account.blobBytes - charged > 0 then account.blobBytes - charged else 0)];
      }
      KeepsHealth(Config(None), old(Tables()), Deleting(at), Tables());
      return None;
    }

    /** A review decision: the update is guarded by the status it expects. */
    method Review(id: nat, approve: bool) returns (error: Option<Error>)
      modifies this
      ensures Reflects(ReviewVersion(old(Tables()), id, approve), old(Tables()), error)
      ensures old(Healthy()) ==> Healthy()
      ensures error == None && DistinctIds(old(rows)) ==>
                exists i :: 0 <= i < |old(rows)| && old(rows)[i].id == id && old(rows)[i].status == Pending
                  && rows == old(rows)[i := old(rows)[i].(status := if approve then Published else Rejected)]
                  && (approve && old(rows)[i].at.ns in users ==> users[old(rows)[i].at.ns].hasPublished)
    {
      hide Health.Healthy, Filter, DistinctIds;
      var found := Filter(rows, IsRow(id));
      if |found| == 0 || found[0].status != Pending { return Some(NotFound); }
      rows := WithStatus(rows, id, if approve then Published else Rejected);
      if approve && found[0].at.ns in users {
        users := users[found[0].at.ns := users[found[0].at.ns].(hasPublished := true)];
      }
      KeepsHealth(Config(None), old(Tables()), Reviewing(id, approve), Tables());
      if DistinctIds(old(rows)) {
        var i := DecidesOne(old(Tables()), id, approve);
      }
      return None;
    }

    /** Deprecating and restoring a version, and yanking it. */
    method Relabel(id: nat, status: Status) returns (error: Option<Error>)
      requires status in {Published, Deprecated, Yanked}
      modifies this
      ensures Reflects(RelabelVersion(old(Tables()), id, status), old(Tables()), error)
      ensures old(Healthy()) ==> Healthy()
      ensures error == None ==> Relabeled(old(Tables()), Tables(), id, status) && users == old(users)
      ensures old(DistinctIds(rows)) ==> forall row :: row in old(rows) && row.id == id ==>
                (error == None <==> row.status == Published || row.status == Deprecated)
    {
      hide Health.Healthy, Filter, DistinctIds, Relabeled, WithStatus;
      WhenRelabeled(Tables(), id, status);
      var found := Filter(rows, IsRow(id));
      if |found| == 0 || (found[0].status != Published && found[0].status != Deprecated) { return Some(NotFound); }
      rows := WithStatus(rows, id, status);
      KeepsHealth(Config(None), old(Tables()), Relabeling(id, status), Tables());
      return None;
    }

    /** DELETE ... RETURNING on one offer. */
    method TakeOffer(source: Address, to: string) returns (taken: bool)
      modifies this`offers
      ensures taken <==> exists o :: o in old(offers) && o.source == source && o.to == to
      ensures offers == set o | o in old(offers) && !(o.source == source && o.to == to)
    {
      taken := exists o :: o in offers && o.source == source && o.to == to;
      offers := set o | o in offers && !(o.source == source && o.to == to);
    }

    method Withdraw(source: Address, to: string) returns (error: Option<Error>)
      modifies this
      ensures Reflects(WithdrawTransfer(old(Tables()), source, to), old(Tables()), error)
      ensures old(Healthy()) ==> Healthy()
    {
      hide Health.Healthy;
      if to !in users { return Some(NotFound); }
      var taken := TakeOffer(source, to);
      if !taken {
        assert offers == old(offers);
        return Some(NotFound);
      }
      KeepsHealth(Config(None), old(Tables()), Withdrawing(source, to), Tables());
      return None;
    }

    /** The two balance updates, which run only when there is something to move. */
    method MoveCharge(from: string, to: string, charged: nat)
      modifies this`users
      ensures users == Credited(Refunded(old(users), from, charged), to, charged)
    {
      if charged > 0 {
        if from in users {
          var sender := users[from];
          users := users[from := sender.(blobBytes := if sender.blobBytes - charged > 0 then sender.blobBytes - charged else 0)];
        }
        if to in users {
          users := users[to := users[to].(blobBytes := users[to].blobBytes + charged)];
        }
      } else if to in users {
        assert users[to := users[to].(blobBytes := users[to].blobBytes + charged)] == users;
      }
    }

    /** The upsert, and then the update that collapses whatever pointed at the old address. */
    method PointAt(source: Address, dest: Address)
      modifies this`redirects
      ensures redirects == CollapsedRedirects(old(redirects), source, dest)
    {
      redirects := redirects[source := dest];
      redirects := map a | a in redirects :: if redirects[a] == source then dest else redirects[a];
    }

    /** acceptTransfer, statement by statement. The offer goes first, and comes back if anything
        after it refuses. */
    method Accept(config: Config, source: Address, to: string) returns (error: Option<Error>)
      modifies this
      ensures Reflects(AcceptTransfer(config, old(Tables()), source, to), old(Tables()), error)
      ensures old(Healthy()) ==> Healthy()
      ensures error == None <==>
                && to in old(users) && source.ns in old(users) && old(Transfers.Offered(Tables(), source, to))
                && (exists row :: row in old(rows) && row.at == source) && CanMove(config, old(Tables()), source, to)
      ensures error == None && old(Healthy()) ==> LeavesOpen(old(Tables()), Tables())
    {
      WhenAccepted(config, Tables(), source, to);
      hide Health.Healthy, HasStaging, ChargedBytes, MovedRows, Filter, Credited, Refunded, CollapsedRedirects, AllRejected, CanMove, LeavesOpen;
      if to !in users { return Some(NotFound); }
      var dest, offersBefore := Address(to, source.id), offers;
      var taken := TakeOffer(source, to);
      if !taken {
        offers := offersBefore;
        return Some(NotFound);
      }
      var versions := Filter(rows, AtAddress(source));
      var charged := SumCharges(versions);
      error := if |versions| == 0 then Some(NotFound)
               else if HasStaging(versions) then Some(Conflict)
               else if !DestinationIsFree(Tables(), dest) then Some(Conflict)
               else if users[to].blobBytes + charged > QuotaFor(config, users[to]) then Some(Conflict)
               else None;
      if error.Some? {
        offers := offersBefore;
        return;
      }
      var rowsBefore, usersBefore, redirectsBefore := rows, users, redirects;
      rows := MovedRows(rows, source, dest);
      MoveCharge(source.ns, to, charged);
      PointAt(source, dest);
      // Two deletes: offers of the old address, and offers of this extension to the old namespace.
      offers := set o | o in offers && o.source != source;
      offers := set o | o in offers && !(o.to == source.ns && o.source.id == source.id);
      // Telling the sender reads its account; without one the error undoes everything above.
      if source.ns !in usersBefore {
        rows, users, redirects, offers := rowsBefore, usersBefore, redirectsBefore, offersBefore;
        error := Some(Aborted);
      } else {
        KeepsHealth(config, old(Tables()), Accepting(source, to), Tables());
        OpenOffersAreLeft(config, old(Tables()), source, to);
      }
    }

    method Offer(config: Config, source: Address, to: string, actor: AccountRef) returns (error: Option<Error>)
      modifies this
      ensures Reflects(OpenTransfer(config, old(Tables()), source, to, actor), old(Tables()), error)
      ensures old(Healthy()) ==> Healthy()
      ensures error == None ==> (AcceptTransfer(config, Tables(), source, to).Done? <==> source.ns in users)
      ensures error == None ==>
                to in users && CanMove(config, Tables(), source, to) && offers == old(offers) + {Registry.Offer(source, to, actor)}
      ensures (&& to != source.ns && to in old(users) && !old(Transfers.Offered(Tables(), source, to)) && Exists(old(Tables()), actor)
               && (exists row :: row in old(rows) && row.at == source) && CanMove(config, old(Tables()), source, to)) ==> error == None
    {
      OffersExactly(config, Tables(), source, to, actor);
      hide Health.Healthy, HasStaging, ChargedBytes, Filter, AllRejected;
      if to == source.ns { return Some(Unprocessable); }
      if to !in users { return Some(NotFound); }
      if exists o :: o in offers && o.source == source && o.to == to { return Some(Conflict); }
      var versions := Filter(rows, AtAddress(source));
      if |versions| == 0 { return Some(NotFound); }
      if HasStaging(versions) { return Some(Conflict); }
      if !DestinationIsFree(Tables(), Address(to, source.id)) { return Some(Conflict); }
      var charged := SumCharges(versions);
      if users[to].blobBytes + charged > QuotaFor(config, users[to]) { return Some(Conflict); }
      if !Exists(Tables(), actor) { return Some(Aborted); }
      offers := offers + {Registry.Offer(source, to, actor)};
      KeepsHealth(config, old(Tables()), Offering(source, to, actor), Tables());
      OffersWhatIsAcceptable(config, old(Tables()), source, to, actor);
      return None;
    }

    /** The account deletion's writes, after the sole-owner check of OrgOwners: refund the other
        namespaces, then drop the account and what cascades from it. */
    method CloseAccount(account: AccountRef, stillNamed: bool) returns (error: Option<Error>)
      modifies this
      ensures Reflects(DeleteAccount(old(Tables()), account, stillNamed), old(Tables()), error)
      ensures old(Healthy()) ==> Healthy()
      ensures error == None ==>
                && (forall row :: row in rows <==> row in old(rows) && row.publisher != account)
                && (forall o :: o in offers <==> o in old(offers) && o.requestedBy != account)
                && users.Keys == old(users).Keys - {account.ns}
    {
      ClosesAccount(Config(None), Tables(), account, stillNamed);
      hide Health.Healthy, Filter, ChargedBytes, ChargeIn;
      if !Exists(Tables(), account) { return Some(NotFound); }
      if users[account.ns].organization { return Some(Forbidden); }
      var usersBefore := users;
      var published := Filter(rows, PublishedBy(account));
      users := map ns | ns in users ::
        if ns == account.ns || Filter(published, InNamespace(ns)) == [] then users[ns]
        else
          var left := users[ns].blobBytes - ChargeIn(published, ns);
          users[ns].(blobBytes := if left > 0 then left else 0);
      if stillNamed {
        users := usersBefore;
        return Some(Aborted);
      }
      users := users - {account.ns};
      rows := Filter(rows, NotPublishedBy(account));
      offers := set o | o in offers && o.requestedBy != account;
      KeepsHealth(Config(None), old(Tables()), ClosingAccount(account, stillNamed), Tables());
      return None;
    }

    /** An organization's deletion: its namespace's rows, offers and redirects, then the account
        and what cascades from it. */
    method CloseOrganization(ns: string) returns (error: Option<Error>)
      modifies this
      ensures Reflects(DeleteOrganization(old(Tables()), ns), old(Tables()), error)
      ensures old(Healthy()) ==> Healthy()
      ensures error == None ==>
                var org := AccountRef(ns, old(users)[ns].serial);
                && (forall row :: row in rows <==> row in old(rows) && row.at.ns != ns && row.publisher != org)
                && (forall o :: o in offers <==> o in old(offers) && o.source.ns != ns && o.to != ns && o.requestedBy != org)
    {
      hide Health.Healthy, Filter;
      if ns !in users || !users[ns].organization { return Some(NotFound); }
      var org := AccountRef(ns, users[ns].serial);
      rows := Filter(rows, NotInNamespace(ns));
      offers := set o | o in offers && !(o.source.ns == ns || o.to == ns);
      redirects := map a | a in redirects && !(a.ns == ns || redirects[a].ns == ns) :: redirects[a];
      users := users - {ns};
      rows := Filter(rows, NotPublishedBy(org));
      offers := set o | o in offers && o.requestedBy != org;
      KeepsHealth(Config(None), old(Tables()), ClosingOrganization(ns), Tables());
      ClosesOrganization(Config(None), old(Tables()), ns);
      return None;
    }

    /** One row of the staging pass, as it was read: written by id. */
    method Settle(row: Row, complete: bool)
      requires DistinctIds(rows) && row in rows && row.status == Staging
      modifies this
      ensures ReconcileRow(old(Tables()), row.id, complete) == Done(Tables())
      ensures old(Healthy()) ==> Healthy()
    {
      hide Health.Healthy, Filter;
      FoundSnapshot(rows, row);
      if complete {
        var status := if row.at.ns in users && users[row.at.ns].hasPublished then Published else Pending;
        rows := WithStatus(rows, row.id, status);
      } else {
        var charge := row.blobSize + row.sourceSize;
        if charge > 0 && row.at.ns in users {
          var account := users[row.at.ns];
          users := users[row.at.ns := account.(blobBytes := if account.blobBytes - charge > 0 then account.blobBytes - charge else 0)];
        }
        rows := Filter(rows, IsNotRow(row.id));
      }
      KeepsHealth(Config(None), old(Tables()), Reconciling(row.id, complete), Tables());
    }

    /** The staging pass of a boot: one row at a time from a snapshot. */
    method ReconcileOnBoot(aged: set<nat>, complete: set<nat>)
      requires DistinctIds(rows)
      modifies this
      ensures Tables() == ReconcileAll(old(Tables()), AgedStaging(old(rows), aged), complete)
      ensures old(Healthy()) ==> Healthy()
    {
      hide Health.Healthy, Snapshot, Settled, AgedStaging, ReconcileRow;
      var staging := AgedStaging(rows, aged);
      StagingSnapshot(rows, aged);
      assert staging[0..] == staging;
      for i := 0 to |staging|
        invariant Snapshot(rows, staging[i..])
        invariant ReconcileAll(Tables(), staging[i..], complete) == ReconcileAll(old(Tables()), staging, complete)
        invariant old(Healthy()) ==> Healthy()
      {
        assert staging[i..][0] == staging[i] && staging[i..][1..] == staging[i + 1..];
        StepSettles(Tables(), staging[i..], complete);
        SnapshotHead(rows, staging[i..]);
        Settle(staging[i], staging[i].id in complete);
      }
      assert staging[|staging|..] == [];
    }
  }
}
