/** What each transaction of the registry answers and what it changes, told row by row and field by
    field: which condition gets which error, and what every row, account, redirect and offer is
    afterwards. Registry says how a transaction works; this is what a caller sees of it. */
module Outcomes {
  import opened Options
  import opened Sorting
  import opened Registry
  import opened RegistryRuns

  /** The error a transaction answers with, if it refuses. */
  function Refusal(outcome: Outcome): Option<Error> {
    if outcome.Refused? then Some(outcome.error) else None
  }

  // --------------------------------------------------------------- measures

  /** The bytes of the blobs and sources at an address. */
  function BytesAt(rows: seq<Row>, at: Address): nat {
    if rows == [] then 0
    else (if rows[0].at == at then rows[0].blobSize + rows[0].sourceSize else 0) + BytesAt(rows[1..], at)
  }

  /** Those of the versions an account published in a namespace. */
  function BytesBy(rows: seq<Row>, account: AccountRef, ns: string): nat {
    if rows == [] then 0
    else (if rows[0].publisher == account && rows[0].at.ns == ns then rows[0].blobSize + rows[0].sourceSize else 0)
         + BytesBy(rows[1..], account, ns)
  }

  /** Whether so many more bytes fit: an account's own limit decides if it has one, then the
      configured limit, then 64 MiB. */
  predicate HasRoom(config: Config, account: Account, more: nat) {
    match account.maxBlobBytes
    case Some(own) => account.blobBytes + more <= own
    case None =>
      match config.maxAccountBlobBytes
      case Some(configured) => account.blobBytes + more <= configured
      case None => account.blobBytes + more <= 67_108_864
  }

  /** What is left of a balance after a refund, never less than nothing. */
  function Less(balance: int, refund: nat): int {
    if balance <= refund then 0 else balance - refund
  }

  /** Accounts differ in their balance at most. */
  predicate SameButBalance(a: Account, b: Account) {
    a.serial == b.serial && a.organization == b.organization && a.maxBlobBytes == b.maxBlobBytes && a.hasPublished == b.hasPublished
  }

  lemma RoomIsQuota(config: Config, account: Account, more: nat)
    ensures HasRoom(config, account, more) <==> account.blobBytes + more <= QuotaFor(config, account)
  {
  }

  lemma {:induction false} BytesFoundAt(rows: seq<Row>, at: Address)
    ensures ChargedBytes(Filter(rows, AtAddress(at))) == BytesAt(rows, at)
  {
    if rows != [] {
      BytesFoundAt(rows[1..], at);
      var rest := Filter(rows[1..], AtAddress(at));
      assert ([rows[0]] + rest)[1..] == rest;
      assert Filter(rows, AtAddress(at)) == if rows[0].at == at then [rows[0]] + rest else rest;
    }
  }

  lemma {:induction false} BytesFoundBy(rows: seq<Row>, account: AccountRef, ns: string)
    ensures ChargeIn(Filter(rows, PublishedBy(account)), ns) == BytesBy(rows, account, ns)
  {
    if rows != [] {
      BytesFoundBy(rows[1..], account, ns);
      var published := Filter(rows[1..], PublishedBy(account));
      var rest := Filter(published, InNamespace(ns));
      if rows[0].publisher == account {
        assert Filter(rows, PublishedBy(account)) == [rows[0]] + published;
        assert ([rows[0]] + published)[1..] == published;
        assert Filter([rows[0]] + published, InNamespace(ns)) == if rows[0].at.ns == ns then [rows[0]] + rest else rest;
        assert ([rows[0]] + rest)[1..] == rest;
      } else {
        assert Filter(rows, PublishedBy(account)) == published;
      }
    }
  }

  // -------------------------------------------------------------- selections

  lemma RowsAt(rows: seq<Row>, at: Address)
    ensures Filter(rows, AtAddress(at)) == [] <==> forall row :: row in rows ==> row.at != at
    ensures HasStaging(Filter(rows, AtAddress(at))) <==> exists row :: row in rows && row.at == at && row.status == Staging
    ensures AllRejected(Filter(rows, AtAddress(at))) <==> forall row :: row in rows && row.at == at ==> row.status == Rejected
  {
    FilterMembers(rows, AtAddress(at));
    var found := Filter(rows, AtAddress(at));
    hide Filter;
    assert forall row :: row in found <==> row in rows && row.at == at;
    if found != [] {
      assert found[0] in found;
    }
    if exists row :: row in rows && row.at == at && row.status == Staging {
      var row :| row in rows && row.at == at && row.status == Staging;
      assert row in found;
    }
  }

  lemma VersionsAt(rows: seq<Row>, at: Address, version: int)
    ensures ExceedsAll(Filter(rows, AtAddress(at)), version) <==> forall row :: row in rows && row.at == at ==> row.version < version
  {
    FilterMembers(rows, AtAddress(at));
    hide Filter;
    var found := Filter(rows, AtAddress(at));
    assert forall row :: row in found <==> row in rows && row.at == at;
    if ExceedsAll(found, version) {
      forall row | row in rows && row.at == at ensures row.version < version {
        assert row in found;
      }
    }
  }

  lemma PublishedRows(rows: seq<Row>, publisher: AccountRef, id: string, version: int, except: Option<nat>)
    ensures HoldsUnsettled(rows, publisher, except)
       <==> exists row :: row in rows && row.publisher == publisher && row.status in {Staging, Pending} && Some(row.id) != except
    ensures HasPublished(rows, publisher, id, version)
       <==> exists row :: row in rows && row.publisher == publisher && row.at.id == id && row.version == version
  {
  }

  /** What a query by id finds: that row, or none if no row has the id. */
  lemma FoundById(rows: seq<Row>, row: Row)
    requires DistinctIds(rows)
    ensures (forall other :: other in rows ==> other.id != row.id) ==> Filter(rows, IsRow(row.id)) == []
    ensures Filter(rows, IsRow(row.id)) == [] ==> row !in rows
    ensures row in rows ==> Filter(rows, IsRow(row.id))[0] == row
  {
    FoundRow(rows, row.id);
    if row in rows {
      var i :| 0 <= i < |rows| && rows[i] == row;
    }
  }

  // ---------------------------------------------------------------- accounts

  /** A namespace is claimed once, by an account nobody trusts yet, with nothing on it, no limit of
      its own, and a number never used before. */
  lemma Opens(config: Config, db: Db, ns: string, organization: bool)
    ensures var outcome := Apply(config, db, Opening(ns, organization));
            && Refusal(outcome) == (if ns in db.users then Some(Conflict) else None)
            && (outcome.Done? ==>
                  var after := outcome.db;
                  && after.users.Keys == db.users.Keys + {ns}
                  && (forall other :: other in db.users ==> after.users[other] == db.users[other])
                  && after.users[ns].blobBytes == 0 && after.users[ns].maxBlobBytes == None && !after.users[ns].hasPublished
                  && after.users[ns].organization == organization && after.users[ns].serial == db.nextSerial < after.nextSerial
                  && after.rows == db.rows && after.redirects == db.redirects && after.offers == db.offers && after.nextRow == db.nextRow)
  {
  }

  /** An admin's limit replaces the account's own, or clears it, and touches nothing else. */
  lemma Limits(config: Config, db: Db, ns: string, max: Option<int>)
    ensures var outcome := Apply(config, db, Limiting(ns, max));
            && Refusal(outcome) == (if ns !in db.users then Some(NotFound)
                                    else if max.Some? && max.value <= 0 then Some(Unprocessable)
                                    else None)
            && (outcome.Done? ==>
                  var after := outcome.db;
                  && after.users.Keys == db.users.Keys
                  && (forall other :: other in db.users && other != ns ==> after.users[other] == db.users[other])
                  && after.users[ns].maxBlobBytes == max && after.users[ns].blobBytes == db.users[ns].blobBytes
                  && after.users[ns].serial == db.users[ns].serial && after.users[ns].organization == db.users[ns].organization
                  && after.users[ns].hasPublished == db.users[ns].hasPublished
                  && after == db.(users := after.users))
  {
  }

  /** A person's account goes unless somebody's owner row names it, with every version it published
      and every offer it made; each other namespace gets the bytes of those versions back. */
  lemma ClosesAccount(config: Config, db: Db, account: AccountRef, stillNamed: bool)
    ensures var outcome := Apply(config, db, ClosingAccount(account, stillNamed));
            && Refusal(outcome) == (if account.ns !in db.users || db.users[account.ns].serial != account.serial then Some(NotFound)
                                    else if db.users[account.ns].organization then Some(Forbidden)
                                    else if stillNamed then Some(Aborted)
                                    else None)
            && (outcome.Done? ==>
                  var after := outcome.db;
                  && (forall row :: row in after.rows <==> row in db.rows && row.publisher != account)
                  && (forall o :: o in after.offers <==> o in db.offers && o.requestedBy != account)
                  && after.users.Keys == db.users.Keys - {account.ns}
                  && after == db.(users := after.users, rows := after.rows, offers := after.offers))
  {
    FilterMembers(db.rows, NotPublishedBy(account));
    hide Filter, ChargeIn;
  }

  lemma ClosingRefunds(config: Config, db: Db, account: AccountRef, ns: string)
    requires var outcome := Apply(config, db, ClosingAccount(account, false)); outcome.Done? && ns in outcome.db.users
    ensures var after := Apply(config, db, ClosingAccount(account, false)).db;
            && SameButBalance(after.users[ns], db.users[ns])
            && after.users[ns].blobBytes
               == if exists row :: row in db.rows && row.publisher == account && row.at.ns == ns
                  then Less(db.users[ns].blobBytes, BytesBy(db.rows, account, ns)) else db.users[ns].blobBytes
  {
    var published := Filter(db.rows, PublishedBy(account));
    FilterMembers(db.rows, PublishedBy(account));
    FilterMembers(published, InNamespace(ns));
    BytesFoundBy(db.rows, account, ns);
    hide Filter, ChargeIn, BytesBy;
    var found := Filter(published, InNamespace(ns));
    assert forall row :: row in found <==> row in db.rows && row.publisher == account && row.at.ns == ns;
    if found != [] {
      assert found[0] in found;
    }
  }

  /** An organization's account goes with the versions in its namespace and any it published, and
      with every redirect and offer that names its namespace, or that it made, either way. */
  lemma ClosesOrganization(config: Config, db: Db, ns: string)
    ensures var outcome := Apply(config, db, ClosingOrganization(ns));
            && Refusal(outcome) == (if ns !in db.users || !db.users[ns].organization then Some(NotFound) else None)
            && (outcome.Done? ==>
                  var after, org := outcome.db, AccountRef(ns, db.users[ns].serial);
                  && (forall row :: row in after.rows <==> row in db.rows && row.at.ns != ns && row.publisher != org)
                  && (forall o :: o in after.offers <==> o in db.offers && o.source.ns != ns && o.to != ns && o.requestedBy != org)
                  && (forall a :: a in after.redirects <==> a in db.redirects && a.ns != ns && db.redirects[a].ns != ns)
                  && (forall a :: a in after.redirects ==> after.redirects[a] == db.redirects[a])
                  && after.users.Keys == db.users.Keys - {ns} && (forall other :: other in after.users ==> after.users[other] == db.users[other])
                  && after.nextRow == db.nextRow && after.nextSerial == db.nextSerial)
  {
    var outcome := Apply(config, db, ClosingOrganization(ns));
    if outcome.Done? {
      var org := AccountRef(ns, db.users[ns].serial);
      FilterMembers(db.rows, NotInNamespace(ns));
      FilterMembers(Filter(db.rows, NotInNamespace(ns)), NotPublishedBy(org));
    }
    hide Filter;
  }

  // -------------------------------------------------------------- publishing

  /** A publish is refused, in this order: at an address that moved away; while its publisher has a
      version waiting; unless it is above every version at the address; for a version of that id its
      publisher has pushed before; without both accounts; without room. */
  lemma StagesExactly(config: Config, db: Db, owner: AccountRef, publisher: AccountRef, id: string, version: int,
                      blobSize: nat, sourceSize: nat)
    ensures Refusal(Apply(config, db, Publishing(owner, publisher, id, version, blobSize, sourceSize)))
         == if Address(owner.ns, id) in db.redirects then Some(Conflict)
            else if exists row :: row in db.rows && row.publisher == publisher && row.status in {Staging, Pending} then Some(Forbidden)
            else if exists row :: row in db.rows && row.at == Address(owner.ns, id) && row.version >= version then Some(Unprocessable)
            else if exists row :: row in db.rows && row.publisher == publisher && row.at.id == id && row.version == version then Some(Conflict)
            else if publisher.ns !in db.users || db.users[publisher.ns].serial != publisher.serial then Some(Aborted)
            else if owner.ns !in db.users || db.users[owner.ns].serial != owner.serial then Some(Aborted)
            else if !HasRoom(config, db.users[owner.ns], blobSize + sourceSize) then Some(TooLarge)
            else None
  {
    PublishedRows(db.rows, publisher, id, version, None);
    VersionsAt(db.rows, Address(owner.ns, id), version);
    if owner.ns in db.users {
      RoomIsQuota(config, db.users[owner.ns], blobSize + sourceSize);
    }
    hide Filter, HoldsUnsettled, HasPublished, ExceedsAll, HasRoom, QuotaFor;
    assert forall row: Row :: row.version >= version <==> !(row.version < version);
  }

  /** And when it goes through there is one row more, staging, under a new id, and its bytes are on
      the account of its namespace. */
  lemma StagingChanges(config: Config, db: Db, owner: AccountRef, publisher: AccountRef, id: string, version: int,
                       blobSize: nat, sourceSize: nat)
    requires Apply(config, db, Publishing(owner, publisher, id, version, blobSize, sourceSize)).Done?
    ensures var after := Apply(config, db, Publishing(owner, publisher, id, version, blobSize, sourceSize)).db;
            && |after.rows| == |db.rows| + 1 && after.rows[..|db.rows|] == db.rows
            && (var row := after.rows[|db.rows|];
                && row.id == db.nextRow && row.publisher == publisher && row.at.ns == owner.ns && row.at.id == id
                && row.version == version && row.status == Staging && row.blobSize == blobSize && row.sourceSize == sourceSize)
            && after.users.Keys == db.users.Keys
            && (forall ns :: ns in db.users && ns != owner.ns ==> after.users[ns] == db.users[ns])
            && SameButBalance(after.users[owner.ns], db.users[owner.ns])
            && after.users[owner.ns].blobBytes == db.users[owner.ns].blobBytes + blobSize + sourceSize
            && after == db.(rows := after.rows, users := after.users, nextRow := db.nextRow + 1)
  {
    hide Filter, HoldsUnsettled, HasPublished, ExceedsAll;
  }

  /** The row of this id gets the status, and nothing else about any row changes. */
  predicate Relabeled(before: Db, after: Db, id: nat, status: Status) {
    && |after.rows| == |before.rows| && after == before.(rows := after.rows, users := after.users)
    && forall i :: 0 <= i < |before.rows| ==>
         && after.rows[i].status == (if before.rows[i].id == id then status else before.rows[i].status)
         && after.rows[i] == before.rows[i].(status := after.rows[i].status)
  }

  lemma StatusWritten(db: Db, id: nat, status: Status)
    ensures forall users :: Relabeled(db, db.(rows := WithStatus(db.rows, id, status), users := users), id, status)
    ensures Relabeled(db, db.(rows := WithStatus(db.rows, id, status)), id, status)
  {
  }

  /** A promotion fails when its row is gone, or to pending beside another version its publisher
      has waiting; otherwise its row gets its status. */
  lemma Promotes(config: Config, db: Db, row: Row, status: Status)
    requires DistinctIds(db.rows)
    ensures var outcome := Apply(config, db, Promoting(row.id, status));
            && ((forall other :: other in db.rows ==> other.id != row.id) ==> outcome == Refused(Conflict))
            && (row in db.rows ==>
                  Refusal(outcome)
                  == if status == Pending && exists other :: other in db.rows && other.publisher == row.publisher
                                                 && other.status in {Staging, Pending} && other.id != row.id
                     then Some(Forbidden) else None)
            && (outcome.Done? ==> Relabeled(db, outcome.db, row.id, status) && outcome.db.users == db.users)
  {
    FoundById(db.rows, row);
    PublishedRows(db.rows, row.publisher, "", 0, Some(row.id));
    StatusWritten(db, row.id, status);
    hide Filter, HoldsUnsettled, WithStatus, Relabeled, DistinctIds;
  }

  /** A review decides a pending version and no other; an approval also leaves the account of its
      namespace trusted. */
  lemma Reviews(config: Config, db: Db, row: Row, approve: bool)
    requires DistinctIds(db.rows)
    ensures var outcome := Apply(config, db, Reviewing(row.id, approve));
            && ((forall other :: other in db.rows ==> other.id != row.id) ==> outcome == Refused(NotFound))
            && (row in db.rows ==> Refusal(outcome) == if row.status == Pending then None else Some(NotFound))
            && (outcome.Done? ==>
                  && Relabeled(db, outcome.db, row.id, if approve then Published else Rejected)
                  && outcome.db.users.Keys == db.users.Keys
                  && (row in db.rows ==> forall ns :: ns in db.users ==>
                        outcome.db.users[ns] == if approve && ns == row.at.ns then db.users[ns].(hasPublished := true) else db.users[ns]))
  {
    FoundById(db.rows, row);
    StatusWritten(db, row.id, if approve then Published else Rejected);
    hide Filter, WithStatus, Relabeled, DistinctIds;
  }

  /** Only a published or deprecated version is relabelled, and it gets the status asked for. */
  lemma Relabels(config: Config, db: Db, row: Row, status: Status)
    requires DistinctIds(db.rows) && status in {Published, Deprecated, Yanked}
    ensures var outcome := Apply(config, db, Relabeling(row.id, status));
            && ((forall other :: other in db.rows ==> other.id != row.id) ==> outcome == Refused(NotFound))
            && (row in db.rows ==> Refusal(outcome) == if row.status == Published || row.status == Deprecated then None else Some(NotFound))
            && (outcome.Done? ==> Relabeled(db, outcome.db, row.id, status) && outcome.db.users == db.users)
  {
    FoundById(db.rows, row);
    StatusWritten(db, row.id, status);
    hide Filter, WithStatus, Relabeled, DistinctIds;
  }

  /** A delete takes an extension whole, with the offers of it and the bytes it was charged, unless
      a version of it is staging. */
  lemma Deletes(config: Config, db: Db, at: Address)
    ensures var outcome := Apply(config, db, Deleting(at));
            && Refusal(outcome) == (if forall row :: row in db.rows ==> row.at != at then Some(NotFound)
                                    else if exists row :: row in db.rows && row.at == at && row.status == Staging then Some(Conflict)
                                    else None)
            && (outcome.Done? ==>
                  var after := outcome.db;
                  && (forall row :: row in after.rows <==> row in db.rows && row.at != at)
                  && (forall o :: o in after.offers <==> o in db.offers && o.source != at)
                  && after == db.(rows := after.rows, offers := after.offers, users := after.users)
                  && after.users.Keys == db.users.Keys
                  && forall ns :: ns in db.users ==>
                       && SameButBalance(after.users[ns], db.users[ns])
                       && after.users[ns].blobBytes
                          == if ns == at.ns && BytesAt(db.rows, at) > 0 then Less(db.users[ns].blobBytes, BytesAt(db.rows, at))
                             else db.users[ns].blobBytes)
  {
    RowsAt(db.rows, at);
    FilterMembers(db.rows, NotAtAddress(at));
    BytesFoundAt(db.rows, at);
    hide Filter, HasStaging, ChargedBytes, BytesAt;
  }

  /** A reconcile is about a staging row: one that is whole is published for a trusted account and
      pending otherwise. */
  lemma ReconcilesExactly(config: Config, db: Db, row: Row, complete: bool)
    requires DistinctIds(db.rows)
    ensures var outcome := Apply(config, db, Reconciling(row.id, complete));
            && ((forall other :: other in db.rows ==> other.id != row.id) ==> outcome == Refused(NotFound))
            && (row in db.rows ==> Refusal(outcome) == if row.status == Staging then None else Some(NotFound))
            && (row in db.rows && row.status == Staging && complete ==>
                  var status := if row.at.ns in db.users && db.users[row.at.ns].hasPublished then Published else Pending;
                  Relabeled(db, outcome.db, row.id, status) && outcome.db.users == db.users)
  {
    FoundById(db.rows, row);
    StatusWritten(db, row.id, Published);
    StatusWritten(db, row.id, Pending);
    hide Filter, WithStatus, Relabeled, DistinctIds, Refunded;
  }

  /** With a file missing, the row is dropped and its bytes are given back. */
  lemma ReconcileDrops(config: Config, db: Db, row: Row)
    requires DistinctIds(db.rows) && row in db.rows && row.status == Staging
    requires Apply(config, db, Reconciling(row.id, false)).Done?
    ensures var after, bytes := Apply(config, db, Reconciling(row.id, false)).db, row.blobSize + row.sourceSize;
            && (forall other :: other in after.rows <==> other in db.rows && other.id != row.id)
            && after == db.(rows := after.rows, users := after.users)
            && after.users.Keys == db.users.Keys
            && forall ns :: ns in db.users ==>
                 && SameButBalance(after.users[ns], db.users[ns])
                 && after.users[ns].blobBytes
                    == if ns == row.at.ns && bytes > 0 then Less(db.users[ns].blobBytes, bytes) else db.users[ns].blobBytes
  {
    FoundById(db.rows, row);
    FilterMembers(db.rows, IsNotRow(row.id));
    hide Filter, DistinctIds;
  }

  // --------------------------------------------------------------- transfers

  /** The check an offer and an acceptance share: no version waits to be promoted, only rejected ones
      are at the destination, the destination has not moved away, and the recipient has room. */
  predicate CanMove(config: Config, db: Db, source: Address, to: string)
    requires to in db.users
  {
    && (forall row :: row in db.rows && row.at == source ==> row.status != Staging)
    && (forall row :: row in db.rows && row.at == Address(to, source.id) ==> row.status == Rejected)
    && Address(to, source.id) !in db.redirects
    && HasRoom(config, db.users[to], BytesAt(db.rows, source))
  }

  lemma ChecksOfAMove(config: Config, db: Db, source: Address, to: string)
    requires to in db.users
    ensures var found := Filter(db.rows, AtAddress(source));
            && (found == [] <==> forall row :: row in db.rows ==> row.at != source)
            && ChargedBytes(found) == BytesAt(db.rows, source)
            && (CanMove(config, db, source, to)
                <==> !HasStaging(found) && DestinationIsFree(db, Address(to, source.id))
                     && db.users[to].blobBytes + ChargedBytes(found) <= QuotaFor(config, db.users[to]))
  {
    RowsAt(db.rows, source);
    RowsAt(db.rows, Address(to, source.id));
    BytesFoundAt(db.rows, source);
    RoomIsQuota(config, db.users[to], BytesAt(db.rows, source));
    hide Filter, HasStaging, ChargedBytes, BytesAt, AllRejected, HasRoom, QuotaFor;
  }

  /** Who is refused an offer, and why; and one that is made is there, with the rest unchanged. */
  lemma OffersExactly(config: Config, db: Db, source: Address, to: string, actor: AccountRef)
    ensures var outcome := Apply(config, db, Offering(source, to, actor));
            && Refusal(outcome) == (if to == source.ns then Some(Unprocessable)
                                    else if to !in db.users then Some(NotFound)
                                    else if exists o :: o in db.offers && o.source == source && o.to == to then Some(Conflict)
                                    else if forall row :: row in db.rows ==> row.at != source then Some(NotFound)
                                    else if !CanMove(config, db, source, to) then Some(Conflict)
                                    else if actor.ns !in db.users || db.users[actor.ns].serial != actor.serial then Some(Aborted)
                                    else None)
            && (outcome.Done? ==>
                  && (forall o :: o in outcome.db.offers <==>
                        o in db.offers || (o.source == source && o.to == to && o.requestedBy == actor))
                  && outcome.db == db.(offers := outcome.db.offers))
  {
    if to in db.users {
      ChecksOfAMove(config, db, source, to);
    }
    hide Filter, HasStaging, ChargedBytes, CanMove, DestinationIsFree, QuotaFor;
    var outcome := Apply(config, db, Offering(source, to, actor));
    if outcome.Done? {
      forall o: Offer ensures o in outcome.db.offers <==> o in db.offers || (o.source == source && o.to == to && o.requestedBy == actor) {
        assert o == Offer(o.source, o.to, o.requestedBy);
      }
    }
  }

  lemma Withdraws(config: Config, db: Db, source: Address, to: string)
    ensures var outcome := Apply(config, db, Withdrawing(source, to));
            && Refusal(outcome) == (if to in db.users && exists o :: o in db.offers && o.source == source && o.to == to then None else Some(NotFound))
            && (outcome.Done? ==>
                  && (forall o :: o in outcome.db.offers <==> o in db.offers && (o.source != source || o.to != to))
                  && outcome.db == db.(offers := outcome.db.offers))
  {
  }

  /** Who is refused an acceptance, and why. */
  lemma AcceptsExactly(config: Config, db: Db, source: Address, to: string)
    ensures Refusal(Apply(config, db, Accepting(source, to)))
         == if to !in db.users then Some(NotFound)
            else if forall o :: o in db.offers ==> o.source != source || o.to != to then Some(NotFound)
            else if forall row :: row in db.rows ==> row.at != source then Some(NotFound)
            else if !CanMove(config, db, source, to) then Some(Conflict)
            else if source.ns !in db.users then Some(Aborted)
            else None
  {
    if to in db.users {
      ChecksOfAMove(config, db, source, to);
    }
    hide Filter, HasStaging, ChargedBytes, CanMove, DestinationIsFree, QuotaFor, MovedRows, CollapsedRedirects, Credited, Refunded;
  }

  /** An accepted extension is at its new address, version by version and otherwise as it was; its
      bytes are off the sender and on the recipient, and its old address, with whatever led there,
      leads to the new one. */
  lemma AcceptanceMoves(config: Config, db: Db, source: Address, to: string)
    requires to != source.ns && Apply(config, db, Accepting(source, to)).Done?
    ensures var after, dest := Apply(config, db, Accepting(source, to)).db, Address(to, source.id);
            && |after.rows| == |db.rows|
            && (forall i :: 0 <= i < |db.rows| ==>
                  && after.rows[i].at == (if db.rows[i].at == source then dest else db.rows[i].at)
                  && after.rows[i] == db.rows[i].(at := after.rows[i].at))
            && (forall at :: at in after.redirects <==> at in db.redirects || at == source)
            && (forall at :: at in after.redirects ==>
                  after.redirects[at] == if at == source || db.redirects[at] == source then dest else db.redirects[at])
            && (forall o :: o in after.offers <==>
                  o in db.offers && o.source != source && (o.to != source.ns || o.source.id != source.id))
            && after.nextRow == db.nextRow && after.nextSerial == db.nextSerial
  {
    hide Filter, HasStaging, ChargedBytes, DestinationIsFree, QuotaFor, Credited, Refunded;
  }

  lemma AcceptanceCharges(config: Config, db: Db, source: Address, to: string)
    requires to != source.ns && Apply(config, db, Accepting(source, to)).Done?
    ensures var after, bytes := Apply(config, db, Accepting(source, to)).db, BytesAt(db.rows, source);
            && after.users.Keys == db.users.Keys && source.ns in db.users
            && forall ns :: ns in db.users ==>
                 && SameButBalance(after.users[ns], db.users[ns])
                 && after.users[ns].blobBytes
                    == if ns == to then db.users[ns].blobBytes + bytes
                       else if ns == source.ns && bytes > 0 then Less(db.users[ns].blobBytes, bytes)
                       else db.users[ns].blobBytes
  {
    BytesFoundAt(db.rows, source);
    hide Filter, HasStaging, ChargedBytes, BytesAt, DestinationIsFree, QuotaFor, MovedRows, CollapsedRedirects;
  }
}
