/** What every transaction keeps, in one place: the state the registry's tables are always in. */
module Health {
  import opened Options
  import opened Registry
  import opened RegistryRuns
  import opened Ledger
  import opened Redirects
  import opened VersionRules

  /** The schema holds, the books balance, redirects are collapsed and empty at their source, open
      offers are not stale, and no publisher waits twice or pushed a version twice. */
  ghost predicate Healthy(db: Db) {
    && WellFormed(db) && Balanced(db)
    && Collapsed(db) && SourcesAreEmpty(db) && OffersAreOpen(db)
    && OneUnsettledEach(db.rows) && PushedOnce(db.rows)
  }

  lemma EmptyIsHealthy()
    ensures Healthy(EMPTY.db)
  {
  }

  /** What a healthy registry is good for, in so many words. */
  lemma HealthMeans(db: Db, ns: string, at: Address, offer: Offer, i: nat, j: nat)
    requires Healthy(db)
    ensures ns in db.users ==> db.users[ns].blobBytes == ChargeIn(db.rows, ns)
    ensures at in db.redirects ==> db.redirects[at] !in db.redirects && forall row :: row in db.rows ==> row.at != at
    ensures offer in db.offers ==>
              offer.source !in db.redirects && Address(offer.to, offer.source.id) !in db.redirects && offer.to != offer.source.ns
    ensures i < |db.rows| ==>
              var row := db.rows[i];
              row.publisher.ns in db.users && db.users[row.publisher.ns].serial == row.publisher.serial && row.id < db.nextRow
    ensures i < j < |db.rows| ==>
              var a, b := db.rows[i], db.rows[j];
              && a.id != b.id
              && (a.publisher == b.publisher && a.at.id == b.at.id ==> a.version != b.version)
              && (a.publisher == b.publisher ==> !(a.status in {Staging, Pending} && b.status in {Staging, Pending}))
  {
    hide ChargeIn;
  }

  /** Every transaction keeps the registry healthy, given what the source gives it: a person who
      publishes, a final status to promote to, and a signup under a name with no bytes left. */
  lemma TxKeepsHealth(config: Config, db: Db, tx: Tx)
    requires Healthy(db) && Apply(config, db, tx).Done? && ByPerson(db, tx) && Promotes(tx)
    requires tx.Opening? ==> ChargeIn(db.rows, tx.ns) == 0
    ensures Healthy(Apply(config, db, tx).db)
  {
    hide Apply, WellFormed, Balanced, Collapsed, SourcesAreEmpty, OffersAreOpen, OneUnsettledEach, PushedOnce, StandsFor, ByPerson, ChargeIn;
    TxKeepsWellFormed(config, db, tx);
    TxKeepsBalance(config, db, tx);
    OffersStayOpen(config, db, tx);
    TxKeepsRules(config, db, tx);
    match tx
    case Accepting(source, to) => AcceptingKeepsInv(config, db, [], source, to);
    case ClosingOrganization(ns) => DissolvingKeepsInv(config, db, [], ns);
    case _ => OthersKeepInv(config, db, [], tx);
  }
}
