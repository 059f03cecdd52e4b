/** Offers and acceptances side by side. */
module Transfers {
  import opened Options
  import opened Sorting
  import opened Registry
  import opened RegistryRuns
  import opened Redirects
  import opened Scenarios

  predicate Offered(db: Db, source: Address, to: string) {
    exists o :: o in db.offers && o.source == source && o.to == to
  }

  /** An offer's checks are the acceptance's checks but for one: an offer is made, by a namespace
      that has an account, exactly when it could be accepted on the spot. */
  lemma OfferedExactlyWhenAcceptable(config: Config, db: Db, source: Address, to: string, actor: AccountRef)
    requires !Offered(db, source, to) && to != source.ns && Exists(db, actor)
    ensures Apply(config, db, Offering(source, to, actor)).Done? && source.ns in db.users
       <==> Apply(config, db.(offers := db.offers + {Offer(source, to, actor)}), Accepting(source, to)).Done?
  {
    hide Filter, ChargedBytes, HasStaging, MovedRows, CollapsedRedirects, AllRejected;
    var offered := db.(offers := db.offers + {Offer(source, to, actor)});
    assert Offer(source, to, actor) in offered.offers;
  }

  /** Nothing is accepted out of a namespace without an account, however often it is tried. */
  lemma OrphansAreNotAccepted(config: Config, db: Db, source: Address, to: string)
    requires source.ns !in db.users
    ensures Apply(config, db, Accepting(source, to)).Refused?
  {
    hide Filter, ChargedBytes, HasStaging, MovedRows, CollapsedRedirects, AllRejected;
  }

  const ORPHANED := Address("alice", "widget")

  lemma OrphanIsOffered(config: Config, w: World)
    requires QuotaFor(config, ALICE) >= 7 && Holds(w, Pending, map["bob" := BOB])
    ensures var next := Do(config, w, Commit(Offering(ORPHANED, "bob", AccountRef("bob", 1))));
            && next.db.offers == {Offer(ORPHANED, "bob", AccountRef("bob", 1))}
            && next.db.rows == w.db.rows && next.db.users == w.db.users && next.db.redirects == w.db.redirects
  {
    OrphanFound(Pending);
    hide Filter, ChargedBytes;
  }

  lemma OrphanIsRefused(config: Config, db: Db)
    requires QuotaFor(config, ALICE) >= 7 && db.rows == [Orphan(Pending)] && db.redirects == map[]
    requires db.users == map["bob" := BOB] && db.offers == {Offer(ORPHANED, "bob", AccountRef("bob", 1))}
    ensures Offered(db, ORPHANED, "bob") && Apply(config, db, Accepting(ORPHANED, "bob")) == Refused(Aborted)
  {
    OrphanFound(Pending);
    hide Filter, ChargedBytes;
    assert Offer(ORPHANED, "bob", AccountRef("bob", 1)) in db.offers;
  }

  /** An admin offers what a deleted account left behind: the offer is recorded, and accepting it
      fails for as long as the namespace has no account. */
  lemma OrphanIsOfferedInVain(config: Config)
    requires QuotaFor(config, ALICE) >= 7
    ensures var w := Run(config, EMPTY, OrphaningRun() + [Commit(Offering(ORPHANED, "bob", AccountRef("bob", 1)))]);
            Offered(w.db, ORPHANED, "bob") && Apply(config, w.db, Accepting(ORPHANED, "bob")) == Refused(Aborted)
  {
    hide Run, Do, OrphaningRun, Apply, Offered;
    var offering := Commit(Offering(ORPHANED, "bob", AccountRef("bob", 1)));
    OrphaningRunEnds(config);
    RunOneMore(config, EMPTY, OrphaningRun(), offering);
    var w := Run(config, EMPTY, OrphaningRun());
    OrphanIsOffered(config, w);
    OrphanIsRefused(config, Do(config, w, offering).db);
  }

  /** Withdrawing an offer undoes making it. */
  lemma WithdrawUndoesOffer(config: Config, db: Db, source: Address, to: string, actor: AccountRef)
    requires Apply(config, db, Offering(source, to, actor)).Done?
    ensures Apply(config, Apply(config, db, Offering(source, to, actor)).db, Withdrawing(source, to)) == Done(db)
  {
    hide Filter, ChargedBytes, HasStaging, AllRejected;
    var offered := Apply(config, db, Offering(source, to, actor)).db;
    assert Offer(source, to, actor) in offered.offers;
    assert (set o | o in offered.offers && !(o.source == source && o.to == to)) == db.offers;
  }

  /** What moved stays moved: in no reachable registry is anything offered, accepted, deleted or
      published at an address that redirects. */
  lemma RedirectedAddressIsClosed(config: Config, ops: seq<Op>, at: Address, tx: Tx)
    requires at in Run(config, EMPTY, ops).db.redirects
    requires
      || (tx.Publishing? && Address(tx.owner.ns, tx.id) == at)
      || (tx.Offering? && (tx.source == at || Address(tx.to, tx.source.id) == at))
      || (tx.Accepting? && (tx.source == at || Address(tx.to, tx.source.id) == at))
      || (tx.Deleting? && tx.at == at)
    ensures Apply(config, Run(config, EMPTY, ops).db, tx).Refused?
  {
    hide Run, ChargedBytes, HasStaging, MovedRows, CollapsedRedirects, AllRejected, StandsFor, Filter;
    EmptyIsSound();
    EmptyHasInv();
    RunKeepsInv(config, EMPTY, ops);
    RedirectsLeadToRealAddresses(config, ops, at);
  }
}
