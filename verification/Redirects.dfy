/** The redirect table stands in for the whole move history. */
module Redirects {
  import opened Options
  import opened Sorting
  import opened Registry
  import opened RegistryRuns

  // ------------------------------------------------------- the move history

  /** Where an address that led to `cur` leads after one more move. An organization that goes takes
      with it every pointer from or to its namespace. */
  function Follow(at: Address, cur: Address, move: Move): Address {
    match move
    case Moved(source, dest) => if cur == source then dest else cur
    case Dissolved(ns) => if at.ns == ns || cur.ns == ns then at else cur
  }

  /** Where an address leads: the whole log of moves, oldest first. */
  function Resolve(moves: seq<Move>, at: Address): Address {
    if moves == [] then at
    else Follow(at, Resolve(moves[..|moves| - 1], at), moves[|moves| - 1])
  }

  function Lookup(db: Db, at: Address): Address {
    if at in db.redirects then db.redirects[at] else at
  }

  ghost predicate Collapsed(db: Db) {
    forall at :: at in db.redirects ==> db.redirects[at] !in db.redirects
  }

  predicate SourcesAreEmpty(db: Db) {
    forall i :: 0 <= i < |db.rows| ==> db.rows[i].at !in db.redirects
  }

  ghost predicate StandsFor(db: Db, moves: seq<Move>) {
    forall at :: Lookup(db, at) == Resolve(moves, at)
  }

  /** No open offer starts or ends at an address that has been transferred away, so none is stale:
      what could refuse it later is only what happens at the two addresses themselves. */
  predicate OffersAreOpen(db: Db) {
    forall o :: o in db.offers ==> o.source !in db.redirects && Address(o.to, o.source.id) !in db.redirects
  }

  ghost predicate Inv(w: World) {
    && Collapsed(w.db)
    && SourcesAreEmpty(w.db)
    && OffersAreOpen(w.db)
    && StandsFor(w.db, w.past.moves)
  }

  lemma ResolveOneMore(moves: seq<Move>, move: Move, at: Address)
    ensures Resolve(moves + [move], at) == Follow(at, Resolve(moves, at), move)
  {
    assert (moves + [move])[..|moves|] == moves;
  }

  lemma FoundIsThere(rows: seq<Row>, at: Address)
    requires Filter(rows, AtAddress(at)) != []
    ensures exists i :: 0 <= i < |rows| && rows[i].at == at
  {
    FilterKeepsIds(rows, AtAddress(at));
    var found := Filter(rows, AtAddress(at));
    assert AtAddress(at)(found[0]) && found[0] in rows;
  }

  /** The move itself: the table after it is the old log plus one entry. */
  lemma AcceptingKeepsInv(config: Config, db: Db, moves: seq<Move>, source: Address, to: string)
    requires WellFormed(db) && Collapsed(db) && SourcesAreEmpty(db)
    requires Apply(config, db, Accepting(source, to)).Done?
    ensures var after := Apply(config, db, Accepting(source, to)).db;
            && Collapsed(after) && SourcesAreEmpty(after)
            && (StandsFor(db, moves) ==> StandsFor(after, moves + [Moved(source, Address(to, source.id))]))
  {
    hide Filter, ChargedBytes, HasStaging, MovedRows, Resolve;
    var after, dest := Apply(config, db, Accepting(source, to)).db, Address(to, source.id);
    FoundIsThere(db.rows, source);
    assert source !in db.redirects && dest !in db.redirects && dest != source;
    assert forall at :: at in after.redirects <==> at in db.redirects || at == source;
    if StandsFor(db, moves) {
      forall at ensures Lookup(after, at) == Resolve(moves + [Moved(source, dest)], at) {
        ResolveOneMore(moves, Moved(source, dest), at);
        assert Lookup(db, at) == Resolve(moves, at);
      }
    }
  }

  lemma DissolvingKeepsInv(config: Config, db: Db, moves: seq<Move>, ns: string)
    requires Collapsed(db) && SourcesAreEmpty(db)
    requires Apply(config, db, ClosingOrganization(ns)).Done?
    ensures var after := Apply(config, db, ClosingOrganization(ns)).db;
            && Collapsed(after) && SourcesAreEmpty(after)
            && (StandsFor(db, moves) ==> StandsFor(after, moves + [Dissolved(ns)]))
  {
    hide Filter, Resolve;
    var after := Apply(config, db, ClosingOrganization(ns)).db;
    FilterKeepsIds(db.rows, NotInNamespace(ns));
    FilterKeepsIds(Filter(db.rows, NotInNamespace(ns)), NotPublishedBy(AccountRef(ns, db.users[ns].serial)));
    forall i | 0 <= i < |after.rows| ensures after.rows[i].at !in after.redirects {
      assert after.rows[i] in db.rows;
    }
    if StandsFor(db, moves) {
      forall at ensures Lookup(after, at) == Resolve(moves + [Dissolved(ns)], at) {
        ResolveOneMore(moves, Dissolved(ns), at);
        assert Lookup(db, at) == Resolve(moves, at);
      }
    }
  }

  /** Everything else leaves redirects alone and puts no row at one: a publish checks first. */
  lemma OthersKeepInv(config: Config, db: Db, moves: seq<Move>, tx: Tx)
    requires Collapsed(db) && SourcesAreEmpty(db) && Apply(config, db, tx).Done?
    requires !tx.Accepting? && !tx.ClosingOrganization?
    ensures var after := Apply(config, db, tx).db;
            Collapsed(after) && SourcesAreEmpty(after) && (StandsFor(db, moves) ==> StandsFor(after, moves))
  {
    hide Filter, ChargedBytes, HasStaging, HoldsUnsettled, ExceedsAll, DestinationIsFree, WithStatus, Resolve;
    var after := Apply(config, db, tx).db;
    assert after.redirects == db.redirects;
    assert forall at :: Lookup(after, at) == Lookup(db, at);
    match tx
    case Deleting(at) => FilterKeepsIds(db.rows, NotAtAddress(at));
    case Reconciling(row, _) => FilterKeepsIds(db.rows, IsNotRow(row));
    case ClosingAccount(account, _) => FilterKeepsIds(db.rows, NotPublishedBy(account));
    case _ =>
  }

  /** The two deletes at the end of a transfer are what keeps the other offers open. */
  lemma OffersStayOpen(config: Config, db: Db, tx: Tx)
    requires SourcesAreEmpty(db) && OffersAreOpen(db) && Apply(config, db, tx).Done?
    ensures OffersAreOpen(Apply(config, db, tx).db)
  {
    hide Filter, ChargedBytes, HasStaging, HoldsUnsettled, ExceedsAll, AllRejected, WithStatus, MovedRows;
    match tx
    case Offering(source, to, _) => FoundIsThere(db.rows, source);
    case _ =>
  }

  /** And they take no other: of the open offers an acceptance leaves exactly those that neither
      start nor end at an address that redirects by then. */
  lemma OffersLeftOpen(config: Config, db: Db, source: Address, to: string)
    requires OffersAreOpen(db) && Apply(config, db, Accepting(source, to)).Done?
    ensures var after := Apply(config, db, Accepting(source, to)).db;
            forall o :: o in after.offers <==>
              o in db.offers && o.source !in after.redirects && Address(o.to, o.source.id) !in after.redirects
  {
    hide Filter, ChargedBytes, HasStaging, AllRejected, MovedRows, Credited, Refunded;
    var after := Apply(config, db, Accepting(source, to)).db;
    assert forall at :: at in after.redirects <==> at in db.redirects || at == source;
  }

  lemma DoKeepsInv(config: Config, w: World, op: Op)
    requires Sound(w) && Inv(w)
    ensures Inv(Do(config, w, op))
  {
    hide Apply, WellFormed, Collapsed, SourcesAreEmpty, StandsFor, AccountOf, OffersAreOpen;
    DoRunsItsTx(config, w, op);
    var tx := TxOf(w, op);
    if tx.Some? && Apply(config, w.db, tx.value).Done? {
      OffersStayOpen(config, w.db, tx.value);
      match tx.value
      case Accepting(source, to) => AcceptingKeepsInv(config, w.db, w.past.moves, source, to);
      case ClosingOrganization(ns) => DissolvingKeepsInv(config, w.db, w.past.moves, ns);
      case _ =>
        OthersKeepInv(config, w.db, w.past.moves, tx.value);
    }
  }

  lemma {:induction false} RunKeepsInv(config: Config, w: World, ops: seq<Op>)
    requires Sound(w) && Inv(w)
    ensures Sound(Run(config, w, ops)) && Inv(Run(config, w, ops))
    decreases |ops|
  {
    hide Do, Sound, Inv;
    if ops != [] {
      DoKeepsSound(config, w, ops[0]);
      DoKeepsInv(config, w, ops[0]);
      RunKeepsInv(config, Do(config, w, ops[0]), ops[1..]);
    }
  }

  lemma EmptyHasInv()
    ensures Inv(EMPTY)
  {
  }

  /** One lookup is the whole history: after any run, the redirect of an address is where the log
      of moves takes it, and an address has one exactly when the log takes it somewhere else. */
  lemma OneLookupIsTheWholeHistory(config: Config, ops: seq<Op>, at: Address)
    ensures var w := Run(config, EMPTY, ops); var led := Resolve(w.past.moves, at);
            RedirectFor(w.db, at) == if led == at then None else Some(led)
  {
    hide Run;
    EmptyIsSound();
    EmptyHasInv();
    RunKeepsInv(config, EMPTY, ops);
    var w := Run(config, EMPTY, ops);
    assert Lookup(w.db, at) == Resolve(w.past.moves, at);
  }

  /** No chains, no loops, and nothing published where a redirect answers. */
  lemma RedirectsLeadToRealAddresses(config: Config, ops: seq<Op>, at: Address)
    requires at in Run(config, EMPTY, ops).db.redirects
    ensures var db := Run(config, EMPTY, ops).db;
            db.redirects[at] !in db.redirects && Filter(db.rows, AtAddress(at)) == []
  {
    hide Run;
    EmptyIsSound();
    EmptyHasInv();
    RunKeepsInv(config, EMPTY, ops);
    var db := Run(config, EMPTY, ops).db;
    if Filter(db.rows, AtAddress(at)) != [] {
      FoundIsThere(db.rows, at);
    }
  }

  /** After any run, an open offer can still be delivered as far as redirects go: its extension
      has not moved away and neither has whatever was at its destination. */
  lemma OpenOffersAreNotStale(config: Config, ops: seq<Op>, offer: Offer)
    requires offer in Run(config, EMPTY, ops).db.offers
    ensures var db := Run(config, EMPTY, ops).db;
            RedirectFor(db, offer.source) == None == RedirectFor(db, Address(offer.to, offer.source.id))
  {
    hide Run;
    EmptyIsSound();
    EmptyHasInv();
    RunKeepsInv(config, EMPTY, ops);
  }
}
