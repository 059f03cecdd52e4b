/** The common start of the concrete runs that show what goes wrong outside a theorem's conditions. */
module Scenarios {
  import opened Options
  import opened Sorting
  import opened Registry
  import opened RegistryRuns

  const ALICE := Account(0, false, 0, None, false)
  const BOB := Account(1, false, 0, None, false)

  /** Alice and Bob have signed up, and a publish into Alice's namespace has read her account. */
  function Loading(publisher: AccountRef): World {
    EMPTY.(db := Db(map["alice" := ALICE, "bob" := BOB], [], map[], {}, 0, 2),
           flights := map[0 := Loaded(AccountRef("alice", 0), false, publisher)])
  }

  lemma StartOfRun(config: Config, ops: seq<Op>, publisher: AccountRef)
    requires |ops| >= 3 && publisher in {AccountRef("alice", 0), AccountRef("bob", 1)}
    requires ops[0] == Commit(Opening("alice", false)) && ops[1] == Commit(Opening("bob", false))
    requires ops[2] == Load(0, "alice", publisher)
    ensures Run(config, EMPTY, ops) == Run(config, Loading(publisher), ops[3..])
    ensures CleanRun(config, Loading(publisher), ops[3..]) ==> CleanRun(config, EMPTY, ops)
  {
    var w1 := Do(config, EMPTY, ops[0]);
    assert w1.db == Db(map["alice" := ALICE], [], map[], {}, 0, 1);
    var w2 := Do(config, w1, ops[1]);
    assert w2.db == Loading(publisher).db;
    var w3 := Do(config, w2, ops[2]);
    assert w3 == Loading(publisher);
    hide Do;
    assert IsClean(EMPTY.db, ops[0].tx) && IsClean(w1.db, ops[1].tx);
    assert ops[1..][1..] == ops[2..] && ops[2..][1..] == ops[3..];
    assert Run(config, w2, ops[2..]) == Run(config, w3, ops[3..]);
    assert Run(config, w1, ops[1..]) == Run(config, w2, ops[2..]);
    assert CleanRun(config, w3, ops[3..]) ==> CleanRun(config, w2, ops[2..]);
    assert CleanRun(config, w2, ops[2..]) ==> CleanRun(config, w1, ops[1..]);
  }

  /** One step of a run that has got as far as its i-th operation. */
  lemma RunFrom(config: Config, w: World, ops: seq<Op>, i: nat)
    requires i <= |ops|
    ensures Run(config, w, ops[i..]) == if i == |ops| then w else Run(config, Do(config, w, ops[i]), ops[i + 1..])
  {
    hide Do;
    if i < |ops| {
      assert ops[i..][1..] == ops[i + 1..];
    }
  }

  lemma {:induction false} RunOneMore(config: Config, w: World, ops: seq<Op>, op: Op)
    ensures Run(config, w, ops + [op]) == Do(config, Run(config, w, ops), op)
    decreases |ops|
  {
    hide Do;
    if ops == [] {
      assert [op][1..] == [] && ops + [op] == [op];
      assert Run(config, Do(config, w, op), []) == Do(config, w, op);
    } else {
      assert (ops + [op])[1..] == ops[1..] + [op];
      RunOneMore(config, Do(config, w, ops[0]), ops[1..], op);
    }
  }

  // ------------------------------------------------------ orphaned versions

  /** A co-owner's version stays when the account whose namespace it is in is deleted. */
  function OrphaningRun(): seq<Op> {
    [Commit(Opening("alice", false)), Commit(Opening("bob", false)),
     Load(0, "alice", AccountRef("bob", 1)), Stage(0, "widget", 1, 3, 4), Promote(0),
     Commit(ClosingAccount(AccountRef("alice", 0), false))]
  }

  function Orphan(status: Status): Row {
    Row(0, AccountRef("bob", 1), Address("alice", "widget"), 1, status, 3, 4)
  }

  /** The orphan's row and accounts; nothing is offered and nothing has moved. */
  predicate Holds(w: World, status: Status, users: map<string, Account>) {
    w.db.rows == [Orphan(status)] && w.db.users == users && w.db.offers == {} && w.db.redirects == map[]
  }

  const BILLED := map["alice" := ALICE.(blobBytes := 7), "bob" := BOB]

  lemma OrphanIsStaged(config: Config, w: World)
    requires QuotaFor(config, ALICE) >= 7 && w == Loading(AccountRef("bob", 1))
    ensures var next := Do(config, w, OrphaningRun()[3]);
            Holds(next, Staging, BILLED) && 0 in next.flights
            && next.flights[0] == Waiting(0, Address("alice", "widget"), AccountRef("alice", 0), false)
  {
  }

  lemma OrphanFound(status: Status)
    ensures Filter([Orphan(status)], IsRow(0)) == [Orphan(status)]
    ensures Filter([Orphan(status)], NotPublishedBy(AccountRef("alice", 0))) == [Orphan(status)]
    ensures Filter([Orphan(status)], PublishedBy(AccountRef("alice", 0))) == []
    ensures Filter([Orphan(status)], AtAddress(Address("alice", "widget"))) == [Orphan(status)]
    ensures Filter([Orphan(status)], AtAddress(Address("bob", "widget"))) == []
    ensures Filter([], InNamespace("bob")) == []
    ensures ChargedBytes([Orphan(status)]) == 7
  {
    assert [Orphan(status)][1..] == [];
  }

  lemma OrphanWaits(config: Config, w: World)
    requires Holds(w, Staging, BILLED) && 0 in w.flights
    requires w.flights[0] == Waiting(0, Address("alice", "widget"), AccountRef("alice", 0), false)
    ensures Holds(Do(config, w, OrphaningRun()[4]), Pending, BILLED)
  {
    OrphanFound(Staging);
    hide Filter;
    assert WithStatus(w.db.rows, 0, Pending) == [Orphan(Pending)];
  }

  lemma OrphanStays(config: Config, w: World)
    requires Holds(w, Pending, BILLED)
    ensures Holds(Do(config, w, OrphaningRun()[5]), Pending, map["bob" := BOB])
  {
    OrphanFound(Pending);
    hide Filter, ChargeIn;
    assert RefundedOthers(w.db.users, [], AccountRef("alice", 0)) == map["bob" := BOB];
  }

  lemma OrphaningRunEnds(config: Config)
    requires QuotaFor(config, ALICE) >= 7
    ensures Holds(Run(config, EMPTY, OrphaningRun()), Pending, map["bob" := BOB])
    ensures CleanRun(config, EMPTY, OrphaningRun())
  {
    hide Do;
    var ops, w3 := OrphaningRun(), Loading(AccountRef("bob", 1));
    StartOfRun(config, ops, AccountRef("bob", 1));
    var w4 := Do(config, w3, ops[3]);
    OrphanIsStaged(config, w3);
    var w5 := Do(config, w4, ops[4]);
    OrphanWaits(config, w4);
    var w6 := Do(config, w5, ops[5]);
    OrphanStays(config, w5);
    hide Holds;
    RunFrom(config, w6, ops, 6);
    RunFrom(config, w5, ops, 5);
    RunFrom(config, w4, ops, 4);
    RunFrom(config, w3, ops, 3);
  }
}
