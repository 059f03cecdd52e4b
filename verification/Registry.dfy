/** The registry's tables and what one transaction does to them: publishing, review, deletion,
    transfers, accounts, and the boot reconcile of src/routes/packages.js, src/transfer.js,
    src/routes/users.js, src/routes/orgs.js and src/db.js. Each function is the meaning of the
    statements it covers; RegistryService runs the statements. */
module Registry {
  import opened Options
  import opened Sorting

  datatype Address = Address(ns: string, id: string)

  /** An account id. Ids are never reused and an account's namespace never changes, so an id
      names its namespace. */
  datatype AccountRef = AccountRef(ns: string, serial: nat)

  datatype Account = Account(serial: nat, organization: bool, blobBytes: int, maxBlobBytes: Option<int>, hasPublished: bool)

  datatype Status = Staging | Pending | Published | Rejected | Yanked | Deprecated

  /** A versions row; `version` stands for its SemVer precedence. */
  datatype Row = Row(id: nat, publisher: AccountRef, at: Address, version: int, status: Status,
                     blobSize: nat, sourceSize: nat)

  datatype Offer = Offer(source: Address, to: string, requestedBy: AccountRef)

  datatype Db = Db(users: map<string, Account>, rows: seq<Row>, redirects: map<Address, Address>,
                   offers: set<Offer>, nextRow: nat, nextSerial: nat)

  datatype Config = Config(maxAccountBlobBytes: Option<int>)

  const DEFAULT_QUOTA := 64 * 1024 * 1024

  datatype Error = NotFound | Conflict | Forbidden | Unprocessable | TooLarge | Aborted

  datatype Outcome = Done(db: Db) | Refused(error: Error)

  // ------------------------------------------------------------ selection

  function AtAddress(at: Address): Row -> bool {
    (row: Row) => row.at == at
  }

  function NotAtAddress(at: Address): Row -> bool {
    (row: Row) => row.at != at
  }

  function InNamespace(ns: string): Row -> bool {
    (row: Row) => row.at.ns == ns
  }

  function NotInNamespace(ns: string): Row -> bool {
    (row: Row) => row.at.ns != ns
  }

  function PublishedBy(account: AccountRef): Row -> bool {
    (row: Row) => row.publisher == account
  }

  function NotPublishedBy(account: AccountRef): Row -> bool {
    (row: Row) => row.publisher != account
  }

  function IsRow(id: nat): Row -> bool {
    (row: Row) => row.id == id
  }

  function IsNotRow(id: nat): Row -> bool {
    (row: Row) => row.id != id
  }

  predicate Exists(db: Db, account: AccountRef) {
    account.ns in db.users && db.users[account.ns].serial == account.serial
  }

  predicate Unsettled(row: Row) {
    row.status == Staging || row.status == Pending
  }

  predicate HasStaging(rows: seq<Row>) {
    exists i :: 0 <= i < |rows| && rows[i].status == Staging
  }

  /** versions_one_pending_idx: whether the publisher holds another unsettled row than `id`. */
  predicate HoldsUnsettled(rows: seq<Row>, publisher: AccountRef, except: Option<nat>) {
    exists i :: 0 <= i < |rows| && rows[i].publisher == publisher && Unsettled(rows[i]) && Some(rows[i].id) != except
  }

  /** UNIQUE (owner_id, extension_id, version): a publisher pushes a version of an id once, wherever. */
  predicate HasPublished(rows: seq<Row>, publisher: AccountRef, id: string, version: int) {
    exists i :: 0 <= i < |rows| && rows[i].publisher == publisher && rows[i].at.id == id && rows[i].version == version
  }

  predicate ExceedsAll(rows: seq<Row>, version: int) {
    forall i :: 0 <= i < |rows| ==> rows[i].version < version
  }

  predicate AllRejected(rows: seq<Row>) {
    forall i :: 0 <= i < |rows| ==> rows[i].status == Rejected
  }

  // -------------------------------------------------------------- charges

  function Charge(row: Row): nat {
    row.blobSize + row.sourceSize
  }

  function ChargedBytes(rows: seq<Row>): nat {
    if rows == [] then 0 else Charge(rows[0]) + ChargedBytes(rows[1..])
  }

  /** The bytes of the version rows in a namespace. */
  function ChargeIn(rows: seq<Row>, ns: string): nat {
    ChargedBytes(Filter(rows, InNamespace(ns)))
  }

  function QuotaFor(config: Config, account: Account): int {
    if account.maxBlobBytes.Some? then account.maxBlobBytes.value
    else if config.maxAccountBlobBytes.Some? then config.maxAccountBlobBytes.value
    else DEFAULT_QUOTA
  }

  function Credited(users: map<string, Account>, ns: string, bytes: nat): map<string, Account> {
    if ns in users then users[ns := users[ns].(blobBytes := users[ns].blobBytes + bytes)] else users
  }

  /** Takes bytes off the namespace's account, if it has one, and no further than zero. */
  function Refunded(users: map<string, Account>, ns: string, bytes: nat): map<string, Account> {
    if ns in users && bytes > 0
    then users[ns := users[ns].(blobBytes := if users[ns].blobBytes - bytes > 0 then users[ns].blobBytes - bytes else 0)]
    else users
  }

  // ------------------------------------------------------------- accounts

  /** Signing up and creating an organization claim a namespace nobody holds. */
  function OpenAccount(db: Db, ns: string, organization: bool): Outcome {
    if ns in db.users then Refused(Conflict)
    else Done(db.(users := db.users[ns := Account(db.nextSerial, organization, 0, None, false)],
                  nextSerial := db.nextSerial + 1))
  }

  function SetQuota(db: Db, ns: string, maxBlobBytes: Option<int>): Outcome {
    if ns !in db.users then Refused(NotFound)
    else if maxBlobBytes.Some? && maxBlobBytes.value <= 0 then Refused(Unprocessable)
    else Done(db.(users := db.users[ns := db.users[ns].(maxBlobBytes := maxBlobBytes)]))
  }

  /** The refund each other namespace gets when an account's versions go with it. */
  function RefundedOthers(users: map<string, Account>, removed: seq<Row>, account: AccountRef): map<string, Account> {
    map ns | ns in users && ns != account.ns ::
      if Filter(removed, InNamespace(ns)) == [] then users[ns]
      else
        var left := users[ns].blobBytes - ChargeIn(removed, ns);
        users[ns].(blobBytes := if left > 0 then left else 0)
  }

  /** Deleting a person: their versions go wherever they were published, delegated publishes are
      refunded to the namespace that was charged, and their offers go. `stillNamed` says whether
      somebody else's extension_owners row names the account as the one that added it, a foreign
      key that stops the deletion. */
  function DeleteAccount(db: Db, account: AccountRef, stillNamed: bool): Outcome {
    if !Exists(db, account) then Refused(NotFound)
    else if db.users[account.ns].organization then Refused(Forbidden)
    else if stillNamed then Refused(Aborted)
    else Done(db.(users := RefundedOthers(db.users, Filter(db.rows, PublishedBy(account)), account),
                  rows := Filter(db.rows, NotPublishedBy(account)),
                  offers := (set o | o in db.offers && o.requestedBy != account)))
  }

  /** Deleting an organization takes its versions, offers and redirects either way. */
  function DeleteOrganization(db: Db, ns: string): Outcome {
    if ns !in db.users || !db.users[ns].organization then Refused(NotFound)
    else
      var org := AccountRef(ns, db.users[ns].serial);
      Done(db.(users := db.users - {ns},
               rows := Filter(Filter(db.rows, NotInNamespace(ns)), NotPublishedBy(org)),
               redirects := map a | a in db.redirects && a.ns != ns && db.redirects[a].ns != ns :: db.redirects[a],
               offers := (set o | o in db.offers && o.source.ns != ns && o.to != ns && o.requestedBy != org)))
  }

  // ----------------------------------------------------------- publishing

  /** The first publish transaction: checks, the staging row, and its charge. */
  function StageVersion(config: Config, db: Db, owner: AccountRef, publisher: AccountRef, id: string,
                        version: int, blobSize: nat, sourceSize: nat): Outcome {
    var at := Address(owner.ns, id);
    if at in db.redirects then Refused(Conflict)
    else if HoldsUnsettled(db.rows, publisher, None) then Refused(Forbidden)
    else if !ExceedsAll(Filter(db.rows, AtAddress(at)), version) then Refused(Unprocessable)
    else if HasPublished(db.rows, publisher, id, version) then Refused(Conflict)
    else if !Exists(db, publisher) || !Exists(db, owner) then Refused(Aborted)
    else if db.users[owner.ns].blobBytes + blobSize + sourceSize > QuotaFor(config, db.users[owner.ns])
      then Refused(TooLarge)
    else Done(db.(rows := db.rows + [Row(db.nextRow, publisher, at, version, Staging, blobSize, sourceSize)],
                  nextRow := db.nextRow + 1,
                  users := Credited(db.users, owner.ns, blobSize + sourceSize)))
  }

  function WithStatus(rows: seq<Row>, id: nat, status: Status): (out: seq<Row>)
    ensures |out| == |rows|
    ensures forall i :: 0 <= i < |rows| ==> out[i] == if rows[i].id == id then rows[i].(status := status) else rows[i]
  {
    if rows == [] then []
    else [if rows[0].id == id then rows[0].(status := status) else rows[0]] + WithStatus(rows[1..], id, status)
  }

  /** The third publish transaction updates by row id alone; only the one-pending index can
      stop it, and it matches nothing once the row is gone. */
  function PromoteVersion(db: Db, id: nat, status: Status): Outcome {
    var found := Filter(db.rows, IsRow(id));
    if found == [] then Refused(Conflict)
    else if status == Pending && HoldsUnsettled(db.rows, found[0].publisher, Some(id)) then Refused(Forbidden)
    else Done(db.(rows := WithStatus(db.rows, id, status)))
  }

  /** Review of a pending version; approving one vouches for the account of its namespace. */
  function ReviewVersion(db: Db, id: nat, approve: bool): Outcome {
    var found := Filter(db.rows, IsRow(id));
    if found == [] || found[0].status != Pending then Refused(NotFound)
    else
      var ns := found[0].at.ns;
      Done(db.(rows := WithStatus(db.rows, id, if approve then Published else Rejected),
               users := if approve && ns in db.users
                        then db.users[ns := db.users[ns].(hasPublished := true)] else db.users))
  }

  /** Deprecating, restoring and yanking move between the states a published version can be in. */
  function RelabelVersion(db: Db, id: nat, status: Status): Outcome {
    var found := Filter(db.rows, IsRow(id));
    if found == [] || found[0].status !in {Published, Deprecated} || status !in {Published, Deprecated, Yanked}
    then Refused(NotFound)
    else Done(db.(rows := WithStatus(db.rows, id, status)))
  }

  function DeleteExtension(db: Db, at: Address): Outcome {
    var found := Filter(db.rows, AtAddress(at));
    if found == [] then Refused(NotFound)
    else if HasStaging(found) then Refused(Conflict)
    else Done(db.(rows := Filter(db.rows, NotAtAddress(at)),
                  offers := (set o | o in db.offers && o.source != at),
                  users := Refunded(db.users, at.ns, ChargedBytes(found))))
  }

  /** One aged staging row at boot: promoted when both files are there, dropped and refunded when
      either is missing. */
  function ReconcileRow(db: Db, id: nat, complete: bool): Outcome {
    var found := Filter(db.rows, IsRow(id));
    if found == [] || found[0].status != Staging then Refused(NotFound)
    else
      var ns := found[0].at.ns;
      if complete then
        var trusted := ns in db.users && db.users[ns].hasPublished;
        Done(db.(rows := WithStatus(db.rows, id, if trusted then Published else Pending)))
      else
        Done(db.(rows := Filter(db.rows, IsNotRow(id)),
                 users := Refunded(db.users, ns, Charge(found[0]))))
  }

  // ------------------------------------------------------------ transfers

  /** Where an address used to point: one lookup, no loop. */
  function RedirectFor(db: Db, at: Address): Option<Address> {
    if at in db.redirects then Some(db.redirects[at]) else None
  }

  predicate DestinationIsFree(db: Db, at: Address) {
    AllRejected(Filter(db.rows, AtAddress(at))) && at !in db.redirects
  }

  function OpenTransfer(config: Config, db: Db, source: Address, to: string, actor: AccountRef): Outcome {
    var found := Filter(db.rows, AtAddress(source));
    if to == source.ns then Refused(Unprocessable)
    else if to !in db.users then Refused(NotFound)
    else if exists o :: o in db.offers && o.source == source && o.to == to then Refused(Conflict)
    else if found == [] then Refused(NotFound)
    else if HasStaging(found) then Refused(Conflict)
    else if !DestinationIsFree(db, Address(to, source.id)) then Refused(Conflict)
    else if db.users[to].blobBytes + ChargedBytes(found) > QuotaFor(config, db.users[to]) then Refused(Conflict)
    else if !Exists(db, actor) then Refused(Aborted)
    else Done(db.(offers := db.offers + {Offer(source, to, actor)}))
  }

  function WithdrawTransfer(db: Db, source: Address, to: string): Outcome {
    if to !in db.users || !(exists o :: o in db.offers && o.source == source && o.to == to) then Refused(NotFound)
    else Done(db.(offers := (set o | o in db.offers && !(o.source == source && o.to == to))))
  }

  function MovedRows(rows: seq<Row>, source: Address, dest: Address): (out: seq<Row>)
    ensures |out| == |rows|
    ensures forall i :: 0 <= i < |rows| ==> out[i] == if rows[i].at == source then rows[i].(at := dest) else rows[i]
  {
    if rows == [] then []
    else [if rows[0].at == source then rows[0].(at := dest) else rows[0]] + MovedRows(rows[1..], source, dest)
  }

  function CollapsedRedirects(redirects: map<Address, Address>, source: Address, dest: Address): map<Address, Address> {
    map a | a in redirects.Keys + {source} ::
      if a == source || redirects[a] == source then dest else redirects[a]
  }

  /** The move: rows, charge and redirect change together; trust does not move. The sender is told
      last, and a sender whose account is gone cannot be: that aborts the whole move. */
  function AcceptTransfer(config: Config, db: Db, source: Address, to: string): Outcome {
    var dest, found := Address(to, source.id), Filter(db.rows, AtAddress(source));
    var charged := ChargedBytes(found);
    if to !in db.users then Refused(NotFound)
    else if !(exists o :: o in db.offers && o.source == source && o.to == to) then Refused(NotFound)
    else if found == [] then Refused(NotFound)
    else if HasStaging(found) then Refused(Conflict)
    else if !DestinationIsFree(db, dest) then Refused(Conflict)
    else if db.users[to].blobBytes + charged > QuotaFor(config, db.users[to]) then Refused(Conflict)
    else if source.ns !in db.users then Refused(Aborted)
    else Done(db.(rows := MovedRows(db.rows, source, dest),
                  users := Credited(Refunded(db.users, source.ns, charged), to, charged),
                  redirects := CollapsedRedirects(db.redirects, source, dest),
                  offers := (set o | o in db.offers && o.source != source && !(o.to == source.ns && o.source.id == source.id))))
  }

  // --------------------------------------------------------- transactions

  datatype Tx =
    | Opening(ns: string, organization: bool)
    | Limiting(ns: string, maxBlobBytes: Option<int>)
    | Publishing(owner: AccountRef, publisher: AccountRef, id: string, version: int, blobSize: nat, sourceSize: nat)
    | Promoting(row: nat, status: Status)
    | Reviewing(row: nat, approve: bool)
    | Relabeling(row: nat, status: Status)
    | Deleting(at: Address)
    | Reconciling(row: nat, complete: bool)
    | Offering(source: Address, to: string, actor: AccountRef)
    | Withdrawing(source: Address, to: string)
    | Accepting(source: Address, to: string)
    | ClosingAccount(account: AccountRef, stillNamed: bool)
    | ClosingOrganization(ns: string)

  function Apply(config: Config, db: Db, tx: Tx): Outcome {
    match tx
    case Opening(ns, organization) => OpenAccount(db, ns, organization)
    case Limiting(ns, max) => SetQuota(db, ns, max)
    case Publishing(owner, publisher, id, version, blobSize, sourceSize) =>
      StageVersion(config, db, owner, publisher, id, version, blobSize, sourceSize)
    case Promoting(row, status) => PromoteVersion(db, row, status)
    case Reviewing(row, approve) => ReviewVersion(db, row, approve)
    case Relabeling(row, status) => RelabelVersion(db, row, status)
    case Deleting(at) => DeleteExtension(db, at)
    case Reconciling(row, complete) => ReconcileRow(db, row, complete)
    case Offering(source, to, actor) => OpenTransfer(config, db, source, to, actor)
    case Withdrawing(source, to) => WithdrawTransfer(db, source, to)
    case Accepting(source, to) => AcceptTransfer(config, db, source, to)
    case ClosingAccount(account, stillNamed) => DeleteAccount(db, account, stillNamed)
    case ClosingOrganization(ns) => DeleteOrganization(db, ns)
  }
}
