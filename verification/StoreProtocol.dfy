/** The content-addressed store as publishers, image uploads, removals, row deletions and the boot
    reconcile share it: every transaction of src/routes/packages.js, src/blobs.js, src/sources.js,
    src/profile-images.js and src/db.js that touches a file or a row naming one, one step at a
    time, with a crash possible between any two steps. */
module StoreProtocol {
  import opened Options

  /** Milliseconds; reconcileOnBoot only looks at staging rows older than this. */
  const HOUR := 3_600_000

  type Content = seq<int>

  /** SHA-256, taken to be injective. */
  datatype Digest = Sha256(of: Content)

  datatype Row = Row(blob: Digest, source: Option<Digest>, staging: bool, createdAt: int)

  /** What a process has open. A transaction's advisory lock lasts exactly as long as its phases
      below, so the lock table is read off the running processes. */
  datatype Proc =
    | StageTx(code: Content, tarball: Content, begun: int)
    | Staged(id: nat, code: Content, tarball: Content)
    | SourceTx(id: nat, code: Content, tarball: Content)
    | SourceStored(id: nat, code: Content, tarball: Content)
    | SourceNamed(id: nat, code: Content)
    | BlobTx(id: nat, code: Content)
    | BlobStored(id: nat, code: Content)
    | UploadTx(slot: nat, image: Content)
    | UploadStored(slot: nat, image: Content)
    | RemovingBlob(blob: Digest)
    | UnusedBlob(blob: Digest, checkedAt: int)
    | RemovingSource(source: Digest)
    | UnusedSource(source: Digest)
    | Reconciling(since: int, read: map<nat, Row>, complete: set<nat>, missing: set<nat>)

  /** The blob-gc advisory lock, held shared. */
  predicate Shares(p: Proc) {
    p.SourceTx? || p.SourceStored? || p.BlobTx? || p.BlobStored? || p.UploadTx? || p.UploadStored?
  }

  /** The blob-gc advisory lock, held exclusively. */
  predicate Excludes(p: Proc) {
    p.RemovingBlob? || p.UnusedBlob? || p.RemovingSource? || p.UnusedSource?
  }

  /** `pointers` maps each avatar or banner column that is set to its digest. */
  datatype State = State(now: int, rows: map<nat, Row>, nextId: nat, pointers: map<nat, Digest>,
                         blobs: map<Digest, Content>, sources: map<Digest, Content>, procs: map<nat, Proc>)

  /** How long a removal takes from its keeper check to its unlink, and a staging transaction from
      its start, which dates the row, to its commit. */
  datatype Limits = Limits(removal: nat, staging: nat)

  datatype Step =
    | Advance(to: int)
    | BeginPublish(p: nat, code: Content, tarball: Content)
    | CommitStage(p: nat)
    | LockForSource(p: nat)
    | StoreSource(p: nat)
    | CommitSource(p: nat)
    | LockForBlob(p: nat)
    | StoreBlob(p: nat)
    | CommitPromotion(p: nat)
    | BeginUpload(p: nat, slot: nat, image: Content)
    | StoreImage(p: nat)
    | CommitPointer(p: nat, accountExists: bool)
    | ClearPointer(slot: nat)
    | DeleteRows(ids: set<nat>)
    | LockForBlobRemoval(p: nat, blob: Digest)
    | CheckBlobKeepers(p: nat)
    | UnlinkBlob(p: nat)
    | LockForSourceRemoval(p: nat, source: Digest)
    | CheckSourceKeepers(p: nat)
    | UnlinkSource(p: nat)
    | BeginReconcile(p: nat)
    | InspectRow(p: nat, id: nat)
    | CommitReconcile(p: nat)
    | Crash(p: nat)

  predicate ShareGranted(s: State) {
    forall q :: q in s.procs ==> !Excludes(s.procs[q])
  }

  predicate ExclusiveGranted(s: State) {
    forall q :: q in s.procs ==> !Excludes(s.procs[q]) && !Shares(s.procs[q])
  }

  predicate BlobHasKeeper(s: State, blob: Digest) {
    || (exists id :: id in s.rows && s.rows[id].blob == blob)
    || (exists slot :: slot in s.pointers && s.pointers[slot] == blob)
  }

  predicate SourceHasKeeper(s: State, source: Digest) {
    exists id :: id in s.rows && s.rows[id].source == Some(source)
  }

  predicate Can(s: State, limits: Limits, step: Step) {
    match step
    case Advance(to) => s.now <= to
    case BeginPublish(p, _, _) => p !in s.procs
    case CommitStage(p) => p in s.procs && s.procs[p].StageTx? && s.now <= s.procs[p].begun + limits.staging
    case LockForSource(p) => p in s.procs && s.procs[p].Staged? && ShareGranted(s)
    case StoreSource(p) => p in s.procs && s.procs[p].SourceTx?
    case CommitSource(p) => p in s.procs && s.procs[p].SourceStored?
    case LockForBlob(p) => p in s.procs && s.procs[p].SourceNamed? && ShareGranted(s)
    case StoreBlob(p) => p in s.procs && s.procs[p].BlobTx?
    case CommitPromotion(p) => p in s.procs && s.procs[p].BlobStored?
    case BeginUpload(p, _, _) => p !in s.procs && ShareGranted(s)
    case StoreImage(p) => p in s.procs && s.procs[p].UploadTx?
    case CommitPointer(p, _) => p in s.procs && s.procs[p].UploadStored?
    case ClearPointer(_) => true
    case DeleteRows(_) => true
    case LockForBlobRemoval(p, _) => p !in s.procs && ExclusiveGranted(s)
    case CheckBlobKeepers(p) => p in s.procs && s.procs[p].RemovingBlob?
    case UnlinkBlob(p) => p in s.procs && s.procs[p].UnusedBlob? && s.now <= s.procs[p].checkedAt + limits.removal
    case LockForSourceRemoval(p, _) => p !in s.procs && ExclusiveGranted(s)
    case CheckSourceKeepers(p) => p in s.procs && s.procs[p].RemovingSource?
    case UnlinkSource(p) => p in s.procs && s.procs[p].UnusedSource?
    case BeginReconcile(p) => p !in s.procs
    case InspectRow(p, id) =>
      p in s.procs && s.procs[p].Reconciling? && id in s.procs[p].read
      && id !in s.procs[p].complete + s.procs[p].missing
    case CommitReconcile(p) =>
      p in s.procs && s.procs[p].Reconciling?
      && s.procs[p].complete + s.procs[p].missing == s.procs[p].read.Keys
    case Crash(p) => p in s.procs
  }

  function Settle(rows: map<nat, Row>, ids: set<nat>): map<nat, Row> {
    map id | id in rows :: if id in ids then rows[id].(staging := false) else rows[id]
  }

  /** A file left complete under its own digest is kept; anything else there is replaced. */
  function Placed(files: map<Digest, Content>, content: Content): map<Digest, Content> {
    if Sha256(content) in files && files[Sha256(content)] == content then files
    else files[Sha256(content) := content]
  }

  function Goes(s: State, p: nat, to: Proc): State {
    s.(procs := s.procs[p := to])
  }

  function Ends(s: State, p: nat): State {
    s.(procs := s.procs - {p})
  }

  function Do(s: State, limits: Limits, step: Step): State
    requires Can(s, limits, step)
  {
    match step
    case Advance(to) => s.(now := to)
    case BeginPublish(p, code, tarball) => Goes(s, p, StageTx(code, tarball, s.now))
    case CommitStage(p) =>
      var tx := s.procs[p];
      Goes(s, p, Staged(s.nextId, tx.code, tx.tarball)).(
        rows := s.rows[s.nextId := Row(Sha256(tx.code), None, true, tx.begun)],
        nextId := s.nextId + 1)
    case LockForSource(p) => Goes(s, p, SourceTx(s.procs[p].id, s.procs[p].code, s.procs[p].tarball))
    case StoreSource(p) =>
      var tx := s.procs[p];
      Goes(s, p, SourceStored(tx.id, tx.code, tx.tarball)).(sources := s.sources[Sha256(tx.tarball) := tx.tarball])
    case CommitSource(p) =>
      var tx := s.procs[p];
      Goes(s, p, SourceNamed(tx.id, tx.code)).(
        rows := if tx.id in s.rows then s.rows[tx.id := s.rows[tx.id].(source := Some(Sha256(tx.tarball)))] else s.rows)
    case LockForBlob(p) => Goes(s, p, BlobTx(s.procs[p].id, s.procs[p].code))
    case StoreBlob(p) =>
      var tx := s.procs[p];
      Goes(s, p, BlobStored(tx.id, tx.code)).(blobs := Placed(s.blobs, tx.code))
    case CommitPromotion(p) => Ends(s, p).(rows := Settle(s.rows, {s.procs[p].id}))
    case BeginUpload(p, slot, image) => Goes(s, p, UploadTx(slot, image))
    case StoreImage(p) =>
      var tx := s.procs[p];
      Goes(s, p, UploadStored(tx.slot, tx.image)).(blobs := Placed(s.blobs, tx.image))
    case CommitPointer(p, accountExists) =>
      var tx := s.procs[p];
      Ends(s, p).(pointers := if accountExists then s.pointers[tx.slot := Sha256(tx.image)] else s.pointers)
    case ClearPointer(slot) => s.(pointers := s.pointers - {slot})
    case DeleteRows(ids) => s.(rows := s.rows - ids)
    case LockForBlobRemoval(p, blob) => Goes(s, p, RemovingBlob(blob))
    case CheckBlobKeepers(p) =>
      var blob := s.procs[p].blob;
      if BlobHasKeeper(s, blob) then Ends(s, p) else Goes(s, p, UnusedBlob(blob, s.now))
    case UnlinkBlob(p) => Ends(s, p).(blobs := s.blobs - {s.procs[p].blob})
    case LockForSourceRemoval(p, source) => Goes(s, p, RemovingSource(source))
    case CheckSourceKeepers(p) =>
      var source := s.procs[p].source;
      if SourceHasKeeper(s, source) then Ends(s, p) else Goes(s, p, UnusedSource(source))
    case UnlinkSource(p) => Ends(s, p).(sources := s.sources - {s.procs[p].source})
    case BeginReconcile(p) =>
      var aged := map id | id in s.rows && s.rows[id].staging && s.rows[id].createdAt < s.now - HOUR :: s.rows[id];
      Goes(s, p, Reconciling(s.now, aged, {}, {}))
    case InspectRow(p, id) =>
      var r := s.procs[p];
      var row := r.read[id];
      if row.blob in s.blobs && (row.source.None? || row.source.value in s.sources)
      then Goes(s, p, r.(complete := r.complete + {id}))
      else Goes(s, p, r.(missing := r.missing + {id}))
    case CommitReconcile(p) => Ends(s, p).(rows := Settle(s.rows, s.procs[p].complete) - s.procs[p].missing)
    case Crash(p) => Ends(s, p)
  }

  predicate CanAll(s: State, limits: Limits, steps: seq<Step>)
    decreases |steps|
  {
    steps == [] || (Can(s, limits, steps[0]) && CanAll(Do(s, limits, steps[0]), limits, steps[1..]))
  }

  function DoAll(s: State, limits: Limits, steps: seq<Step>): State
    requires CanAll(s, limits, steps)
    decreases |steps|
  {
    if steps == [] then s else DoAll(Do(s, limits, steps[0]), limits, steps[1..])
  }

  // --------------------------------------------------------------- safety

  predicate Honest(files: map<Digest, Content>) {
    forall d :: d in files ==> Sha256(files[d]) == d
  }

  /** An empty database over a data directory that may hold anyone's left-over files. */
  predicate Init(s: State) {
    s.rows == map[] && s.pointers == map[] && s.procs == map[] && Honest(s.blobs) && Honest(s.sources)
  }

  /** Live bytes stay: every settled version and every profile image has its file, every row that
      names a source has it, staging rows included, and each file's content hashes to its name. */
  predicate Safe(s: State) {
    && Honest(s.blobs) && Honest(s.sources)
    && (forall id :: id in s.rows && !s.rows[id].staging ==> s.rows[id].blob in s.blobs)
    && (forall slot :: slot in s.pointers ==> s.pointers[slot] in s.blobs)
    && (forall id :: id in s.rows && s.rows[id].source.Some? ==> s.rows[id].source.value in s.sources)
  }

  predicate LocksRespected(s: State) {
    forall p, q :: p in s.procs && q in s.procs && p != q && Excludes(s.procs[p]) ==>
      !Excludes(s.procs[q]) && !Shares(s.procs[q])
  }

  predicate IsRowOf(s: State, id: nat, blob: Digest) {
    id < s.nextId && (id in s.rows ==> s.rows[id].blob == blob)
  }

  /** While a removal may still unlink, only rows staged since its check can name its digest. */
  predicate OnlyFreshRowsName(s: State, limits: Limits, blob: Digest, checkedAt: int) {
    && (forall id :: id in s.rows && s.rows[id].blob == blob ==>
          s.rows[id].staging && checkedAt <= s.rows[id].createdAt + limits.staging)
    && (forall slot :: slot in s.pointers ==> s.pointers[slot] != blob)
  }

  predicate ReconcileFacts(s: State, r: Proc)
    requires r.Reconciling?
  {
    && r.since <= s.now && r.complete <= r.read.Keys
    && (forall id :: id in r.read ==>
          IsRowOf(s, id, r.read[id].blob) && r.read[id].createdAt + HOUR < r.since
          && (id in s.rows ==> s.rows[id].createdAt == r.read[id].createdAt))
    && (forall id :: id in r.complete && id in s.rows ==> s.rows[id].blob in s.blobs)
  }

  predicate ProcFacts(s: State, limits: Limits, p: Proc) {
    match p
    case StageTx(_, _, begun) => begun <= s.now
    case Staged(id, code, _) => IsRowOf(s, id, Sha256(code))
    case SourceTx(id, code, _) => IsRowOf(s, id, Sha256(code))
    case SourceStored(id, code, tarball) => IsRowOf(s, id, Sha256(code)) && Sha256(tarball) in s.sources
    case SourceNamed(id, code) => IsRowOf(s, id, Sha256(code))
    case BlobTx(id, code) => IsRowOf(s, id, Sha256(code))
    case BlobStored(id, code) => IsRowOf(s, id, Sha256(code)) && Sha256(code) in s.blobs
    case UploadTx(_, _) => true
    case UploadStored(_, image) => Sha256(image) in s.blobs
    case RemovingBlob(_) => true
    case UnusedBlob(blob, checkedAt) =>
      checkedAt <= s.now && (s.now <= checkedAt + limits.removal ==> OnlyFreshRowsName(s, limits, blob, checkedAt))
    case RemovingSource(_) => true
    case UnusedSource(source) => !SourceHasKeeper(s, source)
    case Reconciling(_, _, _, _) => ReconcileFacts(s, p)
  }

  predicate Inv(s: State, limits: Limits) {
    && Safe(s) && LocksRespected(s)
    && (forall id :: id in s.rows ==> id < s.nextId)
    && (forall p :: p in s.procs ==> ProcFacts(s, limits, s.procs[p]))
  }

  // ------------------------------------ what each kind of change leaves true

  /** What a process knows survives every change of the tables and files that is not an unlink of
      a file it counts on, and not a settled row or pointer a removal has ruled out. */
  predicate Preserves(s: State, t: State, limits: Limits) {
    && s.now <= t.now && s.nextId <= t.nextId
    && (forall id :: id in t.rows && id in s.rows ==>
          t.rows[id].blob == s.rows[id].blob && t.rows[id].createdAt == s.rows[id].createdAt)
    && (forall id :: id in t.rows && id !in s.rows ==>
          s.nextId <= id < t.nextId && t.rows[id].staging && t.rows[id].source.None?
          && t.now <= t.rows[id].createdAt + limits.staging)
  }

  predicate TablesAgree(s: State, t: State) {
    && (forall id :: id in t.rows && id in s.rows ==> t.rows[id] == s.rows[id])
    && (forall slot :: slot in t.pointers ==> slot in s.pointers && t.pointers[slot] == s.pointers[slot])
  }

  /** The acting process holds what it held, or a lock nobody's lock conflicts with. */
  predicate LockAllows(s: State, p: nat, to: Proc) {
    || (p in s.procs && Shares(to) == Shares(s.procs[p]) && Excludes(to) == Excludes(s.procs[p]))
    || (Shares(to) && ShareGranted(s))
    || (Excludes(to) && ExclusiveGranted(s))
    || (!Shares(to) && !Excludes(to))
  }

  /** Enough for a step of process `p` to keep the invariant: the files only grow, the tables
      change only where no removal is open, and `p` knows what its new phase says. */
  lemma GrowthKeepsInv(s: State, t: State, limits: Limits, p: nat)
    requires Inv(s, limits) && Preserves(s, t, limits)
    requires s.blobs.Keys <= t.blobs.Keys && s.sources.Keys <= t.sources.Keys
    requires Safe(t) && forall id :: id in t.rows ==> id < t.nextId
    requires forall q :: q in t.procs && q != p ==> q in s.procs && t.procs[q] == s.procs[q]
    requires TablesAgree(s, t) || forall q :: q in t.procs ==> !Excludes(t.procs[q])
    requires p in t.procs ==> ProcFacts(t, limits, t.procs[p]) && LockAllows(s, p, t.procs[p])
    ensures Inv(t, limits)
  {
    hide Safe, Preserves, TablesAgree;
    assert LocksRespected(t) by { hide ProcFacts; }
    forall q | q in t.procs ensures ProcFacts(t, limits, t.procs[q]) {
      if q != p {
        hide ProcFacts;
        GrowthKeepsFacts(s, t, limits, t.procs[q]);
      }
    }
  }

  lemma GrowthKeepsFacts(s: State, t: State, limits: Limits, p: Proc)
    requires ProcFacts(s, limits, p) && Preserves(s, t, limits)
    requires s.blobs.Keys <= t.blobs.Keys && s.sources.Keys <= t.sources.Keys
    requires TablesAgree(s, t) || !Excludes(p)
    ensures ProcFacts(t, limits, p)
  {
  }

  lemma OnlyProcsChange(s: State, t: State, limits: Limits)
    requires t == s.(procs := t.procs)
    ensures Safe(t) == Safe(s) && Preserves(s, t, limits) && TablesAgree(s, t)
  {
  }

  lemma SharedLockKeepsInv(s: State, limits: Limits, step: Step)
    requires Inv(s, limits) && Can(s, limits, step)
    requires step.LockForSource? || step.LockForBlob? || step.BeginUpload?
    ensures Inv(Do(s, limits, step), limits)
  {
    var t := Do(s, limits, step);
    assert step.p in t.procs ==> ProcFacts(t, limits, t.procs[step.p]);
    hide ProcFacts;
    OnlyProcsChange(s, t, limits);
    hide Safe, Preserves, TablesAgree;
    GrowthKeepsInv(s, t, limits, step.p);
  }

  lemma ExclusiveLockKeepsInv(s: State, limits: Limits, step: Step)
    requires Inv(s, limits) && Can(s, limits, step)
    requires step.LockForBlobRemoval? || step.LockForSourceRemoval?
    ensures Inv(Do(s, limits, step), limits)
  {
    var t := Do(s, limits, step);
    assert step.p in t.procs ==> ProcFacts(t, limits, t.procs[step.p]);
    hide ProcFacts;
    OnlyProcsChange(s, t, limits);
    hide Safe, Preserves, TablesAgree;
    GrowthKeepsInv(s, t, limits, step.p);
  }

  lemma BegunFacts(s: State, limits: Limits, step: Step)
    requires Inv(s, limits) && Can(s, limits, step)
    requires step.BeginPublish? || step.BeginReconcile?
    ensures var t := Do(s, limits, step);
            step.p in t.procs && ProcFacts(t, limits, t.procs[step.p])
  {
    hide Safe, LocksRespected;
  }

  lemma BeginStepKeepsInv(s: State, limits: Limits, step: Step)
    requires Inv(s, limits) && Can(s, limits, step)
    requires step.BeginPublish? || step.BeginReconcile? || step.Crash?
    ensures Inv(Do(s, limits, step), limits)
  {
    hide ProcFacts;
    var t := Do(s, limits, step);
    if !step.Crash? {
      BegunFacts(s, limits, step);
    }
    OnlyProcsChange(s, t, limits);
    hide Safe, Preserves, TablesAgree;
    GrowthKeepsInv(s, t, limits, step.p);
  }

  lemma AdvanceKeepsInv(s: State, limits: Limits, step: Step)
    requires Inv(s, limits) && Can(s, limits, step)
    requires step.Advance?
    ensures Inv(Do(s, limits, step), limits)
  {
    var t := Do(s, limits, step);
    forall q | q in t.procs ensures ProcFacts(t, limits, t.procs[q]) {
      GrowthKeepsFacts(s, t, limits, t.procs[q]);
    }
  }

  lemma DeletionKeepsInv(s: State, limits: Limits, step: Step)
    requires Inv(s, limits) && Can(s, limits, step)
    requires step.ClearPointer? || step.DeleteRows?
    ensures Inv(Do(s, limits, step), limits)
  {
    var t := Do(s, limits, step);
    forall q | q in t.procs ensures ProcFacts(t, limits, t.procs[q]) {
      GrowthKeepsFacts(s, t, limits, t.procs[q]);
    }
  }

  lemma CommitStageKeepsInv(s: State, limits: Limits, step: Step)
    requires Inv(s, limits) && Can(s, limits, step)
    requires step.CommitStage?
    ensures Inv(Do(s, limits, step), limits)
  {
    var t := Do(s, limits, step);
    assert step.p in t.procs ==> ProcFacts(t, limits, t.procs[step.p]);
    hide ProcFacts;
    GrowthKeepsInv(s, t, limits, step.p);
  }

  lemma PlacedKeepsFiles(files: map<Digest, Content>, content: Content)
    requires Honest(files)
    ensures Honest(Placed(files, content)) && Placed(files, content).Keys == files.Keys + {Sha256(content)}
  {
  }

  lemma StoreSourceKeepsInv(s: State, limits: Limits, step: Step)
    requires Inv(s, limits) && Can(s, limits, step)
    requires step.StoreSource?
    ensures Inv(Do(s, limits, step), limits)
  {
    var t := Do(s, limits, step);
    assert step.p in t.procs ==> ProcFacts(t, limits, t.procs[step.p]);
    hide ProcFacts;
    GrowthKeepsInv(s, t, limits, step.p);
  }

  lemma StoreBlobKeepsInv(s: State, limits: Limits, step: Step)
    requires Inv(s, limits) && Can(s, limits, step)
    requires step.StoreBlob?
    ensures Inv(Do(s, limits, step), limits)
  {
    PlacedKeepsFiles(s.blobs, s.procs[step.p].code);
    hide Placed;
    var t := Do(s, limits, step);
    assert step.p in t.procs ==> ProcFacts(t, limits, t.procs[step.p]);
    hide ProcFacts;
    GrowthKeepsInv(s, t, limits, step.p);
  }

  lemma StoreImageKeepsInv(s: State, limits: Limits, step: Step)
    requires Inv(s, limits) && Can(s, limits, step)
    requires step.StoreImage?
    ensures Inv(Do(s, limits, step), limits)
  {
    PlacedKeepsFiles(s.blobs, s.procs[step.p].image);
    hide Placed;
    var t := Do(s, limits, step);
    assert step.p in t.procs ==> ProcFacts(t, limits, t.procs[step.p]);
    hide ProcFacts;
    GrowthKeepsInv(s, t, limits, step.p);
  }

  /** A commit under the shared lock has no removal beside it. */
  lemma CommitSourceKeepsInv(s: State, limits: Limits, step: Step)
    requires Inv(s, limits) && Can(s, limits, step)
    requires step.CommitSource?
    ensures Inv(Do(s, limits, step), limits)
  {
    var t := Do(s, limits, step);
    assert forall q :: q in t.procs ==> !Excludes(t.procs[q]);
    assert step.p in t.procs ==> ProcFacts(t, limits, t.procs[step.p]);
    hide ProcFacts;
    GrowthKeepsInv(s, t, limits, step.p);
  }

  /** A promotion settles its row, and the row's blob is on disk when it does. */
  lemma CommitPromotionKeepsInv(s: State, limits: Limits, step: Step)
    requires Inv(s, limits) && Can(s, limits, step)
    requires step.CommitPromotion?
    ensures Inv(Do(s, limits, step), limits)
    ensures var id, t := s.procs[step.p].id, Do(s, limits, step);
            id in s.rows ==>
              id in t.rows && !t.rows[id].staging && t.rows[id].blob == s.rows[id].blob && t.rows[id].blob in t.blobs
  {
    var t := Do(s, limits, step);
    assert forall q :: q in t.procs ==> !Excludes(t.procs[q]);
    hide ProcFacts;
    GrowthKeepsInv(s, t, limits, step.p);
  }

  lemma CommitPointerKeepsInv(s: State, limits: Limits, step: Step)
    requires Inv(s, limits) && Can(s, limits, step)
    requires step.CommitPointer?
    ensures Inv(Do(s, limits, step), limits)
  {
    var t := Do(s, limits, step);
    assert forall q :: q in t.procs ==> !Excludes(t.procs[q]);
    hide ProcFacts;
    GrowthKeepsInv(s, t, limits, step.p);
  }

  /** A check that finds no keeper leaves nothing naming the digest. */
  lemma NoKeeperFacts(s: State, t: State, limits: Limits, blob: Digest)
    requires !BlobHasKeeper(s, blob) && t == s.(procs := t.procs)
    ensures ProcFacts(t, limits, UnusedBlob(blob, s.now))
  {
    assert forall id :: id in t.rows ==> s.rows[id].blob != blob;
    assert forall slot :: slot in t.pointers ==> s.pointers[slot] != blob;
  }

  lemma CheckBlobKeepersKeepsInv(s: State, limits: Limits, step: Step)
    requires Inv(s, limits) && Can(s, limits, step)
    requires step.CheckBlobKeepers?
    ensures Inv(Do(s, limits, step), limits)
  {
    hide ProcFacts;
    var t := Do(s, limits, step);
    if !BlobHasKeeper(s, s.procs[step.p].blob) {
      NoKeeperFacts(s, t, limits, s.procs[step.p].blob);
    }
    hide BlobHasKeeper;
    OnlyProcsChange(s, t, limits);
    hide Safe, Preserves, TablesAgree;
    GrowthKeepsInv(s, t, limits, step.p);
  }

  lemma CheckSourceKeepersKeepsInv(s: State, limits: Limits, step: Step)
    requires Inv(s, limits) && Can(s, limits, step)
    requires step.CheckSourceKeepers?
    ensures Inv(Do(s, limits, step), limits)
  {
    var t := Do(s, limits, step);
    assert SourceHasKeeper(s, s.procs[step.p].source) == SourceHasKeeper(t, s.procs[step.p].source);
    hide SourceHasKeeper;
    assert step.p in t.procs ==> ProcFacts(t, limits, t.procs[step.p]);
    hide ProcFacts;
    OnlyProcsChange(s, t, limits);
    hide Safe, Preserves, TablesAgree;
    GrowthKeepsInv(s, t, limits, step.p);
  }

  lemma InspectedFacts(s: State, t: State, r: Proc, id: nat)
    requires r.Reconciling? && ReconcileFacts(s, r) && id in r.read && t == s.(procs := t.procs)
    ensures ReconcileFacts(t, r.(missing := r.missing + {id}))
    ensures r.read[id].blob in s.blobs ==> ReconcileFacts(t, r.(complete := r.complete + {id}))
  {
  }

  lemma InspectedProcFacts(s: State, limits: Limits, step: Step)
    requires Inv(s, limits) && Can(s, limits, step) && step.InspectRow?
    ensures var t := Do(s, limits, step);
            step.p in t.procs && ProcFacts(t, limits, t.procs[step.p])
  {
    assert ReconcileFacts(s, s.procs[step.p]);
    InspectedFacts(s, Do(s, limits, step), s.procs[step.p], step.id);
    hide ReconcileFacts, Safe, LocksRespected;
  }

  lemma InspectRowKeepsInv(s: State, limits: Limits, step: Step)
    requires Inv(s, limits) && Can(s, limits, step)
    requires step.InspectRow?
    ensures Inv(Do(s, limits, step), limits)
  {
    hide ProcFacts;
    var t := Do(s, limits, step);
    InspectedProcFacts(s, limits, step);
    OnlyProcsChange(s, t, limits);
    hide Safe, Preserves, TablesAgree;
    GrowthKeepsInv(s, t, limits, step.p);
  }

  /** The row ages that separate a removal from a reconcile: a row staged since the removal's
      check is too young for any reconcile the removal can still meet. */
  lemma FreshRowsAreNotAged(s: State, limits: Limits, blob: Digest, checkedAt: int, r: Proc, id: nat)
    requires limits.removal + limits.staging <= HOUR
    requires ProcFacts(s, limits, UnusedBlob(blob, checkedAt)) && s.now <= checkedAt + limits.removal
    requires r.Reconciling? && ProcFacts(s, limits, r) && id in r.read && id in s.rows
    ensures s.rows[id].blob != blob
  {
  }

  lemma UnlinkBlobKeepsFacts(s: State, limits: Limits, p: nat, q: nat)
    requires limits.removal + limits.staging <= HOUR
    requires Inv(s, limits) && Can(s, limits, UnlinkBlob(p)) && q in s.procs && q != p
    ensures ProcFacts(Do(s, limits, UnlinkBlob(p)), limits, s.procs[q])
  {
    hide Safe;
    var t, tx, other := Do(s, limits, UnlinkBlob(p)), s.procs[p], s.procs[q];
    assert ProcFacts(s, limits, other) && ProcFacts(s, limits, tx);
    assert !Shares(other) && !Excludes(other);
    hide Inv;
    if other.Reconciling? {
      forall id | id in other.complete && id in t.rows ensures t.rows[id].blob in t.blobs {
        FreshRowsAreNotAged(s, limits, tx.blob, tx.checkedAt, other, id);
      }
    }
  }

  lemma UnlinkBlobIsSafe(s: State, limits: Limits, p: nat)
    requires Inv(s, limits) && Can(s, limits, UnlinkBlob(p))
    ensures Safe(Do(s, limits, UnlinkBlob(p)))
  {
    assert ProcFacts(s, limits, s.procs[p]);
  }

  lemma UnlinkBlobKeepsInv(s: State, limits: Limits, p: nat)
    requires limits.removal + limits.staging <= HOUR
    requires Inv(s, limits) && Can(s, limits, UnlinkBlob(p))
    ensures Inv(Do(s, limits, UnlinkBlob(p)), limits)
  {
    hide ProcFacts, Safe;
    var t := Do(s, limits, UnlinkBlob(p));
    UnlinkBlobIsSafe(s, limits, p);
    forall q | q in t.procs ensures ProcFacts(t, limits, t.procs[q]) {
      UnlinkBlobKeepsFacts(s, limits, p, q);
    }
  }

  lemma UnlinkSourceKeepsInv(s: State, limits: Limits, p: nat)
    requires Inv(s, limits) && Can(s, limits, UnlinkSource(p))
    ensures Inv(Do(s, limits, UnlinkSource(p)), limits)
  {
    var t, tx := Do(s, limits, UnlinkSource(p)), s.procs[p];
    assert forall id :: id in t.rows && t.rows[id].source.Some? ==> t.rows[id].source != Some(tx.source);
    forall q | q in t.procs ensures ProcFacts(t, limits, t.procs[q]) {
    }
  }

  lemma SettlingKeepsRemovalFacts(s: State, t: State, limits: Limits, r: Proc, p: Proc)
    requires limits.removal + limits.staging <= HOUR
    requires r.Reconciling? && ProcFacts(s, limits, r)
    requires t == s.(procs := t.procs, rows := Settle(s.rows, r.complete) - r.missing)
    requires Excludes(p) && ProcFacts(s, limits, p)
    ensures ProcFacts(t, limits, p)
  {
    if p.UnusedBlob? && t.now <= p.checkedAt + limits.removal {
      forall id | id in r.complete && id in s.rows ensures s.rows[id].blob != p.blob {
        FreshRowsAreNotAged(s, limits, p.blob, p.checkedAt, r, id);
      }
    }
  }

  lemma SettlingIsSafe(s: State, limits: Limits, p: nat)
    requires Inv(s, limits) && Can(s, limits, CommitReconcile(p))
    ensures var t := Do(s, limits, CommitReconcile(p)); Safe(t) && Preserves(s, t, limits)
  {
    assert ReconcileFacts(s, s.procs[p]);
  }

  lemma CommitReconcileKeepsInv(s: State, limits: Limits, p: nat)
    requires limits.removal + limits.staging <= HOUR
    requires Inv(s, limits) && Can(s, limits, CommitReconcile(p))
    ensures Inv(Do(s, limits, CommitReconcile(p)), limits)
  {
    hide ProcFacts, Safe, Preserves;
    var t, r := Do(s, limits, CommitReconcile(p)), s.procs[p];
    SettlingIsSafe(s, limits, p);
    forall q | q in t.procs ensures ProcFacts(t, limits, t.procs[q]) {
      if Excludes(t.procs[q]) {
        SettlingKeepsRemovalFacts(s, t, limits, r, t.procs[q]);
      } else {
        GrowthKeepsFacts(s, t, limits, t.procs[q]);
      }
    }
  }

  lemma StepKeepsInv(s: State, limits: Limits, step: Step)
    requires limits.removal + limits.staging <= HOUR
    requires Inv(s, limits) && Can(s, limits, step)
    ensures Inv(Do(s, limits, step), limits)
  {
    hide Inv, Can, Do;
    match step
    case Advance(_) => AdvanceKeepsInv(s, limits, step);
    case BeginPublish(_, _, _) => BeginStepKeepsInv(s, limits, step);
    case CommitStage(_) => CommitStageKeepsInv(s, limits, step);
    case LockForSource(_) => SharedLockKeepsInv(s, limits, step);
    case StoreSource(_) => StoreSourceKeepsInv(s, limits, step);
    case CommitSource(_) => CommitSourceKeepsInv(s, limits, step);
    case LockForBlob(_) => SharedLockKeepsInv(s, limits, step);
    case StoreBlob(_) => StoreBlobKeepsInv(s, limits, step);
    case CommitPromotion(_) => CommitPromotionKeepsInv(s, limits, step);
    case BeginUpload(_, _, _) => SharedLockKeepsInv(s, limits, step);
    case StoreImage(_) => StoreImageKeepsInv(s, limits, step);
    case CommitPointer(_, _) => CommitPointerKeepsInv(s, limits, step);
    case ClearPointer(_) => DeletionKeepsInv(s, limits, step);
    case DeleteRows(_) => DeletionKeepsInv(s, limits, step);
    case LockForBlobRemoval(_, _) => ExclusiveLockKeepsInv(s, limits, step);
    case CheckBlobKeepers(_) => CheckBlobKeepersKeepsInv(s, limits, step);
    case UnlinkBlob(p) => UnlinkBlobKeepsInv(s, limits, p);
    case LockForSourceRemoval(_, _) => ExclusiveLockKeepsInv(s, limits, step);
    case CheckSourceKeepers(_) => CheckSourceKeepersKeepsInv(s, limits, step);
    case UnlinkSource(p) => UnlinkSourceKeepsInv(s, limits, p);
    case BeginReconcile(_) => BeginStepKeepsInv(s, limits, step);
    case InspectRow(_, _) => InspectRowKeepsInv(s, limits, step);
    case CommitReconcile(p) => CommitReconcileKeepsInv(s, limits, p);
    case Crash(_) => BeginStepKeepsInv(s, limits, step);
  }

  lemma {:induction false} RunKeepsInv(s: State, limits: Limits, steps: seq<Step>)
    requires limits.removal + limits.staging <= HOUR
    requires Inv(s, limits) && CanAll(s, limits, steps)
    ensures Inv(DoAll(s, limits, steps), limits)
    decreases |steps|
  {
    hide Inv, Can, Do;
    if steps != [] {
      StepKeepsInv(s, limits, steps[0]);
      RunKeepsInv(Do(s, limits, steps[0]), limits, steps[1..]);
    }
  }

  /** Every interleaving, with crashes anywhere, keeps live bytes on disk as long as a removal and
      a staging transaction together fit in the reconcile's hour. */
  lemma LiveBytesStay(s: State, limits: Limits, steps: seq<Step>)
    requires limits.removal + limits.staging <= HOUR
    requires Init(s) && CanAll(s, limits, steps)
    ensures Safe(DoAll(s, limits, steps))
  {
    assert Inv(s, limits);
    RunKeepsInv(s, limits, steps);
  }

  // ---------------------------------------------------- the hour is needed

  lemma Prepend(s: State, limits: Limits, step: Step, rest: seq<Step>) returns (steps: seq<Step>)
    requires Can(s, limits, step) && CanAll(Do(s, limits, step), limits, rest)
    ensures CanAll(s, limits, steps) && DoAll(s, limits, steps) == DoAll(Do(s, limits, step), limits, rest)
  {
    steps := [step] + rest;
  }

  /** A staging row as old as its transaction, and a removal of its digest that has just checked. */
  function StagedBesideRemoval(limits: Limits, code: Content): State {
    State(limits.staging, map[0 := Row(Sha256(code), None, true, 0)], 1, map[],
          map[Sha256(code) := code], map[],
          map[1 := Staged(0, code, []), 2 := UnusedBlob(Sha256(code), limits.staging)])
  }

  /** The staging transaction as it is about to commit, late. */
  function SlowStaging(limits: Limits, code: Content): State {
    State(limits.staging, map[], 0, map[], map[Sha256(code) := code], map[], map[1 := StageTx(code, [], 0)])
  }

  lemma ReachSlowStaging(limits: Limits, code: Content, rest: seq<Step>) returns (s: State, steps: seq<Step>)
    requires CanAll(SlowStaging(limits, code), limits, rest)
    ensures Init(s) && CanAll(s, limits, steps)
    ensures DoAll(s, limits, steps) == DoAll(SlowStaging(limits, code), limits, rest)
  {
    hide CanAll, DoAll;
    s := SlowStaging(limits, code).(now := 0, procs := map[]);
    var s1 := Do(s, limits, BeginPublish(1, code, []));
    assert Do(s1, limits, Advance(limits.staging)) == SlowStaging(limits, code);
    steps := Prepend(s1, limits, Advance(limits.staging), rest);
    steps := Prepend(s, limits, BeginPublish(1, code, []), steps);
  }

  /** The removal has taken its lock beside the slow transaction, and found nothing. */
  function CheckedBesideStaging(limits: Limits, code: Content): State {
    var s := SlowStaging(limits, code);
    s.(procs := s.procs[2 := UnusedBlob(Sha256(code), s.now)])
  }

  lemma StagingCommitsLate(limits: Limits, code: Content)
    ensures var s := CheckedBesideStaging(limits, code);
            Can(s, limits, CommitStage(1)) && Do(s, limits, CommitStage(1)) == StagedBesideRemoval(limits, code)
  {
    var s, t := CheckedBesideStaging(limits, code), StagedBesideRemoval(limits, code);
    assert s.procs[1 := Staged(0, code, [])] == t.procs;
  }

  lemma ReachStagedBesideRemoval(limits: Limits, code: Content, rest: seq<Step>) returns (s: State, steps: seq<Step>)
    requires CanAll(StagedBesideRemoval(limits, code), limits, rest)
    ensures Init(s) && CanAll(s, limits, steps)
    ensures DoAll(s, limits, steps) == DoAll(StagedBesideRemoval(limits, code), limits, rest)
  {
    hide CanAll, DoAll, StagedBesideRemoval;
    StagingCommitsLate(limits, code);
    var blob, s2 := Sha256(code), SlowStaging(limits, code);
    var s3 := Do(s2, limits, LockForBlobRemoval(2, blob));
    var s4 := Do(s3, limits, CheckBlobKeepers(2));
    assert s4 == CheckedBesideStaging(limits, code);
    hide Can, Do;
    steps := Prepend(s4, limits, CommitStage(1), rest);
    steps := Prepend(s3, limits, CheckBlobKeepers(2), steps);
    steps := Prepend(s2, limits, LockForBlobRemoval(2, blob), steps);
    s, steps := ReachSlowStaging(limits, code, steps);
  }

  /** The same, with the row aged past the hour and found complete by a reconcile. */
  function FoundBesideRemoval(limits: Limits, code: Content): State {
    var s, late := StagedBesideRemoval(limits, code), limits.staging + limits.removal;
    s.(now := late, procs := s.procs[3 := Reconciling(late, s.rows, s.rows.Keys, {})])
  }

  /** The row settled, the removal still open. */
  function SettledBesideRemoval(limits: Limits, code: Content): State {
    var s := FoundBesideRemoval(limits, code);
    s.(rows := map[0 := Row(Sha256(code), None, false, 0)], procs := s.procs - {3})
  }

  lemma ReconcileSettles(limits: Limits, code: Content)
    ensures var s := FoundBesideRemoval(limits, code);
            Can(s, limits, CommitReconcile(3)) && Do(s, limits, CommitReconcile(3)) == SettledBesideRemoval(limits, code)
  {
    var s := FoundBesideRemoval(limits, code);
    assert Settle(s.rows, s.procs[3].complete) - s.procs[3].missing == SettledBesideRemoval(limits, code).rows;
  }

  lemma SettleBesideRemoval(limits: Limits, code: Content) returns (steps: seq<Step>)
    ensures
      var s := FoundBesideRemoval(limits, code);
      CanAll(s, limits, steps) && !Safe(DoAll(s, limits, steps))
  {
    ReconcileSettles(limits, code);
    var s, s1 := FoundBesideRemoval(limits, code), SettledBesideRemoval(limits, code);
    var s2 := Do(s1, limits, UnlinkBlob(2));
    assert 0 in s2.rows && !s2.rows[0].staging && s2.rows[0].blob !in s2.blobs;
    assert !Safe(s2);
    hide Can, Do, FoundBesideRemoval, SettledBesideRemoval;
    assert CanAll(s2, limits, []) && DoAll(s2, limits, []) == s2;
    steps := Prepend(s1, limits, UnlinkBlob(2), []);
    steps := Prepend(s, limits, CommitReconcile(3), steps);
  }

  /** A reconcile has read the aged row and not looked for its files yet. */
  function ReadBesideRemoval(limits: Limits, code: Content): State {
    var s, late := StagedBesideRemoval(limits, code), limits.staging + limits.removal;
    s.(now := late, procs := s.procs[3 := Reconciling(late, s.rows, {}, {})])
  }

  lemma ReconcileFindsTheFile(limits: Limits, code: Content)
    ensures var s := ReadBesideRemoval(limits, code);
            Can(s, limits, InspectRow(3, 0)) && Do(s, limits, InspectRow(3, 0)) == FoundBesideRemoval(limits, code)
  {
    var s, t := ReadBesideRemoval(limits, code), FoundBesideRemoval(limits, code);
    var next := Do(s, limits, InspectRow(3, 0));
    assert next.procs[3] == t.procs[3];
    assert next.procs == t.procs;
  }

  lemma ReconcileBesideRemoval(limits: Limits, code: Content) returns (steps: seq<Step>)
    requires limits.removal + limits.staging > HOUR
    ensures
      var s := StagedBesideRemoval(limits, code);
      CanAll(s, limits, steps) && !Safe(DoAll(s, limits, steps))
  {
    hide CanAll, DoAll, Safe;
    var s, late := StagedBesideRemoval(limits, code), limits.staging + limits.removal;
    var s1 := Do(s, limits, Advance(late));
    var s2 := Do(s1, limits, BeginReconcile(3));
    assert s2.procs[3].read == s.rows;
    assert s2 == ReadBesideRemoval(limits, code);
    ReconcileFindsTheFile(limits, code);
    hide Can, Do;
    steps := SettleBesideRemoval(limits, code);
    steps := Prepend(s2, limits, InspectRow(3, 0), steps);
    steps := Prepend(s1, limits, BeginReconcile(3), steps);
    steps := Prepend(s, limits, Advance(late), steps);
  }

  /** A removal checks just before a slow staging transaction commits, and is still open when the
      reconcile finds the row aged and an orphan file of the same bytes in place: the version is
      settled, and then its file goes. */
  lemma SlowRemovalLosesLiveBytes(limits: Limits, code: Content) returns (s: State, steps: seq<Step>)
    requires limits.removal + limits.staging > HOUR
    ensures Init(s) && CanAll(s, limits, steps) && !Safe(DoAll(s, limits, steps))
  {
    var rest := ReconcileBesideRemoval(limits, code);
    s, steps := ReachStagedBesideRemoval(limits, code, rest);
  }

  /** The exact condition: no run loses live bytes if and only if a removal and a staging
      transaction together last at most the hour reconcileOnBoot waits. */
  lemma SafeExactlyWhenRemovalsFit(limits: Limits)
    ensures (forall s, steps :: Init(s) && CanAll(s, limits, steps) ==> Safe(DoAll(s, limits, steps)))
            <==> limits.removal + limits.staging <= HOUR
  {
    if limits.removal + limits.staging <= HOUR {
      forall s, steps | Init(s) && CanAll(s, limits, steps) ensures Safe(DoAll(s, limits, steps)) {
        LiveBytesStay(s, limits, steps);
      }
    } else {
      var s, steps := SlowRemovalLosesLiveBytes(limits, []);
    }
  }
}
