/** What the steps of the store protocol do, and that its transactions get where they are going: a
    safe store that never settled a version, or never removed a file, would be no store. */
module StoreProgress {
  import opened Options
  import opened StoreProtocol

  /** Nothing but what is listed changes. */
  predicate SameFiles(s: State, t: State) {
    t.blobs == s.blobs && t.sources == s.sources
  }

  /** Every row is as it was. */
  predicate SameRowsBut(s: State, t: State, ids: set<nat>) {
    && (forall id :: id in s.rows && id !in ids ==> id in t.rows && t.rows[id] == s.rows[id])
    && (forall id :: id in t.rows && id !in ids ==> id in s.rows)
  }

  /** A staging transaction leaves one row more: staging, without a source, as old as the
      transaction. */
  lemma StagingAdds(s: State, limits: Limits, p: nat)
    requires Can(s, limits, CommitStage(p)) && s.nextId !in s.rows
    ensures var tx, t := s.procs[p], Do(s, limits, CommitStage(p));
            && s.nextId in t.rows && t.rows[s.nextId].staging && t.rows[s.nextId].source == None
            && t.rows[s.nextId].blob == Sha256(tx.code) && t.rows[s.nextId].createdAt == tx.begun
            && SameRowsBut(s, t, {s.nextId}) && t.pointers == s.pointers && SameFiles(s, t)
  {
  }

  /** The second transaction names the source on its own row. */
  lemma CommitNamesTheSource(s: State, limits: Limits, p: nat)
    requires Can(s, limits, CommitSource(p)) && s.procs[p].id in s.rows
    ensures var tx, t := s.procs[p], Do(s, limits, CommitSource(p));
            && tx.id in t.rows && t.rows[tx.id].source == Some(Sha256(tx.tarball))
            && t.rows[tx.id].blob == s.rows[tx.id].blob && t.rows[tx.id].staging == s.rows[tx.id].staging
            && t.rows[tx.id].createdAt == s.rows[tx.id].createdAt
            && SameRowsBut(s, t, {tx.id}) && t.pointers == s.pointers && SameFiles(s, t)
  {
  }

  /** The promotion promotes: its row is no longer staging, and names what it named. */
  lemma PromotionSettles(s: State, limits: Limits, p: nat)
    requires Can(s, limits, CommitPromotion(p)) && s.procs[p].id in s.rows
    ensures var id, t := s.procs[p].id, Do(s, limits, CommitPromotion(p));
            && id in t.rows && !t.rows[id].staging
            && t.rows[id].blob == s.rows[id].blob && t.rows[id].source == s.rows[id].source
            && SameRowsBut(s, t, {id}) && t.pointers == s.pointers && SameFiles(s, t)
  {
  }

  /** Whatever was on disk under the name, afterwards the bytes written are. */
  lemma WritesLand(s: State, limits: Limits, p: nat)
    ensures Can(s, limits, StoreBlob(p)) ==>
              var t := Do(s, limits, StoreBlob(p));
              t.blobs == s.blobs[Sha256(s.procs[p].code) := s.procs[p].code] && t.sources == s.sources
              && t.rows == s.rows && t.pointers == s.pointers
    ensures Can(s, limits, StoreImage(p)) ==>
              var t := Do(s, limits, StoreImage(p));
              t.blobs == s.blobs[Sha256(s.procs[p].image) := s.procs[p].image] && t.sources == s.sources
              && t.rows == s.rows && t.pointers == s.pointers
    ensures Can(s, limits, StoreSource(p)) ==>
              var t := Do(s, limits, StoreSource(p));
              t.sources == s.sources[Sha256(s.procs[p].tarball) := s.procs[p].tarball] && t.blobs == s.blobs
              && t.rows == s.rows && t.pointers == s.pointers
  {
  }

  /** An upload points its account's column at its image; clearing takes the pointer away. */
  lemma PointersChange(s: State, limits: Limits, p: nat, accountExists: bool, slot: nat)
    ensures Can(s, limits, CommitPointer(p, accountExists)) ==>
              var tx, t := s.procs[p], Do(s, limits, CommitPointer(p, accountExists));
              t.rows == s.rows && SameFiles(s, t)
              && t.pointers == if accountExists then s.pointers[tx.slot := Sha256(tx.image)] else s.pointers
    ensures var t := Do(s, limits, ClearPointer(slot));
            t.rows == s.rows && SameFiles(s, t) && slot !in t.pointers
            && forall other :: other in s.pointers && other != slot ==> other in t.pointers && t.pointers[other] == s.pointers[other]
  {
  }

  /** A deletion takes its rows and no others, and no file with them. */
  lemma DeletionTakes(s: State, limits: Limits, ids: set<nat>)
    ensures var t := Do(s, limits, DeleteRows(ids));
            && (forall id :: id in ids ==> id !in t.rows) && SameRowsBut(s, t, ids)
            && t.pointers == s.pointers && SameFiles(s, t)
  {
  }

  /** A removal goes on past its check exactly when nothing names its digest. */
  lemma CheckDecides(s: State, limits: Limits, p: nat)
    ensures Can(s, limits, CheckBlobKeepers(p)) ==>
              var blob, t := s.procs[p].blob, Do(s, limits, CheckBlobKeepers(p));
              && t.rows == s.rows && t.pointers == s.pointers && SameFiles(s, t)
              && (p in t.procs && t.procs[p] == UnusedBlob(blob, s.now) <==>
                    (forall id :: id in s.rows ==> s.rows[id].blob != blob) && (forall slot :: slot in s.pointers ==> s.pointers[slot] != blob))
    ensures Can(s, limits, CheckSourceKeepers(p)) ==>
              var source, t := s.procs[p].source, Do(s, limits, CheckSourceKeepers(p));
              && t.rows == s.rows && t.pointers == s.pointers && SameFiles(s, t)
              && (p in t.procs && t.procs[p] == UnusedSource(source) <==> forall id :: id in s.rows ==> s.rows[id].source != Some(source))
  {
    hide LocksRespected;
  }

  /** An unlink takes one file. */
  lemma UnlinkTakes(s: State, limits: Limits, p: nat)
    ensures Can(s, limits, UnlinkBlob(p)) ==>
              var t := Do(s, limits, UnlinkBlob(p));
              t.blobs == s.blobs - {s.procs[p].blob} && t.sources == s.sources && t.rows == s.rows && t.pointers == s.pointers
    ensures Can(s, limits, UnlinkSource(p)) ==>
              var t := Do(s, limits, UnlinkSource(p));
              t.sources == s.sources - {s.procs[p].source} && t.blobs == s.blobs && t.rows == s.rows && t.pointers == s.pointers
  {
  }

  /** A reconcile reads exactly the staging rows older than an hour. */
  lemma ReconcileReads(s: State, limits: Limits, p: nat, id: nat)
    requires Can(s, limits, BeginReconcile(p))
    ensures var t := Do(s, limits, BeginReconcile(p));
            && p in t.procs && t.procs[p].Reconciling? && t.procs[p].complete == {} == t.procs[p].missing
            && (id in t.procs[p].read <==> id in s.rows && s.rows[id].staging && s.rows[id].createdAt + 3_600_000 < s.now)
            && (id in t.procs[p].read ==> t.procs[p].read[id] == s.rows[id])
            && t.rows == s.rows && t.pointers == s.pointers && SameFiles(s, t)
  {
  }

  /** It finds a row complete exactly when its blob is there, and its source if it names one. */
  lemma ReconcileDecides(s: State, limits: Limits, p: nat, id: nat)
    requires Can(s, limits, InspectRow(p, id))
    ensures var row, t := s.procs[p].read[id], Do(s, limits, InspectRow(p, id));
            var whole := row.blob in s.blobs && (row.source.None? || row.source.value in s.sources);
            && p in t.procs && t.procs[p].Reconciling? && t.procs[p].read == s.procs[p].read
            && t.procs[p].complete == s.procs[p].complete + (if whole then {id} else {})
            && t.procs[p].missing == s.procs[p].missing + (if whole then {} else {id})
            && t.rows == s.rows && t.pointers == s.pointers && SameFiles(s, t)
  {
  }

  /** And then settles what it found complete, drops what it did not, and leaves the rest. */
  lemma ReconcileSettlesAndDrops(s: State, limits: Limits, p: nat, id: nat)
    requires Can(s, limits, CommitReconcile(p)) && s.procs[p].complete !! s.procs[p].missing && id in s.rows
    ensures var r, t := s.procs[p], Do(s, limits, CommitReconcile(p));
            && (id in r.missing ==> id !in t.rows)
            && (id in r.complete ==> id in t.rows && !t.rows[id].staging && t.rows[id].blob == s.rows[id].blob && t.rows[id].source == s.rows[id].source)
            && (id !in r.read ==> id in t.rows && t.rows[id] == s.rows[id])
            && t.pointers == s.pointers && SameFiles(s, t)
  {
  }

  // ------------------------------------------------------------ what can run

  /** The shared lock is to be had exactly while no removal of a blob or a source is open. */
  predicate NoRemoval(s: State) {
    forall q :: q in s.procs ==> match s.procs[q]
      case RemovingBlob(_) => false
      case UnusedBlob(_, _) => false
      case RemovingSource(_) => false
      case UnusedSource(_) => false
      case _ => true
  }

  /** No publish is between taking the lock and committing its source or its promotion, and no
      upload is open. */
  predicate NoWriter(s: State) {
    forall q :: q in s.procs ==> match s.procs[q]
      case SourceTx(_, _, _) => false
      case SourceStored(_, _, _) => false
      case BlobTx(_, _) => false
      case BlobStored(_, _) => false
      case UploadTx(_, _) => false
      case UploadStored(_, _) => false
      case _ => true
  }

  lemma LocksAreGranted(s: State, limits: Limits, p: nat, slot: nat, image: Content, digest: Digest)
    ensures Can(s, limits, LockForSource(p)) <==> p in s.procs && s.procs[p].Staged? && NoRemoval(s)
    ensures Can(s, limits, LockForBlob(p)) <==> p in s.procs && s.procs[p].SourceNamed? && NoRemoval(s)
    ensures Can(s, limits, BeginUpload(p, slot, image)) <==> p !in s.procs && NoRemoval(s)
    ensures Can(s, limits, LockForBlobRemoval(p, digest)) <==> p !in s.procs && NoRemoval(s) && NoWriter(s)
    ensures Can(s, limits, LockForSourceRemoval(p, digest)) <==> p !in s.procs && NoRemoval(s) && NoWriter(s)
  {
  }

  /** What runs without a lock can run at any time: a publish and a reconcile begin, time passes, rows
      and pointers go, whoever holds the lock. */
  lemma NothingElseWaits(s: State, limits: Limits, p: nat, code: Content, tarball: Content, slot: nat, ids: set<nat>, to: int)
    ensures Can(s, limits, BeginPublish(p, code, tarball)) <==> p !in s.procs
    ensures Can(s, limits, BeginReconcile(p)) <==> p !in s.procs
    ensures Can(s, limits, ClearPointer(slot)) && Can(s, limits, DeleteRows(ids))
    ensures Can(s, limits, Advance(to)) <==> s.now <= to
    ensures s.now <= to ==> Do(s, limits, Advance(to)) == s.(now := to)
  {
  }

  /** A process can crash wherever it is; its locks go with it, and what it wrote stays. */
  lemma CrashesAnywhere(s: State, limits: Limits, p: nat)
    requires p in s.procs
    ensures Can(s, limits, Crash(p)) && Do(s, limits, Crash(p)) == s.(procs := s.procs - {p})
  {
  }

  /** In its phase, each step of a transaction can run; staging and an unlink only within their
      bounds. */
  lemma TransactionsGoOn(s: State, limits: Limits, p: nat, accountExists: bool, id: nat)
    requires p in s.procs
    ensures match s.procs[p]
            case StageTx(_, _, begun) => Can(s, limits, CommitStage(p)) <==> s.now <= begun + limits.staging
            case SourceTx(_, _, _) => Can(s, limits, StoreSource(p))
            case SourceStored(_, _, _) => Can(s, limits, CommitSource(p))
            case BlobTx(_, _) => Can(s, limits, StoreBlob(p))
            case BlobStored(_, _) => Can(s, limits, CommitPromotion(p))
            case UploadTx(_, _) => Can(s, limits, StoreImage(p))
            case UploadStored(_, _) => Can(s, limits, CommitPointer(p, accountExists))
            case RemovingBlob(_) => Can(s, limits, CheckBlobKeepers(p))
            case UnusedBlob(_, checkedAt) => Can(s, limits, UnlinkBlob(p)) <==> s.now <= checkedAt + limits.removal
            case RemovingSource(_) => Can(s, limits, CheckSourceKeepers(p))
            case UnusedSource(_) => Can(s, limits, UnlinkSource(p))
            case Reconciling(_, read, complete, missing) =>
              && (id in read && id !in complete && id !in missing ==> Can(s, limits, InspectRow(p, id)))
              && (Can(s, limits, CommitReconcile(p)) <==> complete + missing == read.Keys)
            case _ => true
  {
  }

  // ------------------------------------------------------------ settled rows

  predicate IdsAreOld(s: State) {
    forall id :: id in s.rows ==> id < s.nextId
  }

  lemma StepKeepsSettled(s: State, limits: Limits, step: Step, id: nat)
    requires IdsAreOld(s) && Can(s, limits, step) && id < s.nextId
    requires id in s.rows ==> !s.rows[id].staging
    ensures var t := Do(s, limits, step);
            && IdsAreOld(t) && id < t.nextId
            && (id in t.rows ==> id in s.rows && !t.rows[id].staging && t.rows[id].blob == s.rows[id].blob)
  {
    hide BlobHasKeeper, SourceHasKeeper, Placed, ShareGranted, ExclusiveGranted;
  }

  /** Once settled a row is settled, with the blob it has, for as long as it is there. */
  lemma {:induction false} SettledStaysSettled(s: State, limits: Limits, steps: seq<Step>, id: nat)
    requires IdsAreOld(s) && CanAll(s, limits, steps) && id in s.rows && !s.rows[id].staging
    ensures var t := DoAll(s, limits, steps);
            id in t.rows ==> !t.rows[id].staging && t.rows[id].blob == s.rows[id].blob
    decreases |steps|
  {
    hide Can, Do, IdsAreOld;
    if steps != [] {
      assert id < s.nextId by {
        OldId(s, id);
      }
      StepKeepsSettled(s, limits, steps[0], id);
      var next := Do(s, limits, steps[0]);
      if id in next.rows {
        SettledStaysSettled(next, limits, steps[1..], id);
      } else {
        GoneStaysGone(next, limits, steps[1..], id);
      }
    }
  }

  lemma OldId(s: State, id: nat)
    requires IdsAreOld(s) && id in s.rows
    ensures id < s.nextId
  {
  }

  lemma {:induction false} GoneStaysGone(s: State, limits: Limits, steps: seq<Step>, id: nat)
    requires IdsAreOld(s) && CanAll(s, limits, steps) && id !in s.rows && id < s.nextId
    ensures id !in DoAll(s, limits, steps).rows
    decreases |steps|
  {
    hide Can, Do, IdsAreOld;
    if steps != [] {
      StepKeepsSettled(s, limits, steps[0], id);
      GoneStaysGone(Do(s, limits, steps[0]), limits, steps[1..], id);
    }
  }

  /** After a promotion has committed, in every later state that still has its row the row is
      settled, whatever ran in between. */
  lemma PromotedStaysSettled(s: State, limits: Limits, p: nat, steps: seq<Step>)
    requires IdsAreOld(s) && Can(s, limits, CommitPromotion(p)) && s.procs[p].id in s.rows
    requires CanAll(Do(s, limits, CommitPromotion(p)), limits, steps)
    ensures var id, t := s.procs[p].id, DoAll(Do(s, limits, CommitPromotion(p)), limits, steps);
            id in t.rows ==> !t.rows[id].staging && t.rows[id].blob == s.rows[id].blob
  {
    hide DoAll, CanAll;
    PromotionSettles(s, limits, p);
    SettledStaysSettled(Do(s, limits, CommitPromotion(p)), limits, steps, s.procs[p].id);
  }

  // -------------------------------------------------------------- whole runs

  /** Steps done one after another. */
  lemma {:induction false} Chain(s: State, limits: Limits, steps: seq<Step>, more: seq<Step>)
    requires CanAll(s, limits, steps) && CanAll(DoAll(s, limits, steps), limits, more)
    ensures CanAll(s, limits, steps + more) && DoAll(s, limits, steps + more) == DoAll(DoAll(s, limits, steps), limits, more)
    decreases |steps|
  {
    hide Can, Do;
    if steps == [] {
      assert steps + more == more;
    } else {
      assert (steps + more)[0] == steps[0] && (steps + more)[1..] == steps[1..] + more;
      Chain(Do(s, limits, steps[0]), limits, steps[1..], more);
    }
  }

  lemma One(s: State, limits: Limits, step: Step)
    requires Can(s, limits, step)
    ensures CanAll(s, limits, [step]) && DoAll(s, limits, [step]) == Do(s, limits, step)
  {
    hide Can, Do;
    assert [step][1..] == [];
    assert DoAll(Do(s, limits, step), limits, []) == Do(s, limits, step);
  }

  lemma PublishStages(s: State, limits: Limits, p: nat, code: Content, tarball: Content) returns (t: State, steps: seq<Step>)
    requires ShareGranted(s) && p !in s.procs && s.nextId !in s.rows
    ensures CanAll(s, limits, steps) && t == DoAll(s, limits, steps) && ShareGranted(t)
    ensures t.procs == s.procs[p := Staged(s.nextId, code, tarball)]
    ensures t.rows == s.rows[s.nextId := Row(Sha256(code), None, true, s.now)] && t.blobs == s.blobs && t.sources == s.sources
  {
    One(s, limits, BeginPublish(p, code, tarball));
    var s1 := Do(s, limits, BeginPublish(p, code, tarball));
    One(s1, limits, CommitStage(p));
    t := Do(s1, limits, CommitStage(p));
    Chain(s, limits, [BeginPublish(p, code, tarball)], [CommitStage(p)]);
    steps := [BeginPublish(p, code, tarball)] + [CommitStage(p)];
    assert t.procs == s.procs[p := Staged(s.nextId, code, tarball)];
  }

  lemma PublishNamesItsSource(s: State, limits: Limits, p: nat, id: nat, code: Content, tarball: Content) returns (t: State, steps: seq<Step>)
    requires ShareGranted(s) && p in s.procs && s.procs[p] == Staged(id, code, tarball) && id in s.rows
    ensures CanAll(s, limits, steps) && t == DoAll(s, limits, steps) && ShareGranted(t)
    ensures t.procs == s.procs[p := SourceNamed(id, code)] && t.blobs == s.blobs
    ensures t.rows == s.rows[id := s.rows[id].(source := Some(Sha256(tarball)))]
    ensures t.sources == s.sources[Sha256(tarball) := tarball]
  {
    var s1 := Do(s, limits, LockForSource(p));
    var s2 := Do(s1, limits, StoreSource(p));
    t := Do(s2, limits, CommitSource(p));
    One(s, limits, LockForSource(p));
    One(s1, limits, StoreSource(p));
    One(s2, limits, CommitSource(p));
    assert t.procs == s.procs[p := SourceNamed(id, code)];
    hide Can, Do, CanAll, DoAll;
    Chain(s, limits, [LockForSource(p)], [StoreSource(p)]);
    Chain(s, limits, [LockForSource(p)] + [StoreSource(p)], [CommitSource(p)]);
    steps := [LockForSource(p)] + [StoreSource(p)] + [CommitSource(p)];
  }

  lemma PublishPromotes(s: State, limits: Limits, p: nat, id: nat, code: Content) returns (t: State, steps: seq<Step>)
    requires ShareGranted(s) && p in s.procs && s.procs[p] == SourceNamed(id, code) && id in s.rows
    ensures CanAll(s, limits, steps) && t == DoAll(s, limits, steps)
    ensures t.procs == s.procs - {p} && t.sources == s.sources && t.blobs == s.blobs[Sha256(code) := code]
    ensures t.rows == s.rows[id := s.rows[id].(staging := false)]
  {
    var s1 := Do(s, limits, LockForBlob(p));
    var s2 := Do(s1, limits, StoreBlob(p));
    t := Do(s2, limits, CommitPromotion(p));
    One(s, limits, LockForBlob(p));
    One(s1, limits, StoreBlob(p));
    One(s2, limits, CommitPromotion(p));
    assert t.procs == s.procs - {p};
    assert t.rows == s.rows[id := s.rows[id].(staging := false)];
    hide Can, Do, CanAll, DoAll;
    Chain(s, limits, [LockForBlob(p)], [StoreBlob(p)]);
    Chain(s, limits, [LockForBlob(p)] + [StoreBlob(p)], [CommitPromotion(p)]);
    steps := [LockForBlob(p)] + [StoreBlob(p)] + [CommitPromotion(p)];
  }

  /** From any state in which no removal is open a publish can go all the way: its row is settled,
      names its source, and both files are on disk with the bytes published. */
  lemma PublishCanFinish(s: State, limits: Limits, p: nat, code: Content, tarball: Content) returns (steps: seq<Step>)
    requires ShareGranted(s) && p !in s.procs && s.nextId !in s.rows
    ensures CanAll(s, limits, steps)
    ensures var t := DoAll(s, limits, steps);
            && s.nextId in t.rows && !t.rows[s.nextId].staging
            && t.rows[s.nextId].blob == Sha256(code) && t.rows[s.nextId].source == Some(Sha256(tarball))
            && Sha256(code) in t.blobs && t.blobs[Sha256(code)] == code
            && Sha256(tarball) in t.sources && t.sources[Sha256(tarball)] == tarball
  {
    hide Can, Do, CanAll, DoAll, ShareGranted;
    var s1, first := PublishStages(s, limits, p, code, tarball);
    var s2, second := PublishNamesItsSource(s1, limits, p, s.nextId, code, tarball);
    var s3, third := PublishPromotes(s2, limits, p, s.nextId, code);
    Chain(s, limits, first, second);
    Chain(s, limits, first + second, third);
    steps := first + second + third;
  }

  /** In particular from every start. */
  lemma PublishCanFinishFromTheStart(s: State, limits: Limits, code: Content, tarball: Content) returns (steps: seq<Step>)
    requires Init(s)
    ensures CanAll(s, limits, steps)
    ensures var t := DoAll(s, limits, steps);
            && s.nextId in t.rows && !t.rows[s.nextId].staging && t.rows[s.nextId].source == Some(Sha256(tarball))
            && Sha256(code) in t.blobs && t.blobs[Sha256(code)] == code
            && Sha256(tarball) in t.sources && t.sources[Sha256(tarball)] == tarball
  {
    hide CanAll, DoAll;
    steps := PublishCanFinish(s, limits, 0, code, tarball);
  }

  /** So can an upload, and its column then names an image that is on disk. */
  lemma UploadCanFinish(s: State, limits: Limits, p: nat, slot: nat, image: Content) returns (steps: seq<Step>)
    requires ShareGranted(s) && p !in s.procs
    ensures CanAll(s, limits, steps)
    ensures var t := DoAll(s, limits, steps);
            && slot in t.pointers && t.pointers[slot] == Sha256(image)
            && Sha256(image) in t.blobs && t.blobs[Sha256(image)] == image
  {
    var s1 := Do(s, limits, BeginUpload(p, slot, image));
    var s2 := Do(s1, limits, StoreImage(p));
    One(s, limits, BeginUpload(p, slot, image));
    One(s1, limits, StoreImage(p));
    One(s2, limits, CommitPointer(p, true));
    hide Can, CanAll, DoAll;
    Chain(s, limits, [BeginUpload(p, slot, image)], [StoreImage(p)]);
    Chain(s, limits, [BeginUpload(p, slot, image)] + [StoreImage(p)], [CommitPointer(p, true)]);
    steps := [BeginUpload(p, slot, image)] + [StoreImage(p)] + [CommitPointer(p, true)];
  }

  /** And with no lock held, a removal of a blob nothing names frees it. */
  lemma RemovalCanFinish(s: State, limits: Limits, p: nat, blob: Digest) returns (steps: seq<Step>)
    requires ExclusiveGranted(s) && p !in s.procs
    requires forall id :: id in s.rows ==> s.rows[id].blob != blob
    requires forall slot :: slot in s.pointers ==> s.pointers[slot] != blob
    ensures CanAll(s, limits, steps)
    ensures var t := DoAll(s, limits, steps); t.blobs == s.blobs - {blob} && t.rows == s.rows && t.pointers == s.pointers
  {
    var s1 := Do(s, limits, LockForBlobRemoval(p, blob));
    CheckDecides(s1, limits, p);
    var s2 := Do(s1, limits, CheckBlobKeepers(p));
    assert s2.procs[p] == UnusedBlob(blob, s.now);
    One(s, limits, LockForBlobRemoval(p, blob));
    One(s1, limits, CheckBlobKeepers(p));
    One(s2, limits, UnlinkBlob(p));
    hide Can, CanAll, DoAll;
    Chain(s, limits, [LockForBlobRemoval(p, blob)], [CheckBlobKeepers(p)]);
    Chain(s, limits, [LockForBlobRemoval(p, blob)] + [CheckBlobKeepers(p)], [UnlinkBlob(p)]);
    steps := [LockForBlobRemoval(p, blob)] + [CheckBlobKeepers(p)] + [UnlinkBlob(p)];
  }

  /** The same for a source no row names. */
  lemma SourceRemovalCanFinish(s: State, limits: Limits, p: nat, source: Digest) returns (steps: seq<Step>)
    requires ExclusiveGranted(s) && p !in s.procs && forall id :: id in s.rows ==> s.rows[id].source != Some(source)
    ensures CanAll(s, limits, steps)
    ensures var t := DoAll(s, limits, steps); t.sources == s.sources - {source} && t.rows == s.rows && t.blobs == s.blobs
  {
    var s1 := Do(s, limits, LockForSourceRemoval(p, source));
    CheckDecides(s1, limits, p);
    var s2 := Do(s1, limits, CheckSourceKeepers(p));
    assert s2.procs[p] == UnusedSource(source);
    One(s, limits, LockForSourceRemoval(p, source));
    One(s1, limits, CheckSourceKeepers(p));
    One(s2, limits, UnlinkSource(p));
    hide Can, CanAll, DoAll;
    Chain(s, limits, [LockForSourceRemoval(p, source)], [CheckSourceKeepers(p)]);
    Chain(s, limits, [LockForSourceRemoval(p, source)] + [CheckSourceKeepers(p)], [UnlinkSource(p)]);
    steps := [LockForSourceRemoval(p, source)] + [CheckSourceKeepers(p)] + [UnlinkSource(p)];
  }
}
