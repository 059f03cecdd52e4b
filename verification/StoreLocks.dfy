/** What the advisory lock keeps by itself, however long anything takes: named sources and profile
    images. The hour the reconcile waits is for the blobs of the versions it settles, and for those
    alone (StoreProtocol). */
module StoreLocks {
  import opened Options
  import opened StoreProtocol

  /** The process a step belongs to, if it belongs to one. */
  function Actor(step: Step): Option<nat> {
    if step.Advance? || step.ClearPointer? || step.DeleteRows? then None else Some(step.p)
  }

  /** A step changes its own process and no other. */
  lemma OthersStay(s: State, limits: Limits, step: Step)
    requires Can(s, limits, step)
    ensures forall q :: q in Do(s, limits, step).procs && Some(q) != Actor(step) ==> q in s.procs && Do(s, limits, step).procs[q] == s.procs[q]
  {
    hide BlobHasKeeper, SourceHasKeeper, Settle, Placed, ShareGranted, ExclusiveGranted;
  }

  /** Its own it changes to one that the lock it holds or is granted allows. */
  lemma ActorIsAllowed(s: State, limits: Limits, step: Step)
    requires Can(s, limits, step)
    ensures Actor(step).Some? && Actor(step).value in Do(s, limits, step).procs ==>
              LockAllows(s, Actor(step).value, Do(s, limits, step).procs[Actor(step).value])
  {
    hide BlobHasKeeper, SourceHasKeeper, Settle, Placed, ShareGranted, ExclusiveGranted;
  }

  /** The phases that know something about a source or its keepers, and the steps that lead there. */
  lemma SourcePhases(s: State, limits: Limits, step: Step, q: nat)
    requires Can(s, limits, step) && Actor(step) == Some(q) && q in Do(s, limits, step).procs
    ensures var p := Do(s, limits, step).procs[q];
            (p.SourceStored? ==> step.StoreSource?) && (p.UnusedSource? ==> step.CheckSourceKeepers?)
  {
    hide BlobHasKeeper, SourceHasKeeper, Settle, Placed, ShareGranted, ExclusiveGranted;
  }

  lemma ImagePhases(s: State, limits: Limits, step: Step, q: nat)
    requires Can(s, limits, step) && Actor(step) == Some(q) && q in Do(s, limits, step).procs
    ensures var p := Do(s, limits, step).procs[q];
            (p.UploadStored? ==> step.StoreImage?) && (p.UnusedBlob? ==> step.CheckBlobKeepers?)
  {
    hide BlobHasKeeper, SourceHasKeeper, Settle, Placed, ShareGranted, ExclusiveGranted;
  }

  lemma LocksStayRespected(s: State, limits: Limits, step: Step)
    requires LocksRespected(s) && Can(s, limits, step)
    ensures LocksRespected(Do(s, limits, step))
  {
    hide Do, Can;
    OthersStay(s, limits, step);
    ActorIsAllowed(s, limits, step);
  }

  /** Beside a commit or a write under the shared lock no removal is open, and beside an unlink no
      other lock is held. */
  lemma LockedOut(s: State, p: nat, q: nat)
    requires LocksRespected(s) && p in s.procs && q in s.procs && p != q
    ensures Shares(s.procs[p]) ==> !Excludes(s.procs[q])
    ensures Excludes(s.procs[p]) ==> !Excludes(s.procs[q]) && !Shares(s.procs[q])
  {
  }

  // ---------------------------------------------------------------- sources

  predicate NamedSourcesAreThere(s: State) {
    Honest(s.sources) && forall id :: id in s.rows && s.rows[id].source.Some? ==> s.rows[id].source.value in s.sources
  }

  /** A publish past its write has its source on disk; a removal past its check has no row to fear. */
  predicate SourceFacts(s: State, p: Proc) {
    match p
    case SourceStored(_, _, tarball) => Sha256(tarball) in s.sources
    case UnusedSource(source) => !SourceHasKeeper(s, source)
    case _ => true
  }

  ghost predicate SourcesHeld(s: State) {
    LocksRespected(s) && NamedSourcesAreThere(s) && forall p :: p in s.procs ==> SourceFacts(s, s.procs[p])
  }

  /** Only an unlink takes a source file, and only a commit names one. */
  lemma SourceChanges(s: State, limits: Limits, step: Step)
    requires Can(s, limits, step)
    ensures var t := Do(s, limits, step);
            && (!step.UnlinkSource? ==> s.sources.Keys <= t.sources.Keys)
            && (step.UnlinkSource? ==> t.rows == s.rows && t.sources == s.sources - {s.procs[step.p].source})
            && (!step.CommitSource? ==> forall id :: id in t.rows && t.rows[id].source.Some? ==>
                  id in s.rows && t.rows[id].source == s.rows[id].source)
            && (step.CommitSource? ==> t.sources == s.sources && forall id :: id in t.rows && t.rows[id].source.Some? ==>
                  || t.rows[id].source == Some(Sha256(s.procs[step.p].tarball))
                  || (id in s.rows && t.rows[id].source == s.rows[id].source))
  {
    hide BlobHasKeeper, SourceHasKeeper, Placed;
  }

  lemma SourcesStayHonest(s: State, limits: Limits, step: Step)
    requires Honest(s.sources) && Can(s, limits, step)
    ensures Honest(Do(s, limits, step).sources)
  {
    hide BlobHasKeeper, SourceHasKeeper, Placed, Settle;
  }

  lemma SourcesStayThere(s: State, limits: Limits, step: Step)
    requires SourcesHeld(s) && Can(s, limits, step)
    ensures NamedSourcesAreThere(Do(s, limits, step))
  {
    SourceChanges(s, limits, step);
    SourcesStayHonest(s, limits, step);
    if step.CommitSource? || step.UnlinkSource? {
      assert SourceFacts(s, s.procs[step.p]);
    }
    assert step.UnlinkSource? ==> forall id :: id in s.rows ==> s.rows[id].source != Some(s.procs[step.p].source);
    hide Do, LocksRespected, Honest, SourceHasKeeper;
  }

  /** A process that is not stepping keeps what it knows: whoever could spoil it is locked out. */
  lemma OtherSourceFactsStay(s: State, limits: Limits, step: Step, q: nat)
    requires SourcesHeld(s) && Can(s, limits, step) && q in s.procs && Actor(step) != Some(q)
    ensures SourceFacts(Do(s, limits, step), s.procs[q])
  {
    SourceChanges(s, limits, step);
    assert SourceFacts(s, s.procs[q]);
    if step.CommitSource? || step.UnlinkSource? {
      LockedOut(s, step.p, q);
    }
    hide Do, LocksRespected, NamedSourcesAreThere;
  }

  lemma OwnSourceFacts(s: State, limits: Limits, step: Step, q: nat)
    requires Can(s, limits, step) && Actor(step) == Some(q) && q in Do(s, limits, step).procs
    ensures SourceFacts(Do(s, limits, step), Do(s, limits, step).procs[q])
  {
    SourcePhases(s, limits, step, q);
    if !(step.StoreSource? || step.CheckSourceKeepers?) {
      hide Do, Can;
    }
  }

  lemma SourceFactsStay(s: State, limits: Limits, step: Step, q: nat)
    requires SourcesHeld(s) && Can(s, limits, step) && q in Do(s, limits, step).procs
    ensures SourceFacts(Do(s, limits, step), Do(s, limits, step).procs[q])
  {
    hide Can, Do, SourceFacts, SourcesHeld;
    OthersStay(s, limits, step);
    if Actor(step) == Some(q) {
      OwnSourceFacts(s, limits, step, q);
    } else {
      OtherSourceFactsStay(s, limits, step, q);
    }
  }

  lemma StepKeepsSources(s: State, limits: Limits, step: Step)
    requires SourcesHeld(s) && Can(s, limits, step)
    ensures SourcesHeld(Do(s, limits, step))
  {
    hide Can, Do, LocksRespected, NamedSourcesAreThere, SourceFacts;
    LocksStayRespected(s, limits, step);
    SourcesStayThere(s, limits, step);
    forall q | q in Do(s, limits, step).procs ensures SourceFacts(Do(s, limits, step), Do(s, limits, step).procs[q]) {
      SourceFactsStay(s, limits, step, q);
    }
  }

  lemma {:induction false} RunKeepsSources(s: State, limits: Limits, steps: seq<Step>)
    requires SourcesHeld(s) && CanAll(s, limits, steps)
    ensures SourcesHeld(DoAll(s, limits, steps))
    decreases |steps|
  {
    hide SourcesHeld, Can, Do;
    if steps != [] {
      StepKeepsSources(s, limits, steps[0]);
      RunKeepsSources(Do(s, limits, steps[0]), limits, steps[1..]);
    }
  }

  /** Every row that names a source, staging rows included, has its file in every interleaved state
      of publishers, removers, deleters and crashes, with no bound on how long any of them takes. */
  lemma NamedSourcesStay(s: State, limits: Limits, steps: seq<Step>)
    requires Init(s) && CanAll(s, limits, steps)
    ensures var t := DoAll(s, limits, steps);
            forall id :: id in t.rows && t.rows[id].source.Some? ==>
              var digest := t.rows[id].source.value; digest in t.sources && Sha256(t.sources[digest]) == digest
  {
    hide CanAll, DoAll;
    assert SourcesHeld(s);
    RunKeepsSources(s, limits, steps);
  }

  // ----------------------------------------------------------------- images

  predicate ImagesAreThere(s: State) {
    Honest(s.blobs) && forall slot :: slot in s.pointers ==> s.pointers[slot] in s.blobs
  }

  predicate ImageFacts(s: State, p: Proc) {
    match p
    case UploadStored(_, image) => Sha256(image) in s.blobs
    case UnusedBlob(blob, _) => forall slot :: slot in s.pointers ==> s.pointers[slot] != blob
    case _ => true
  }

  ghost predicate ImagesHeld(s: State) {
    LocksRespected(s) && ImagesAreThere(s) && forall p :: p in s.procs ==> ImageFacts(s, s.procs[p])
  }

  /** Only an unlink takes a blob, and only a commit points at one. */
  lemma ImageChanges(s: State, limits: Limits, step: Step)
    requires Can(s, limits, step)
    ensures var t := Do(s, limits, step);
            && (!step.UnlinkBlob? ==> s.blobs.Keys <= t.blobs.Keys)
            && (step.UnlinkBlob? ==> t.pointers == s.pointers && t.blobs == s.blobs - {s.procs[step.p].blob})
            && (!step.CommitPointer? ==> forall slot :: slot in t.pointers ==> slot in s.pointers && t.pointers[slot] == s.pointers[slot])
            && (step.CommitPointer? ==> t.blobs == s.blobs && forall slot :: slot in t.pointers ==>
                  t.pointers[slot] == Sha256(s.procs[step.p].image) || (slot in s.pointers && t.pointers[slot] == s.pointers[slot]))
  {
    hide BlobHasKeeper, SourceHasKeeper, Settle;
  }

  lemma BlobsStayHonest(s: State, limits: Limits, step: Step)
    requires Honest(s.blobs) && Can(s, limits, step)
    ensures Honest(Do(s, limits, step).blobs)
  {
    hide BlobHasKeeper, SourceHasKeeper, Settle;
  }

  lemma ImagesStayThere(s: State, limits: Limits, step: Step)
    requires ImagesHeld(s) && Can(s, limits, step)
    ensures ImagesAreThere(Do(s, limits, step))
  {
    ImageChanges(s, limits, step);
    BlobsStayHonest(s, limits, step);
    if step.CommitPointer? || step.UnlinkBlob? {
      assert ImageFacts(s, s.procs[step.p]);
    }
    hide Do, LocksRespected, Honest;
  }

  lemma OtherImageFactsStay(s: State, limits: Limits, step: Step, q: nat)
    requires ImagesHeld(s) && Can(s, limits, step) && q in s.procs && Actor(step) != Some(q)
    ensures ImageFacts(Do(s, limits, step), s.procs[q])
  {
    ImageChanges(s, limits, step);
    assert ImageFacts(s, s.procs[q]);
    if step.CommitPointer? || step.UnlinkBlob? {
      LockedOut(s, step.p, q);
    }
    hide Do, LocksRespected, ImagesAreThere;
  }

  lemma OwnImageFacts(s: State, limits: Limits, step: Step, q: nat)
    requires Can(s, limits, step) && Actor(step) == Some(q) && q in Do(s, limits, step).procs
    ensures ImageFacts(Do(s, limits, step), Do(s, limits, step).procs[q])
  {
    ImagePhases(s, limits, step, q);
    if !(step.StoreImage? || step.CheckBlobKeepers?) {
      hide Do, Can;
    }
  }

  lemma ImageFactsStay(s: State, limits: Limits, step: Step, q: nat)
    requires ImagesHeld(s) && Can(s, limits, step) && q in Do(s, limits, step).procs
    ensures ImageFacts(Do(s, limits, step), Do(s, limits, step).procs[q])
  {
    hide Can, Do, ImageFacts, ImagesHeld;
    OthersStay(s, limits, step);
    if Actor(step) == Some(q) {
      OwnImageFacts(s, limits, step, q);
    } else {
      OtherImageFactsStay(s, limits, step, q);
    }
  }

  lemma StepKeepsImages(s: State, limits: Limits, step: Step)
    requires ImagesHeld(s) && Can(s, limits, step)
    ensures ImagesHeld(Do(s, limits, step))
  {
    hide Can, Do, LocksRespected, ImagesAreThere, ImageFacts;
    LocksStayRespected(s, limits, step);
    ImagesStayThere(s, limits, step);
    forall q | q in Do(s, limits, step).procs ensures ImageFacts(Do(s, limits, step), Do(s, limits, step).procs[q]) {
      ImageFactsStay(s, limits, step, q);
    }
  }

  lemma {:induction false} RunKeepsImages(s: State, limits: Limits, steps: seq<Step>)
    requires ImagesHeld(s) && CanAll(s, limits, steps)
    ensures ImagesHeld(DoAll(s, limits, steps))
    decreases |steps|
  {
    hide ImagesHeld, Can, Do;
    if steps != [] {
      StepKeepsImages(s, limits, steps[0]);
      RunKeepsImages(Do(s, limits, steps[0]), limits, steps[1..]);
    }
  }

  /** Every avatar and banner has its file, with no bound on how long any step takes. */
  lemma ProfileImagesStay(s: State, limits: Limits, steps: seq<Step>)
    requires Init(s) && CanAll(s, limits, steps)
    ensures var t := DoAll(s, limits, steps);
            forall slot :: slot in t.pointers ==>
              t.pointers[slot] in t.blobs && Sha256(t.blobs[t.pointers[slot]]) == t.pointers[slot]
  {
    hide CanAll, DoAll;
    assert ImagesHeld(s);
    RunKeepsImages(s, limits, steps);
  }
}
