/** The content-addressed store on disk: storing, releasing and sweeping blobs (src/blobs.js,
    src/maintenance.js), each run on its own. StoreProtocol is about them running together. */
module BlobStore {
  import opened Options
  import opened Utf8

  /** A file under blobs/: its shard directory and its name there. */
  datatype Path = Path(shard: string, name: string)

  datatype File = File(content: seq<Byte>, mtime: int)

  /** A versions row and an account row, as far as they name blobs. */
  datatype VersionRef = VersionRef(id: nat, blob: Option<string>)
  datatype ProfileRef = ProfileRef(avatar: Option<string>, banner: Option<string>)

  const HOUR := 60 * 60 * 1000

  /** digest.slice(0, 2) and digest.slice(2), which JavaScript allows on short strings. */
  function BlobPath(digest: string): Path {
    if |digest| < 2 then Path(digest, "") else Path(digest[..2], digest[2..])
  }

  function DigestOf(path: Path): string {
    path.shard + path.name
  }

  /** A shard's own files are where their digests say exactly when its name has two characters. */
  lemma OnlyTwoCharacterShardsAreAddressed(path: Path)
    requires path.name != ""
    ensures BlobPath(DigestOf(path)) == path <==> |path.shard| == 2
  {
    var digest := DigestOf(path);
    if |path.shard| == 2 {
      assert digest[..2] == path.shard && digest[2..] == path.name;
    } else if |digest| >= 2 {
      assert |digest[..2]| == 2;
    } else {
      assert |digest| == 1 && path.shard == "";
    }
  }

  /** From a directory of three characters the unlink misses, and takes a file in another. */
  lemma AnotherFileIsTaken()
    ensures BlobPath(DigestOf(Path("abc", "def"))) == Path("ab", "cdef")
  {
    var digest := DigestOf(Path("abc", "def"));
    assert digest == "abcdef" && digest[..2] == "ab" && digest[2..] == "cdef";
  }

  predicate Referenced(versions: seq<VersionRef>, profiles: seq<ProfileRef>, digest: string) {
    || (exists i :: 0 <= i < |versions| && versions[i].blob == Some(digest))
    || (exists i :: 0 <= i < |profiles| && (profiles[i].avatar == Some(digest) || profiles[i].banner == Some(digest)))
  }

  /** Whether a sweep leaves a file: something names it, or it may belong to a publish in flight. */
  predicate Kept(versions: seq<VersionRef>, profiles: seq<ProfileRef>, files: map<Path, File>, cutoff: int, path: Path)
    requires path in files
  {
    Referenced(versions, profiles, DigestOf(path)) || files[path].mtime > cutoff
  }

  /** What should be on disk after a sweep: the files something names, and the young ones. */
  function Swept(versions: seq<VersionRef>, profiles: seq<ProfileRef>, files: map<Path, File>, cutoff: int): map<Path, File> {
    map path | path in files && Kept(versions, profiles, files, cutoff, path) :: files[path]
  }

  /** readdir never lists an empty name. */
  predicate Named(files: map<Path, File>) {
    forall path :: path in files ==> path.name != ""
  }

  function InShard(files: map<Path, File>, shard: string): set<Path> {
    set path | path in files && path.shard == shard
  }

  /** The files of the shards a sweep is through with. */
  function Behind(files: map<Path, File>, ahead: set<string>): set<Path> {
    set path | path in files && path.shard !in ahead
  }

  /** A file an unlink may take: a sweep came by a file of its digest, old and named by nothing. */
  predicate MayGo(versions: seq<VersionRef>, profiles: seq<ProfileRef>, files: map<Path, File>, cutoff: int, path: Path) {
    exists candidate :: candidate in files && DigestOf(candidate) == DigestOf(path)
                        && !Kept(versions, profiles, files, cutoff, candidate)
  }

  /** How far a sweep has come, whatever the directories under blobs/ are called: what is gone was
      in a two-character directory and may go, and of what it has been past only files in other
      directories are left that should not be. */
  ghost predicate Progress(versions: seq<VersionRef>, profiles: seq<ProfileRef>, start: map<Path, File>, cutoff: int,
                           files: map<Path, File>, visited: set<Path>) {
    && (forall path :: path in files ==> path in start && files[path] == start[path])
    && (forall path :: path in start && path !in files ==>
          |path.shard| == 2 && MayGo(versions, profiles, start, cutoff, path))
    && (forall path :: path in files && path in visited && |path.shard| == 2 ==> Kept(versions, profiles, start, cutoff, path))
  }

  /** A sweep does what it is for exactly when every file it should take is in a two-character
      directory: the unlink goes by digest, and misses a file anywhere else. */
  lemma SweepIsExact(versions: seq<VersionRef>, profiles: seq<ProfileRef>, start: map<Path, File>, cutoff: int, files: map<Path, File>)
    requires Named(start) && Progress(versions, profiles, start, cutoff, files, start.Keys)
    ensures files == Swept(versions, profiles, start, cutoff)
       <==> forall path :: path in start && !Kept(versions, profiles, start, cutoff, path) ==> |path.shard| == 2
  {
    hide Referenced;
    var swept := Swept(versions, profiles, start, cutoff);
    if forall path :: path in start && !Kept(versions, profiles, start, cutoff, path) ==> |path.shard| == 2 {
      forall path | path in start ensures path in files <==> path in swept {
        if path !in files {
          var candidate :| candidate in start && DigestOf(candidate) == DigestOf(path)
                           && !Kept(versions, profiles, start, cutoff, candidate);
          SameDigestSamePath(candidate, path);
        }
      }
      assert files == swept;
    } else {
      var path :| path in start && !Kept(versions, profiles, start, cutoff, path) && |path.shard| != 2;
      assert path in files && path !in swept;
    }
  }

  /** Passing by a file that stays, or one that is gone already. */
  lemma PassingBy(versions: seq<VersionRef>, profiles: seq<ProfileRef>, start: map<Path, File>, cutoff: int,
                  files: map<Path, File>, visited: set<Path>, more: set<Path>)
    requires Progress(versions, profiles, start, cutoff, files, visited)
    requires forall path :: path in more && path in files ==> path in start && Kept(versions, profiles, start, cutoff, path)
    ensures Progress(versions, profiles, start, cutoff, files, visited + more)
  {
    hide Kept, MayGo;
  }

  /** Taking what the digest of an old, unnamed file leads to. */
  lemma Taking(versions: seq<VersionRef>, profiles: seq<ProfileRef>, start: map<Path, File>, cutoff: int,
               files: map<Path, File>, visited: set<Path>, path: Path)
    requires Progress(versions, profiles, start, cutoff, files, visited) && Named(start)
    requires path in files && path in start && !Kept(versions, profiles, start, cutoff, path)
    ensures Progress(versions, profiles, start, cutoff, files - {BlobPath(DigestOf(path))}, visited + {path})
  {
    var target := BlobPath(DigestOf(path));
    OnlyTwoCharacterShardsAreAddressed(path);
    if target in files {
      PathOfDigest(path, files);
      assert MayGo(versions, profiles, start, cutoff, target);
    }
    hide Kept, MayGo, BlobPath, DigestOf;
  }

  lemma SameDigestSamePath(a: Path, b: Path)
    requires DigestOf(a) == DigestOf(b) && |a.shard| == 2 && |b.shard| == 2
    ensures a == b
  {
    assert DigestOf(a)[..2] == a.shard && DigestOf(b)[..2] == b.shard;
    assert DigestOf(a)[2..] == a.name && DigestOf(b)[2..] == b.name;
  }

  /** What a removal by digest takes is a file of that digest in a two-character directory. */
  lemma PathOfDigest(candidate: Path, files: map<Path, File>)
    requires candidate.name != "" && Named(files) && BlobPath(DigestOf(candidate)) in files
    ensures var path := BlobPath(DigestOf(candidate)); |path.shard| == 2 && DigestOf(path) == DigestOf(candidate)
  {
    var digest := DigestOf(candidate);
    assert |digest| >= 2;
    assert digest[..2] + digest[2..] == digest;
  }

  class Store {
    const sha256: seq<Byte> -> string
    var files: map<Path, File>
    var versions: seq<VersionRef>
    var profiles: seq<ProfileRef>

    constructor (sha256: seq<Byte> -> string)
      ensures this.sha256 == sha256 && files == map[] && versions == [] && profiles == []
    {
      this.sha256 := sha256;
      files, versions, profiles := map[], [], [];
    }

    /** storeBlob. A file of the right size and hash is only touched; anything else is replaced by
        way of a staged copy and a rename. The store ends up the same. */
    method StoreBlob(tmp: seq<Byte>, buffer: seq<Byte>, staged: string, now: int) returns (digest: string)
      requires forall a, b :: sha256(a) == sha256(b) ==> a == b
      requires tmp == buffer
      requires Path(BlobPath(sha256(buffer)).shard, staged) !in files
      modifies this`files
      ensures digest == sha256(buffer)
      ensures files == old(files)[BlobPath(digest) := File(buffer, now)]
    {
      digest := sha256(buffer);
      var abs := BlobPath(digest);
      if abs in files && |files[abs].content| == |buffer| && sha256(files[abs].content) == digest {
        files := files[abs := files[abs].(mtime := now)];
        return;
      }
      var stagedPath := Path(abs.shard, staged);
      files := files[stagedPath := File(tmp, now)];
      files := files[abs := files[stagedPath]];
      if stagedPath != abs {
        files := files - {stagedPath};
      }
    }

    /** removeBlobIfUnused: the keeper check over versions and profile images, then the unlink. */
    method RemoveBlobIfUnused(digest: string, except: Option<nat>) returns (removed: bool)
      modifies this`files
      ensures removed <==>
                && digest != "" && BlobPath(digest) in old(files)
                && !Referenced(Others(versions, except), profiles, digest)
      ensures files == if removed then old(files) - {BlobPath(digest)} else old(files)
    {
      if digest == "" { return false; }
      var keeper := exists i :: 0 <= i < |versions| && versions[i].blob == Some(digest) && Some(versions[i].id) != except;
      OthersReference(versions, except, digest);
      if keeper { return false; }
      var profile := exists i :: 0 <= i < |profiles| && (profiles[i].avatar == Some(digest) || profiles[i].banner == Some(digest));
      if profile { return false; }
      removed := BlobPath(digest) in files;
      files := files - {BlobPath(digest)};
    }

    /** The digests a sweep starts from. */
    method ReferencedDigests() returns (referenced: set<string>)
      ensures forall digest :: digest in referenced <==> Referenced(versions, profiles, digest)
    {
      referenced := set i | 0 <= i < |versions| && versions[i].blob.Some? :: versions[i].blob.value;
      for i := 0 to |profiles|
        invariant forall digest :: digest in referenced <==> Referenced(versions, profiles[..i], digest)
      {
        NamedByOneMore(versions, profiles, i);
        if profiles[i].avatar.Some? {
          referenced := referenced + {profiles[i].avatar.value};
        }
        if profiles[i].banner.Some? {
          referenced := referenced + {profiles[i].banner.value};
        }
      }
      assert profiles[..|profiles|] == profiles;
    }

    /** One name in a shard's listing, which may be gone by the time it is looked at. */
    method Visit(referenced: set<string>, path: Path, cutoff: int, ghost start: map<Path, File>, ghost visited: set<Path>)
      returns (removed: nat)
      requires forall digest :: digest in referenced <==> Referenced(versions, profiles, digest)
      requires Named(start) && path in start.Keys && Progress(versions, profiles, start, cutoff, files, visited)
      modifies this`files
      ensures Progress(versions, profiles, start, cutoff, files, visited + {path})
      ensures removed == |old(files)| - |files|
    {
      assert path in files ==> files[path] == start[path];
      hide Referenced, Progress;
      removed := 0;
      if DigestOf(path) in referenced || path !in files || files[path].mtime > cutoff {
        PassingBy(versions, profiles, start, cutoff, files, visited, {path});
        return;
      }
      Taking(versions, profiles, start, cutoff, files, visited, path);
      OthersOfNone(versions);
      RemovalCounts(files, BlobPath(DigestOf(path)));
      var gone := RemoveBlobIfUnused(DigestOf(path), None);
      if gone {
        removed := 1;
      }
    }

    /** One directory under blobs/. */
    method SweepShard(referenced: set<string>, shard: string, cutoff: int, ghost start: map<Path, File>, ghost visited: set<Path>)
      returns (removed: nat)
      requires forall digest :: digest in referenced <==> Referenced(versions, profiles, digest)
      requires Named(start) && Progress(versions, profiles, start, cutoff, files, visited)
      modifies this`files
      ensures Progress(versions, profiles, start, cutoff, files, visited + InShard(start, shard))
      ensures removed == |old(files)| - |files|
    {
      assert files.Keys <= start.Keys;
      ghost var all := InShard(start, shard);
      removed := 0;
      var listing := InShard(files, shard);
      assert listing <= all;
      hide Referenced, Kept, MayGo, Progress, InShard, Named;
      PassingBy(versions, profiles, start, cutoff, files, visited, all - listing);
      while listing != {}
        invariant listing <= all
        invariant Progress(versions, profiles, start, cutoff, files, visited + (all - listing))
        invariant removed == |old(files)| - |files|
        decreases |listing|
      {
        var path :| path in listing;
        OneMoreSeen(visited, all, listing, path);
        var gone := Visit(referenced, path, cutoff, start, visited + (all - listing));
        listing := listing - {path};
        removed := removed + gone;
      }
      assert all - {} == all;
    }

    /** gcBlobs, run alone, over directories of any name. Nothing that something names ever goes, the
        count is right, and the sweep leaves what it should exactly when every file it should take
        is in a two-character directory, as everything the store writes is. */
    method GcBlobs(now: int) returns (removed: nat)
      requires Named(files)
      modifies this`files
      ensures removed == |old(files)| - |files|
      ensures forall path :: path in files ==> path in old(files) && files[path] == old(files)[path]
      ensures forall path :: path in old(files) && Referenced(versions, profiles, DigestOf(path)) ==> path in files
      ensures forall path :: path in old(files) && path !in files ==>
                && |path.shard| == 2 && !Referenced(versions, profiles, DigestOf(path))
                && exists candidate :: candidate in old(files) && DigestOf(candidate) == DigestOf(path)
                     && old(files)[candidate].mtime <= now - 3_600_000
      ensures files == Swept(versions, profiles, old(files), now - 3_600_000)
         <==> forall path :: path in old(files) && !Kept(versions, profiles, old(files), now - 3_600_000, path) ==> |path.shard| == 2
    {
      hide Referenced, Kept, MayGo;
      var referenced := ReferencedDigests();
      var cutoff := now - HOUR;
      removed := 0;
      var shards := set path | path in files :: path.shard;
      assert Behind(files, shards) == {};
      while shards != {}
        invariant Progress(versions, profiles, old(files), cutoff, files, Behind(old(files), shards))
        invariant removed == |old(files)| - |files|
        decreases |shards|
      {
        var shard :| shard in shards;
        assert Behind(old(files), shards - {shard}) == Behind(old(files), shards) + InShard(old(files), shard);
        ghost var visited := Behind(old(files), shards);
        shards := shards - {shard};
        var gone := SweepShard(referenced, shard, cutoff, old(files), visited);
        removed := removed + gone;
      }
      assert Behind(old(files), {}) == old(files).Keys;
      SweepIsExact(versions, profiles, old(files), cutoff, files);
      NamedFilesStay(versions, profiles, old(files), cutoff, files, old(files).Keys);
    }
  }

  lemma OneMoreSeen(visited: set<Path>, all: set<Path>, listing: set<Path>, path: Path)
    requires path in listing && listing <= all
    ensures visited + (all - listing) + {path} == visited + (all - (listing - {path}))
  {
  }

  lemma NamedFilesStay(versions: seq<VersionRef>, profiles: seq<ProfileRef>, start: map<Path, File>, cutoff: int,
                       files: map<Path, File>, visited: set<Path>)
    requires Progress(versions, profiles, start, cutoff, files, visited)
    ensures forall path :: path in start && Referenced(versions, profiles, DigestOf(path)) ==> path in files
    ensures forall path :: path in start && path !in files ==>
              && |path.shard| == 2 && !Referenced(versions, profiles, DigestOf(path))
              && exists candidate :: candidate in start && DigestOf(candidate) == DigestOf(path) && start[candidate].mtime <= cutoff
  {
    hide Referenced;
  }

  /** The rows a removal looks at. */
  function Others(versions: seq<VersionRef>, except: Option<nat>): seq<VersionRef> {
    if versions == [] then []
    else (if Some(versions[0].id) == except then [] else [versions[0]]) + Others(versions[1..], except)
  }

  lemma {:induction false} OthersReference(versions: seq<VersionRef>, except: Option<nat>, digest: string)
    ensures (exists i :: 0 <= i < |Others(versions, except)| && Others(versions, except)[i].blob == Some(digest))
       <==> exists i :: 0 <= i < |versions| && versions[i].blob == Some(digest) && Some(versions[i].id) != except
  {
    if versions != [] {
      OthersReference(versions[1..], except, digest);
      var others := Others(versions, except);
      var rest := Others(versions[1..], except);
      if exists i :: 0 <= i < |versions| && versions[i].blob == Some(digest) && Some(versions[i].id) != except {
        var i :| 0 <= i < |versions| && versions[i].blob == Some(digest) && Some(versions[i].id) != except;
        if i == 0 {
          assert others[0] == versions[0];
        } else {
          assert versions[1..][i - 1] == versions[i];
          var k :| 0 <= k < |rest| && rest[k].blob == Some(digest);
          assert others[|others| - |rest| + k] == rest[k];
        }
      }
      if exists i :: 0 <= i < |others| && others[i].blob == Some(digest) {
        var i :| 0 <= i < |others| && others[i].blob == Some(digest);
        if i >= |others| - |rest| {
          assert rest[i - (|others| - |rest|)] == others[i];
          var k :| 0 <= k < |versions[1..]| && versions[1..][k].blob == Some(digest) && Some(versions[1..][k].id) != except;
          assert versions[k + 1] == versions[1..][k];
        } else {
          assert others[0] == versions[0];
        }
      }
    }
  }

  lemma {:induction false} OthersOfNone(versions: seq<VersionRef>)
    ensures Others(versions, None) == versions
  {
    if versions != [] {
      OthersOfNone(versions[1..]);
    }
  }

  lemma NamedByOneMore(versions: seq<VersionRef>, profiles: seq<ProfileRef>, i: nat)
    requires i < |profiles|
    ensures forall digest :: Referenced(versions, profiles[..i + 1], digest) <==>
              || Referenced(versions, profiles[..i], digest)
              || profiles[i].avatar == Some(digest) || profiles[i].banner == Some(digest)
  {
    var more := profiles[..i + 1];
    assert forall k :: 0 <= k < i ==> more[k] == profiles[..i][k];
    assert more[i] == profiles[i];
  }

  lemma RemovalCounts(files: map<Path, File>, path: Path)
    ensures |files - {path}| == if path in files then |files| - 1 else |files|
  {
    assert (files - {path}).Keys == files.Keys - {path};
    assert |files.Keys| == |files| && |(files - {path}).Keys| == |files - {path}|;
  }
}
