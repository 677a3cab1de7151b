/**
 A model of the file-backed upload store `MdfStore` (package mdfstore).

 The storage root is a flat directory holding, per upload id, a `<id>.bin`
 file with the uploaded bytes, a `<id>.info` file with the upload's record
 and, while the upload is locked, a `<id>.lock` file. The model keeps the
 three kinds of file in three collections keyed by id (the path lemmas below
 show that no two of these paths coincide), stores info records as values
 rather than JSON, and treats a lock as either held or not held.
 */
module Mdfstore {

  type byte = bv8

  datatype Option<T> = None | Some(value: T)

  /** The errors the store's operations return. */
  datatype Error =
    | NotExist(op: string, path: string)   // an *os.PathError for "no such file or directory"
    | UploadDirMissing(dir: string)        // "upload directory does not exist: <dir>"
    | FileLocked                           // tusd.ErrFileLocked
    | ReadFailed                           // the source reader's own error, passed on by io.Copy

  datatype Result<T> = Ok(value: T) | Err(error: Error)

  /** The fields of tusd.FileInfo that the store reads or writes. */
  datatype FileInfo = FileInfo(
    id: string,
    size: int,
    sizeIsDeferred: bool,
    offset: int,
    metaData: map<string, string>)

  /** A byte stream: the bytes it yields, then either EOF or a read error. */
  datatype Reader = Reader(data: seq<byte>, fails: bool)

  // ---------------------------------------------------------------------
  // Path resolution

  /**
   filepath.Join(root, name), with no cleaning of the result: the root, a
   separator, then the name, each recoverable from the joined path.
   */
  function Join(root: string, name: string): (r: string)
    ensures |r| == |root| + 1 + |name|
    ensures r[..|root|] == root && r[|root|] == '/' && r[|root| + 1..] == name
  {
    root + "/" + name
  }

  /** binPath: the id's `.bin` file under the root; the id is the part between root and suffix. */
  function BinPath(root: string, id: string): (r: string)
    ensures |r| == |root| + |id| + 5
    ensures r[..|root| + 1] == root + "/" && r[|root| + 1..|r| - 4] == id && r[|r| - 4..] == ".bin"
  {
    Join(root, id + ".bin")
  }

  /** infoPath: the id's `.info` file under the root; the id is the part between root and suffix. */
  function InfoPath(root: string, id: string): (r: string)
    ensures |r| == |root| + |id| + 6
    ensures r[..|root| + 1] == root + "/" && r[|root| + 1..|r| - 5] == id && r[|r| - 5..] == ".info"
  {
    Join(root, id + ".info")
  }

  /**
   The path newLock hands to the lock library (before filepath.Abs); the id
   is the part between root and suffix.
   */
  function LockPath(root: string, id: string): (r: string)
    ensures |r| == |root| + |id| + 6
    ensures r[..|root| + 1] == root + "/" && r[|root| + 1..|r| - 5] == id && r[|r| - 5..] == ".lock"
  {
    Join(root, id + ".lock")
  }

  /** The three kinds of per-upload file never share a path, whatever the ids. */
  lemma PathKindsDisjoint(root: string, a: string, b: string)
    ensures BinPath(root, a) != InfoPath(root, b)
    ensures BinPath(root, a) != LockPath(root, b)
    ensures InfoPath(root, a) != LockPath(root, b)
  {
    var bin, info, lock := BinPath(root, a), InfoPath(root, b), LockPath(root, b);
    assert bin[|bin| - 1] == 'n';
    assert info[|info| - 1] == 'o';
    assert lock[|lock| - 1] == 'k';
    var info2 := InfoPath(root, a);
    assert info2[|info2| - 1] == 'o';
  }

  /**
   Within one kind, distinct ids give distinct paths; it follows from the id
   being recoverable from each path.
   */
  lemma PathsInjective(root: string, a: string, b: string)
    ensures BinPath(root, a) == BinPath(root, b) ==> a == b
    ensures InfoPath(root, a) == InfoPath(root, b) ==> a == b
    ensures LockPath(root, a) == LockPath(root, b) ==> a == b
  {
  }

  // ---------------------------------------------------------------------
  // Concatenation

  /** The contents of the uploads `ids`, one after the other in the given order. */
  function Joined(bins: map<string, seq<byte>>, ids: seq<string>): seq<byte>
    requires forall id :: id in ids ==> id in bins
  {
    if ids == [] then [] else Joined(bins, ids[..|ids| - 1]) + bins[ids[|ids| - 1]]
  }

  /** The index of the first id without a `.bin` file, or |ids| when all have one. */
  function FirstMissing(bins: map<string, seq<byte>>, ids: seq<string>): (k: nat)
    ensures k <= |ids|
    ensures forall i :: 0 <= i < k ==> ids[i] in bins
    ensures k < |ids| ==> ids[k] !in bins
  {
    if ids == [] then 0
    else if ids[0] !in bins then 0
    else 1 + FirstMissing(bins, ids[1..])
  }

  /** The sum of the lengths of the uploads `ids`. */
  function TotalLength(bins: map<string, seq<byte>>, ids: seq<string>): nat
    requires forall id :: id in ids ==> id in bins
  {
    if ids == [] then 0 else |bins[ids[0]]| + TotalLength(bins, ids[1..])
  }

  /** Concatenating two runs of uploads is concatenating their contents. */
  lemma {:induction false} JoinedSplit(bins: map<string, seq<byte>>, xs: seq<string>, ys: seq<string>)
    requires forall id :: id in xs + ys ==> id in bins
    ensures Joined(bins, xs + ys) == Joined(bins, xs) + Joined(bins, ys)
  {
    if ys == [] {
      assert xs + ys == xs;
    } else {
      var zs := xs + ys;
      assert zs[..|zs| - 1] == xs + ys[..|ys| - 1];
      JoinedSplit(bins, xs, ys[..|ys| - 1]);
    }
  }

  /** The content of one upload followed by the rest, read from the front. */
  lemma JoinedCons(bins: map<string, seq<byte>>, id: string, ids: seq<string>)
    requires id in bins && forall x :: x in ids ==> x in bins
    ensures Joined(bins, [id] + ids) == bins[id] + Joined(bins, ids)
  {
    JoinedSplit(bins, [id], ids);
    assert [id][..0] == [];
  }

  /** The joined length is the sum of the sources' lengths. */
  lemma {:induction false} JoinedLength(bins: map<string, seq<byte>>, ids: seq<string>)
    requires forall id :: id in ids ==> id in bins
    ensures |Joined(bins, ids)| == TotalLength(bins, ids)
  {
    if ids != [] {
      assert ids == [ids[0]] + ids[1..];
      JoinedCons(bins, ids[0], ids[1..]);
      JoinedLength(bins, ids[1..]);
    }
  }

  /** A zero-length source contributes nothing: dropping it gives the same content. */
  lemma JoinedSkipsEmpty(bins: map<string, seq<byte>>, ids: seq<string>, i: nat)
    requires forall id :: id in ids ==> id in bins
    requires i < |ids| && bins[ids[i]] == []
    ensures Joined(bins, ids) == Joined(bins, ids[..i] + ids[i + 1..])
  {
    assert ids == ids[..i] + ([ids[i]] + ids[i + 1..]);
    JoinedSplit(bins, ids[..i], [ids[i]] + ids[i + 1..]);
    JoinedCons(bins, ids[i], ids[i + 1..]);
    JoinedSplit(bins, ids[..i], ids[i + 1..]);
  }

  /**
   Stopping after the first k sources leaves a prefix of what the whole run
   gives: a failed concatenation never writes bytes a successful one would not.
   */
  lemma JoinedPrefix(bins: map<string, seq<byte>>, ids: seq<string>, k: nat)
    requires forall id :: id in ids ==> id in bins
    requires k <= |ids|
    ensures Joined(bins, ids) == Joined(bins, ids[..k]) + Joined(bins, ids[k..])
    ensures Joined(bins, ids[..k]) <= Joined(bins, ids)
  {
    assert ids == ids[..k] + ids[k..];
    JoinedSplit(bins, ids[..k], ids[k..]);
  }

  /** Three sources joined are their contents in that order. */
  lemma JoinedThree(bins: map<string, seq<byte>>, a: string, b: string, c: string)
    requires a in bins && b in bins && c in bins
    ensures Joined(bins, [a, b, c]) == bins[a] + bins[b] + bins[c]
  {
    assert [a, b, c][..2] == [a, b];
    assert [a, b][..1] == [a];
    assert [a][..0] == [];
    assert Joined(bins, [a]) == bins[a];
    assert Joined(bins, [a, b]) == bins[a] + bins[b];
  }

  // ---------------------------------------------------------------------
  // The store

  /** The consistency every reachable filesystem state has. */
  ghost predicate Consistent(dirExists: bool, bins: map<string, seq<byte>>,
                             infos: map<string, FileInfo>, locks: set<string>)
  {
    && (!dirExists ==> bins == map[] && infos == map[] && locks == {})
    && forall id :: id in infos ==> infos[id].id == id
  }

  /**
   The store rooted at `path`, together with the part of the filesystem
   under that root.
   */
  class MdfStore {
    const path: string
    var dirExists: bool                    // whether the root directory exists
    var bins: map<string, seq<byte>>       // the `<id>.bin` files
    var infos: map<string, FileInfo>       // the `<id>.info` files
    var locks: set<string>                 // the `<id>.lock` files

    ghost predicate Valid()
      reads this
    {
      Consistent(dirExists, bins, infos, locks)
    }

    /** New: a store over an existing (or missing) root; nothing on disk is touched. */
    constructor (path: string, dirExists: bool, bins: map<string, seq<byte>>,
                 infos: map<string, FileInfo>, locks: set<string>)
      requires Consistent(dirExists, bins, infos, locks)
      ensures Valid()
      ensures this.path == path && this.dirExists == dirExists
      ensures this.bins == bins && this.infos == infos && this.locks == locks
    {
      this.path := path;
      this.dirExists := dirExists;
      this.bins := bins;
      this.infos := infos;
      this.locks := locks;
    }

    /** writeInfo: replaces the whole record of `id`. */
    method WriteInfo(id: string, info: FileInfo)
      requires Valid() && dirExists && info.id == id
      modifies this
      ensures Valid()
      ensures infos == old(infos)[id := info]
      ensures bins == old(bins) && locks == old(locks) && dirExists == old(dirExists)
    {
      infos := infos[id := info];
    }

    /**
     NewUpload with `id` the identifier the generator returned: creates the
     `.bin` file if it is absent (without truncating one that exists) and
     stores `info` with its ID set to `id`.
     */
    method NewUpload(id: string, info: FileInfo) returns (r: Result<string>)
      requires Valid()
      modifies this
      ensures Valid()
      ensures !old(dirExists) ==> r == Err(UploadDirMissing(path)) && unchanged(this)
      ensures old(dirExists) ==>
        && r == Ok(id)
        && bins == old(bins)[id := if id in old(bins) then old(bins)[id] else []]
        && infos == old(infos)[id := info.(id := id)]
      ensures locks == old(locks) && dirExists == old(dirExists)
    {
      var stored := info.(id := id);
      if !dirExists {
        return Err(UploadDirMissing(path));
      }
      if id !in bins {
        bins := bins[id := []];
      }
      WriteInfo(id, stored);
      r := Ok(id);
    }

    /**
     WriteChunk: appends what `src` yields to the end of the `.bin` file and
     returns the number of bytes copied. `offset` is not used. A read error
     after some bytes leaves those bytes appended.
     */
    method WriteChunk(id: string, offset: int, src: Reader) returns (n: nat, err: Option<Error>)
      requires Valid()
      modifies this
      ensures Valid()
      ensures id !in old(bins) ==>
        n == 0 && err == Some(NotExist("open", BinPath(path, id))) && bins == old(bins)
      ensures id in old(bins) ==>
        && bins == old(bins)[id := old(bins)[id] + src.data]
        && n == |src.data|
        && err == (if src.fails then Some(ReadFailed) else None)
      ensures infos == old(infos) && locks == old(locks) && dirExists == old(dirExists)
    {
      if id !in bins {
        return 0, Some(NotExist("open", BinPath(path, id)));
      }
      bins := bins[id := bins[id] + src.data];
      n := |src.data|;
      err := if src.fails then Some(ReadFailed) else None;
    }

    /**
     GetInfo: the stored record with its offset replaced by the current length
     of the `.bin` file.
     */
    method GetInfo(id: string) returns (r: Result<FileInfo>)
      requires Valid()
      ensures r.Ok? <==> id in infos && id in bins
      ensures id !in infos ==> r == Err(NotExist("open", InfoPath(path, id)))
      ensures id in infos && id !in bins ==> r == Err(NotExist("stat", BinPath(path, id)))
      ensures r.Ok? ==> r.value == infos[id].(offset := |bins[id]|)
      ensures r.Ok? ==> r.value.id == id
    {
      if id !in infos {
        return Err(NotExist("open", InfoPath(path, id)));
      }
      var info := infos[id];
      if id !in bins {
        return Err(NotExist("stat", BinPath(path, id)));
      }
      r := Ok(info.(offset := |bins[id]|));
    }

    /** GetReader: the content of the `.bin` file, read from the start. */
    method GetReader(id: string) returns (r: Result<seq<byte>>)
      requires Valid()
      ensures r.Ok? <==> id in bins
      ensures id !in bins ==> r == Err(NotExist("open", BinPath(path, id)))
      ensures id in bins ==> r.value == bins[id]
    {
      if id !in bins {
        return Err(NotExist("open", BinPath(path, id)));
      }
      r := Ok(bins[id]);
    }

    /**
     Terminate: removes the `.info` file, then the `.bin` file, stopping at
     the first that is missing.
     */
    method Terminate(id: string) returns (err: Option<Error>)
      requires Valid()
      modifies this
      ensures Valid()
      ensures id !in old(infos) ==>
        err == Some(NotExist("remove", InfoPath(path, id))) && unchanged(this)
      ensures id in old(infos) && id !in old(bins) ==>
        && err == Some(NotExist("remove", BinPath(path, id)))
        && infos == old(infos) - {id} && bins == old(bins)
      ensures id in old(infos) && id in old(bins) ==>
        err == None && infos == old(infos) - {id} && bins == old(bins) - {id}
      ensures locks == old(locks) && dirExists == old(dirExists)
    {
      if id !in infos {
        return Some(NotExist("remove", InfoPath(path, id)));
      }
      infos := infos - {id};
      if id !in bins {
        return Some(NotExist("remove", BinPath(path, id)));
      }
      bins := bins - {id};
      err := None;
    }

    /**
     ConcatUploads: appends the contents of `uploads`, in order, to the end of
     `dest`'s `.bin` file. It stops at the first source without a `.bin`
     file; what was appended before it stays.
     */
    method ConcatUploads(dest: string, uploads: seq<string>) returns (err: Option<Error>)
      requires Valid()
      requires dest !in uploads
      modifies this
      ensures Valid()
      ensures dest !in old(bins) ==>
        err == Some(NotExist("open", BinPath(path, dest))) && unchanged(this)
      ensures dest in old(bins) ==>
        var k := FirstMissing(old(bins), uploads);
        && bins == old(bins)[dest := old(bins)[dest] + Joined(old(bins), uploads[..k])]
        && err == (if k == |uploads| then None else Some(NotExist("open", BinPath(path, uploads[k]))))
      ensures infos == old(infos) && locks == old(locks) && dirExists == old(dirExists)
    {
      if dest !in bins {
        return Some(NotExist("open", BinPath(path, dest)));
      }
      var i := 0;
      assert uploads[..0] == [];
      assert old(bins)[dest] + [] == old(bins)[dest];
      assert old(bins)[dest := old(bins)[dest]] == old(bins);
      while i < |uploads|
        invariant i <= |uploads|
        invariant forall j :: 0 <= j < i ==> uploads[j] in old(bins)
        invariant bins == old(bins)[dest := old(bins)[dest] + Joined(old(bins), uploads[..i])]
        invariant infos == old(infos) && locks == old(locks) && dirExists == old(dirExists)
      {
        var id := uploads[i];
        if id !in bins {
          return Some(NotExist("open", BinPath(path, id)));
        }
        assert id != dest && bins[id] == old(bins)[id];
        assert uploads[..i + 1][..i] == uploads[..i];
        assert Joined(old(bins), uploads[..i + 1]) == Joined(old(bins), uploads[..i]) + old(bins)[id];
        bins := bins[dest := bins[dest] + bins[id]];
        assert bins[dest] == old(bins)[dest] + Joined(old(bins), uploads[..i + 1]);
        assert bins == old(bins)[dest := old(bins)[dest] + Joined(old(bins), uploads[..i + 1])];
        i := i + 1;
      }
      assert uploads[..i] == uploads;
      err := None;
    }

    /**
     DeclareLength: reads the record through GetInfo, sets the size and
     clears the deferred flag, and writes the whole record back. The record
     written carries the offset GetInfo computed.
     */
    method DeclareLength(id: string, length: int) returns (err: Option<Error>)
      requires Valid()
      modifies this
      ensures Valid()
      ensures id !in old(infos) ==>
        err == Some(NotExist("open", InfoPath(path, id))) && unchanged(this)
      ensures id in old(infos) && id !in old(bins) ==>
        err == Some(NotExist("stat", BinPath(path, id))) && unchanged(this)
      ensures id in old(infos) && id in old(bins) ==>
        && err == None
        && infos == old(infos)[id := old(infos)[id].(size := length, sizeIsDeferred := false,
                                                     offset := |old(bins)[id]|)]
      ensures bins == old(bins) && locks == old(locks) && dirExists == old(dirExists)
    {
      var r := GetInfo(id);
      if r.Err? {
        return Some(r.error);
      }
      WriteInfo(id, r.value.(size := length, sizeIsDeferred := false));
      err := None;
    }

    /**
     LockUpload: takes the upload's lock without waiting. A held lock gives
     ErrFileLocked; with no root directory the lock file cannot be made.
     */
    method LockUpload(id: string) returns (err: Option<Error>)
      requires Valid()
      modifies this
      ensures Valid()
      ensures !old(dirExists) ==> err == Some(NotExist("open", path)) && unchanged(this)
      ensures old(dirExists) && id in old(locks) ==> err == Some(FileLocked) && locks == old(locks)
      ensures old(dirExists) && id !in old(locks) ==> err == None && locks == old(locks) + {id}
      ensures bins == old(bins) && infos == old(infos) && dirExists == old(dirExists)
    {
      if !dirExists {
        return Some(NotExist("open", path));
      }
      if id in locks {
        return Some(FileLocked);
      }
      locks := locks + {id};
      err := None;
    }

    /**
     UnlockUpload: releases the upload's lock. A missing lock file means the
     upload was never locked, which is not an error.
     */
    method UnlockUpload(id: string) returns (err: Option<Error>)
      requires Valid()
      modifies this
      ensures Valid()
      ensures err == None
      ensures locks == old(locks) - {id}
      ensures id !in old(locks) ==> unchanged(this)
      ensures bins == old(bins) && infos == old(infos) && dirExists == old(dirExists)
    {
      if id in locks {
        locks := locks - {id};
      }
      err := None;
    }
  }
}
