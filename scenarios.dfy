/**
 Clients of the store: sequences of calls, and what a caller can conclude
 from the operations' contracts alone.
 */
module MdfstoreScenarios {
  import opened Mdfstore

  /**
   A fresh upload reports offset 0 and the fields it was created with; two
   appended chunks give offset |c1| + |c2| and read back in write order.
   */
  method CreateWriteRead(s: MdfStore, id: string, info: FileInfo, c1: seq<byte>, c2: seq<byte>)
      returns (created: FileInfo, grown: FileInfo, content: seq<byte>)
    requires s.Valid() && s.dirExists
    requires id !in s.bins && id !in s.infos
    modifies s
    ensures created == info.(id := id, offset := 0)
    ensures grown == info.(id := id, offset := |c1| + |c2|)
    ensures content == c1 + c2
    ensures s.Valid()
  {
    var r := s.NewUpload(id, info);
    var g := s.GetInfo(id);
    created := g.value;
    var n1, e1 := s.WriteChunk(id, 0, Reader(c1, false));
    var n2, e2 := s.WriteChunk(id, n1, Reader(c2, false));
    assert n1 + n2 == |c1| + |c2|;
    g := s.GetInfo(id);
    grown := g.value;
    var rd := s.GetReader(id);
    content := rd.value;
  }

  /** Creating over an existing `.bin` file keeps its content. */
  method CreateKeepsContent(s: MdfStore, id: string, info: FileInfo) returns (offset: int)
    requires s.Valid() && s.dirExists && id in s.bins
    modifies s
    ensures offset == |old(s.bins[id])|
    ensures s.bins == old(s.bins)
  {
    var r := s.NewUpload(id, info);
    var g := s.GetInfo(id);
    offset := g.value.offset;
  }

  /** A chunk whose reader fails part-way leaves the bytes read so far appended. */
  method PartialWrite(s: MdfStore, id: string, prefix: seq<byte>) returns (n: nat, err: Option<Error>, offset: int)
    requires s.Valid() && id in s.bins && id in s.infos
    modifies s
    ensures err == Some(ReadFailed) && n == |prefix|
    ensures offset == |old(s.bins[id])| + n
  {
    n, err := s.WriteChunk(id, 0, Reader(prefix, true));
    var g := s.GetInfo(id);
    offset := g.value.offset;
  }

  /** Lock, lock again, unlock, lock: success, busy, success, success. */
  method LockCycle(s: MdfStore, id: string) returns (e1: Option<Error>, e2: Option<Error>, e3: Option<Error>, e4: Option<Error>)
    requires s.Valid() && s.dirExists && id !in s.locks
    modifies s
    ensures e1 == None && e2 == Some(FileLocked) && e3 == None && e4 == None
    ensures id in s.locks
  {
    e1 := s.LockUpload(id);
    e2 := s.LockUpload(id);
    e3 := s.UnlockUpload(id);
    e4 := s.LockUpload(id);
  }

  /** Declaring the length shows in the next GetInfo; the offset does not move. */
  method DeclareThenGet(s: MdfStore, id: string, length: int) returns (before: FileInfo, after: FileInfo)
    requires s.Valid() && id in s.bins && id in s.infos
    modifies s
    ensures after == before.(size := length, sizeIsDeferred := false)
    ensures after.offset == before.offset
  {
    var g := s.GetInfo(id);
    before := g.value;
    var e := s.DeclareLength(id, length);
    g := s.GetInfo(id);
    after := g.value;
  }

  /** Concatenating three sources appends their contents in order. */
  method ConcatThree(s: MdfStore, dest: string, a: string, b: string, c: string) returns (content: seq<byte>)
    requires s.Valid() && dest in s.bins && a in s.bins && b in s.bins && c in s.bins
    requires dest != a && dest != b && dest != c
    modifies s
    ensures content == old(s.bins[dest]) + old(s.bins[a]) + old(s.bins[b]) + old(s.bins[c])
  {
    JoinedThree(s.bins, a, b, c);
    assert FirstMissing(s.bins, [a, b, c]) == 3;
    assert [a, b, c][..3] == [a, b, c];
    var e := s.ConcatUploads(dest, [a, b, c]);
    var rd := s.GetReader(dest);
    content := rd.value;
  }

  /** An empty second source leaves the destination as the first source made it. */
  method ConcatWithEmpty(s: MdfStore, dest: string, u1: string, u2: string) returns (content: seq<byte>)
    requires s.Valid() && dest in s.bins && u1 in s.bins && u2 in s.bins
    requires dest != u1 && dest != u2 && s.bins[u2] == []
    modifies s
    ensures content == old(s.bins[dest]) + old(s.bins[u1])
  {
    JoinedSkipsEmpty(s.bins, [u1, u2], 1);
    assert [u1, u2][..1] + [u1, u2][2..] == [u1];
    assert Joined(s.bins, [u1]) == s.bins[u1];
    var e := s.ConcatUploads(dest, [u1, u2]);
    var rd := s.GetReader(dest);
    content := rd.value;
  }

  /** A missing second source: only the first is appended and an error comes back. */
  method ConcatFailsFast(s: MdfStore, dest: string, u1: string, u2: string, u3: string)
      returns (err: Option<Error>, content: seq<byte>)
    requires s.Valid() && dest in s.bins && u1 in s.bins && u2 !in s.bins
    requires dest != u1 && dest != u2 && dest != u3
    modifies s
    ensures err == Some(NotExist("open", BinPath(s.path, u2)))
    ensures content == old(s.bins[dest]) + old(s.bins[u1])
    ensures s.infos == old(s.infos)
  {
    assert FirstMissing(s.bins, [u1, u2, u3]) == 1;
    assert [u1, u2, u3][..1] == [u1];
    assert Joined(s.bins, [u1]) == s.bins[u1];
    err := s.ConcatUploads(dest, [u1, u2, u3]);
    var rd := s.GetReader(dest);
    content := rd.value;
  }

  /** After Terminate neither file remains, so GetInfo and GetReader fail. */
  method TerminateThenGet(s: MdfStore, id: string) returns (info: Result<FileInfo>, content: Result<seq<byte>>)
    requires s.Valid() && id in s.bins && id in s.infos
    modifies s
    ensures info == Err(NotExist("open", InfoPath(s.path, id)))
    ensures content == Err(NotExist("open", BinPath(s.path, id)))
    ensures forall other :: other != id && other in old(s.bins) ==> other in s.bins && s.bins[other] == old(s.bins[other])
  {
    var e := s.Terminate(id);
    info := s.GetInfo(id);
    content := s.GetReader(id);
  }
}
