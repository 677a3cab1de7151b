# mdfstore in Dafny

A model of `MdfStore`, the file-backed upload store of the tusd fork
(`mdfstore/mdfstore.go`). The store keeps every upload as flat files under one
root directory: `<id>.bin` holds the uploaded bytes, `<id>.info` the upload's
record (declared size, deferred-size flag, metadata), and `<id>.lock` exists
while the upload is locked.

The model (`mdfstore.dfy`, module `Mdfstore`) is a class `MdfStore` over an
abstract filesystem:

- `bins: map<string, seq<byte>>` — the `.bin` files, keyed by upload id;
- `infos: map<string, FileInfo>` — the `.info` files, stored as records, not JSON;
- `locks: set<string>` — the `.lock` files, a lock being held or not held;
- `dirExists: bool` — whether the root directory exists.

Keying the three collections by id is sound because the three path builders
never produce the same path for two different (kind, id) pairs
(`PathKindsDisjoint`, `PathsInjective`). Each Go method is a Dafny method
whose postconditions state the whole new state and the result, including every
error path: a missing file gives `NotExist(op, path)` with the op and path the
Go `*os.PathError` would carry, a missing root on creation gives
`UploadDirMissing`, and a held lock gives `FileLocked`. The object invariant
`Valid()` is preserved by every method: with no root directory there are no
files, and every stored record's id is the key it is stored under.

`ConcatUploads` is a loop that appends one source per step; its postcondition
is stated with `Joined` (the sources' contents in order) and `FirstMissing`
(where the fail-fast stop happens), and the lemmas about `Joined` give order,
length, zero-length sources and the prefix property.

`scenarios.dfy` (module `MdfstoreScenarios`) holds client methods that chain
several calls and conclude, from the contracts alone, the multi-call
properties: create then read back, appends accumulate in order, lock is not
re-entrant, declare-length shows in the next read, concatenation order and
fail-fast, and terminate removes both files.

Creating an upload opens the `.bin` file with `O_CREATE` but without `O_EXCL`
or `O_TRUNC` (mdfstore/mdfstore.go:54), so an existing `.bin` keeps its
content. The record `DeclareLength` writes back carries the offset `GetInfo`
computed from the `.bin` length (mdfstore/mdfstore.go:94, 135-141).

The upload id that `uid.Uid()` generates is a parameter of `NewUpload`.
Reading the content (`GetReader`) returns the bytes instead of an open file.
A chunk source is a `Reader`: the bytes it yields and whether it then fails.

## Model

| member | source | states |
|---|---|---|
| `Mdfstore.Join` | mdfstore/mdfstore.go:178 | the joined path is the root, then `/`, then the name, each part recoverable from the result (also used at lines 191 and 196) |
| `Mdfstore.BinPath` | mdfstore/mdfstore.go:189-192 | the path is `<root>/<id>.bin`: the root and separator, the id unchanged, then the `.bin` suffix |
| `Mdfstore.InfoPath` | mdfstore/mdfstore.go:194-197 | the path is `<root>/<id>.info`: the root and separator, the id unchanged, then the `.info` suffix |
| `Mdfstore.LockPath` | mdfstore/mdfstore.go:176-187 | the path `newLock` builds before `filepath.Abs` is `<root>/<id>.lock`: the root and separator, the id unchanged, then the `.lock` suffix |
| `Mdfstore.PathKindsDisjoint` | mdfstore/mdfstore.go:189-197 | a `.bin` path is never an `.info` or `.lock` path and an `.info` path never a `.lock` path, for any two ids |
| `Mdfstore.PathsInjective` | mdfstore/mdfstore.go:176-197 | two ids with the same `.bin` (or `.info`, or `.lock`) path are the same id; it follows directly from the path builders' contracts |
| `Mdfstore.FirstMissing` | mdfstore/mdfstore.go:120-124 | the index where the source loop stops: every earlier source has a `.bin` file, the one at the index has none, or it is the end of the list |
| `Mdfstore.JoinedSplit` | mdfstore/mdfstore.go:120-129 | appending two runs of sources gives the first run's contents followed by the second's |
| `Mdfstore.JoinedCons` | mdfstore/mdfstore.go:120-129 | the first source's content comes first, then the rest in order |
| `Mdfstore.JoinedLength` | mdfstore/mdfstore.go:120-129 | the bytes appended by a full concatenation number the sum of the sources' lengths |
| `Mdfstore.JoinedSkipsEmpty` | mdfstore/mdfstore.go:120-129 | a zero-length source changes nothing: the result equals that of the list without it |
| `Mdfstore.JoinedPrefix` | mdfstore/mdfstore.go:120-129 | what a concatenation stopped after k sources appended is a prefix of what the whole list appends |
| `Mdfstore.JoinedThree` | mdfstore/mdfstore.go:120-129 | three sources contribute exactly their contents, in the given order |
| `Mdfstore.MdfStore.constructor` | mdfstore/mdfstore.go:29-35 | a store over a root whose files are as given; nothing on disk is changed |
| `Mdfstore.MdfStore.WriteInfo` | mdfstore/mdfstore.go:199-206 | the whole record of the id is replaced; no other file changes |
| `Mdfstore.MdfStore.NewUpload` | mdfstore/mdfstore.go:49-66 | missing root: "upload directory does not exist" and no change; otherwise returns the id, creates an empty `.bin` only if absent (an existing one keeps its content) and stores the record with `ID` set to the id; locks untouched |
| `Mdfstore.MdfStore.WriteChunk` | mdfstore/mdfstore.go:68-77 | no `.bin`: 0 bytes, a not-exist error, no change; otherwise the reader's bytes are appended after the old content, the count returned is their number, a read failure is reported with those bytes kept; the offset argument has no effect; records and locks untouched |
| `Mdfstore.MdfStore.GetInfo` | mdfstore/mdfstore.go:79-97 | succeeds exactly when both the record and the `.bin` exist; the result is the stored record with offset replaced by the `.bin` length, and its ID is the id asked for; otherwise the error names the missing `.info` (open) or `.bin` (stat) |
| `Mdfstore.MdfStore.GetReader` | mdfstore/mdfstore.go:99-101 | succeeds exactly when the `.bin` exists and yields its whole content; otherwise a not-exist error on the `.bin` path |
| `Mdfstore.MdfStore.Terminate` | mdfstore/mdfstore.go:103-111 | no record: error, nothing removed; record but no `.bin`: the record is removed and the `.bin` removal error returned; otherwise both are removed; other ids and all locks untouched |
| `Mdfstore.MdfStore.ConcatUploads` | mdfstore/mdfstore.go:113-132 | no destination `.bin`: error, no change; otherwise the destination becomes its old content followed by the sources before the first missing one, in order, and the error names that missing source (none if all exist); sources, records and locks untouched |
| `Mdfstore.MdfStore.DeclareLength` | mdfstore/mdfstore.go:134-142 | if GetInfo fails its error is returned and nothing is written; otherwise the record gets the new size, deferred cleared and the `.bin` length as offset, every other field kept; content untouched |
| `Mdfstore.MdfStore.LockUpload` | mdfstore/mdfstore.go:144-156 | missing root: error, no change; held lock: `ErrFileLocked` and the lock set unchanged; otherwise the lock becomes held; files untouched |
| `Mdfstore.MdfStore.UnlockUpload` | mdfstore/mdfstore.go:158-174 | always succeeds and leaves the lock not held; with no lock file nothing changes at all |
| `MdfstoreScenarios.CreateWriteRead` | mdfstore/mdfstore.go:49-101 | a fresh upload reads back with offset 0 and the fields passed; after chunks c1 and c2 the offset is \|c1\|+\|c2\| and the content c1 followed by c2 |
| `MdfstoreScenarios.CreateKeepsContent` | mdfstore/mdfstore.go:53-54 | creating an upload whose `.bin` exists keeps its bytes and its offset |
| `MdfstoreScenarios.PartialWrite` | mdfstore/mdfstore.go:75-76 | a reader failing after some bytes returns the read error, and the offset has grown by exactly those bytes |
| `MdfstoreScenarios.LockCycle` | mdfstore/mdfstore.go:144-174 | lock, lock, unlock, lock gives success, `ErrFileLocked`, success, success |
| `MdfstoreScenarios.DeclareThenGet` | mdfstore/mdfstore.go:134-142 | the next GetInfo shows the declared size and no deferral, with the same offset and other fields |
| `MdfstoreScenarios.ConcatThree` | mdfstore/mdfstore.go:113-132 | concatenating a, b, c gives the old destination followed by a, b, c |
| `MdfstoreScenarios.ConcatWithEmpty` | mdfstore/mdfstore.go:113-132 | with an empty second source the destination gains exactly the first source |
| `MdfstoreScenarios.ConcatFailsFast` | mdfstore/mdfstore.go:120-124 | a missing second source: its error comes back, the first source stays appended, no record changes |
| `MdfstoreScenarios.TerminateThenGet` | mdfstore/mdfstore.go:103-111 | after Terminate both GetInfo and GetReader report the files missing; other uploads' content is unchanged |

## Left out

- `FinishUpload` and `copyOutput` (mdfstore/mdfstore.go:208-237): they start an external `python` converter, drain its output in goroutines to the console, sleep and panic; processes, goroutines and time are outside this model. As written, line 218 calls `time.sleep`, which is unexported and whose package `time` is not imported, so the package does not compile as shown.
- `UseIn` (mdfstore/mdfstore.go:39-47): registration with the tusd composer; the composer is not part of this model, nor is composer_test.go, which only wires other stores together.
- The lock library (gopkg.in/Acconut/lockfile.v1) is not part of this model: a lock is held or not held, with no owner process, no stale-lock reclaim and no `filepath.Abs`. `LockUpload` treats every held lock as held by someone else.
- `LockUpload`: with no root directory the lock library fails creating its temporary file; the model returns `NotExist("open", root)` for it, not the library's exact path.
- JSON encoding in `writeInfo` and `GetInfo`: records are stored as values, so the unmarshal failure of a corrupt `.info` file does not arise.
- Mdfstore.MdfStore.constructor: records found on disk are assumed to carry their own id (each stored `.info` record's ID equals the id in its file name); `New` checks nothing, but every record this store writes has that form, and `GetInfo`'s promise that the returned ID is the id asked for rests on it.
- `GetInfo`: on an error the Go code also returns a partly filled record, which callers ignore; the model returns only the error.
- `FileInfo` holds only the fields the store touches (ID, Size, SizeIsDeferred, Offset, MetaData); IsPartial, IsFinal and PartialUploads are left out.
- `filepath.Join` is plain concatenation `root + "/" + name`, without its cleaning rules; ids are treated as plain names.
- Upload id generation (`uid.Uid()`) is not modelled: the id is an argument.
- I/O failures other than a missing file or directory (permissions, a full disk, a failing write in `io.Copy` or `writeInfo`) are not modelled; in the model those writes always succeed. File permissions (`defaultFilePerm`) are not modelled.
- Sizes and offsets are unbounded integers rather than `int64`; files are taken to be shorter than 2^63 bytes.
- `GetReader` returns the bytes, not an open `*os.File`; the source files `ConcatUploads` opens (mdfstore/mdfstore.go:121) are never closed in the Go code, and open file handles are not modelled.
- ConcatUploads: requires that the destination is not among the sources. In Go such a source is read while the same file is being appended to, so for non-empty content the copy keeps finding new bytes and the file grows until a write fails (a full disk or the file-size limit), when `io.Copy` returns that error; the model does not capture that behaviour.
- Concurrency between callers and crash consistency: the model is sequential and every operation is atomic.
