# Index resolution and the S3 worker driver, modelled in Dafny

This project models two small pieces of Pachyderm's storage layer and its S3 gateway and proves properties of them.

**Index resolver** (module `Fileset`, `fileset.dfy`). `NewIndexResolver` turns a merge source into a resolver. The resolver keeps the source's `getReader` and storage. Any other kind of file source panics with "cannot resolve indexes". Iterating a resolver opens two merge readers over the same merge (the "shadow pass"):
- The first reader is written through a writer in no-upload mode, which computes each file's authoritative index.
- Each time the writer emits an index, the next file of the second reader is pulled.
- That file gets the index in its `fullIdx` field and is handed to the caller's callback.

Several things are abstract here:
- A merge reader is a `MergeReader` cursor over a `ReaderScript`: the files it yields, and optionally the position at which `Next` fails.
- The writer is a `NoUploadWriter` that holds the hook `Iterate` installs. The index it emits for a file is `Storage.noUploadIndex` applied to the files written so far.
- The callback is a function of the call number and the file.

`Iterate` returns the error and the sequence of files the callback received. It is proved equal to the specification function `IterateSpec`. The lemmas about the shadow pass (`ShadowPass`) cover positional pairing, the number of callbacks on success, and each error path.

**Worker driver** (module `S3Worker`, `s3worker.dfy`). The driver is built once from a list of input buckets and one output bucket. Each bucket maps a name to a commit of a repository. The driver answers bucket and object calls with a fixed outcome for each bucket class:
- input: serves the finished commit's content and refuses writes;
- output: accepts writes into the open commit, but Get and Stat never see them;
- unknown: Get, Stat, Put and Remove fail with NoSuchBucket; BucketExists answers false.

Any two Removes of a key on the output bucket succeed. MakeBucket answers NotImplemented for every name. The driver's own source is not part of this model, so its contract is built from the assertions of `src/server/pfs/s3/worker_test.go`, extended to the cases the test does not exercise as listed under "## Left out". The writes to the open output commit are kept as a log. `View` gives the content that log leaves once the commit is finished, and lemmas state its overwrite and idempotence properties. `s3worker_scenario.dfy` (module `WorkerScenario`) replays each sub-test of `TestWorkerDriver` against the model, with the test's assertions as `assert` statements.

A path-equality check at the pairing point might be expected. `index_resolver.go:38-43` performs none, and the model follows the code. The lemma `Fileset.PathsAreNotCompared` shows the consequence: readers which disagree give a file carrying another file's index.

## Model

| member | source | states |
|---|---|---|
| `Fileset.NewIndexResolver` | src/server/pkg/storage/fileset/index_resolver.go:11-21 | it resolves exactly the merge sources; the resolver carries the same `getReader` and storage and no other state; any other kind of source is a panic with message "cannot resolve indexes" |
| `Fileset.Iterate` | src/server/pkg/storage/fileset/index_resolver.go:28-49 | the returned error and callback trace equal `IterateSpec`; a failure of the first or the second `getReader` call is returned with no callback made; `stopBefore` does not affect the result |
| `Fileset.MergeReader.Next` | src/server/pkg/storage/fileset/index_resolver.go:38-41 | the cursor yields the script's next file and advances by one, or reports its failure (or end of stream) without advancing |
| `Fileset.MergeReader.WriteTo` | src/server/pkg/storage/fileset/index_resolver.go:45-47 | driving the first reader through the no-upload writer yields exactly the shadow-pass trace from position 0; the writer has been given exactly the first reader's files up to where that reader stopped; on success the number of callbacks equals the number of indexes the writer emitted |
| `Fileset.NoUploadWriter.WriteFile` | src/server/pkg/storage/fileset/index_resolver.go:37-44 | writing one file emits its index; the hook pulls the second reader's next file, sets its `fullIdx` to that index and passes it to the callback; if `Next` fails, that error is returned and the callback is not called |
| `Fileset.ShadowPassPrefix` | src/server/pkg/storage/fileset/index_resolver.go:37-44 | a run of positions where nothing fails delivers exactly the positionally paired files, in order |
| `Fileset.ShadowPassPairing` | src/server/pkg/storage/fileset/index_resolver.go:37-44 | the i-th callback gets the second reader's i-th file with `fullIdx` set to the index emitted for the first reader's i-th file |
| `Fileset.IteratePairing` | src/server/pkg/storage/fileset/index_resolver.go:28-48 | the same positional pairing across a whole Iterate call, once both readers are open |
| `Fileset.ShadowPassSucceeds` | src/server/pkg/storage/fileset/index_resolver.go:45-48 | the pass returns nil if and only if every position up to the first reader's end is free of errors and the first reader ends with end of stream; the callbacks are then exactly the paired files |
| `Fileset.SuccessCountsEveryIndex` | src/server/pkg/storage/fileset/index_resolver.go:45-48 | on success the number of callbacks equals the number of indexes emitted, one per file of the first reader, and the second reader had at least that many files |
| `Fileset.FirstReaderFailure` | src/server/pkg/storage/fileset/index_resolver.go:45-47 | a failure of the first reader is returned, and only the files paired before it reach the callback |
| `Fileset.SecondReaderFailure` | src/server/pkg/storage/fileset/index_resolver.go:38-41 | if the second reader's `Next` fails, or runs out, while pairing the k-th index, that error is returned and the callback is not called for the k-th index |
| `Fileset.CallbackFailure` | src/server/pkg/storage/fileset/index_resolver.go:43-47 | an error from the callback is returned unchanged, and no further file is pulled or delivered |
| `Fileset.PathsAreNotCompared` | src/server/pkg/storage/fileset/index_resolver.go:38-43 | two readers yielding files with different paths still succeed, and the delivered file carries the other file's index |
| `S3Worker.WorkerDriver.constructor` | src/server/pfs/s3/worker_test.go:293-311 | the driver is built from the input buckets and the output bucket, and starts with no writes to the output commit |
| `S3Worker.WorkerDriver.Classify` | src/server/pfs/s3/worker_test.go:293-311 | a name is the output bucket if and only if it is the output's name, is an input bucket only when an input bucket has that name, and is unknown if and only if it is not a configured name |
| `S3Worker.FindBucket` | src/server/pfs/s3/worker_test.go:294-305 | the bucket found has the requested name and is the first of the given buckets with that name; none is found if and only if no bucket has that name |
| `S3Worker.WorkerDriver.ListBuckets` | src/server/pfs/s3/worker_test.go:27-43 | lists the input bucket names in order, then the output bucket's name; a name is listed if and only if the driver does not treat it as unknown, whatever repositories exist |
| `S3Worker.WorkerDriver.BucketExists` | src/server/pfs/s3/worker_test.go:141-153 | never fails; true if and only if the name is configured |
| `S3Worker.WorkerDriver.MakeBucket` | src/server/pfs/s3/worker_test.go:136-139 | always fails with NotImplemented |
| `S3Worker.WorkerDriver.GetObject` | src/server/pfs/s3/worker_test.go:45-54 | unknown bucket: NoSuchBucket; output bucket: NoSuchKey, whatever was written to it; input bucket: exactly the finished commit's content for the key, or NoSuchKey if the key is absent |
| `S3Worker.WorkerDriver.StatObject` | src/server/pfs/s3/worker_test.go:56-62 | on an input bucket holding the key: size equal to the content length, a non-empty ETag and the sniffed content type; the same not-found rules as GetObject otherwise |
| `S3Worker.WorkerDriver.ETag` | src/server/pfs/s3/worker_test.go:59 | an ETag is never empty: it has two hexadecimal digits per byte of a non-empty content hash |
| `S3Worker.PrintableIsPlainText` | src/server/pfs/s3/worker_test.go:60 | printable text content such as "foo" is reported as "text/plain; charset=utf-8" |
| `S3Worker.WorkerDriver.PutObject` | src/server/pfs/s3/worker_test.go:64-82 | unknown bucket: NoSuchBucket; input bucket: NotImplemented, nothing written; output bucket: success reporting the byte count of the content, appended to the output commit's writes |
| `S3Worker.WorkerDriver.RemoveObject` | src/server/pfs/s3/worker_test.go:84-96 | input bucket: NotImplemented, nothing written; output bucket: always succeeds and records a deletion; unknown bucket: NoSuchBucket |
| `S3Worker.PutOverwrites` | src/server/pfs/s3/worker_test.go:69-72 | a second Put to the same key leaves the output commit holding the second content |
| `S3Worker.RemoveIdempotent` | src/server/pfs/s3/worker_test.go:88-90 | removing a key twice leaves the same content as removing it once; removing an absent key changes nothing |
| `S3Worker.LastWriteDecides` | src/server/pfs/s3/worker_test.go:64-91 | the last write to a key decides whether, and with what content, the finished output commit holds it |

## Left out

- Merge reader internals (ordering, last-layer-wins, tombstones): a reader is given as the script of files it yields; `MergeReader` is not part of this model beyond `Next` and `WriteTo`.
- `Fileset.MergeReader.WriteTo`: the body of the merge reader's `WriteTo` is not part of this model. The model assumes three things about it. End of stream from `Next` ends the pass with nil. Any other error from `Next` is returned. An error from the writer's hook is returned unchanged. That includes the end of stream that `mr2.Next()` reports when the second reader runs out, so a second reader that is shorter than the first makes the pass return `Some(EndOfStream)` (`Fileset.SecondReaderFailure`). The other way round goes unnoticed. When the second reader has more files than the first, the extra files are never pulled, and the pass still succeeds (the success condition of `Fileset.ShadowPassSucceeds` constrains the second reader only at positions before the first reader's end).
- The fileset writer's chunking, hashing and uploading, and the contents of an index: the no-upload writer emits `Storage.noUploadIndex(written)` right after each file. A real writer that buffers and emits later (for example on close) could interleave reader failures and emitted indexes differently.
- `Fileset.SuccessCountsEveryIndex` and `Fileset.ShadowPassSucceeds` rest on two assumptions about the writer: it emits each file's index right after that file is written, and it has no failure of its own. `Iterate` never closes the writer (`index_resolver.go:45-48`). A real writer that emits indexes only when it is flushed would deliver fewer callbacks than the first reader has files, and `Iterate` would still return nil. What the model does promise is that the callbacks equal the indexes the writer emitted (`Fileset.MergeReader.WriteTo`).
- `Storage.newWriter`'s path argument and options other than the no-upload hook.
- `Fileset.Iterate`: `getReader` is modelled by the outcomes of its first and second call, so repeated Iterate calls on one resolver see the same outcomes.
- `Fileset.Iterate`: the callback is a pure function of the call number and the file; a callback with its own side effects is not modelled.
- Setting `fullIdx` on the file that `Next` returns is modelled as a value update, because that file object is not shared.
- `context.Context`, cancellation and concurrency.
- A panic is modelled as the value `Panic(message)`, not as unwinding.
- The worker driver's implementation is not part of this model: its behaviour comes from the test's assertions. The pach client, the minio client, the HTTP server behind `testRunner`, temporary files, `Sync`, and the generation of the 65 MB payload are I/O. The scenario takes the payload as a parameter of the right length.
- The repository that `workerListBuckets` creates has no counterpart: the driver's bucket set does not depend on repositories.
- The `PutFile` through the pach client in `workerRemoveObject` bypasses the driver and is not modelled. The driver's Removes succeed either way.
- The commented-out RemoveBucket, ListObjectsPaginated and ListObjectsRecursive tests are disabled, so their intended behaviour is unknown.
- `S3Worker.WorkerDriver.StatObject`: ETag hashing is opaque (a content-hash parameter of the driver, rendered in hexadecimal). Content-type sniffing is reduced to its text-or-binary decision over the first 512 bytes; signature matching (HTML, images, archives) is not modelled.
- The content type passed in `PutObjectOptions` is ignored, as no assertion depends on it.
- `S3Worker.WorkerDriver.Classify`: if a configured name is used by both the output and an input bucket, the model treats it as the output bucket. The source's precedence is not shown.
- `S3Worker.WorkerDriver.RemoveObject` and `StatObject` on an unknown bucket answer NoSuchBucket; the test does not exercise these cases.
- `S3Worker.WorkerDriver.ListBuckets`: the names come in a fixed order, input buckets in configuration order and then the output bucket. The test compares them ignoring order (`worker_test.go:42`), so the source's order is not shown.
- `S3Worker.FindBucket` and `S3Worker.WorkerDriver.Classify`: if two input buckets share a name, the name resolves to the first of them, and `ListBuckets` lists that name twice. The test configures no duplicates, so the source's choice is not shown.
- `S3Worker.WorkerDriver.StatObject` on the output bucket answers NoSuchKey, by analogy with `GetObject` (`worker_test.go:51-53`). The test never stats the output bucket.
- `S3Worker.WorkerDriver.GetObject` and `StatObject` on an input bucket answer NoSuchKey for a key that the finished commit lacks. The test never asks for such a key.
- `S3Worker.WorkerDriver.Content`: a bucket whose commit is not among the finished commits reads as empty. The test configures no such bucket.
- Sizes are unbounded naturals instead of `int64`; every size the test uses is far below 2^63.
