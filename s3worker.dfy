/**
 * The bucket policy of the S3 gateway's worker driver.
 *
 * The driver is built once from a fixed list of input buckets and a single
 * output bucket; each bucket names a commit of a repository. Input buckets
 * serve the content of finished commits and refuse writes; the output bucket
 * accepts writes into its open commit, which reads do not see; every other
 * name is an unknown bucket. The bucket set is static: it cannot be extended
 * by clients and does not follow the repositories that exist.
 *
 * The version-control service is reduced to the content of finished commits
 * (given when the driver is built) and the log of writes the driver makes to
 * the open output commit.
 */
module S3Worker {
  import opened Wrappers

  newtype byte = x: int | 0 <= x < 256

  /** A bucket: a name bound to a commit of a repository. */
  datatype Bucket = Bucket(repo: string, commit: string, name: string)

  /** The S3 errors the driver answers with. */
  datatype S3Error = NoSuchBucket | NoSuchKey | NotImplemented

  /** How the driver treats a bucket name. */
  datatype BucketClass = InputBucket(bucket: Bucket) | OutputBucket(bucket: Bucket) | UnknownBucket

  /** What StatObject reports. */
  datatype ObjectInfo = ObjectInfo(etag: string, contentType: string, size: nat)

  /** A write the driver makes to the open output commit. */
  datatype Write = Put(key: string, content: seq<byte>) | Delete(key: string)

  /** A commit of a repository, as the version-control service names it. */
  datatype CommitRef = CommitRef(repo: string, id: string)

  /** A content hash as the storage layer computes it; its algorithm is not modelled. */
  type Digest = d: seq<byte> | |d| > 0 witness [0]

  const HexDigits: string := "0123456789abcdef"
  const TextPlain: string := "text/plain; charset=utf-8"
  const OctetStream: string := "application/octet-stream"

  /** The number of leading bytes content sniffing looks at. */
  const SniffLength: nat := 512

  /** The first bucket of `buckets` with the given name, if any. */
  function FindBucket(buckets: seq<Bucket>, name: string): (r: Option<Bucket>)
    ensures r.Some? ==> r.value in buckets && r.value.name == name
    ensures r.Some? ==> exists i :: 0 <= i < |buckets| && buckets[i] == r.value &&
                          forall j :: 0 <= j < i ==> buckets[j].name != name
    ensures r.None? <==> forall i :: 0 <= i < |buckets| ==> buckets[i].name != name
  {
    if buckets == [] then None
    else if buckets[0].name == name then Some(buckets[0])
    else FindBucket(buckets[1..], name)
  }

  /** Lower-case hexadecimal rendering of a byte string, two digits per byte. */
  function Hex(bytes: seq<byte>): (h: string)
    ensures |h| == 2 * |bytes|
    ensures forall i :: 0 <= i < |h| ==> h[i] in HexDigits
  {
    if bytes == [] then ""
    else [HexDigits[bytes[0] as int / 16], HexDigits[bytes[0] as int % 16]] + Hex(bytes[1..])
  }

  /** Bytes that mark content as binary when its type is sniffed. */
  predicate IsBinaryByte(b: byte)
  {
    b <= 0x08 || b == 0x0B || (0x0E <= b <= 0x1A) || (0x1C <= b <= 0x1F)
  }

  /** Content type detection, reduced to its text-or-binary decision. */
  function DetectContentType(content: seq<byte>): (t: string)
    ensures t == TextPlain || t == OctetStream
  {
    if exists i :: 0 <= i < |content| && i < SniffLength && IsBinaryByte(content[i])
    then OctetStream
    else TextPlain
  }

  /** Under the text-or-binary reduction of content sniffing, printable ASCII
      content is reported as plain UTF-8 text. */
  lemma PrintableIsPlainText(content: seq<byte>)
    requires forall i :: 0 <= i < |content| ==> 0x20 <= content[i] < 0x7F
    ensures DetectContentType(content) == TextPlain
  {
  }

  /** One write applied to the view of the open commit. */
  function Apply(view: map<string, seq<byte>>, w: Write): map<string, seq<byte>>
  {
    match w
    case Put(k, c) => view[k := c]
    case Delete(k) => view - {k}
  }

  /** The content the open output commit holds after the writes of `log`,
      which is what becomes readable once the commit is finished. */
  function View(log: seq<Write>): map<string, seq<byte>>
    decreases |log|
  {
    if log == [] then map[] else Apply(View(log[..|log| - 1]), log[|log| - 1])
  }

  lemma ViewAppend(log: seq<Write>, w: Write)
    ensures View(log + [w]) == Apply(View(log), w)
  {
    assert (log + [w])[..|log|] == log;
  }

  /** A second Put to the same key overwrites the first. */
  lemma PutOverwrites(log: seq<Write>, key: string, first: seq<byte>, second: seq<byte>)
    ensures View(log + [Put(key, first), Put(key, second)]) == View(log)[key := second]
  {
    assert log + [Put(key, first), Put(key, second)] == (log + [Put(key, first)]) + [Put(key, second)];
    ViewAppend(log, Put(key, first));
    ViewAppend(log + [Put(key, first)], Put(key, second));
  }

  /** Removing a key twice leaves the same content as removing it once, and
      removing an absent key changes nothing. */
  lemma RemoveIdempotent(log: seq<Write>, key: string)
    ensures View(log + [Delete(key), Delete(key)]) == View(log + [Delete(key)])
    ensures key !in View(log + [Delete(key)])
    ensures key !in View(log) ==> View(log + [Delete(key)]) == View(log)
  {
    assert log + [Delete(key), Delete(key)] == (log + [Delete(key)]) + [Delete(key)];
    ViewAppend(log, Delete(key));
    ViewAppend(log + [Delete(key)], Delete(key));
  }

  /** The last write to a key decides it: later writes to other keys leave it alone. */
  lemma {:induction false} LastWriteDecides(log: seq<Write>, w: Write, rest: seq<Write>)
    requires forall i :: 0 <= i < |rest| ==> rest[i].key != w.key
    ensures w.Put? ==> w.key in View(log + [w] + rest) && View(log + [w] + rest)[w.key] == w.content
    ensures w.Delete? ==> w.key !in View(log + [w] + rest)
    decreases |rest|
  {
    if rest == [] {
      assert log + [w] + rest == log + [w];
      ViewAppend(log, w);
    } else {
      var front := rest[..|rest| - 1];
      var last := rest[|rest| - 1];
      LastWriteDecides(log, w, front);
      assert log + [w] + rest == (log + [w] + front) + [last];
      ViewAppend(log + [w] + front, last);
    }
  }

  /** The worker driver: a static set of buckets over commits of the
      version-control service, and the writes made to the output commit. */
  class WorkerDriver {
    const inputs: seq<Bucket>
    const output: Bucket
    /** The content of the finished commits the input buckets read from. */
    const finished: map<CommitRef, map<string, seq<byte>>>
    /** The storage layer's content hash, from which ETags are rendered. */
    const digest: seq<byte> -> Digest
    /** The writes made to the open output commit, oldest first. */
    var writes: seq<Write>

    constructor (inputs: seq<Bucket>, output: Bucket,
                 finished: map<CommitRef, map<string, seq<byte>>>, digest: seq<byte> -> Digest)
      ensures this.inputs == inputs && this.output == output
      ensures this.finished == finished && this.digest == digest
      ensures writes == []
    {
      this.inputs := inputs;
      this.output := output;
      this.finished := finished;
      this.digest := digest;
      writes := [];
    }

    /** The configured bucket names: the input buckets in order, then the output bucket. */
    function Names(): (names: seq<string>)
      ensures |names| == |inputs| + 1
      ensures forall i :: 0 <= i < |inputs| ==> names[i] == inputs[i].name
      ensures names[|inputs|] == output.name
    {
      seq(|inputs|, i requires 0 <= i < |inputs| => inputs[i].name) + [output.name]
    }

    /** The class of a bucket name. The output bucket is matched first. */
    function Classify(name: string): (c: BucketClass)
      ensures c.OutputBucket? <==> name == output.name
      ensures c.OutputBucket? ==> c.bucket == output
      ensures c.InputBucket? ==> c.bucket in inputs && c.bucket.name == name
      ensures c.UnknownBucket? <==> name !in Names()
    {
      if name == output.name then OutputBucket(output)
      else match FindBucket(inputs, name)
        case Some(b) => InputBucket(b)
        case None => UnknownBucket
    }

    /** The content of the finished commit an input bucket reads from. */
    function Content(b: Bucket): map<string, seq<byte>>
    {
      var c := CommitRef(b.repo, b.commit);
      if c in finished then finished[c] else map[]
    }

    /** The ETag of an object: the hexadecimal content hash. */
    function ETag(content: seq<byte>): (e: string)
      ensures |e| == 2 * |digest(content)| && |e| > 0
    {
      Hex(digest(content))
    }

    /** What the output commit will hold once it is finished. */
    function PendingContent(): map<string, seq<byte>>
      reads this
    {
      View(writes)
    }

    /** Lists exactly the configured buckets, whatever repositories exist. */
    method ListBuckets() returns (names: seq<string>)
      ensures |names| == |inputs| + 1
      ensures forall i :: 0 <= i < |inputs| ==> names[i] == inputs[i].name
      ensures names[|inputs|] == output.name
      ensures forall n :: n in names <==> !Classify(n).UnknownBucket?
    {
      names := [];
      for i := 0 to |inputs|
        invariant |names| == i
        invariant forall j :: 0 <= j < i ==> names[j] == inputs[j].name
      {
        names := names + [inputs[i].name];
      }
      names := names + [output.name];
      assert names == Names();
    }

    /** Never fails; true exactly for the configured names. */
    method BucketExists(name: string) returns (r: Result<bool, S3Error>)
      ensures r.Success?
      ensures r.value <==> name in Names()
    {
      match Classify(name)
      case UnknownBucket => r := Success(false);
      case _ => r := Success(true);
    }

    /** Clients cannot create buckets. */
    method MakeBucket(name: string) returns (r: Outcome<S3Error>)
      ensures r == Fail(NotImplemented)
    {
      r := Fail(NotImplemented);
    }

    /** Reads an object. Input buckets serve their finished commit; the output
        bucket never serves anything, not even what was just put into it. */
    method GetObject(bucket: string, key: string) returns (r: Result<seq<byte>, S3Error>)
      ensures Classify(bucket).UnknownBucket? ==> r == Failure(NoSuchBucket)
      ensures Classify(bucket).OutputBucket? ==> r == Failure(NoSuchKey)
      ensures Classify(bucket).InputBucket? ==>
                var content := Content(Classify(bucket).bucket);
                (r.Success? <==> key in content) &&
                (r.Success? ==> r.value == content[key]) &&
                (r.Failure? ==> r.error == NoSuchKey)
    {
      match Classify(bucket)
      case UnknownBucket =>
        r := Failure(NoSuchBucket);
      case OutputBucket(_) =>
        r := Failure(NoSuchKey);
      case InputBucket(b) =>
        var content := Content(b);
        if key in content {
          r := Success(content[key]);
        } else {
          r := Failure(NoSuchKey);
        }
    }

    /** Reports an object's metadata under the same rules as GetObject. */
    method StatObject(bucket: string, key: string) returns (r: Result<ObjectInfo, S3Error>)
      ensures Classify(bucket).UnknownBucket? ==> r == Failure(NoSuchBucket)
      ensures Classify(bucket).OutputBucket? ==> r == Failure(NoSuchKey)
      ensures Classify(bucket).InputBucket? ==>
                var content := Content(Classify(bucket).bucket);
                (r.Success? <==> key in content) &&
                (r.Failure? ==> r.error == NoSuchKey) &&
                (r.Success? ==>
                   && r.value.size == |content[key]|
                   && |r.value.etag| > 0
                   && r.value.etag == ETag(content[key])
                   && r.value.contentType == DetectContentType(content[key]))
    {
      match Classify(bucket)
      case UnknownBucket =>
        r := Failure(NoSuchBucket);
      case OutputBucket(_) =>
        r := Failure(NoSuchKey);
      case InputBucket(b) =>
        var content := Content(b);
        if key in content {
          var data := content[key];
          r := Success(ObjectInfo(ETag(data), DetectContentType(data), |data|));
        } else {
          r := Failure(NoSuchKey);
        }
    }

    /** Writes an object. Only the output bucket accepts writes; the byte count
        written is reported back. */
    method PutObject(bucket: string, key: string, content: seq<byte>) returns (r: Result<nat, S3Error>)
      modifies this
      ensures Classify(bucket).UnknownBucket? ==> r == Failure(NoSuchBucket) && writes == old(writes)
      ensures Classify(bucket).InputBucket? ==> r == Failure(NotImplemented) && writes == old(writes)
      ensures Classify(bucket).OutputBucket? ==>
                r == Success(|content|) && writes == old(writes) + [Put(key, content)]
    {
      match Classify(bucket)
      case UnknownBucket =>
        r := Failure(NoSuchBucket);
      case InputBucket(_) =>
        r := Failure(NotImplemented);
      case OutputBucket(_) =>
        writes := writes + [Put(key, content)];
        r := Success(|content|);
    }

    /** Removes an object. Only the output bucket accepts removals, and there
        removing succeeds whether or not the key is present. */
    method RemoveObject(bucket: string, key: string) returns (r: Outcome<S3Error>)
      modifies this
      ensures Classify(bucket).UnknownBucket? ==> r == Fail(NoSuchBucket) && writes == old(writes)
      ensures Classify(bucket).InputBucket? ==> r == Fail(NotImplemented) && writes == old(writes)
      ensures Classify(bucket).OutputBucket? ==> r == Pass && writes == old(writes) + [Delete(key)]
    {
      match Classify(bucket)
      case UnknownBucket =>
        r := Fail(NoSuchBucket);
      case InputBucket(_) =>
        r := Fail(NotImplemented);
      case OutputBucket(_) =>
        writes := writes + [Delete(key)];
        r := Pass;
    }
  }
}
