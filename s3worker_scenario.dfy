/**
 * The worker driver's integration scenario, replayed against the model: a
 * driver over two input buckets `in1` and `in2` (finished commits on the
 * master and develop branches of the input repository, each holding `file`
 * with content "foo") and one output bucket `out` (an open commit of the
 * output repository). Each method issues the calls of one sub-test in order
 * and asserts what that sub-test requires.
 */
module WorkerScenario {
  import opened Wrappers
  import opened S3Worker

  /** The bytes of an ASCII string. */
  function Ascii(s: string): (b: seq<byte>)
    requires forall i :: 0 <= i < |s| ==> s[i] as int < 256
    ensures |b| == |s|
    ensures forall i :: 0 <= i < |s| ==> b[i] as int == s[i] as int
  {
    if s == [] then [] else [s[0] as int as byte] + Ascii(s[1..])
  }

  const InputRepo: string := "testworkerdriverinput"
  const OutputRepo: string := "testworkerdriveroutput"
  const MasterCommit: string := "input-master"
  const DevelopCommit: string := "input-develop"
  const OutputCommit: string := "output-master"

  /** The contents the test reads and writes. */
  const Foo: seq<byte> := Ascii("foo")
  const Content1: seq<byte> := Ascii("content1")
  const Content2: seq<byte> := Ascii("content2")

  const In1: Bucket := Bucket(InputRepo, MasterCommit, "in1")
  const In2: Bucket := Bucket(InputRepo, DevelopCommit, "in2")
  const Out: Bucket := Bucket(OutputRepo, OutputCommit, "out")

  /** The two finished input commits, each holding `file` = "foo". */
  function FinishedCommits(): map<CommitRef, map<string, seq<byte>>>
  {
    map[CommitRef(InputRepo, MasterCommit) := map["file" := Foo],
        CommitRef(InputRepo, DevelopCommit) := map["file" := Foo]]
  }

  /** `d` is the driver the scenario builds. */
  ghost predicate IsTestDriver(d: WorkerDriver)
    reads d
  {
    d.inputs == [In1, In2] && d.output == Out && d.finished == FinishedCommits()
  }

  method NewTestDriver(digest: seq<byte> -> Digest) returns (d: WorkerDriver)
    ensures fresh(d) && IsTestDriver(d) && d.writes == []
  {
    d := new WorkerDriver([In1, In2], Out, FinishedCommits(), digest);
  }

  method ListBucketsScenario(d: WorkerDriver)
    requires IsTestDriver(d)
  {
    var names := d.ListBuckets();
    assert names == ["in1", "in2", "out"];
    assert multiset(names) == multiset{"in1", "in2", "out"};
  }

  method GetObjectScenario(d: WorkerDriver)
    requires IsTestDriver(d)
  {
    assert d.Classify("in1") == InputBucket(In1);
    var r := d.GetObject("in1", "file");
    assert r == Success(Foo);
  }

  method GetObjectOutputRepoScenario(d: WorkerDriver)
    requires IsTestDriver(d)
  {
    var r := d.GetObject("out", "file");
    assert r == Failure(NoSuchKey);
  }

  method StatObjectScenario(d: WorkerDriver)
    requires IsTestDriver(d)
  {
    assert d.Classify("in1") == InputBucket(In1);
    var r := d.StatObject("in1", "file");
    PrintableIsPlainText(Foo);
    assert r.Success?;
    assert |r.value.etag| > 0;
    assert r.value.contentType == TextPlain;
    assert r.value.size == 3;
  }

  method PutObjectScenario(d: WorkerDriver)
    requires IsTestDriver(d)
    modifies d
  {
    var r1 := d.PutObject("out", "file", Content1);
    assert r1.Success?;
    var r2 := d.PutObject("out", "file", Content2);
    assert r2.Success?;
    var r3 := d.GetObject("out", "file");
    assert r3 == Failure(NoSuchKey);
    PutOverwrites(old(d.writes), "file", Content1, Content2);
    assert d.PendingContent()["file"] == Content2;
  }

  method PutObjectInputRepoScenario(d: WorkerDriver)
    requires IsTestDriver(d)
    modifies d
  {
    assert d.Classify("in1") == InputBucket(In1);
    var r := d.PutObject("in1", "file", Content1);
    assert r == Failure(NotImplemented);
  }

  method RemoveObjectScenario(d: WorkerDriver)
    requires IsTestDriver(d)
    modifies d
  {
    var r1 := d.RemoveObject("out", "file");
    assert r1 == Pass;
    var r2 := d.RemoveObject("out", "file");
    assert r2 == Pass;
    RemoveIdempotent(old(d.writes), "file");
    assert "file" !in d.PendingContent();
  }

  method RemoveObjectInputRepoScenario(d: WorkerDriver)
    requires IsTestDriver(d)
    modifies d
  {
    assert d.Classify("in1") == InputBucket(In1);
    var r := d.RemoveObject("in1", "file");
    assert r == Fail(NotImplemented);
  }

  /** `payload` stands for the 68157450-byte file the sub-test generates. */
  method LargeObjectsScenario(d: WorkerDriver, payload: seq<byte>)
    requires IsTestDriver(d) && |payload| == 68157450
    modifies d
  {
    assert d.Classify("foobar") == UnknownBucket;
    var r1 := d.PutObject("foobar", "file", payload);
    assert r1 == Failure(NoSuchBucket);
    var r2 := d.PutObject("out", "file", payload);
    assert r2 == Success(68157450);
    var r3 := d.GetObject("foobar", "file");
    assert r3 == Failure(NoSuchBucket);
    var r4 := d.GetObject("out", "file");
    assert r4 == Failure(NoSuchKey);
  }

  method MakeBucketScenario(d: WorkerDriver)
    requires IsTestDriver(d)
  {
    var r := d.MakeBucket("testmakebucket");
    assert r == Fail(NotImplemented);
  }

  method BucketExistsScenario(d: WorkerDriver)
    requires IsTestDriver(d)
  {
    assert d.Names() == ["in1", "in2", "out"];
    var r1 := d.BucketExists("in1");
    assert r1 == Success(true);
    var r2 := d.BucketExists("out");
    assert r2 == Success(true);
    var r3 := d.BucketExists("foobar");
    assert r3 == Success(false);
  }
}
