/**
 * The index-resolution shadow pass of the fileset storage layer.
 *
 * A merge source is turned into a resolver that, when iterated, opens two
 * merge readers over the same merge. The first reader is written through a
 * writer in no-upload mode, which recomputes the authoritative ("full") index
 * of every file it sees; each time the writer emits such an index, the next
 * file is pulled from the second reader, the index is attached to it and the
 * result is handed to the caller's callback. Files of the two readers are
 * paired by position only.
 *
 * The merge itself, the writer's chunking and hashing and the contents of an
 * index are not modelled: a reader is a script of files (with an optional
 * failing position) and the writer's index computation is an abstract
 * function of the files written so far.
 */
module Fileset {
  import opened Wrappers

  /** Per-file metadata as the fileset writer computes it; opaque to the resolver. */
  datatype Index = Index(path: string, sizeBytes: nat, hash: string)

  /** A file surfaced by a merge reader: its path, the provisional index the
      reader derived from the stored layers, and the slot `fullIdx` in which the
      resolver stores the resolved index. */
  datatype File = File(path: string, idx: Index, fullIdx: Option<Index>)

  /** Go errors as values; `EndOfStream` is the io.EOF a reader reports once it has no more files. */
  datatype Error = EndOfStream | Failed(message: string)

  /** What one merge reader yields: `files` in order, except that the call of
      Next made after `failAt` files have been yielded (if any) reports `failure`. */
  datatype ReaderScript = ReaderScript(files: seq<File>, failAt: Option<nat>, failure: Error)

  /** The outcome of one call of a source's `getReader`. */
  datatype Opening = Opened(script: ReaderScript) | OpenFailed(err: Error)

  /** A source's `getReader`, as the outcomes of its first and second call. */
  datatype ReaderFactory = ReaderFactory(first: Opening, second: Opening)

  /** The storage a source writes through. `noUploadIndex(written)` is the
      index that a no-upload writer emits for the last of the files `written` to it. */
  datatype Storage = Storage(noUploadIndex: seq<File> -> Index)

  /** The kinds of file source. Only the merge source can be resolved; the
      resolver is itself a source, and every other kind is `OtherSource`. */
  datatype FileSource =
    | MergeSource(getReader: ReaderFactory, s: Storage)
    | MergeResolver(s: Storage, getReader: ReaderFactory)
    | OtherSource(kind: string)

  /** The result of NewIndexResolver: a source, or the panic it raises. */
  datatype Resolution = Resolved(source: FileSource) | Panic(message: string)

  /** What one Iterate call observably does: the error it returns (None for
      nil) and the files handed to the callback, in order. */
  datatype Trace = Trace(err: Option<Error>, calls: seq<File>)

  const CannotResolve: string := "cannot resolve indexes"

  /** Wraps a merge source in a resolver that keeps the source's `getReader`
      and storage and nothing else; any other kind of source is a hard failure. */
  function NewIndexResolver(x: FileSource): (r: Resolution)
    ensures r.Resolved? <==> x.MergeSource?
    ensures r.Resolved? ==>
              r.source.MergeResolver? && r.source.getReader == x.getReader && r.source.s == x.s
    ensures r.Panic? ==> r.message == CannotResolve
  {
    match x
    case MergeSource(getReader, s) => Resolved(MergeResolver(s, getReader))
    case _ => Panic(CannotResolve)
  }

  /** The answer of Next on a reader following `sc` that has already yielded `k` files. */
  function NextAt(sc: ReaderScript, k: nat): (r: Result<File, Error>)
    ensures r.Success? ==> k < |sc.files| && r.value == sc.files[k]
    ensures k < |sc.files| && sc.failAt != Some(k) ==> r == Success(sc.files[k])
  {
    if sc.failAt == Some(k) then Failure(sc.failure)
    else if k < |sc.files| then Success(sc.files[k])
    else Failure(EndOfStream)
  }

  /** How many files a reader following `sc` yields before Next first fails
      (with its failure, or with EndOfStream once the files run out). */
  function StopAt(sc: ReaderScript): (n: nat)
    ensures n <= |sc.files|
    ensures forall j :: 0 <= j < n ==> NextAt(sc, j) == Success(sc.files[j])
    ensures NextAt(sc, n).Failure?
  {
    if sc.failAt.Some? && sc.failAt.value <= |sc.files| then sc.failAt.value else |sc.files|
  }

  /** A file with its full index set. */
  function Attach(f: File, idx: Index): (g: File)
    ensures g.path == f.path && g.idx == f.idx && g.fullIdx == Some(idx)
  {
    f.(fullIdx := Some(idx))
  }

  /** The file the `j`-th callback receives when nothing has failed before it:
      the `j`-th file of the second reader, carrying the index the writer
      emitted for the `j`-th file of the first reader. */
  function Paired(sc1: ReaderScript, sc2: ReaderScript, s: Storage, j: nat): File
    requires j < |sc1.files| && j < |sc2.files|
  {
    Attach(sc2.files[j], s.noUploadIndex(sc1.files[..j + 1]))
  }

  /** `f` is what the `j`-th callback receives by positional pairing. */
  ghost predicate IsPaired(sc1: ReaderScript, sc2: ReaderScript, s: Storage, j: nat, f: File)
  {
    j < |sc1.files| && j < |sc2.files| && f == Paired(sc1, sc2, s, j)
  }

  /** The paired files for positions `lo` up to (excluding) `hi`. */
  function PairedRange(sc1: ReaderScript, sc2: ReaderScript, s: Storage, lo: nat, hi: nat): (r: seq<File>)
    requires lo <= hi <= |sc1.files| && hi <= |sc2.files|
    ensures |r| == hi - lo
    ensures forall i :: 0 <= i < hi - lo ==> r[i] == Paired(sc1, sc2, s, lo + i)
  {
    seq(hi - lo, i requires 0 <= i < hi - lo => Paired(sc1, sc2, s, lo + i))
  }

  /** Positions `lo` up to `hi` go through without an error: neither reader
      fails there, the second reader still has a file, and the callback accepts
      the paired file. */
  ghost predicate CleanBetween(sc1: ReaderScript, sc2: ReaderScript, s: Storage,
                               cb: (nat, File) -> Option<Error>, lo: nat, hi: nat)
  {
    && lo <= hi <= |sc1.files|
    && hi <= |sc2.files|
    && forall j :: lo <= j < hi ==>
         sc1.failAt != Some(j) && sc2.failAt != Some(j) && cb(j, Paired(sc1, sc2, s, j)) == None
  }

  /** The shadow pass from the point where both readers have yielded `k` files:
      the first reader feeds the no-upload writer; for every index the writer
      emits, the second reader's next file gets that index and goes to `cb`. */
  function ShadowPass(sc1: ReaderScript, sc2: ReaderScript, s: Storage,
                      cb: (nat, File) -> Option<Error>, k: nat): Trace
    decreases |sc1.files| - k
  {
    match NextAt(sc1, k)
    case Failure(EndOfStream) => Trace(None, [])
    case Failure(e) => Trace(Some(e), [])
    case Success(_) =>
      match NextAt(sc2, k)
      case Failure(e) => Trace(Some(e), [])
      case Success(g) =>
        var file := Attach(g, s.noUploadIndex(sc1.files[..k + 1]));
        match cb(k, file)
        case Some(e) => Trace(Some(e), [file])
        case None =>
          var rest := ShadowPass(sc1, sc2, s, cb, k + 1);
          Trace(rest.err, [file] + rest.calls)
  }

  /** The loop of `WriteTo` keeps its invariant across a position at which
      both readers yield a file and the callback accepts the paired file. */
  lemma Advance(sc1: ReaderScript, sc2: ReaderScript, s: Storage, cb: (nat, File) -> Option<Error>,
                k: nat, total: Trace, before: seq<File>, after: seq<File>)
    requires total == Trace(ShadowPass(sc1, sc2, s, cb, k).err, before + ShadowPass(sc1, sc2, s, cb, k).calls)
    requires NextAt(sc1, k).Success? && NextAt(sc2, k).Success?
    requires after == before + [Attach(NextAt(sc2, k).value, s.noUploadIndex(sc1.files[..k + 1]))]
    requires cb(|before|, after[|before|]) == None && |before| == k
    ensures total == Trace(ShadowPass(sc1, sc2, s, cb, k + 1).err, after + ShadowPass(sc1, sc2, s, cb, k + 1).calls)
  {
    ShadowPassStep(sc1, sc2, s, cb, k);
    var rest := ShadowPass(sc1, sc2, s, cb, k + 1);
    assert before + ([after[k]] + rest.calls) == after + rest.calls;
  }

  /** The loop of `WriteTo` ends with the hook's error `e`: either the second
      reader failed (nothing delivered) or the callback refused the paired file. */
  lemma HookFailed(sc1: ReaderScript, sc2: ReaderScript, s: Storage, cb: (nat, File) -> Option<Error>,
                   k: nat, total: Trace, before: seq<File>, after: seq<File>, e: Option<Error>)
    requires total == Trace(ShadowPass(sc1, sc2, s, cb, k).err, before + ShadowPass(sc1, sc2, s, cb, k).calls)
    requires NextAt(sc1, k).Success? && |before| == k
    requires NextAt(sc2, k).Failure? ==> e == Some(NextAt(sc2, k).error) && after == before
    requires NextAt(sc2, k).Success? ==>
               after == before + [Attach(NextAt(sc2, k).value, s.noUploadIndex(sc1.files[..k + 1]))] &&
               e == cb(|before|, after[|before|])
    requires e.Some?
    ensures total == Trace(e, after)
  {
    ShadowPassStep(sc1, sc2, s, cb, k);
  }

  /** One step of the shadow pass, by the outcome of the two readers' Next and the callback. */
  lemma ShadowPassStep(sc1: ReaderScript, sc2: ReaderScript, s: Storage,
                       cb: (nat, File) -> Option<Error>, k: nat)
    ensures NextAt(sc1, k) == Failure(EndOfStream) ==> ShadowPass(sc1, sc2, s, cb, k) == Trace(None, [])
    ensures NextAt(sc1, k).Failure? && NextAt(sc1, k).error != EndOfStream ==>
              ShadowPass(sc1, sc2, s, cb, k) == Trace(Some(NextAt(sc1, k).error), [])
    ensures NextAt(sc1, k).Success? && NextAt(sc2, k).Failure? ==>
              ShadowPass(sc1, sc2, s, cb, k) == Trace(Some(NextAt(sc2, k).error), [])
    ensures NextAt(sc1, k).Success? && NextAt(sc2, k).Success? ==>
              var file := Attach(NextAt(sc2, k).value, s.noUploadIndex(sc1.files[..k + 1]));
              var rest := ShadowPass(sc1, sc2, s, cb, k + 1);
              ShadowPass(sc1, sc2, s, cb, k) ==
                if cb(k, file).Some? then Trace(cb(k, file), [file])
                else Trace(rest.err, [file] + rest.calls)
  {
  }

  /** The whole Iterate call: both `getReader` calls, then the shadow pass. */
  function IterateSpec(getReader: ReaderFactory, s: Storage, cb: (nat, File) -> Option<Error>): Trace
  {
    match getReader.first
    case OpenFailed(e) => Trace(Some(e), [])
    case Opened(sc1) =>
      match getReader.second
      case OpenFailed(e) => Trace(Some(e), [])
      case Opened(sc2) => ShadowPass(sc1, sc2, s, cb, 0)
  }

  /** A merge reader: a cursor over its script. */
  class MergeReader {
    const script: ReaderScript
    var pos: nat

    constructor (script: ReaderScript)
      ensures this.script == script && pos == 0
    {
      this.script := script;
      pos := 0;
    }

    /** Yields the next file, or the reader's failure, or EndOfStream once it is exhausted. */
    method Next() returns (r: Result<File, Error>)
      modifies this
      ensures r == NextAt(script, old(pos))
      ensures pos == if r.Success? then old(pos) + 1 else old(pos)
    {
      if script.failAt == Some(pos) {
        r := Failure(script.failure);
      } else if pos < |script.files| {
        r := Success(script.files[pos]);
        pos := pos + 1;
      } else {
        r := Failure(EndOfStream);
      }
    }

    /** Streams this reader's files into `w` until the reader is exhausted, the
        reader fails, or the writer's hook returns an error. */
    method WriteTo(w: NoUploadWriter) returns (err: Option<Error>)
      requires w.mr2 != this
      requires pos == 0 && w.mr2.pos == 0 && w.written == [] && w.delivered == []
      modifies this, w, w.mr2
      ensures Trace(err, w.delivered) == ShadowPass(script, w.mr2.script, w.s, w.cb, 0)
      ensures pos <= |script.files| && w.written == script.files[..pos]
      ensures err == None ==> |w.written| == |w.delivered|
    {
      ghost var sc2, st, cb := w.mr2.script, w.s, w.cb;
      ghost var total := ShadowPass(script, sc2, st, cb, 0);
      while true
        invariant pos <= |script.files|
        invariant w.mr2.pos == pos && |w.delivered| == pos
        invariant w.written == script.files[..pos] && |w.written| == pos
        invariant total == Trace(ShadowPass(script, sc2, st, cb, pos).err,
                                 w.delivered + ShadowPass(script, sc2, st, cb, pos).calls)
        decreases |script.files| - pos
      {
        ghost var k := pos;
        var f := Next();
        match f
        case Failure(EndOfStream) =>
          return None;
        case Failure(e) =>
          return Some(e);
        case Success(file) =>
          assert script.files[..k + 1] == w.written + [file];
          ghost var before := w.delivered;
          var e := w.WriteFile(file);
          if e.Some? {
            HookFailed(script, sc2, st, cb, k, total, before, w.delivered, e);
            return e;
          }
          Advance(script, sc2, st, cb, k, total, before, w.delivered);
      }
    }
  }

  /** A writer in no-upload mode whose hook is the one Iterate installs: for
      each completed file it pulls the next file from `mr2`, attaches the index
      and calls `cb`. `delivered` records the callback's arguments. */
  class NoUploadWriter {
    const s: Storage
    const mr2: MergeReader
    const cb: (nat, File) -> Option<Error>
    var written: seq<File>
    var delivered: seq<File>

    constructor (s: Storage, mr2: MergeReader, cb: (nat, File) -> Option<Error>)
      ensures this.s == s && this.mr2 == mr2 && this.cb == cb
      ensures written == [] && delivered == []
    {
      this.s := s;
      this.mr2 := mr2;
      this.cb := cb;
      written := [];
      delivered := [];
    }

    /** Writes one file without uploading it and runs the hook on the index it emits. */
    method WriteFile(f: File) returns (err: Option<Error>)
      modifies this, mr2
      ensures written == old(written) + [f]
      ensures var g := NextAt(mr2.script, old(mr2.pos));
              if g.Failure? then
                err == Some(g.error) && delivered == old(delivered) && mr2.pos == old(mr2.pos)
              else
                var file := Attach(g.value, s.noUploadIndex(written));
                && delivered == old(delivered) + [file]
                && mr2.pos == old(mr2.pos) + 1
                && err == cb(|old(delivered)|, file)
    {
      written := written + [f];
      var idx := s.noUploadIndex(written);
      var fmr := mr2.Next();
      if fmr.Failure? {
        return Some(fmr.error);
      }
      var file := fmr.value.(fullIdx := Some(idx));
      delivered := delivered + [file];
      err := cb(|delivered| - 1, file);
    }
  }

  /** Iterates a resolver: opens both readers, then runs the shadow pass.
      The `stopBefore` boundaries are accepted and ignored. */
  method Iterate(mr: FileSource, cb: (nat, File) -> Option<Error>, stopBefore: seq<string>)
    returns (err: Option<Error>, calls: seq<File>)
    requires mr.MergeResolver?
    ensures Trace(err, calls) == IterateSpec(mr.getReader, mr.s, cb)
    ensures mr.getReader.first.OpenFailed? ==> err == Some(mr.getReader.first.err) && calls == []
    ensures mr.getReader.first.Opened? && mr.getReader.second.OpenFailed? ==>
              err == Some(mr.getReader.second.err) && calls == []
  {
    match mr.getReader.first
    case OpenFailed(e) =>
      return Some(e), [];
    case Opened(sc1) =>
      var mr1 := new MergeReader(sc1);
      match mr.getReader.second
      case OpenFailed(e) =>
        return Some(e), [];
      case Opened(sc2) =>
        var mr2 := new MergeReader(sc2);
        var w := new NoUploadWriter(mr.s, mr2, cb);
        err := mr1.WriteTo(w);
        calls := w.delivered;
  }

  // ---------------------------------------------------------------------
  // Properties of the shadow pass

  /** A run of clean positions contributes exactly the paired files. */
  lemma {:induction false} ShadowPassPrefix(sc1: ReaderScript, sc2: ReaderScript, s: Storage,
                                            cb: (nat, File) -> Option<Error>, lo: nat, hi: nat)
    requires CleanBetween(sc1, sc2, s, cb, lo, hi)
    ensures ShadowPass(sc1, sc2, s, cb, lo) ==
            Trace(ShadowPass(sc1, sc2, s, cb, hi).err,
                  PairedRange(sc1, sc2, s, lo, hi) + ShadowPass(sc1, sc2, s, cb, hi).calls)
    decreases hi - lo
  {
    if lo < hi {
      CleanStep(sc1, sc2, s, cb, lo, hi);
      ShadowPassPrefix(sc1, sc2, s, cb, lo + 1, hi);
      PrefixExtend(sc1, sc2, s, cb, lo, hi);
    }
  }

  /** Extends a clean run that starts at `lo + 1` by the clean position `lo`. */
  lemma PrefixExtend(sc1: ReaderScript, sc2: ReaderScript, s: Storage,
                     cb: (nat, File) -> Option<Error>, lo: nat, hi: nat)
    requires lo < hi && CleanBetween(sc1, sc2, s, cb, lo, hi)
    requires ShadowPass(sc1, sc2, s, cb, lo + 1) ==
             Trace(ShadowPass(sc1, sc2, s, cb, hi).err,
                   PairedRange(sc1, sc2, s, lo + 1, hi) + ShadowPass(sc1, sc2, s, cb, hi).calls)
    ensures ShadowPass(sc1, sc2, s, cb, lo) ==
            Trace(ShadowPass(sc1, sc2, s, cb, hi).err,
                  PairedRange(sc1, sc2, s, lo, hi) + ShadowPass(sc1, sc2, s, cb, hi).calls)
  {
    CleanStep(sc1, sc2, s, cb, lo, hi);
    PairedRangeCons(sc1, sc2, s, lo, hi);
    var fin := ShadowPass(sc1, sc2, s, cb, hi);
    assert [Paired(sc1, sc2, s, lo)] + (PairedRange(sc1, sc2, s, lo + 1, hi) + fin.calls) ==
           PairedRange(sc1, sc2, s, lo, hi) + fin.calls;
  }

  /** One clean position: the paired file is delivered and the pass goes on. */
  lemma CleanStep(sc1: ReaderScript, sc2: ReaderScript, s: Storage,
                  cb: (nat, File) -> Option<Error>, k: nat, hi: nat)
    requires k < hi && CleanBetween(sc1, sc2, s, cb, k, hi)
    ensures CleanBetween(sc1, sc2, s, cb, k + 1, hi)
    ensures ShadowPass(sc1, sc2, s, cb, k) ==
            Trace(ShadowPass(sc1, sc2, s, cb, k + 1).err,
                  [Paired(sc1, sc2, s, k)] + ShadowPass(sc1, sc2, s, cb, k + 1).calls)
  {
    assert sc1.failAt != Some(k) && sc2.failAt != Some(k) && cb(k, Paired(sc1, sc2, s, k)) == None;
  }

  /** The paired range from `lo` starts with the file paired at `lo`. */
  lemma PairedRangeCons(sc1: ReaderScript, sc2: ReaderScript, s: Storage, lo: nat, hi: nat)
    requires lo < hi <= |sc1.files| && hi <= |sc2.files|
    ensures PairedRange(sc1, sc2, s, lo, hi) ==
            [Paired(sc1, sc2, s, lo)] + PairedRange(sc1, sc2, s, lo + 1, hi)
  {
    assert PairedRange(sc1, sc2, s, lo, hi) ==
           [Paired(sc1, sc2, s, lo)] + PairedRange(sc1, sc2, s, lo + 1, hi);
  }

  /** Positional pairing: the `i`-th callback made from position `k` on gets
      the second reader's file at `k + i` with the index emitted for the first
      reader's file at `k + i`. No path is compared. */
  lemma {:induction false} ShadowPassPairing(sc1: ReaderScript, sc2: ReaderScript, s: Storage,
                                             cb: (nat, File) -> Option<Error>, k: nat)
    ensures forall i :: 0 <= i < |ShadowPass(sc1, sc2, s, cb, k).calls| ==>
              IsPaired(sc1, sc2, s, k + i, ShadowPass(sc1, sc2, s, cb, k).calls[i])
    decreases |sc1.files| - k
  {
    var t := ShadowPass(sc1, sc2, s, cb, k);
    if NextAt(sc1, k).Success? && NextAt(sc2, k).Success?
       && cb(k, Paired(sc1, sc2, s, k)).None? {
      ShadowPassPairing(sc1, sc2, s, cb, k + 1);
      var rest := ShadowPass(sc1, sc2, s, cb, k + 1);
      assert t.calls == [Paired(sc1, sc2, s, k)] + rest.calls;
      forall i | 0 < i < |t.calls|
        ensures IsPaired(sc1, sc2, s, k + i, t.calls[i])
      {
        assert IsPaired(sc1, sc2, s, k + 1 + (i - 1), rest.calls[i - 1]);
      }
    }
  }

  /** The pass from `k` returns nil exactly when every position up to where
      the first reader stops is clean and the first reader stops at the end of
      its stream; its callbacks are then exactly the paired files of those
      positions. */
  lemma {:induction false} ShadowPassSucceeds(sc1: ReaderScript, sc2: ReaderScript, s: Storage,
                                              cb: (nat, File) -> Option<Error>, k: nat)
    requires k <= StopAt(sc1) && k <= |sc2.files|
    ensures ShadowPass(sc1, sc2, s, cb, k).err == None <==>
            CleanBetween(sc1, sc2, s, cb, k, StopAt(sc1)) && NextAt(sc1, StopAt(sc1)) == Failure(EndOfStream)
    ensures ShadowPass(sc1, sc2, s, cb, k).err == None ==>
            StopAt(sc1) <= |sc2.files| &&
            ShadowPass(sc1, sc2, s, cb, k).calls == PairedRange(sc1, sc2, s, k, StopAt(sc1))
    decreases StopAt(sc1) - k
  {
    var n := StopAt(sc1);
    if k == n {
      assert PairedRange(sc1, sc2, s, k, n) == [];
    } else if NextAt(sc2, k).Success? && cb(k, Paired(sc1, sc2, s, k)).None? {
      ShadowPassSucceeds(sc1, sc2, s, cb, k + 1);
      assert CleanBetween(sc1, sc2, s, cb, k, n) <==> CleanBetween(sc1, sc2, s, cb, k + 1, n);
      if ShadowPass(sc1, sc2, s, cb, k).err == None {
        assert PairedRange(sc1, sc2, s, k, n) == [Paired(sc1, sc2, s, k)] + PairedRange(sc1, sc2, s, k + 1, n);
      }
    } else {
      assert !CleanBetween(sc1, sc2, s, cb, k, n);
    }
  }

  /** On success the callback ran once per index the writer emitted, that is
      once per file the first reader yielded. */
  lemma SuccessCountsEveryIndex(sc1: ReaderScript, sc2: ReaderScript, s: Storage,
                                cb: (nat, File) -> Option<Error>)
    requires ShadowPass(sc1, sc2, s, cb, 0).err == None
    ensures |ShadowPass(sc1, sc2, s, cb, 0).calls| == StopAt(sc1)
    ensures StopAt(sc1) <= |sc2.files|
  {
    ShadowPassSucceeds(sc1, sc2, s, cb, 0);
  }

  /** If the first reader fails after yielding `k` clean files, that error is
      returned and only the first `k` files reach the callback. */
  lemma FirstReaderFailure(sc1: ReaderScript, sc2: ReaderScript, s: Storage,
                           cb: (nat, File) -> Option<Error>, k: nat)
    requires CleanBetween(sc1, sc2, s, cb, 0, k)
    requires sc1.failAt == Some(k) && sc1.failure != EndOfStream
    ensures ShadowPass(sc1, sc2, s, cb, 0) == Trace(Some(sc1.failure), PairedRange(sc1, sc2, s, 0, k))
  {
    ShadowPassPrefix(sc1, sc2, s, cb, 0, k);
  }

  /** If the second reader's Next fails (or runs out) while the `k`-th index is
      being paired, that error is returned and the callback is not called for
      the `k`-th index. */
  lemma SecondReaderFailure(sc1: ReaderScript, sc2: ReaderScript, s: Storage,
                            cb: (nat, File) -> Option<Error>, k: nat)
    requires CleanBetween(sc1, sc2, s, cb, 0, k)
    requires k < |sc1.files| && sc1.failAt != Some(k)
    requires NextAt(sc2, k).Failure?
    ensures ShadowPass(sc1, sc2, s, cb, 0) ==
            Trace(Some(NextAt(sc2, k).error), PairedRange(sc1, sc2, s, 0, k))
  {
    ShadowPassPrefix(sc1, sc2, s, cb, 0, k);
  }

  /** An error returned by the callback for the `k`-th file is returned unchanged,
      and no further file is pulled or delivered. */
  lemma CallbackFailure(sc1: ReaderScript, sc2: ReaderScript, s: Storage,
                        cb: (nat, File) -> Option<Error>, k: nat, e: Error)
    requires CleanBetween(sc1, sc2, s, cb, 0, k)
    requires k < |sc1.files| && k < |sc2.files| && sc1.failAt != Some(k) && sc2.failAt != Some(k)
    requires cb(k, Paired(sc1, sc2, s, k)) == Some(e)
    ensures ShadowPass(sc1, sc2, s, cb, 0) == Trace(Some(e), PairedRange(sc1, sc2, s, 0, k + 1))
  {
    ShadowPassPrefix(sc1, sc2, s, cb, 0, k);
    assert PairedRange(sc1, sc2, s, 0, k + 1) == PairedRange(sc1, sc2, s, 0, k) + [Paired(sc1, sc2, s, k)];
  }

  /** Pairing through a whole Iterate call: once both readers are open, the
      `j`-th callback gets the `j`-th file of the second reader with the index
      emitted for the `j`-th file of the first. */
  lemma IteratePairing(getReader: ReaderFactory, s: Storage, cb: (nat, File) -> Option<Error>)
    requires getReader.first.Opened? && getReader.second.Opened?
    ensures forall j :: 0 <= j < |IterateSpec(getReader, s, cb).calls| ==>
              IsPaired(getReader.first.script, getReader.second.script, s, j,
                       IterateSpec(getReader, s, cb).calls[j])
  {
    var sc1, sc2 := getReader.first.script, getReader.second.script;
    var t := ShadowPass(sc1, sc2, s, cb, 0);
    assert IterateSpec(getReader, s, cb) == t;
    ShadowPassPairing(sc1, sc2, s, cb, 0);
    forall j | 0 <= j < |t.calls|
      ensures IsPaired(sc1, sc2, s, j, t.calls[j])
    {
      assert IsPaired(sc1, sc2, s, 0 + j, t.calls[j]);
    }
  }

  /** The resolver does not check that paired files have the same path: two
      readers that disagree produce a file carrying the other file's index. */
  lemma PathsAreNotCompared(a: File, b: File, s: Storage)
    requires a.path != b.path
    ensures var sc1 := ReaderScript([a], None, EndOfStream);
            var sc2 := ReaderScript([b], None, EndOfStream);
            var t := ShadowPass(sc1, sc2, s, (k: nat, f: File) => None, 0);
            t == Trace(None, [Attach(b, s.noUploadIndex([a]))]) && t.calls[0].path != a.path
  {
    var sc1 := ReaderScript([a], None, EndOfStream);
    assert sc1.files[..1] == [a];
  }
}
