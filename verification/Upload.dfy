/** Chunked uploads: each chunk is appended to a part file only where the last
    one ended, and the final one moves the part into place. */
module Upload {
  import opened Base

  const CHUNK_MAX := 1024 * 1024

  type Bytes = seq<bv8>

  datatype Entry = Missing | Directory | File(content: Bytes)

  /** The destination and its part file. */
  datatype Disk = Disk(dest: Entry, part: Option<Bytes>)

  datatype Request = Request(offset: int, data: Bytes, final: bool, overwrite: bool)

  datatype Response =
    | Accepted(received: int)
    | Refused
    | OffsetConflict(received: int)

  function Upload(d: Disk, req: Request): (Disk, Response) {
    if |req.data| > CHUNK_MAX || d.dest.Directory? || (d.dest.File? && !req.overwrite) then (d, Refused)
    else
      // Opening creates the part file, and truncates it for a first chunk.
      var held := if req.offset == 0 || d.part.None? then [] else d.part.value;
      if req.offset != |held| then (d.(part := Some(held)), OffsetConflict(|held|))
      else
        var written := held + req.data;
        (if req.final then Disk(File(written), None) else d.(part := Some(written)), Accepted(|written|))
  }

  class FileManager {
    var dest: Entry
    var part: Option<Bytes>

    function View(): Disk
      reads this
    {
      Disk(dest, part)
    }

    constructor (d: Disk)
      ensures View() == d
    {
      dest, part := d.dest, d.part;
    }

    method UploadChunk(req: Request) returns (r: Response)
      modifies this
      ensures (View(), r) == Upload(old(View()), req)
    {
      if |req.data| > CHUNK_MAX {
        return Refused;
      }
      if dest.Directory? {
        return Refused;
      }
      if dest.File? && !req.overwrite {
        return Refused;
      }
      if part.None? || req.offset == 0 {
        part := Some([]);
      }
      var size := |part.value|;
      if req.offset != size {
        return OffsetConflict(size);
      }
      part := Some(part.value + req.data);
      r := Accepted(req.offset + |req.data|);
      if !req.final {
        return;
      }
      dest, part := File(part.value), None;
    }
  }

  // -------------------------------------------------------------- integrity

  /** A chunk cut from the source; only one that reaches its end is final. */
  ghost predicate CutFrom(src: Bytes, req: Request) {
    && 0 <= req.offset && req.offset + |req.data| <= |src|
    && req.data == src[req.offset..req.offset + |req.data|]
    && (req.final ==> req.offset + |req.data| == |src|)
  }

  /** The part file is absent or holds the beginning of the source. */
  ghost predicate Clean(d: Disk, src: Bytes) {
    d.part.Some? ==> d.part.value <= src
  }

  ghost predicate UploadAt(ds: seq<Disk>, reqs: seq<Request>, i: nat)
    requires i < |reqs| && |ds| == |reqs| + 1
  {
    ds[i + 1] == Upload(ds[i], reqs[i]).0
  }

  /** Chunks of the source arriving in any order, any number of times. */
  ghost predicate Run(src: Bytes, ds: seq<Disk>, reqs: seq<Request>) {
    && |ds| == |reqs| + 1
    && (forall i :: 0 <= i < |reqs| ==> UploadAt(ds, reqs, i))
    && (forall i :: 0 <= i < |reqs| ==> CutFrom(src, reqs[i]))
  }

  lemma StepClean(src: Bytes, d: Disk, req: Request)
    requires CutFrom(src, req)
    requires Clean(d, src) || (req.offset == 0 && Upload(d, req).1.Accepted?)
    ensures Clean(Upload(d, req).0, src)
    ensures Upload(d, req).0.dest in {d.dest, File(src)}
  {
    var held := if req.offset == 0 || d.part.None? then [] else d.part.value;
    if req.offset == |held| && held <= src {
      assert src[..req.offset] + src[req.offset..req.offset + |req.data|] == src[..req.offset + |req.data|];
      assert held + req.data == src[..req.offset + |req.data|];
      if req.final {
        assert src[..|src|] == src;
      }
    }
  }

  /** Once a first chunk has been accepted at step m (or the part was clean to
      begin with), the part is always absent or a prefix of the source, and the
      destination holds what it held or the whole source. */
  lemma {:induction false} UploadIntegrity(src: Bytes, ds: seq<Disk>, reqs: seq<Request>, m: nat, n: nat)
    requires Run(src, ds, reqs) && m <= n <= |reqs|
    requires Clean(ds[m], src) || (m < |reqs| && m < n && reqs[m].offset == 0 && Upload(ds[m], reqs[m]).1.Accepted?)
    ensures Clean(ds[n], src) && ds[n].dest in {ds[m].dest, File(src)}
    decreases n
  {
    if n > m {
      if n > m + 1 || Clean(ds[m], src) {
        UploadIntegrity(src, ds, reqs, m, n - 1);
      }
      assert UploadAt(ds, reqs, n - 1);
      StepClean(src, ds[n - 1], reqs[n - 1]);
    }
  }

  // ----------------------------------------------------- finishing an upload

  function Next(src: Bytes, k: nat): Request
    requires k <= |src|
  {
    if |src| - k <= CHUNK_MAX then Request(k, src[k..], true, true)
    else Request(k, src[k..k + CHUNK_MAX], false, true)
  }

  lemma NextIsCut(src: Bytes, k: nat)
    requires k <= |src|
    ensures CutFrom(src, Next(src, k))
  {
    assert src[k..] == src[k..|src|];
  }

  /** The chunk at the reported count is always accepted, and the count advances. */
  lemma NextIsAccepted(src: Bytes, d: Disk)
    requires !d.dest.Directory? && d.part.Some? && |d.part.value| <= |src|
    ensures var p := d.part.value;
            var req := Next(src, |p|);
            var (d', r) := Upload(d, req);
            && r == Accepted(|p| + |req.data|)
            && (|p| < |src| ==> r.received > |p|)
            && d' == if req.final then Disk(File(p + src[|p|..]), None) else d.(part := Some(p + req.data))
  {
  }

  /** Resuming at the reported count until the end installs what was in the part
      followed by the rest of the source. */
  lemma {:induction false} Finish(src: Bytes, d: Disk) returns (ds: seq<Disk>, reqs: seq<Request>)
    requires !d.dest.Directory? && d.part.Some? && |d.part.value| <= |src|
    ensures Run(src, ds, reqs) && ds[0] == d && reqs != []
    ensures var n := |reqs| - 1;
            && reqs[n].final && Upload(ds[n], reqs[n]).1.Accepted?
            && ds[n + 1] == Disk(File(d.part.value + src[|d.part.value|..]), None)
    decreases |src| - |d.part.value|
  {
    var p := d.part.value;
    var req := Next(src, |p|);
    NextIsCut(src, |p|);
    NextIsAccepted(src, d);
    var d' := Upload(d, req).0;
    if req.final {
      ds, reqs := [d, d'], [req];
      assert UploadAt(ds, reqs, 0);
    } else {
      var es, qs := Finish(src, d');
      assert p + req.data + src[|p| + CHUNK_MAX..] == p + src[|p|..];
      ds, reqs := Prepend(src, d, req, es, qs);
    }
  }

  lemma Prepend(src: Bytes, d: Disk, req: Request, es: seq<Disk>, qs: seq<Request>)
      returns (ds: seq<Disk>, reqs: seq<Request>)
    requires Run(src, es, qs) && CutFrom(src, req) && es[0] == Upload(d, req).0
    ensures ds == [d] + es && reqs == [req] + qs && Run(src, ds, reqs)
  {
    ds, reqs := [d] + es, [req] + qs;
    forall i | 0 <= i < |reqs| ensures UploadAt(ds, reqs, i) {
      if i > 0 { assert UploadAt(es, qs, i - 1); }
    }
  }

  /** An interrupted upload resumed from the reported count ends with the source in place. */
  lemma ResumeCompletes(src: Bytes, d: Disk) returns (ds: seq<Disk>, reqs: seq<Request>)
    requires !d.dest.Directory? && d.part.Some? && Clean(d, src)
    ensures Run(src, ds, reqs) && ds[0] == d && ds[|reqs|] == Disk(File(src), None)
  {
    ds, reqs := Finish(src, d);
    assert d.part.value + src[|d.part.value|..] == src;
  }

  // ----------------------------------------------------------- exact condition

  /** No run from d ever installs anything but the source. */
  ghost predicate Sound(src: Bytes, d: Disk) {
    forall ds, reqs :: Run(src, ds, reqs) && ds[0] == d ==> InstallsOnly(src, ds, reqs)
  }

  ghost predicate InstallsOnly(src: Bytes, ds: seq<Disk>, reqs: seq<Request>)
    requires |ds| == |reqs| + 1
  {
    forall i :: 0 <= i < |reqs| && reqs[i].final && Upload(ds[i], reqs[i]).1.Accepted? ==> ds[i + 1].dest == File(src)
  }

  /** A part left behind by another upload, no longer than this source. */
  predicate Spoiled(src: Bytes, d: Disk) {
    !d.dest.Directory? && d.part.Some? && |d.part.value| <= |src| && !(d.part.value <= src)
  }

  /** Without a first chunk, a stale part can be completed into garbage — exactly
      when there is one of another content and no longer than the source. */
  lemma SoundExactlyUnlessSpoiled(src: Bytes, d: Disk)
    ensures Sound(src, d) <==> !Spoiled(src, d)
  {
    if Spoiled(src, d) {
      var ds, reqs := Finish(src, d);
      var p, n := d.part.value, |reqs| - 1;
      assert p <= p + src[|p|..];
      assert !InstallsOnly(src, ds, reqs);
    } else {
      forall ds: seq<Disk>, reqs: seq<Request> | Run(src, ds, reqs) && ds[0] == d ensures InstallsOnly(src, ds, reqs) {
        forall i | 0 <= i < |reqs| && reqs[i].final && Upload(ds[i], reqs[i]).1.Accepted?
          ensures ds[i + 1].dest == File(src)
        {
          NeverSpoils(src, ds, reqs, i);
          assert UploadAt(ds, reqs, i);
          UnspoiledInstall(src, ds[i], reqs[i]);
        }
      }
    }
  }

  lemma {:induction false} NeverSpoils(src: Bytes, ds: seq<Disk>, reqs: seq<Request>, n: nat)
    requires Run(src, ds, reqs) && n <= |reqs| && !Spoiled(src, ds[0])
    ensures !Spoiled(src, ds[n])
  {
    if n > 0 {
      NeverSpoils(src, ds, reqs, n - 1);
      assert UploadAt(ds, reqs, n - 1);
      if Clean(ds[n - 1], src) {
        StepClean(src, ds[n - 1], reqs[n - 1]);
      } else {
        LongStale(src, ds[n - 1], reqs[n - 1]);
      }
    }
  }

  lemma LongStale(src: Bytes, d: Disk, req: Request)
    requires CutFrom(src, req) && !Spoiled(src, d) && !Clean(d, src)
    ensures !Spoiled(src, Upload(d, req).0)
  {
    if req.offset == 0 && Upload(d, req).1.Accepted? {
      StepClean(src, d, req);
    }
  }

  lemma UnspoiledInstall(src: Bytes, d: Disk, req: Request)
    requires CutFrom(src, req) && !Spoiled(src, d) && req.final && Upload(d, req).1.Accepted?
    ensures Upload(d, req).0.dest == File(src)
  {
    assert src[..|src|] == src;
    assert src == src[..req.offset] + src[req.offset..];
  }

  // ------------------------------------------------------- one chunk, exactly

  /** A chunk is refused, and nothing touched, exactly if it is over a mebibyte, the destination is a
      directory, or it is a file that may not be overwritten. */
  lemma RefusedExactly(d: Disk, req: Request)
    ensures Upload(d, req).1.Refused? <==>
      |req.data| > 1_048_576 || d.dest.Directory? || (d.dest.File? && !req.overwrite)
    ensures Upload(d, req).1.Refused? ==> Upload(d, req).0 == d
  {
  }

  /** An offset that does not fit is answered with the number of bytes really held; what is held stays. */
  lemma ConflictTellsTheCount(d: Disk, req: Request)
    requires !Upload(d, req).1.Refused?
    ensures var (d', r) := Upload(d, req);
      && (r.OffsetConflict? <==> req.offset != 0 && req.offset != if d.part.Some? then |d.part.value| else 0)
      && (r.OffsetConflict? ==>
            && d'.dest == d.dest && d'.part == Some(if d.part.Some? then d.part.value else [])
            && r.received == |d'.part.value|)
  {
  }

  /** An accepted chunk is written at its offset, behind what was held there or over everything at the
      start; the count answered is that of the bytes now held, and only a final one is installed. */
  lemma AcceptedIsWritten(d: Disk, req: Request)
    requires Upload(d, req).1.Accepted?
    ensures var (d', r) := Upload(d, req);
      var held := if req.final && d'.dest.File? then d'.dest.content
                  else if d'.part.Some? then d'.part.value else [];
      && r.received == |held| == req.offset + |req.data|
      && held[req.offset..] == req.data
      && (req.offset > 0 ==> d.part == Some(held[..req.offset]))
      && (req.final ==> d'.dest == File(held) && d'.part.None?)
      && (!req.final ==> d'.dest == d.dest && d'.part == Some(held))
  {
  }
}
