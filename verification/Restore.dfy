/** The restore stream: a sender frames a chain of bundles, a receiver splits the frames into
    one pipe per declared layer. */
module Restore {
  import opened Chunks

  /** A layer_end frame may carry false, and a spec frame may come late: both count as data
      frames without data. */
  datatype Frame = SpecFrame | Data(data: Bytes) | LayerEnd(flag: bool)

  const MAX_RESTORE_LAYERS := 64

  // ---- What a frame sequence says ----

  function Payload(f: Frame): Bytes {
    if f.Data? then f.data else []
  }

  predicate IsBoundary(f: Frame) {
    f.LayerEnd? && f.flag
  }

  /** Appends to the last segment. */
  function Extend(segs: seq<Bytes>, data: Bytes): (more: seq<Bytes>)
    requires segs != []
    ensures |more| == |segs|
  {
    segs[|segs| - 1 := segs[|segs| - 1] + data]
  }

  lemma ExtendTwice(segs: seq<Bytes>, a: Bytes, b: Bytes)
    requires segs != []
    ensures Extend(Extend(segs, a), b) == Extend(segs, a + b)
    ensures Extend(segs, []) == segs
  {
    var last := segs[|segs| - 1];
    assert last + a + b == last + (a + b);
    assert last + [] == last;
  }

  /** The stream cut at its boundaries, independently of how many layers were declared. */
  function Segments(frames: seq<Frame>): (segs: seq<Bytes>)
    ensures |segs| >= 1
  {
    if frames == [] then [[]]
    else
      var before := Segments(frames[..|frames| - 1]);
      var f := frames[|frames| - 1];
      if IsBoundary(f) then before + [[]] else Extend(before, Payload(f))
  }

  /** Layer i of n is segment i, empty when the stream stopped before it. */
  function Layers(frames: seq<Frame>, n: nat): (layers: seq<Bytes>)
    ensures |layers| == n
  {
    var segs := Segments(frames);
    seq(n, i requires 0 <= i < n => if i < |segs| then segs[i] else [])
  }

  function Total(blobs: seq<Bytes>): nat {
    if blobs == [] then 0 else Total(blobs[..|blobs| - 1]) + |blobs[|blobs| - 1]|
  }

  lemma {:induction false} TotalUpdate(blobs: seq<Bytes>, i: nat, b: Bytes)
    requires i < |blobs|
    ensures Total(blobs[i := blobs[i] + b]) == Total(blobs) + |b|
    decreases |blobs|
  {
    var n := |blobs| - 1;
    var more := blobs[i := blobs[i] + b];
    if i < n {
      assert more[..n] == blobs[..n][i := blobs[i] + b];
      TotalUpdate(blobs[..n], i, b);
    } else {
      assert more[..n] == blobs[..n];
    }
  }

  // ---- The receiver ----

  /** How a pipe's write end was closed. The first close wins. */
  datatype Close = Open | Clean | Broken

  datatype Pipe = Pipe(data: Bytes, end: Close)

  function CloseWith(p: Pipe, end: Close): Pipe {
    if p.end == Open then p.(end := end) else p
  }

  /** How the transport's stream ended: a normal end of stream, or an error. */
  datatype Ending = Eof | Error

  function Contents(pipes: seq<Pipe>): seq<Bytes> {
    seq(|pipes|, i requires 0 <= i < |pipes| => pipes[i].data)
  }

  datatype Received = Received(pipes: seq<Pipe>, restored: nat)

  /** Whether the stream has as many boundaries as layers, so that the receiver stops early. */
  predicate Surplus(frames: seq<Frame>, n: nat) {
    |Segments(frames)| > n
  }

  lemma SegmentsStep(frames: seq<Frame>, k: nat)
    requires k < |frames|
    ensures var before, after := Segments(frames[..k]), Segments(frames[..k + 1]);
            after == if IsBoundary(frames[k]) then before + [[]] else Extend(before, Payload(frames[k]))
  {
    assert frames[..k + 1][..k] == frames[..k];
  }

  /** Later frames never change a segment that is already closed. */
  lemma {:induction false} SegmentsGrow(frames: seq<Frame>, k: nat)
    requires k <= |frames|
    ensures var old_, new_ := Segments(frames[..k]), Segments(frames);
            |old_| <= |new_| && old_[..|old_| - 1] <= new_
    decreases |frames| - k
  {
    if k == |frames| {
      assert frames[..k] == frames;
    } else {
      SegmentsStep(frames, k);
      SegmentsGrow(frames, k + 1);
    }
  }

  lemma LayersStep(frames: seq<Frame>, k: nat, n: nat)
    requires k < |frames|
    ensures var was, now := Layers(frames[..k], n), Layers(frames[..k + 1], n);
            var at := |Segments(frames[..k])| - 1;
            now == if IsBoundary(frames[k]) || at >= n then was else was[at := was[at] + Payload(frames[k])]
  {
    SegmentsStep(frames, k);
  }

  lemma ContentsOfUpdate(pipes: seq<Pipe>, at: nat, p: Pipe)
    requires at < |pipes|
    ensures Contents(pipes[at := p]) == Contents(pipes)[at := p.data]
  {}

  function CloseAll(pipes: seq<Pipe>, end: Close): (closed: seq<Pipe>)
    ensures |closed| == |pipes| && Contents(closed) == Contents(pipes)
  {
    seq(|pipes|, i requires 0 <= i < |pipes| => CloseWith(pipes[i], end))
  }

  /** How layer i's pipe ends up closed. */
  function EndOf(frames: seq<Frame>, ending: Ending, i: nat): Close {
    if i < |Segments(frames)| - 1 || ending.Eof? then Clean else Broken
  }

  /** What the readers of n declared layers get out of a stream. */
  function Delivered(frames: seq<Frame>, ending: Ending, n: nat): Received {
    var layers := Layers(frames, n);
    Received(seq(n, i requires 0 <= i < n => Pipe(layers[i], EndOf(frames, ending, i))), Total(layers))
  }

  /** The receiver's state after the frames of `done`. */
  ghost predicate Midway(done: seq<Frame>, n: nat, pipes: seq<Pipe>, at: nat, restored: nat) {
    && |pipes| == n && at == |Segments(done)| - 1 && at < n
    && Contents(pipes) == Layers(done, n)
    && restored == Total(Layers(done, n))
    && forall i :: 0 <= i < n ==> pipes[i].end == if i < at then Clean else Open
  }

  lemma MidwayStart(n: nat)
    requires n >= 1
    ensures Midway([], n, seq(n, _ => Pipe([], Open)), 0, 0)
  {
    EmptyTotal(n);
    assert Contents(seq(n, _ => Pipe([], Open))) == Blank(n) == Layers([], n);
  }

  lemma MidwayBoundary(frames: seq<Frame>, k: nat, n: nat, pipes: seq<Pipe>, at: nat, restored: nat)
    requires k < |frames| && IsBoundary(frames[k]) && Midway(frames[..k], n, pipes, at, restored) && at + 1 < n
    ensures Midway(frames[..k + 1], n, pipes[at := CloseWith(pipes[at], Clean)], at + 1, restored)
  {
    SegmentsStep(frames, k);
    LayersStep(frames, k, n);
    ContentsOfUpdate(pipes, at, CloseWith(pipes[at], Clean));
    assert Contents(pipes)[at := pipes[at].data] == Contents(pipes);
  }

  lemma MidwayData(frames: seq<Frame>, k: nat, n: nat, pipes: seq<Pipe>, at: nat, restored: nat)
    requires k < |frames| && !IsBoundary(frames[k]) && Midway(frames[..k], n, pipes, at, restored)
    ensures var data := Payload(frames[k]);
            Midway(frames[..k + 1], n, pipes[at := pipes[at].(data := pipes[at].data + data)], at, restored + |data|)
  {
    var data, was := Payload(frames[k]), Layers(frames[..k], n);
    var filled := pipes[at := pipes[at].(data := pipes[at].data + data)];
    DataLayers(frames, k, n, at);
    TotalUpdate(was, at, data);
    FilledContents(pipes, at, data);
    assert forall i :: 0 <= i < n ==> filled[i].end == pipes[i].end;
  }

  lemma DataLayers(frames: seq<Frame>, k: nat, n: nat, at: nat)
    requires k < |frames| && !IsBoundary(frames[k]) && at == |Segments(frames[..k])| - 1 < n
    ensures var was := Layers(frames[..k], n);
            Layers(frames[..k + 1], n) == was[at := was[at] + Payload(frames[k])]
    ensures |Segments(frames[..k + 1])| == |Segments(frames[..k])|
  {
    SegmentsStep(frames, k);
    LayersStep(frames, k, n);
  }

  lemma FilledContents(pipes: seq<Pipe>, at: nat, data: Bytes)
    requires at < |pipes|
    ensures Contents(pipes[at := pipes[at].(data := pipes[at].data + data)]) ==
            Contents(pipes)[at := Contents(pipes)[at] + data]
  {
    ContentsOfUpdate(pipes, at, pipes[at].(data := pipes[at].data + data));
  }

  /** At the boundary past the last layer every pipe is closed already, so CloseWithError on
      all of them changes nothing. */
  lemma LastBoundary(frames: seq<Frame>, k: nat, n: nat, pipes: seq<Pipe>, at: nat, restored: nat, ending: Ending)
    requires k < |frames| && IsBoundary(frames[k]) && Midway(frames[..k], n, pipes, at, restored) && at + 1 == n
    ensures Received(CloseAll(pipes[at := CloseWith(pipes[at], Clean)], Broken), restored) ==
            Delivered(frames, ending, n)
  {
    var closed := CloseAll(pipes[at := CloseWith(pipes[at], Clean)], Broken);
    SegmentsStep(frames, k);
    LayersStep(frames, k, n);
    SurplusNeverArrives(frames, k + 1, n);
    SegmentsGrow(frames, k + 1);
    ContentsOfUpdate(pipes, at, CloseWith(pipes[at], Clean));
    assert Contents(pipes)[at := pipes[at].data] == Contents(pipes);
    SameDelivery(frames, ending, n, closed);
  }

  lemma StreamEnd(frames: seq<Frame>, n: nat, pipes: seq<Pipe>, at: nat, restored: nat, ending: Ending)
    requires Midway(frames, n, pipes, at, restored)
    ensures Received(CloseAll(pipes, if ending.Eof? then Clean else Broken), restored) == Delivered(frames, ending, n)
  {
    SameDelivery(frames, ending, n, CloseAll(pipes, if ending.Eof? then Clean else Broken));
  }

  /** The receiving loop: one pass over the frames, an index into the pipes and a counter. */
  method ReceiveLayers(frames: seq<Frame>, ending: Ending, n: nat) returns (r: Received)
    requires n >= 1
    ensures r == Delivered(frames, ending, n)
  {
    var pipes := seq(n, _ => Pipe([], Open));
    var restored: nat := 0;
    var at: nat := 0;
    MidwayStart(n);
    assert frames[..0] == [];
    for k := 0 to |frames|
      invariant Midway(frames[..k], n, pipes, at, restored)
    {
      var f := frames[k];
      if f.LayerEnd? && f.flag {
        if at + 1 < n {
          MidwayBoundary(frames, k, n, pipes, at, restored);
        } else {
          LastBoundary(frames, k, n, pipes, at, restored, ending);
        }
        pipes := pipes[at := CloseWith(pipes[at], Clean)];
        at := at + 1;
        if at >= n {
          return Received(CloseAll(pipes, Broken), restored);
        }
      } else {
        var data := Payload(f);
        MidwayData(frames, k, n, pipes, at, restored);
        if |data| != 0 {
          pipes := pipes[at := pipes[at].(data := pipes[at].data + data)];
          restored := restored + |data|;
        } else {
          assert pipes[at].data + data == pipes[at].data;
          assert pipes[at := pipes[at].(data := pipes[at].data + data)] == pipes;
        }
      }
    }
    assert frames[..|frames|] == frames;
    StreamEnd(frames, n, pipes, at, restored, ending);
    return Received(CloseAll(pipes, if ending.Eof? then Clean else Broken), restored);
  }

  lemma SameDelivery(frames: seq<Frame>, ending: Ending, n: nat, pipes: seq<Pipe>)
    requires |pipes| == n && Contents(pipes) == Layers(frames, n)
    requires forall i :: 0 <= i < n ==> pipes[i].end == EndOf(frames, ending, i)
    ensures pipes == Delivered(frames, ending, n).pipes
  {
    assert forall i :: 0 <= i < n ==> pipes[i].data == Contents(pipes)[i];
  }

  function Blank(n: nat): (blank: seq<Bytes>)
    ensures |blank| == n
  {
    seq(n, _ => [])
  }

  lemma {:induction false} EmptyTotal(n: nat)
    ensures Total(Blank(n)) == 0
    decreases n
  {
    if n > 0 {
      assert Blank(n)[..n - 1] == Blank(n - 1);
      EmptyTotal(n - 1);
    }
  }

  // ---- The whole of recvLayers ----

  datatype Spec = Spec(chain: seq<string>, fsDigest: string, snapshotId: string)

  datatype Outcome = NoLayers | TooManyLayers | Got(ids: seq<string>, received: Received)

  method RecvLayers(spec: Spec, frames: seq<Frame>, ending: Ending) returns (r: Outcome)
    ensures r.NoLayers? <==> spec.chain == [] && spec.fsDigest != ""
    ensures r.TooManyLayers? <==> |spec.chain| > 64
    ensures r.Got? ==>
              && r.ids == (if spec.chain == [] then [spec.snapshotId] else spec.chain)
              && r.received == Delivered(frames, ending, |r.ids|)
  {
    var ids := spec.chain;
    if ids == [] {
      if spec.fsDigest != "" { return NoLayers; }
      ids := [spec.snapshotId];
    }
    if |ids| > MAX_RESTORE_LAYERS { return TooManyLayers; }
    var received := ReceiveLayers(frames, ending, |ids|);
    return Got(ids, received);
  }

  // ---- The sender ----

  const READ_SIZE := 0x10_0000

  function DataFrames(chunks: seq<Bytes>): (frames: seq<Frame>)
    ensures |frames| == |chunks|
  {
    seq(|chunks|, i requires 0 <= i < |chunks| => Data(chunks[i]))
  }

  /** Sends one bundle. `sizes` is how much each read happens to return. */
  method SendBlob(blob: Bytes, sizes: nat -> nat) returns (chunks: seq<Bytes>)
    requires forall k :: 1 <= sizes(k) <= READ_SIZE
    ensures Join(chunks) == blob
    ensures forall i :: 0 <= i < |chunks| ==> 1 <= |chunks[i]| <= 1048576
  {
    chunks := [];
    var pos, k := 0, 0;
    assert blob[..0] == [];
    while pos < |blob|
      invariant 0 <= pos <= |blob|
      invariant Join(chunks) == blob[..pos]
      invariant forall i :: 0 <= i < |chunks| ==> 1 <= |chunks[i]| <= READ_SIZE
      decreases |blob| - pos
    {
      var n := if sizes(k) <= |blob| - pos then sizes(k) else |blob| - pos;
      var chunk := blob[pos..pos + n];
      assert (chunks + [chunk])[..|chunks|] == chunks;
      assert blob[..pos] + chunk == blob[..pos + n];
      chunks := chunks + [chunk];
      pos, k := pos + n, k + 1;
    }
    assert blob[..|blob|] == blob;
  }

  /** The frames for bundles already cut into chunks: a boundary before every bundle but the
      first. */
  function Framed(bundles: seq<seq<Bytes>>): seq<Frame> {
    if bundles == [] then []
    else
      var n := |bundles| - 1;
      Framed(bundles[..n]) + (if n > 0 then [LayerEnd(true)] else []) + DataFrames(bundles[n])
  }

  function Joined(bundles: seq<seq<Bytes>>): (blobs: seq<Bytes>)
    ensures |blobs| == |bundles|
  {
    seq(|bundles|, i requires 0 <= i < |bundles| => Join(bundles[i]))
  }

  /** Data frames extend the last segment by what they carry. */
  lemma {:induction false} SegmentsOfData(frames: seq<Frame>, chunks: seq<Bytes>)
    ensures Segments(frames + DataFrames(chunks)) == Extend(Segments(frames), Join(chunks))
    decreases |chunks|
  {
    if chunks == [] {
      assert frames + DataFrames(chunks) == frames;
      ExtendTwice(Segments(frames), [], []);
    } else {
      var n := |chunks| - 1;
      var all := frames + DataFrames(chunks);
      var most := frames + DataFrames(chunks[..n]);
      assert all[..|all| - 1] == most;
      calc {
        Segments(all);
        Extend(Segments(most), chunks[n]);
        { SegmentsOfData(frames, chunks[..n]); }
        Extend(Extend(Segments(frames), Join(chunks[..n])), chunks[n]);
        { ExtendTwice(Segments(frames), Join(chunks[..n]), chunks[n]); }
        Extend(Segments(frames), Join(chunks));
      }
    }
  }

  /** Cutting the framed stream at its boundaries gives back the bundles, in order. */
  lemma {:induction false} SegmentsOfFramed(bundles: seq<seq<Bytes>>)
    requires bundles != []
    ensures Segments(Framed(bundles)) == Joined(bundles)
    decreases |bundles|
  {
    var n := |bundles| - 1;
    var last := bundles[n];
    if n == 0 {
      FramedFirst(bundles);
      SegmentsOfData([], last);
      assert [] + Join(last) == Join(last);
      assert Joined(bundles) == [Join(last)];
    } else {
      var before := bundles[..n];
      var head := Framed(before) + [LayerEnd(true)];
      assert head[..|head| - 1] == Framed(before);
      calc {
        Segments(Framed(bundles));
        Segments(head + DataFrames(last));
        { SegmentsOfData(head, last); }
        Extend(Segments(head), Join(last));
        Extend(Segments(Framed(before)) + [[]], Join(last));
        { SegmentsOfFramed(before); }
        Extend(Joined(before) + [[]], Join(last));
        { assert [] + Join(last) == Join(last); }
        Joined(before) + [Join(last)];
        Joined(bundles);
      }
    }
  }

  lemma FramedFirst(bundles: seq<seq<Bytes>>)
    requires |bundles| == 1
    ensures Framed(bundles) == [] + DataFrames(bundles[0])
  {
    assert Framed(bundles[..0]) == [];
    assert bundles[|bundles| - 1] == bundles[0];
  }

  /** Sends a chain, base first: cut at its boundaries, the stream is the bundles. */
  method SendChain(blobs: seq<Bytes>, sizes: (nat, nat) -> nat) returns (frames: seq<Frame>)
    requires forall i, k :: 1 <= sizes(i, k) <= READ_SIZE
    ensures if blobs == [] then frames == [] else Segments(frames) == blobs
  {
    frames := [];
    ghost var bundles: seq<seq<Bytes>> := [];
    for i := 0 to |blobs|
      invariant frames == Framed(bundles) && Joined(bundles) == blobs[..i]
    {
      var chunks := SendBlob(blobs[i], k => sizes(i, k));
      assert (bundles + [chunks])[..i] == bundles;
      if i > 0 { frames := frames + [LayerEnd(true)]; }
      frames := frames + DataFrames(chunks);
      bundles := bundles + [chunks];
      assert Joined(bundles) == blobs[..i] + [blobs[i]];
      assert blobs[..i + 1] == blobs[..i] + [blobs[i]];
    }
    assert blobs[..|blobs|] == blobs;
    if bundles != [] { SegmentsOfFramed(bundles); }
  }

  /** Restore is the inverse of send: for every chain of 1 to 64 bundles and every way the
      reads cut them up, layer i arrives as exactly bundle i, closed cleanly, and the byte
      count is the total. */
  method RoundTrip(ids: seq<string>, fsDigest: string, snapshotId: string, blobs: seq<Bytes>, sizes: (nat, nat) -> nat)
    returns (r: Outcome)
    requires 1 <= |ids| == |blobs| <= 64
    requires forall i, k :: 1 <= sizes(i, k) <= READ_SIZE
    ensures r.Got? && r.ids == ids && Contents(r.received.pipes) == blobs
    ensures r.received.restored == Total(blobs)
    ensures forall i :: 0 <= i < |r.received.pipes| ==> r.received.pipes[i].end == Clean
  {
    var frames := SendChain(blobs, sizes);
    r := RecvLayers(Spec(ids, fsDigest, snapshotId), frames, Eof);
    assert Layers(frames, |ids|) == blobs;
  }

  // ---- Frames past the last layer ----

  /** Nothing after the last declared layer's boundary reaches a layer, or is counted. */
  lemma SurplusNeverArrives(frames: seq<Frame>, k: nat, n: nat)
    requires k <= |frames| && n >= 1 && Surplus(frames[..k], n)
    ensures Layers(frames, n) == Layers(frames[..k], n)
  {
    SegmentsGrow(frames, k);
    var a, b := Layers(frames, n), Layers(frames[..k], n);
    assert forall i :: 0 <= i < n ==> a[i] == b[i];
  }

  /** The source means to fail a stream with more boundaries than layers, but every pipe is
      closed by then. An error reaches some reader exactly when there is no surplus. */
  lemma ErrorReachesAReaderIffNoSurplus(frames: seq<Frame>, n: nat)
    requires n >= 1
    ensures Delivered(frames, Error, n) != Delivered(frames, Eof, n) <==> !Surplus(frames, n)
    ensures Surplus(frames, n) ==> forall i :: 0 <= i < n ==> Delivered(frames, Error, n).pipes[i].end == Clean
  {
    var e, c := Delivered(frames, Error, n), Delivered(frames, Eof, n);
    if Surplus(frames, n) {
      assert e.pipes == c.pipes;
    } else {
      assert e.pipes[n - 1].end != c.pipes[n - 1].end;
    }
  }
}
