/** Build logs with one flush at a time: the writer under failing uploads, and the reader. */
module BuildLog {
  import opened Chunks

  datatype Manifest = NoManifest | Manifest(chunks: int, done: bool, failed: bool, reason: string)

  /** Which uploads of a flush fail. A failed upload publishes nothing. */
  datatype Faults = Faults(chunk: bool, manifest: bool)

  const FLUSH_BYTES := 256 * 1024

  /** The objects 0, 1, ... hold `chunks`, and there is no other. */
  ghost predicate Exactly(stored: map<nat, Bytes>, chunks: seq<Bytes>) {
    && (forall k: nat :: k in stored <==> k < |chunks|)
    && (forall k :: 0 <= k < |chunks| ==> stored[k] == chunks[k])
  }

  /** Whether a flush reports success. */
  predicate Flushes(final: bool, closed: bool, buf: Bytes, faults: Faults) {
    if closed && !final then true
    else !(buf != [] && faults.chunk) && !((buf != [] || final) && faults.manifest)
  }

  class Writer {
    var buf: Bytes
    var next: nat                  // the next chunk's number
    var closed: bool
    var failed: bool
    var reason: string
    var stored: map<nat, Bytes>    // the chunk objects
    var manifest: Manifest
    ghost var chunks: seq<Bytes>   // what they hold
    ghost var accepted: Bytes      // everything Write has taken

    constructor ()
      ensures Valid() && accepted == [] && !closed && manifest == NoManifest
    {
      buf, next, closed, failed, reason, stored, manifest := [], 0, false, false, "", map[], NoManifest;
      chunks, accepted := [], [];
    }

    /** The chunks stored under 0 .. next-1, followed by the buffer, are what was accepted. */
    ghost predicate Valid()
      reads this
    {
      && next == |chunks| && Exactly(stored, chunks)
      && accepted == Join(chunks) + buf
    }

    /** Never fails, whatever the store does. */
    method Write(p: Bytes, faults: Faults)
      requires Valid()
      modifies this
      ensures Valid() && closed == old(closed)
      ensures accepted == if closed then old(accepted) else old(accepted) + p
      ensures Grows(old(stored), stored)
      ensures !closed && p != [] ==>
                if |old(buf) + p| < 262144 then buf == old(buf) + p && stored == old(stored)
                else buf == if faults.chunk then old(buf) + p else []
      ensures manifest == if !closed && p != [] && |old(buf) + p| >= 262144 && !faults.chunk && !faults.manifest
                          then Manifest(next, false, failed, reason) else old(manifest)
    {
      if |p| == 0 {
        assert accepted + p == accepted;
        return;
      }
      if closed { return; }
      assert Join(chunks) + buf + p == Join(chunks) + (buf + p);
      buf := buf + p;
      accepted := accepted + p;
      if |buf| >= FLUSH_BYTES { var _ := Flush(false, faults); }
    }

    /** A chunk that could not be stored goes back to the front of the buffer, under its old
        number. */
    method Flush(final: bool, faults: Faults) returns (ok: bool)
      requires Valid()
      modifies this`buf, this`next, this`stored, this`manifest, this`chunks
      ensures Valid() && Grows(old(stored), stored)
      ensures ok <==> Flushes(final, closed, old(buf), faults)
      ensures (closed && !final) || (old(buf) != [] && faults.chunk) ==> buf == old(buf) && stored == old(stored)
      ensures !(closed && !final) && !(old(buf) != [] && faults.chunk) ==> buf == []
      ensures manifest == if ok && (final || (!closed && old(buf) != []))
                          then Manifest(next, final, failed, reason) else old(manifest)
    {
      if closed && !final { return true; }
      if |buf| > 0 {
        var stored := PutChunk(faults.chunk);
        if !stored { return false; }
      } else if !final {
        return true;
      }
      if faults.manifest { return false; }
      manifest := Manifest(next, final, failed, reason);
      return true;
    }

    /** Uploads the buffer under the next number, or puts it back. */
    method PutChunk(fails: bool) returns (ok: bool)
      requires Valid() && buf != []
      modifies this`buf, this`next, this`stored, this`chunks
      ensures Valid() && Grows(old(stored), stored) && ok == !fails
      ensures if ok then buf == [] else buf == old(buf) && stored == old(stored) && next == old(next)
    {
      var chunk, number := buf, next;
      buf, next := [], next + 1;
      if fails {
        assert chunk + buf == chunk;
        buf, next := chunk + buf, number;
        return false;
      }
      JoinAppend(chunks, chunk);
      assert Join(chunks) + chunk + [] == Join(chunks) + chunk;
      stored := stored[number := chunk];
      chunks := chunks + [chunk];
      return true;
    }

    /** The first call that succeeds leaves nothing behind in the buffer, the whole log stored,
        and a terminal manifest with the exact chunk count. A later call reports success
        without doing anything, even when the first one failed. */
    method Finish(buildFailed: bool, why: string, faults: Faults) returns (ok: bool)
      requires Valid()
      modifies this
      ensures Valid() && closed && accepted == old(accepted)
      ensures old(closed) ==> ok && buf == old(buf) && stored == old(stored) && manifest == old(manifest)
      ensures !old(closed) ==> (ok <==> !faults.manifest && !(old(buf) != [] && faults.chunk))
      ensures !ok ==> manifest == old(manifest)
      ensures !old(closed) && ok ==>
                && buf == [] && manifest == Manifest(next, true, buildFailed, why)
                && Available(stored) == accepted
    {
      if closed { return true; }
      closed := true;
      failed, reason := buildFailed, why;
      ok := Flush(true, faults);
      if ok {
        AvailableIs(stored, chunks);
        assert Join(chunks) + [] == Join(chunks);
      }
    }
  }

  // ---- The reader ----

  class Reader {
    var sizes: seq<int>   // chunk lengths learnt so far

    constructor ()
      ensures sizes == []
    {
      sizes := [];
    }

    /** Cached lengths are right; chunks are immutable, so they stay right as the store grows. */
    ghost predicate Fits(stored: map<nat, Bytes>)
      reads this
    {
      forall k :: 0 <= k < |sizes| ==> k in stored && sizes[k] == |stored[k]|
    }

    /** -1 stands for ErrNotFound. */
    method ChunkSize(stored: map<nat, Bytes>, n: nat) returns (size: int)
      requires Fits(stored) && n <= |sizes|
      modifies this
      ensures Fits(stored) && |sizes| >= old(|sizes|)
      ensures n in stored ==> size == |stored[n]| && n < |sizes|
      ensures n !in stored ==> size == -1
    {
      if n < |sizes| { return sizes[n]; }
      if n !in stored { return -1; }
      size := |stored[n]|;
      sizes := sizes + [size];
    }

    /** Exactly the available bytes from `off` on, and the offset after them. */
    method ReadFrom(stored: map<nat, Bytes>, off: nat) returns (out: Bytes, end: nat)
      requires Fits(stored)
      modifies this
      ensures Fits(stored)
      ensures off <= |Available(stored)| ==> out == Available(stored)[off..] && end == |Available(stored)|
      ensures off > |Available(stored)| ==> out == [] && end == off
    {
      ghost var all := AvailableFrom(stored);
      out, end := Walk(stored, off, all);
    }

    method Walk(stored: map<nat, Bytes>, off: nat, ghost all: seq<Bytes>) returns (out: Bytes, end: nat)
      requires Fits(stored) && Gapless(stored, all)
      modifies this
      ensures Fits(stored) && end >= off
      ensures off <= |Join(all)| ==> out == Join(all)[off..] && end == |Join(all)|
      ensures off > |Join(all)| ==> out == [] && end == off
    {
      out, end := [], off;
      var n: nat, pos: nat := 0, 0;
      ghost var done: Bytes := [];
      assert all[..0] == [];
      while true
        invariant Fits(stored) && n <= |sizes| && n <= |all|
        invariant done == Join(all[..n])
        invariant Delivered(done, off, pos, out, end)
        decreases |all| - n
      {
        var size := ChunkSize(stored, n);
        if size < 0 {
          assert n < |all| ==> n in stored;
          assert all[..n] == all;
          return;
        }
        assert n == |all| ==> n !in stored;
        var chunk := stored[n];
        JoinUpTo(all, n);
        out, end := Deliver(chunk, pos, out, end, done, off);
        done := done + chunk;
        n, pos := n + 1, pos + size;
      }
    }

    /** Adds what a chunk has past the offset reached so far. */
    static method Deliver(chunk: Bytes, pos: nat, before: Bytes, from: nat, ghost done: Bytes, ghost off: nat)
      returns (out: Bytes, end: nat)
      requires Delivered(done, off, pos, before, from)
      ensures Delivered(done + chunk, off, pos + |chunk|, out, end)
    {
      var next := pos + |chunk|;
      if from >= next {
        SkipChunk(done, chunk, off, pos, before, from);
        return before, from;
      }
      TakeChunk(done, chunk, off, pos, before, from);
      var start := if from - pos < 0 then 0 else from - pos;
      return before + chunk[start..], next;
    }
  }

  /** Of the bytes walked past, everything from `off` on has been delivered. */
  ghost predicate Delivered(done: Bytes, off: nat, pos: nat, out: Bytes, end: nat) {
    && pos == |done|
    && end == (if off < pos then pos else off)
    && out == if off < pos then done[off..] else []
  }

  lemma SkipChunk(done: Bytes, chunk: Bytes, off: nat, pos: nat, out: Bytes, end: nat)
    requires Delivered(done, off, pos, out, end) && end >= pos + |chunk|
    ensures Delivered(done + chunk, off, pos + |chunk|, out, end)
  {
    if off < pos { assert done + chunk == done; }
  }

  lemma TakeChunk(done: Bytes, chunk: Bytes, off: nat, pos: nat, out: Bytes, end: nat)
    requires Delivered(done, off, pos, out, end) && end < pos + |chunk|
    ensures var start := if end - pos < 0 then 0 else end - pos;
            Delivered(done + chunk, off, pos + |chunk|, out + chunk[start..], pos + |chunk|)
  {
    if off < pos {
      assert chunk[0..] == chunk;
      assert (done + chunk)[off..] == done[off..] + chunk;
    } else {
      assert (done + chunk)[off..] == chunk[end - pos..];
    }
  }

  /** Chunks are immutable and only added. */
  ghost predicate Grows(a: map<nat, Bytes>, b: map<nat, Bytes>) {
    forall k :: k in a ==> k in b && b[k] == a[k]
  }

  /** Following: a reader that keeps asking from where it stopped, while the store only grows,
      has received exactly what was available at its last call: nothing twice, nothing lost. */
  method Follow(views: seq<map<nat, Bytes>>) returns (received: Bytes)
    requires forall i :: 0 < i < |views| ==> Grows(views[i - 1], views[i])
    ensures received == if views == [] then [] else Available(views[|views| - 1])
  {
    var r := new Reader();
    received := [];
    for i := 0 to |views|
      invariant received == if i == 0 then [] else Available(views[i - 1])
      invariant if i == 0 then r.sizes == [] else r.Fits(views[i - 1])
    {
      if i > 0 { AvailableGrows(views[i - 1], views[i]); }
      received := Catch(r, views[i], received);
    }
  }

  /** One ReadFrom from where the last one stopped. */
  method Catch(r: Reader, stored: map<nat, Bytes>, before: Bytes) returns (received: Bytes)
    requires r.Fits(stored) && before <= Available(stored)
    modifies r
    ensures r.Fits(stored) && received == Available(stored)
  {
    var out, end := r.ReadFrom(stored, |before|);
    Resume(before, Available(stored));
    received := before + out;
  }

  lemma Resume(before: Bytes, now: Bytes)
    requires before <= now
    ensures before + now[|before|..] == now
  {}

  lemma AvailableGrows(a: map<nat, Bytes>, b: map<nat, Bytes>)
    requires Grows(a, b)
    ensures Available(a) <= Available(b)
  {
    var below := AvailableFrom(a);
    var above := AvailableFrom(b);
    assert |above| < |below| ==> |above| in a;
    assert above[..|below|] == below;
    JoinPrefix(above, |below|);
  }
}
