/** Multipart upload: writes of any size become parts of one size, and nothing shows at the
    destination until Close succeeds. */
module Multipart {
  import opened Chunks

  const DEFAULT_PART_SIZE := 16 * 1024 * 1024
  const S3_MINIMUM_PART := 5 * 1024 * 1024

  // ---- Cutting into parts ----

  /** The full parts of a byte string. */
  function FullParts(data: Bytes, size: nat): seq<Bytes>
    requires size > 0
    decreases |data|
  {
    if |data| < size then [] else [data[..size]] + FullParts(data[size..], size)
  }

  function Rest(data: Bytes, size: nat): Bytes
    requires size > 0
    decreases |data|
  {
    if |data| < size then data else Rest(data[size..], size)
  }

  /** All parts: the full ones, and what is left over if anything is. */
  function Parts(data: Bytes, size: nat): seq<Bytes>
    requires size > 0
  {
    FullParts(data, size) + if Rest(data, size) == [] then [] else [Rest(data, size)]
  }

  lemma {:induction false} PartsAreFull(data: Bytes, size: nat)
    requires size > 0
    ensures forall i :: 0 <= i < |FullParts(data, size)| ==> |FullParts(data, size)[i]| == size
    ensures |Rest(data, size)| < size
    decreases |data|
  {
    if |data| >= size { PartsAreFull(data[size..], size); }
  }

  lemma {:induction false} JoinFront(first: Bytes, rest: seq<Bytes>)
    ensures Join([first] + rest) == first + Join(rest)
    decreases |rest|
  {
    if rest == [] {
      JoinAppend([], first);
      assert [] + [first] == [first] + rest;
      assert Join([]) + first == first + Join(rest);
    } else {
      var n := |rest| - 1;
      var all := [first] + rest;
      assert all[..|all| - 1] == [first] + rest[..n];
      JoinFront(first, rest[..n]);
      assert first + Join(rest[..n]) + rest[n] == first + (Join(rest[..n]) + rest[n]);
    }
  }

  /** The parts put together are the data. */
  lemma {:induction false} PartsMakeWhole(data: Bytes, size: nat)
    requires size > 0
    ensures Join(FullParts(data, size)) + Rest(data, size) == data
    decreases |data|
  {
    if |data| < size {
      assert Join([]) + data == data;
    } else {
      var head, tail := data[..size], data[size..];
      var parts, rest := FullParts(tail, size), Rest(tail, size);
      calc {
        Join(FullParts(data, size)) + Rest(data, size);
        Join([head] + parts) + rest;
        { JoinFront(head, parts); }
        (head + Join(parts)) + rest;
        { Regroup(head, Join(parts), rest); }
        head + (Join(parts) + rest);
        { PartsMakeWhole(tail, size); }
        head + tail;
        data;
      }
    }
  }

  lemma Regroup(a: Bytes, b: Bytes, c: Bytes)
    ensures (a + b) + c == a + (b + c)
  {}

  /** More data never means fewer full parts. */
  lemma {:induction false} PartsOnlyGrow(data: Bytes, more: Bytes, size: nat)
    requires size > 0
    ensures |FullParts(data, size)| <= |FullParts(data + more, size)|
    decreases |data|
  {
    if |data| >= size {
      assert (data + more)[..size] == data[..size] && (data + more)[size..] == data[size..] + more;
      PartsOnlyGrow(data[size..], more, size);
    }
  }

  /** Appending data that still leaves the last part short only grows the rest; completing the
      part turns the rest into one more part. */
  lemma {:induction false} PartsGrow(data: Bytes, more: Bytes, size: nat)
    requires size > 0 && |Rest(data, size)| + |more| <= size
    ensures var rest := Rest(data, size) + more;
            if |rest| < size
            then FullParts(data + more, size) == FullParts(data, size) && Rest(data + more, size) == rest
            else FullParts(data + more, size) == FullParts(data, size) + [rest] && Rest(data + more, size) == []
    decreases |data|
  {
    if |data| < size {
      var all := data + more;
      if |all| == size {
        assert all[..size] == all && all[size..] == [];
        assert FullParts(all, size) == [all] + FullParts([], size);
      }
    } else {
      var head, tail := data[..size], data[size..];
      PartsGrow(tail, more, size);
      assert (data + more)[..size] == head && (data + more)[size..] == tail + more;
      var parts, rest := FullParts(tail, size), Rest(tail, size) + more;
      assert [head] + (parts + [rest]) == [head] + parts + [rest];
    }
  }

  /** How many parts writing `more` fills. */
  function Filled(data: Bytes, more: Bytes, size: nat): int
    requires size > 0
  {
    |FullParts(data + more, size)| - |FullParts(data, size)|
  }

  lemma FilledGrows(data: Bytes, more: Bytes, n: nat, size: nat)
    requires size > 0 && n <= |more|
    ensures Filled(data, more[..n], size) <= Filled(data, more, size)
  {
    assert more == more[..n] + more[n..];
    Regroup(data, more[..n], more[n..]);
    PartsOnlyGrow(data + more[..n], more[n..], size);
  }

  /** Taking the next n bytes of `p`. */
  lemma Slide(before: Bytes, p: Bytes, written: nat, n: nat)
    requires written + n <= |p|
    ensures p[written..][n..] == p[written + n..]
    ensures before + p[..written] + p[written..][..n] == before + p[..written + n]
  {
    assert p[..written] + p[written..][..n] == p[..written + n];
    Regroup(before, p[..written], p[written..][..n]);
  }

  // ---- The object store's side of one upload ----

  /** Parts received by number, what is visible under the key, and whether the upload is gone. */
  datatype Remote = Remote(parts: map<nat, Bytes>, published: Option, aborted: bool)

  datatype Option = None | Some(value: Bytes)

  /** What completing with the given part numbers publishes. */
  function Assemble(parts: map<nat, Bytes>, numbers: seq<nat>): Bytes
    requires forall i :: 0 <= i < |numbers| ==> numbers[i] in parts
  {
    if numbers == [] then [] else Assemble(parts, numbers[..|numbers| - 1]) + parts[numbers[|numbers| - 1]]
  }

  lemma {:induction false} AssembleJoins(parts: map<nat, Bytes>, numbers: seq<nat>, chunks: seq<Bytes>)
    requires |numbers| == |chunks|
    requires forall i :: 0 <= i < |numbers| ==> numbers[i] in parts && parts[numbers[i]] == chunks[i]
    ensures Assemble(parts, numbers) == Join(chunks)
    decreases |numbers|
  {
    if numbers != [] {
      var n := |numbers| - 1;
      AssembleJoins(parts, numbers[..n], chunks[..n]);
    }
  }

  // ---- The uploader ----

  class Uploader {
    const partSize: nat
    var buf: Bytes
    var parts: seq<nat>        // the numbers of the completed parts
    var closed: bool
    var failed: bool
    var remote: Remote
    ghost var sent: seq<Bytes> // what those parts hold
    ghost var accepted: Bytes  // everything written

    constructor (partSize: nat)
      requires partSize > 0
      ensures this.partSize == partSize && Valid() && !closed && !failed && accepted == []
      ensures remote == Remote(map[], None, false)
    {
      this.partSize := partSize;
      buf, parts, closed, failed, remote := [], [], false, false, Remote(map[], None, false);
      sent, accepted := [], [];
    }

    /** The server holds parts 1 .. n, and they are `sent`. */
    ghost predicate Numbered()
      reads this
    {
      && |parts| == |sent|
      && forall i :: 0 <= i < |parts| ==>
           parts[i] == i + 1 && parts[i] in remote.parts && remote.parts[parts[i]] == sent[i]
    }

    /** Until a part fails, the parts sent and the buffer are the cut of what was written; after
        a failure nothing is ever published. */
    ghost predicate Valid()
      reads this
    {
      && partSize > 0 && Numbered()
      && (!failed && !closed ==> sent == FullParts(accepted, partSize) && buf == Rest(accepted, partSize))
      && (remote.published.Some? ==> closed && !failed && remote.published.value == accepted)
      && (!closed ==> !remote.aborted)
    }

    /** Uploads the buffer as the next part. */
    method FlushPart(fails: bool) returns (ok: bool)
      requires Numbered()
      modifies this`buf, this`parts, this`remote, this`sent
      ensures Numbered() && remote == old(remote).(parts := remote.parts)
      ensures ok <==> old(buf) == [] || !fails
      ensures ok ==> buf == [] && sent == old(sent) + if old(buf) == [] then [] else [old(buf)]
      ensures !ok ==> buf == old(buf) && sent == old(sent)
    {
      if |buf| == 0 { return true; }
      if fails { return false; }
      var number := |parts| + 1;
      remote := remote.(parts := remote.parts[number := buf]);
      parts, sent := parts + [number], sent + [buf];
      buf := [];
      return true;
    }

    /** Buffers bytes that fit the part, and uploads it if it is full. */
    method Take(bytes: Bytes, fails: bool) returns (ok: bool, filled: bool)
      requires Valid() && !failed && !closed && |buf| + |bytes| <= partSize
      modifies this`buf, this`parts, this`remote, this`sent, this`failed, this`accepted
      ensures Valid() && accepted == old(accepted) + bytes && failed == !ok
      ensures |FullParts(accepted, partSize)| == |FullParts(old(accepted), partSize)| + if filled then 1 else 0
      ensures ok <==> !(filled && fails)
    {
      PartsGrow(accepted, bytes, partSize);
      accepted := accepted + bytes;
      buf := buf + bytes;
      filled := |buf| == partSize;
      ok := true;
      if filled {
        ok := FlushPart(fails);
        if !ok { failed := true; }
      }
    }

    /** Buffers `p`, uploading whole parts as they fill. `fails(k)` is whether the k-th upload
        of this call fails. */
    method Write(p: Bytes, fails: nat -> bool) returns (ok: bool, written: nat)
      requires Valid()
      modifies this`buf, this`parts, this`remote, this`sent, this`failed, this`accepted
      ensures Valid()
      ensures old(failed) || closed ==> !ok && written == 0 && accepted == old(accepted) && remote == old(remote)
      ensures ok ==> written == |p|
      ensures !old(failed) && !closed ==>
                && written <= |p| && accepted == old(accepted) + p[..written] && failed == !ok
                && (ok <==> forall k: nat :: k < Filled(old(accepted), p, partSize) ==> !fails(k))
    {
      if failed { return false, 0; }
      if closed { return false, 0; }
      var q := p;
      var k: nat := 0;
      written := 0;
      assert p[..0] == [] && accepted + [] == accepted;
      while |q| > 0
        invariant Valid() && !failed && written <= |p| && q == p[written..]
        invariant accepted == old(accepted) + p[..written]
        invariant k == |FullParts(accepted, partSize)| - |FullParts(old(accepted), partSize)|
        invariant forall j: nat :: j < k ==> !fails(j)
        decreases |q|
      {
        PartsAreFull(accepted, partSize);
        var space := partSize - |buf|;
        var n := if space <= |q| then space else |q|;
        Slide(old(accepted), p, written, n);
        var taken, filled := Take(q[..n], fails(k));
        q := q[n..];
        written := written + n;
        if filled { k := k + 1; }
        if !taken {
          FilledGrows(old(accepted), p, written, partSize);
          return false, written;
        }
      }
      assert p[..|p|] == p;
      return true, written;
    }

    /** A first successful Close publishes exactly what was written, as parts 1 .. n of which all
        but the last have the part size, or as an empty object. A failed one publishes nothing, and
        discards the parts unless it was the completion that failed. A repeated one reports success
        without doing anything. */
    method Close(partFails: bool, publishFails: bool) returns (ok: bool)
      requires Valid()
      modifies this`buf, this`parts, this`remote, this`sent, this`closed
      ensures Valid() && closed
      ensures old(closed) ==> ok && remote == old(remote)
      ensures !old(closed) ==>
                (ok <==> !failed && !publishFails && !(partFails && Rest(accepted, partSize) != []))
      ensures !old(closed) && !ok ==> remote.published == None
      ensures !old(closed) && ok ==> remote.published == Some(accepted) && sent == Parts(accepted, partSize)
      ensures !old(closed) && !failed ==>
                (remote.aborted <==> accepted == [] || (partFails && Rest(accepted, partSize) != []))
      ensures !old(closed) && failed ==> remote.aborted
    {
      if closed { return true; }
      closed := true;
      if failed {
        remote := remote.(aborted := true);
        return false;
      }
      var flushed := FlushPart(partFails);
      if !flushed {
        remote := remote.(aborted := true);
        return false;
      }
      ok := Publish(publishFails);
    }

    /** Completes the upload, or writes an empty object in its place. */
    method Publish(fails: bool) returns (ok: bool)
      requires partSize > 0 && Numbered() && sent == Parts(accepted, partSize)
      modifies this`remote
      ensures Numbered() && ok == !fails
      ensures remote.published == if ok then Some(accepted) else old(remote.published)
      ensures remote.aborted == (old(remote.aborted) || accepted == [])
    {
      WholeUpload(accepted, partSize);
      if |parts| == 0 {
        remote := remote.(aborted := true);
        if fails { return false; }
        remote := remote.(published := Some([]));
        return true;
      }
      if fails { return false; }
      AssembleJoins(remote.parts, parts, sent);
      remote := remote.(published := Some(Assemble(remote.parts, parts)));
      return true;
    }

    method Abort()
      requires Valid()
      modifies this`closed, this`remote
      ensures Valid() && closed
      ensures remote == if old(closed) then old(remote) else old(remote).(aborted := true)
    {
      if closed { return; }
      closed := true;
      remote := remote.(aborted := true);
    }
  }

  lemma WholeUpload(data: Bytes, size: nat)
    requires size > 0
    ensures Join(Parts(data, size)) == data
    ensures Parts(data, size) == [] <==> data == []
  {
    var full, rest := FullParts(data, size), Rest(data, size);
    PartsMakeWhole(data, size);
    if rest == [] {
      assert full + [] == full && Join(full) + [] == Join(full);
    } else {
      JoinAppend(full, rest);
    }
    assert data == [] ==> full == [] && rest == [];
  }

  /** The shape Amazon S3 asks for: every part but the last reaches the 5 MiB minimum, and the
      cut depends only on the bytes, not on how they were written. */
  lemma PartsReachMinimum(data: Bytes)
    ensures var parts := Parts(data, DEFAULT_PART_SIZE);
            && Join(parts) == data
            && (forall i :: 0 <= i < |parts| - 1 ==> |parts[i]| == 16777216 >= S3_MINIMUM_PART)
            && (forall i :: 0 <= i < |parts| ==> 0 < |parts[i]| <= 16777216)
  {
    PartsAreFull(data, DEFAULT_PART_SIZE);
    WholeUpload(data, DEFAULT_PART_SIZE);
  }
}
