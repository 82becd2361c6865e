/** Byte strings cut into chunks, and what they say when put together again. */
module Chunks {

  newtype Byte = b: int | 0 <= b < 256

  type Bytes = seq<Byte>

  /** The plain concatenation. */
  function Join(chunks: seq<Bytes>): Bytes {
    if chunks == [] then [] else Join(chunks[..|chunks| - 1]) + chunks[|chunks| - 1]
  }

  lemma JoinAppend(chunks: seq<Bytes>, c: Bytes)
    ensures Join(chunks + [c]) == Join(chunks) + c
  {
    assert (chunks + [c])[..|chunks|] == chunks;
  }

  lemma JoinUpTo(chunks: seq<Bytes>, k: nat)
    requires k < |chunks|
    ensures Join(chunks[..k + 1]) == Join(chunks[..k]) + chunks[k]
  {
    assert chunks[..k + 1][..k] == chunks[..k];
  }

  lemma {:induction false} JoinPrefix(chunks: seq<Bytes>, k: nat)
    requires k <= |chunks|
    ensures Join(chunks[..k]) <= Join(chunks)
    decreases |chunks|
  {
    if k == |chunks| {
      assert chunks[..k] == chunks;
    } else {
      var front := chunks[..|chunks| - 1];
      assert front[..k] == chunks[..k];
      JoinPrefix(front, k);
    }
  }

  /** A proper prefix of non-empty chunks is strictly shorter. */
  lemma JoinShorter(chunks: seq<Bytes>, k: nat)
    requires k < |chunks| && forall i :: 0 <= i < |chunks| ==> chunks[i] != []
    ensures |Join(chunks[..k])| < |Join(chunks)|
  {
    JoinUpTo(chunks, k);
    JoinPrefix(chunks, k + 1);
  }

  lemma {:induction false} JoinConcat(a: seq<Bytes>, b: seq<Bytes>)
    ensures Join(a + b) == Join(a) + Join(b)
    decreases |b|
  {
    if b == [] {
      assert a + b == a && Join(a) + [] == Join(a);
    } else {
      var n := |b| - 1;
      assert (a + b)[..|a + b| - 1] == a + b[..n];
      JoinConcat(a, b[..n]);
      assert Join(a) + Join(b[..n]) + b[n] == Join(a) + (Join(b[..n]) + b[n]);
    }
  }

  lemma JoinSplit(all: seq<Bytes>, n: nat)
    requires n <= |all|
    ensures Join(all) == Join(all[..n]) + Join(all[n..])
  {
    assert all == all[..n] + all[n..];
    JoinConcat(all[..n], all[n..]);
  }

  // ---- Numbered chunks in an object store ----

  function Beyond(stored: map<nat, Bytes>, n: nat): set<nat> {
    set k | k in stored && k >= n
  }

  /** How many chunks are present without a gap, counting from n. */
  function Present(stored: map<nat, Bytes>, n: nat): (m: nat)
    ensures m >= n && m !in stored && forall k :: n <= k < m ==> k in stored
    decreases Beyond(stored, n)
  {
    if n in stored then
      assert n in Beyond(stored, n) && n !in Beyond(stored, n + 1);
      assert Beyond(stored, n + 1) <= Beyond(stored, n);
      Present(stored, n + 1)
    else n
  }

  lemma {:induction false} PresentIs(stored: map<nat, Bytes>, n: nat, m: nat)
    requires n <= m && m !in stored && forall k :: n <= k < m ==> k in stored
    ensures Present(stored, n) == m
    decreases m - n
  {
    if n < m { PresentIs(stored, n + 1, m); }
  }

  /** The first n stored chunks, in order. */
  function First(stored: map<nat, Bytes>, n: nat): (chunks: seq<Bytes>)
    requires forall k :: 0 <= k < n ==> k in stored
    ensures |chunks| == n && forall k :: 0 <= k < n ==> chunks[k] == stored[k]
  {
    seq(n, k requires 0 <= k < n => stored[k])
  }

  /** What a reader can get: the chunks before the first gap. */
  function Available(stored: map<nat, Bytes>): Bytes {
    Join(First(stored, Present(stored, 0)))
  }

  /** `all` are the stored chunks before the first gap. */
  ghost predicate Gapless(stored: map<nat, Bytes>, all: seq<Bytes>) {
    |all| !in stored && forall k :: 0 <= k < |all| ==> k in stored && stored[k] == all[k]
  }

  lemma AvailableIs(stored: map<nat, Bytes>, all: seq<Bytes>)
    requires Gapless(stored, all)
    ensures Available(stored) == Join(all)
  {
    PresentIs(stored, 0, |all|);
    assert First(stored, |all|) == all;
  }

  lemma AvailableFrom(stored: map<nat, Bytes>) returns (all: seq<Bytes>)
    ensures Gapless(stored, all) && Available(stored) == Join(all)
  {
    all := First(stored, Present(stored, 0));
  }
}
