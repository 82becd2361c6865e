/** Runs of a step machine: what holds after every step of every interleaving. */
module Runs {

  /** The state after applying `steps` one after the other. */
  function Run<S, A>(apply: (S, A) -> S, s: S, steps: seq<A>): S {
    if steps == [] then s else apply(Run(apply, s, steps[..|steps| - 1]), steps[|steps| - 1])
  }

  lemma RunPrefix<S, A>(apply: (S, A) -> S, s: S, steps: seq<A>, k: nat)
    requires k < |steps|
    ensures Run(apply, s, steps[..k + 1]) == apply(Run(apply, s, steps[..k]), steps[k])
  {
    assert steps[..k + 1][..k] == steps[..k];
  }

  lemma RunAppend<S, A>(apply: (S, A) -> S, s: S, steps: seq<A>, a: A)
    ensures Run(apply, s, steps + [a]) == apply(Run(apply, s, steps), a)
  {
    assert (steps + [a])[..|steps|] == steps;
  }

  lemma RunsUnfolded<S, A>(apply: (S, A) -> S, s: S, a: A, b: A, c: A)
    ensures Run(apply, s, [a]) == apply(s, a)
    ensures Run(apply, s, [a, b]) == apply(apply(s, a), b)
    ensures Run(apply, s, [a, b, c]) == apply(apply(apply(s, a), b), c)
  {
    RunAppend(apply, s, [], a);
    RunAppend(apply, s, [a], b);
    RunAppend(apply, s, [a, b], c);
    assert [] + [a] == [a] && [a] + [b] == [a, b] && [a, b] + [c] == [a, b, c];
  }

  /** The k-th state of a run. */
  function At<S, A>(apply: (S, A) -> S, s: S, steps: seq<A>, k: nat): S
    requires k <= |steps|
  {
    Run(apply, s, steps[..k])
  }

  /** `inv` holds before, between and after all steps of the run. */
  ghost predicate Always<S, A>(apply: (S, A) -> S, inv: S -> bool, s: S, steps: seq<A>) {
    forall k :: 0 <= k <= |steps| ==> inv(At(apply, s, steps, k))
  }

  /** No step of the run is `bad` in the state where it is taken. */
  ghost predicate Never<S, A>(apply: (S, A) -> S, bad: (S, A) -> bool, s: S, steps: seq<A>) {
    forall k :: 0 <= k < |steps| ==> !bad(At(apply, s, steps, k), steps[k])
  }

  /** Every step of the run is `ok` in the state where it is taken. */
  ghost predicate Each<S, A>(apply: (S, A) -> S, ok: (S, A) -> bool, s: S, steps: seq<A>) {
    forall k :: 0 <= k < |steps| ==> ok(At(apply, s, steps, k), steps[k])
  }

  lemma Front<S, A>(apply: (S, A) -> S, s: S, steps: seq<A>)
    requires steps != []
    ensures var n := |steps| - 1;
            && (forall k :: 0 <= k <= n ==> At(apply, s, steps[..n], k) == At(apply, s, steps, k))
            && (forall k :: 0 <= k < n ==> steps[..n][k] == steps[k])
            && At(apply, s, steps, n + 1) == apply(At(apply, s, steps, n), steps[n])
  {
    var n := |steps| - 1;
    forall k | 0 <= k <= n ensures At(apply, s, steps[..n], k) == At(apply, s, steps, k) {
      assert steps[..n][..k] == steps[..k];
    }
    RunPrefix(apply, s, steps, n);
  }

  lemma AlwaysSplits<S, A>(apply: (S, A) -> S, inv: S -> bool, s: S, steps: seq<A>)
    requires steps != []
    ensures var n := |steps| - 1;
            Always(apply, inv, s, steps) <==>
            Always(apply, inv, s, steps[..n]) && inv(apply(At(apply, s, steps, n), steps[n]))
  {
    Front(apply, s, steps);
    assert Always(apply, inv, s, steps) ==> inv(At(apply, s, steps, |steps|));
  }

  lemma EachSplits<S, A>(apply: (S, A) -> S, ok: (S, A) -> bool, s: S, steps: seq<A>)
    requires steps != []
    ensures var n := |steps| - 1;
            Each(apply, ok, s, steps) <==> Each(apply, ok, s, steps[..n]) && ok(At(apply, s, steps, n), steps[n])
  {
    Front(apply, s, steps);
  }

  lemma NeverSplits<S, A>(apply: (S, A) -> S, bad: (S, A) -> bool, s: S, steps: seq<A>)
    requires steps != []
    ensures var n := |steps| - 1;
            Never(apply, bad, s, steps) <==> Never(apply, bad, s, steps[..n]) && !bad(At(apply, s, steps, n), steps[n])
  {
    Front(apply, s, steps);
  }

  lemma AlwaysAtLast<S, A>(apply: (S, A) -> S, inv: S -> bool, s: S, steps: seq<A>)
    requires steps != [] && Always(apply, inv, s, steps[..|steps| - 1])
    ensures inv(At(apply, s, steps, |steps| - 1))
  {
    Front(apply, s, steps);
  }

  /** If each `ok` step keeps `inv` exactly when it is not `bad`, then a whole run of `ok` steps
      keeps `inv` at every moment exactly when none of its steps is `bad` where it is taken. */
  lemma {:induction false} KeptIffNoBadStep<S(!new), A(!new)>(
      apply: (S, A) -> S, inv: S -> bool, ok: (S, A) -> bool, bad: (S, A) -> bool, s: S, steps: seq<A>)
    requires inv(s) && Each(apply, ok, s, steps)
    requires forall x, a :: inv(x) && ok(x, a) ==> (inv(apply(x, a)) <==> !bad(x, a))
    ensures Always(apply, inv, s, steps) <==> Never(apply, bad, s, steps)
    decreases |steps|
  {
    if steps != [] {
      AlwaysSplits(apply, inv, s, steps);
      EachSplits(apply, ok, s, steps);
      NeverSplits(apply, bad, s, steps);
      KeptIffNoBadStep(apply, inv, ok, bad, s, steps[..|steps| - 1]);
      if Always(apply, inv, s, steps[..|steps| - 1]) { AlwaysAtLast(apply, inv, s, steps); }
    }
  }

  /** If every `ok` step keeps `inv`, so does every run of `ok` steps. */
  lemma {:induction false} KeptBySteps<S(!new), A(!new)>(
      apply: (S, A) -> S, inv: S -> bool, ok: (S, A) -> bool, s: S, steps: seq<A>)
    requires inv(s) && Each(apply, ok, s, steps)
    requires forall x, a :: inv(x) && ok(x, a) ==> inv(apply(x, a))
    ensures Always(apply, inv, s, steps)
    decreases |steps|
  {
    if steps != [] {
      AlwaysSplits(apply, inv, s, steps);
      EachSplits(apply, ok, s, steps);
      KeptBySteps(apply, inv, ok, s, steps[..|steps| - 1]);
      AlwaysAtLast(apply, inv, s, steps);
    }
  }

  /** If `inv` means that all is `good`, each `ok` step that is not `bad` keeps `inv`, and a `bad`
      one shows at once, then a run of `ok` steps looks good at every moment exactly when none of
      its steps is `bad` where it is taken. */
  lemma {:induction false} GoodIffNoBadStep<S(!new), A(!new)>(
      apply: (S, A) -> S, inv: S -> bool, good: S -> bool, ok: (S, A) -> bool, bad: (S, A) -> bool,
      s: S, steps: seq<A>)
    requires inv(s) && Each(apply, ok, s, steps)
    requires forall x :: inv(x) ==> good(x)
    requires forall x, a :: inv(x) && ok(x, a) ==> if bad(x, a) then !good(apply(x, a)) else inv(apply(x, a))
    ensures Always(apply, good, s, steps) <==> Never(apply, bad, s, steps)
    ensures Never(apply, bad, s, steps) ==> Always(apply, inv, s, steps)
    decreases |steps|
  {
    if steps != [] {
      AlwaysSplits(apply, good, s, steps);
      AlwaysSplits(apply, inv, s, steps);
      EachSplits(apply, ok, s, steps);
      NeverSplits(apply, bad, s, steps);
      GoodIffNoBadStep(apply, inv, good, ok, bad, s, steps[..|steps| - 1]);
      if Always(apply, inv, s, steps[..|steps| - 1]) { AlwaysAtLast(apply, inv, s, steps); }
    }
  }

  function Times<A>(a: A, n: nat): (steps: seq<A>)
    ensures |steps| == n
  {
    seq(n, _ => a)
  }

  lemma TimesPrefix<A>(a: A, n: nat, k: nat)
    requires k <= n
    ensures Times(a, n)[..k] == Times(a, k)
  {}

  lemma {:induction false} RunTimesCounts<S(!new), A(!new)>(
      apply: (S, A) -> S, count: (S, nat) -> bool, s: S, a: A, n: nat)
    requires count(s, 0)
    requires forall x, k: nat :: k < n && count(x, k) ==> count(apply(x, a), k + 1)
    ensures count(Run(apply, s, Times(a, n)), n)
    decreases n
  {
    if n > 0 {
      RunTimesCounts(apply, count, s, a, n - 1);
      TimesPrefix(a, n, n - 1);
      var before := Run(apply, s, Times(a, n - 1));
      assert Run(apply, s, Times(a, n)) == apply(before, a);
      assert count(before, n - 1);
    }
  }

  /** Repeating a step: what `count` says of k repetitions holds after n of them. */
  lemma RunTimes<S(!new), A(!new)>(
      apply: (S, A) -> S, count: (S, nat) -> bool, ok: (S, A) -> bool, s: S, a: A, n: nat)
    requires count(s, 0)
    requires forall x, k: nat :: k < n && count(x, k) ==> ok(x, a) && count(apply(x, a), k + 1)
    ensures count(Run(apply, s, Times(a, n)), n) && Each(apply, ok, s, Times(a, n))
  {
    RunTimesCounts(apply, count, s, a, n);
    forall k | 0 <= k < n ensures ok(At(apply, s, Times(a, n), k), Times(a, n)[k]) {
      RunTimesCounts(apply, count, s, a, k);
      TimesPrefix(a, n, k);
    }
  }

  lemma {:induction false} RunCons<S, A>(apply: (S, A) -> S, s: S, a: A, rest: seq<A>)
    ensures Run(apply, s, [a] + rest) == Run(apply, apply(s, a), rest)
    decreases |rest|
  {
    if rest == [] {
      assert [a] + rest == [] + [a];
      RunAppend(apply, s, [], a);
    } else {
      var n := |rest| - 1;
      assert ([a] + rest)[..n + 1] == [a] + rest[..n];
      RunCons(apply, s, a, rest[..n]);
    }
  }

  lemma EachCons<S, A>(apply: (S, A) -> S, ok: (S, A) -> bool, s: S, a: A, rest: seq<A>)
    requires ok(s, a) && Each(apply, ok, apply(s, a), rest)
    ensures Each(apply, ok, s, [a] + rest)
  {
    var steps := [a] + rest;
    forall k | 0 <= k < |steps| ensures ok(At(apply, s, steps, k), steps[k]) {
      if k > 0 {
        assert steps[..k] == [a] + rest[..k - 1];
        RunCons(apply, s, a, rest[..k - 1]);
        assert ok(At(apply, apply(s, a), rest, k - 1), rest[k - 1]);
      }
    }
  }

  lemma {:induction false} RunConcat<S, A>(apply: (S, A) -> S, s: S, a: seq<A>, b: seq<A>)
    ensures Run(apply, s, a + b) == Run(apply, Run(apply, s, a), b)
    decreases |b|
  {
    if b == [] {
      assert a + b == a;
    } else {
      var n := |b| - 1;
      assert (a + b)[..|a| + n] == a + b[..n];
      RunConcat(apply, s, a, b[..n]);
    }
  }

  lemma EachConcat<S, A>(apply: (S, A) -> S, ok: (S, A) -> bool, s: S, a: seq<A>, b: seq<A>)
    requires Each(apply, ok, s, a) && Each(apply, ok, Run(apply, s, a), b)
    ensures Each(apply, ok, s, a + b) && Run(apply, s, a + b) == Run(apply, Run(apply, s, a), b)
  {
    RunConcat(apply, s, a, b);
    forall k | 0 <= k < |a + b| ensures ok(At(apply, s, a + b, k), (a + b)[k]) {
      if k < |a| {
        assert (a + b)[..k] == a[..k];
        assert ok(At(apply, s, a, k), a[k]);
      } else {
        assert (a + b)[..k] == a + b[..k - |a|];
        RunConcat(apply, s, a, b[..k - |a|]);
        assert ok(At(apply, Run(apply, s, a), b, k - |a|), b[k - |a|]);
      }
    }
  }

  lemma EachAppend<S, A>(apply: (S, A) -> S, ok: (S, A) -> bool, s: S, steps: seq<A>, a: A)
    requires Each(apply, ok, s, steps) && ok(Run(apply, s, steps), a)
    ensures Each(apply, ok, s, steps + [a])
  {
    var longer := steps + [a];
    assert longer[..|steps|] == steps;
    EachSplits(apply, ok, s, longer);
  }

  lemma ThreeMore<S, A>(apply: (S, A) -> S, ok: (S, A) -> bool, s: S, steps: seq<A>, a: A, b: A, c: A)
    requires Each(apply, ok, s, steps) && ok(Run(apply, s, steps), a)
    requires ok(apply(Run(apply, s, steps), a), b) && ok(apply(apply(Run(apply, s, steps), a), b), c)
    ensures Each(apply, ok, s, steps + [a] + [b] + [c])
    ensures Run(apply, s, steps + [a] + [b] + [c]) == apply(apply(apply(Run(apply, s, steps), a), b), c)
  {
    RunAppend(apply, s, steps, a);
    EachAppend(apply, ok, s, steps, a);
    RunAppend(apply, s, steps + [a], b);
    EachAppend(apply, ok, s, steps + [a], b);
    RunAppend(apply, s, steps + [a] + [b], c);
    EachAppend(apply, ok, s, steps + [a] + [b], c);
  }

  lemma EndsBadly<S, A>(apply: (S, A) -> S, inv: S -> bool, s: S, steps: seq<A>)
    requires !inv(Run(apply, s, steps))
    ensures !Always(apply, inv, s, steps)
  {
    assert steps[..|steps|] == steps;
    assert !inv(At(apply, s, steps, |steps|));
  }

  /** What holds after n steps, and is kept by each up to the k-th, holds there. */
  lemma {:induction false} KeptWithin<S(!new), A(!new)>(
      apply: (S, A) -> S, inv: S -> bool, ok: (S, A) -> bool, s: S, steps: seq<A>, n: nat, k: nat)
    requires n <= k <= |steps| && inv(At(apply, s, steps, n))
    requires forall i :: n <= i < k ==> ok(At(apply, s, steps, i), steps[i])
    requires forall x, a :: inv(x) && ok(x, a) ==> inv(apply(x, a))
    ensures inv(At(apply, s, steps, k))
    decreases k
  {
    if n < k {
      var before := At(apply, s, steps, k - 1);
      KeptWithin(apply, inv, ok, s, steps, n, k - 1);
      RunPrefix(apply, s, steps, k - 1);
      KeptOnce(apply, inv, ok, before, steps[k - 1]);
    }
  }

  /** What holds after n steps, and is kept by each, holds from then on. */
  lemma KeptFrom<S(!new), A(!new)>(
      apply: (S, A) -> S, inv: S -> bool, ok: (S, A) -> bool, s: S, steps: seq<A>, n: nat, k: nat)
    requires n <= k <= |steps| && inv(At(apply, s, steps, n)) && Each(apply, ok, s, steps)
    requires forall x, a :: inv(x) && ok(x, a) ==> inv(apply(x, a))
    ensures inv(At(apply, s, steps, k))
  {
    KeptWithin(apply, inv, ok, s, steps, n, k);
  }

  lemma KeptOnce<S(!new), A(!new)>(apply: (S, A) -> S, inv: S -> bool, ok: (S, A) -> bool, x: S, a: A)
    requires inv(x) && ok(x, a)
    requires forall x, a :: inv(x) && ok(x, a) ==> inv(apply(x, a))
    ensures inv(apply(x, a))
  {}
}
