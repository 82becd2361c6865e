/** What a failing chunk upload costs. The writer puts the bytes back under the chunk's old number,
    so a failure that a later chunk has overtaken can store bytes out of order, over one another, or
    never. */
module BuildLogOrder {
  import opened Runs
  import opened Chunks
  import opened BuildLog
  import opened BuildLogRace

  /** Two chunks in flight, the first upload fails after the second has landed. Retrying it makes
      everything readable once; the next chunk then overwrites the second. */
  lemma OvertakenFailureExample(a: Bytes, b: Bytes, c: Bytes)
    requires a != [] && b != [] && c != []
    ensures var one := Run(Apply, EMPTY, [Write(a), Claim(0, false)]);
            var two := Run(Apply, one, [Write(b), Claim(1, false), PutOk(1)]);
            var retried := Run(Apply, two, [PutFail(0), Claim(2, false), PutOk(2)]);
            var after := Run(Apply, retried, [Write(c), Claim(3, false), PutOk(3)]);
            && Inv(two) && Overtaken(two, PutFail(0))
            && retried.buf == [] && Available(retried.stored) == retried.written == a + b
            && after.buf == [] && Outstanding(after.flights) == {}
            && Available(after.stored) == a + c && after.written == a + b + c
  {
    var one := Run(Apply, EMPTY, [Write(a), Claim(0, false)]);
    FirstClaimed(a);
    var two := Run(Apply, one, [Write(b), Claim(1, false), PutOk(1)]);
    SecondLanded(one, a, b);
    FailAndRetry(two, a, b);
    RewriteLast(Run(Apply, two, [PutFail(0), Claim(2, false), PutOk(2)]), a, b, c);
  }

  ghost predicate OneClaimed(l: Log, a: Bytes) {
    && Inv(l) && l.buf == [] && l.next == 1 && !l.closed && l.written == a
    && l.flights == map[0 := Putting(0, a, false)] && l.stored == map[]
  }

  lemma FirstClaimed(a: Bytes)
    requires a != []
    ensures OneClaimed(Run(Apply, EMPTY, [Write(a), Claim(0, false)]), a)
  {
    RunsUnfolded(Apply, EMPTY, Write(a), Claim(0, false), Ask);
    assert [] + a == a && Inv(EMPTY);
    EventKeepsInv(EMPTY, Write(a));
    EventKeepsInv(Apply(EMPTY, Write(a)), Claim(0, false));
  }

  ghost predicate BothClaimed(l: Log, a: Bytes, b: Bytes) {
    && Inv(l) && l.buf == [] && l.next == 2 && !l.closed && l.written == a + b
    && l.flights == map[0 := Putting(0, a, false), 1 := Putting(1, b, false)] && l.stored == map[]
  }

  lemma SecondClaimed(l: Log, a: Bytes, b: Bytes)
    requires OneClaimed(l, a) && b != []
    ensures BothClaimed(Apply(Apply(l, Write(b)), Claim(1, false)), a, b)
  {
    assert [] + b == b;
    EventKeepsInv(l, Write(b));
    EventKeepsInv(Apply(l, Write(b)), Claim(1, false));
  }

  ghost predicate SecondFirst(l: Log, a: Bytes, b: Bytes) {
    && Inv(l) && l.buf == [] && l.next == 2 && !l.closed && l.written == a + b
    && l.flights == map[0 := Putting(0, a, false), 1 := Put(false)] && l.stored == map[1 := b]
  }

  lemma SecondLanded(l: Log, a: Bytes, b: Bytes)
    requires OneClaimed(l, a) && b != []
    ensures SecondFirst(Run(Apply, l, [Write(b), Claim(1, false), PutOk(1)]), a, b)
  {
    RunsUnfolded(Apply, l, Write(b), Claim(1, false), PutOk(1));
    SecondClaimed(l, a, b);
    ThenPutOk(Apply(Apply(l, Write(b)), Claim(1, false)), a, b);
  }

  lemma ThenPutOk(l: Log, a: Bytes, b: Bytes)
    requires BothClaimed(l, a, b)
    ensures SecondFirst(Apply(l, PutOk(1)), a, b)
  {
    EventKeepsInv(l, PutOk(1));
  }

  ghost predicate BothStored(l: Log, a: Bytes, b: Bytes) {
    && l.stored == map[0 := a, 1 := b] && l.flights == map[1 := Put(false), 2 := Put(false)]
    && l.buf == [] && l.next == 1 && !l.closed && l.written == a + b && Available(l.stored) == a + b
  }

  lemma FailAndRetry(l: Log, a: Bytes, b: Bytes)
    requires SecondFirst(l, a, b) && a != []
    ensures BothStored(Run(Apply, l, [PutFail(0), Claim(2, false), PutOk(2)]), a, b)
  {
    RunsUnfolded(Apply, l, PutFail(0), Claim(2, false), PutOk(2));
    FailAgain(l, a, b);
    RetryLands(Apply(Apply(l, PutFail(0)), Claim(2, false)), a, b);
  }

  ghost predicate Retrying(l: Log, a: Bytes, b: Bytes) {
    && l.flights == map[1 := Put(false), 2 := Putting(0, a, false)] && l.stored == map[1 := b]
    && l.buf == [] && l.next == 1 && !l.closed && l.written == a + b
  }

  lemma FailAgain(l: Log, a: Bytes, b: Bytes)
    requires SecondFirst(l, a, b) && a != []
    ensures Retrying(Apply(Apply(l, PutFail(0)), Claim(2, false)), a, b)
  {
    assert a + [] == a && Apply(l, PutFail(0)).flights == map[1 := Put(false)];
  }

  lemma RetryLands(l: Log, a: Bytes, b: Bytes)
    requires Retrying(l, a, b)
    ensures BothStored(Apply(l, PutOk(2)), a, b)
  {
    TwoChunks(Apply(l, PutOk(2)).stored, a, b);
  }

  lemma TwoChunks(stored: map<nat, Bytes>, a: Bytes, b: Bytes)
    requires stored == map[0 := a, 1 := b]
    ensures Available(stored) == a + b
  {
    AvailableIs(stored, [a, b]);
    JoinTwo(a, b);
  }

  lemma JoinTwo(a: Bytes, b: Bytes)
    ensures Join([a, b]) == a + b
  {
    calc {
      Join([a, b]);
      { assert [a, b][..1] == [a]; }
      Join([a]) + b;
      { assert [a][..0] == [] && [] + a == a; }
      a + b;
    }
  }

  lemma RewriteLast(l: Log, a: Bytes, b: Bytes, c: Bytes)
    requires BothStored(l, a, b) && c != []
    ensures var r := Run(Apply, l, [Write(c), Claim(3, false), PutOk(3)]);
            && r.buf == [] && Outstanding(r.flights) == {} && r.written == a + b + c
            && Available(r.stored) == a + c
  {
    RunsUnfolded(Apply, l, Write(c), Claim(3, false), PutOk(3));
    assert [] + c == c;
    RewriteLands(Apply(Apply(l, Write(c)), Claim(3, false)), a, b, c);
  }

  lemma RewriteLands(l: Log, a: Bytes, b: Bytes, c: Bytes)
    requires l.flights == map[1 := Put(false), 2 := Put(false), 3 := Putting(1, c, false)]
    requires l.stored == map[0 := a, 1 := b]
    ensures var r := Apply(l, PutOk(3));
            r == l.(stored := map[0 := a, 1 := c], flights := r.flights) && Outstanding(r.flights) == {}
    ensures Available(map[0 := a, 1 := c]) == a + c
  {
    var r := Apply(l, PutOk(3));
    assert r.stored == map[0 := a, 1 := c];
    assert forall f :: f in r.flights ==> !r.flights[f].Putting?;
    TwoChunks(r.stored, a, c);
  }

  // ---- Exactly when order survives a failure ----

  /** The bytes of the chunks claimed after chunk n. */
  function Later(chunks: seq<Bytes>, n: nat): Bytes
    requires n < |chunks|
  {
    Join(chunks[n + 1..])
  }

  /** A failed upload that can put bytes out of order: a later chunk has been claimed, and the bytes
      going back can still be claimed again. While the log is open they can. Once Finish has closed
      it only its own flush can, which does no harm if the buffer commutes with the later chunks,
      in particular if it is empty; after that flush, none can. */
  predicate Reorders(l: Log, f: nat)
    requires f in l.flights && l.flights[f].Putting? && l.next == |l.chunks|
  {
    var n := l.flights[f].number;
    && n + 1 < |l.chunks|
    && (l.closed ==> !l.sealing && l.buf + Later(l.chunks, n) != Later(l.chunks, n) + l.buf)
  }

  ghost predicate StaysInOrder(l: Log) {
    forall events :: Each(Apply, Steady, l, events) ==> Always(Apply, InOrder, l, events)
  }

  // -- Out of order

  /** All chunks but n are stored, and chunk n's bytes are back in front of the buffer. */
  ghost predicate Torn(l: Log, all: seq<Bytes>, n: nat) {
    && n < |all| && l.next == n
    && (forall k: nat :: k in l.stored <==> k < |all| && k != n)
    && (forall k :: k in l.stored ==> l.stored[k] == all[k])
  }

  lemma AroundChunk(all: seq<Bytes>, n: nat)
    requires n < |all|
    ensures Join(all) == Join(all[..n]) + all[n] + Later(all, n)
  {
    JoinSplit(all, n + 1);
    JoinUpTo(all, n);
  }

  /** Storing a chunk under number n closes the gap. */
  lemma Mended(stored: map<nat, Bytes>, all: seq<Bytes>, n: nat, chunk: Bytes)
    requires n < |all| && (forall k: nat :: k in stored <==> k < |all| && k != n)
    requires forall k :: k in stored ==> stored[k] == all[k]
    ensures Available(stored[n := chunk]) == Join(all[..n]) + chunk + Later(all, n)
  {
    var slots := all[n := chunk];
    AvailableIs(stored[n := chunk], slots);
    AroundChunk(slots, n);
    assert slots[..n] == all[..n] && slots[n + 1..] == all[n + 1..];
  }

  lemma LaterIsNotEmpty(all: seq<Bytes>, n: nat)
    requires n + 1 < |all| && forall k :: 0 <= k < |all| ==> all[k] != []
    ensures Later(all, n) != []
  {
    var rest := all[n + 1..];
    assert rest[|rest| - 1] == all[|all| - 1] != [];
  }

  /** Prefixes of equal length are equal, so a last byte or any difference tells them apart. */
  lemma NotAPrefix(head: Bytes, x: Bytes, y: Bytes)
    requires x != y && |x| == |y|
    ensures !(head + x <= head + y)
  {
    assert (head + x)[|head|..] == x && (head + y)[|head|..] == y;
  }

  /** The bytes of chunk n and the buffer, claimed again, land before the later chunks. */
  lemma ClaimedAgain(l: Log, all: seq<Bytes>, n: nat, tail: Bytes, g: nat, final: bool)
    requires Torn(l, all, n) && l.buf == all[n] + tail && g !in l.flights && l.buf != []
    requires l.written == Join(all) + tail && (l.closed ==> final)
    requires tail + Later(all, n) != Later(all, n) + tail
    ensures !InOrder(Apply(Apply(l, Claim(g, final)), PutOk(g)))
  {
    var r := Apply(Apply(l, Claim(g, final)), PutOk(g));
    StoredAgain(l, g, final);
    Mended(l.stored, all, n, l.buf);
    OutOfOrder(all, n, tail);
  }

  lemma StoredAgain(l: Log, g: nat, final: bool)
    requires g !in l.flights && l.buf != [] && (l.closed ==> final)
    ensures var r := Apply(Apply(l, Claim(g, final)), PutOk(g));
            r.stored == l.stored[l.next := l.buf] && r.written == l.written
  {}

  lemma OutOfOrder(all: seq<Bytes>, n: nat, tail: Bytes)
    requires n < |all| && tail + Later(all, n) != Later(all, n) + tail
    ensures !(Join(all[..n]) + (all[n] + tail) + Later(all, n) <= Join(all) + tail)
  {
    var a, b, later := Join(all[..n]), all[n], Later(all, n);
    AroundChunk(all, n);
    Regroup(a, b, tail, later);
    NotAPrefix(a + b, tail + later, later + tail);
  }

  lemma Regroup(a: Bytes, b: Bytes, c: Bytes, d: Bytes)
    ensures a + (b + c) + d == (a + b) + (c + d)
    ensures a + b + d + c == (a + b) + (d + c)
  {}

  /** Some byte after the buffer makes the two orders differ. */
  lemma SomeByteTells(buf: Bytes, later: Bytes) returns (b: Byte)
    requires later != []
    ensures (buf + [b]) + later != later + (buf + [b])
  {
    var last := later[|later| - 1];
    b := if last == 0 then 1 else 0;
    var x, y := (buf + [b]) + later, later + (buf + [b]);
    assert x[|x| - 1] == last && y[|y| - 1] == b;
  }

  lemma FreshFlight(flights: map<nat, Flight>) returns (g: nat)
    ensures g !in flights
  {
    g := Above(flights.Keys);
  }

  lemma {:induction false} Above(s: set<nat>) returns (g: nat)
    ensures forall x :: x in s ==> x < g
    decreases s
  {
    if s == {} {
      g := 0;
    } else {
      var x :| x in s;
      g := Above(s - {x});
      assert forall y :: y in s ==> y == x || y in s - {x};
      if g <= x { g := x + 1; }
    }
  }

  /** What is left after the failure, once everything else in flight has landed. */
  lemma TornAfterLanding(l: Log, f: nat, r: Log)
    requires Inv(l) && f in l.flights && l.flights[f].Putting? && Landed(AfterPut(l, f, false), r)
    ensures Torn(r, l.chunks, l.flights[f].number)
    ensures r.buf == l.chunks[l.flights[f].number] + l.buf
    ensures r.written == l.written && r.closed == l.closed && r.sealing == l.sealing
  {
    var l1, n := AfterPut(l, f, false), l.flights[f].number;
    forall k ensures k in Outstanding(l1.flights) <==> k in Outstanding(l.flights) && k != n {
      if k in Outstanding(l.flights) && k != n {
        var g :| g in l.flights && l.flights[g].Putting? && l.flights[g].number == k;
        OutstandingOf(l1.flights, g);
      }
      if k in Outstanding(l1.flights) {
        var g :| g in l1.flights && l1.flights[g].Putting? && l1.flights[g].number == k;
        OutstandingOf(l.flights, g);
      }
    }
    forall k | k in r.stored ensures k < |l.chunks| && r.stored[k] == l.chunks[k] {
      if k in Outstanding(l1.flights) {
        var g :| g in l1.flights && l1.flights[g].Putting? && l1.flights[g].number == k;
      }
    }
  }

  /** The failure is followed by a run of successful steps that ends out of order. */
  lemma ReorderingShows(l: Log, f: nat)
    requires Inv(l) && f in l.flights && l.flights[f].Putting? && Reorders(l, f)
    ensures !StaysInOrder(AfterPut(l, f, false))
  {
    var l1, n := AfterPut(l, f, false), l.flights[f].number;
    var landing := LandAll(l1);
    LandingIsSteady(l1, landing);
    var r := Run(Apply, l1, landing);
    TornAfterLanding(l, f, r);
    var g := FreshFlight(r.flights);
    var rest := Spoiling(l, r, n, g);
    EachConcat(Apply, Steady, l1, landing, rest);
    OneRunShows(l1, landing + rest);
  }

  lemma OneRunShows(l: Log, events: seq<Event>)
    requires Each(Apply, Steady, l, events) && !InOrder(Run(Apply, l, events))
    ensures !StaysInOrder(l)
  {
    EndsBadly(Apply, InOrder, l, events);
  }

  lemma Spoiling(l: Log, r: Log, n: nat, g: nat) returns (events: seq<Event>)
    requires Inv(l) && n + 1 < |l.chunks| && Torn(r, l.chunks, n) && g !in r.flights
    requires r.buf == l.chunks[n] + l.buf && r.written == l.written
    requires r.closed == l.closed && r.sealing == l.sealing
    requires l.closed ==> !l.sealing && l.buf + Later(l.chunks, n) != Later(l.chunks, n) + l.buf
    ensures Each(Apply, Steady, r, events) && !InOrder(Run(Apply, r, events))
  {
    if l.closed {
      events := [Claim(g, true), PutOk(g)];
      SteadyPair(r, g, true);
      RunsUnfolded(Apply, r, Claim(g, true), PutOk(g), Ask);
      ClaimedAgain(r, l.chunks, n, l.buf, g, true);
    } else {
      LaterIsNotEmpty(l.chunks, n);
      var b := SomeByteTells(l.buf, Later(l.chunks, n));
      var w := Apply(r, Write([b]));
      events := [Write([b])] + [Claim(g, false), PutOk(g)];
      SteadyPair(w, g, false);
      EachCons(Apply, Steady, r, Write([b]), [Claim(g, false), PutOk(g)]);
      RunCons(Apply, r, Write([b]), [Claim(g, false), PutOk(g)]);
      RunsUnfolded(Apply, w, Claim(g, false), PutOk(g), Ask);
      Reassociate(l.chunks[n], l.buf, [b], Join(l.chunks));
      ClaimedAgain(w, l.chunks, n, l.buf + [b], g, false);
    }
  }

  lemma Reassociate(chunk: Bytes, buf: Bytes, more: Bytes, all: Bytes)
    ensures chunk + buf + more == chunk + (buf + more)
    ensures all + buf + more == all + (buf + more)
  {}

  lemma SteadyPair(l: Log, g: nat, final: bool)
    requires g !in l.flights && (final ==> l.closed && !l.sealing)
    ensures Each(Apply, Steady, l, [Claim(g, final), PutOk(g)])
  {
    var events := [Claim(g, final), PutOk(g)];
    assert events[..0] == [];
    forall k | 0 <= k < 2 ensures Steady(At(Apply, l, events, k), events[k]) {}
  }

  // -- In order

  /** What is stored or in flight agrees with `slots`, and the slot after them is never filled. */
  ghost predicate Agrees(stored: map<nat, Bytes>, flights: map<nat, Flight>, slots: seq<Bytes>) {
    && (forall k :: k in stored ==> k != |slots| && (k < |slots| ==> stored[k] == slots[k]))
    && (forall f :: f in flights && flights[f].Putting? ==>
          && flights[f].number != |slots| && flights[f].number !in stored
          && (flights[f].number < |slots| ==> flights[f].chunk == slots[flights[f].number]))
    && Distinct(flights)
  }

  /** The buffer is what slot `next` is waiting for. */
  ghost predicate Awaited(l: Log, slots: seq<Bytes>) {
    && l.buf != [] && l.next < |slots| && slots[l.next] == l.buf
    && l.next !in l.stored && l.next !in Outstanding(l.flights)
  }

  /** A closed log in which only a prefix of what was written can still come out: `slots` is what
      the numbers hold or will hold up to a gap, and only Finish's own flush can still claim. */
  ghost predicate Ordered(l: Log, slots: seq<Bytes>) {
    && l.closed && Agrees(l.stored, l.flights, slots)
    && (forall k :: 0 <= k < |slots| ==> slots[k] != []) && Join(slots) <= l.written
    && Follows(l.follower, slots, l.stored)
    && (!l.sealing ==> Awaited(l, slots))
  }

  ghost predicate OrderedSomehow(l: Log) {
    exists slots :: Ordered(l, slots)
  }

  lemma OrderedIsInOrder(l: Log, slots: seq<Bytes>)
    requires Ordered(l, slots)
    ensures InOrder(l)
  {
    var all := AvailableFrom(l.stored);
    assert |all| > |slots| ==> |slots| in l.stored;
    assert all == slots[..|all|];
    JoinPrefix(slots, |all|);
    JoinPrefix(slots, l.follower.got);
  }

  lemma FinalClaimKeepsOrder(l: Log, g: nat, slots: seq<Bytes>)
    requires Ordered(l, slots) && !l.sealing && g !in l.flights
    ensures Ordered(Apply(l, Claim(g, true)), slots)
  {
    var flights' := l.flights[g := Putting(l.next, l.buf, true)];
    forall f | f in l.flights && l.flights[f].Putting? ensures l.flights[f].number != l.next {
      OutstandingOf(l.flights, f);
    }
    assert Agrees(l.stored, flights', slots);
  }

  lemma StoreKeepsOrder(l: Log, g: nat, slots: seq<Bytes>)
    requires Ordered(l, slots) && g in l.flights && l.flights[g].Putting?
    ensures Ordered(Apply(l, PutOk(g)), slots)
  {
    var l' := Apply(l, PutOk(g));
    forall k | k in Outstanding(l'.flights) ensures k in Outstanding(l.flights) {
      var h :| h in l'.flights && l'.flights[h].Putting? && l'.flights[h].number == k;
      OutstandingOf(l.flights, h);
    }
    OutstandingOf(l.flights, g);
  }

  /** A chunk right before the awaited one goes back: the two become one slot, the last. */
  lemma ReturnKeepsOrder(l: Log, g: nat, slots: seq<Bytes>)
    requires Ordered(l, slots) && !l.sealing && g in l.flights && l.flights[g].Putting?
    requires l.flights[g].number + 1 == l.next
    ensures Ordered(Apply(l, PutFail(g)), slots[..l.next - 1] + [slots[l.next - 1] + slots[l.next]])
  {
    var n := l.next - 1;
    var slots' := slots[..n] + [slots[n] + slots[n + 1]];
    ReturnAgrees(l.stored, l.flights, g, slots, n);
    MergeJoins(slots, n);
    assert l.follower.got <= n;
    SameFollows(l.follower, slots, slots', l.stored);
  }

  lemma ReturnAgrees(stored: map<nat, Bytes>, flights: map<nat, Flight>, g: nat, slots: seq<Bytes>, n: nat)
    requires Agrees(stored, flights, slots) && n + 1 < |slots| && n + 1 !in stored && n + 1 !in Outstanding(flights)
    requires g in flights && flights[g].Putting? && flights[g].number == n
    ensures Agrees(stored, flights - {g}, slots[..n] + [slots[n] + slots[n + 1]])
    ensures n !in Outstanding(flights - {g})
  {
    forall f | f in flights && f != g && flights[f].Putting? ensures flights[f].number !in {n, n + 1} {
      OutstandingOf(flights, f);
    }
  }

  /** A follower that has not got past n cares for the slots before it only. */
  lemma SameFollows(fo: Follower, a: seq<Bytes>, b: seq<Bytes>, stored: map<nat, Bytes>)
    requires Follows(fo, a, stored) && fo.got <= |b| && a[..fo.got] == b[..fo.got]
    ensures Follows(fo, b, stored)
  {
    if fo.Walking? { assert a[..fo.n] == a[..fo.got][..fo.n] == b[..fo.got][..fo.n] == b[..fo.n]; }
  }

  lemma MergeJoins(slots: seq<Bytes>, n: nat)
    requires n + 1 < |slots|
    ensures Join(slots[..n] + [slots[n] + slots[n + 1]]) == Join(slots[..n + 2]) <= Join(slots)
  {
    calc {
      Join(slots[..n] + [slots[n] + slots[n + 1]]);
      { JoinAppend(slots[..n], slots[n] + slots[n + 1]); }
      Join(slots[..n]) + (slots[n] + slots[n + 1]);
      { Chunks3(Join(slots[..n]), slots[n], slots[n + 1]); }
      (Join(slots[..n]) + slots[n]) + slots[n + 1];
      { JoinUpTo(slots, n); }
      Join(slots[..n + 1]) + slots[n + 1];
      { JoinUpTo(slots, n + 1); }
      Join(slots[..n + 2]);
    }
    JoinPrefix(slots, n + 2);
  }

  lemma Chunks3(a: Bytes, b: Bytes, c: Bytes)
    ensures a + (b + c) == (a + b) + c
  {}

  lemma SealedReturnKeepsOrder(l: Log, g: nat, slots: seq<Bytes>)
    requires Ordered(l, slots) && l.sealing && g in l.flights && l.flights[g].Putting?
    ensures Ordered(Apply(l, PutFail(g)), slots)
  {}

  /** Flights that upload no chunk may come, change and go. */
  lemma IdleFlights(stored: map<nat, Bytes>, a: map<nat, Flight>, b: map<nat, Flight>, slots: seq<Bytes>)
    requires Agrees(stored, a, slots)
    requires forall f :: f in b && b[f].Putting? ==> f in a && a[f] == b[f]
    ensures Agrees(stored, b, slots) && Outstanding(b) <= Outstanding(a)
  {
    forall k | k in Outstanding(b) ensures k in Outstanding(a) {
      var h :| h in b && b[h].Putting? && b[h].number == k;
      OutstandingOf(a, h);
    }
  }

  lemma ManifestsKeepOrder(l: Log, e: Event, slots: seq<Bytes>)
    requires Ordered(l, slots) && (e.Compose? || e.SealOk? || e.SealFail?)
    ensures Ordered(Apply(l, e), slots)
  {
    ManifestsTouchNoUpload(l, e);
    IdleFlights(l.stored, l.flights, Apply(l, e).flights, slots);
  }

  lemma ManifestsTouchNoUpload(l: Log, e: Event)
    requires e.Compose? || e.SealOk? || e.SealFail?
    ensures var l' := Apply(l, e);
            && l' == l.(flights := l'.flights, manifest := l'.manifest, finished := l'.finished)
            && forall f :: f in l'.flights && l'.flights[f].Putting? ==> f in l.flights && l.flights[f] == l'.flights[f]
  {
    if e.SealOk? {
      SealTouchesNoUpload(l, e.flight, true);
    } else if e.SealFail? {
      SealTouchesNoUpload(l, e.flight, false);
    }
  }

  lemma SealTouchesNoUpload(l: Log, f: nat, ok: bool)
    ensures var l' := AfterSeal(l, f, ok);
            && l' == l.(flights := l'.flights, manifest := l'.manifest, finished := l'.finished)
            && forall g :: g in l'.flights ==> g in l.flights && l.flights[g] == l'.flights[g]
  {}

  lemma ReadsKeepOrder(l: Log, e: Event, slots: seq<Bytes>)
    requires Ordered(l, slots) && (e.Ask? || e.Look?)
    ensures Ordered(Apply(l, e), slots)
  {
    assert slots[..0] == [];
    LookKeepsFollows(l.follower, slots, l.stored);
  }

  lemma EventKeepsOrder(l: Log, e: Event, slots: seq<Bytes>) returns (slots': seq<Bytes>)
    requires Ordered(l, slots) && Steady(l, e)
    ensures Ordered(Apply(l, e), slots')
  {
    slots' := slots;
    match e
    case Write(_) =>
    case Close(_, _) =>
    case Claim(g, final) => if final { FinalClaimKeepsOrder(l, g, slots); }
    case PutOk(g) => if g in l.flights && l.flights[g].Putting? { StoreKeepsOrder(l, g, slots); }
    case PutFail(g) =>
      if Fails(l, e) {
        if l.sealing {
          SealedReturnKeepsOrder(l, g, slots);
        } else {
          ReturnKeepsOrder(l, g, slots);
          slots' := slots[..l.next - 1] + [slots[l.next - 1] + slots[l.next]];
        }
      }
    case Ask => ReadsKeepOrder(l, e, slots);
    case Look => ReadsKeepOrder(l, e, slots);
    case _ => ManifestsKeepOrder(l, e, slots);
  }

  lemma OrderedStaysInOrder(l: Log)
    requires OrderedSomehow(l)
    ensures StaysInOrder(l)
  {
    forall x, e | OrderedSomehow(x) && Steady(x, e) ensures OrderedSomehow(Apply(x, e)) {
      var slots :| Ordered(x, slots);
      var slots' := EventKeepsOrder(x, e, slots);
    }
    forall events | Each(Apply, Steady, l, events) ensures Always(Apply, InOrder, l, events) {
      KeptBySteps(Apply, OrderedSomehow, Steady, l, events);
      forall k | 0 <= k <= |events| ensures InOrder(At(Apply, l, events, k)) {
        var slots :| Ordered(At(Apply, l, events, k), slots);
        OrderedIsInOrder(At(Apply, l, events, k), slots);
      }
    }
  }

  /** After Finish's flush has claimed, the chunk's number stays empty for good. */
  lemma SealedFailureIsOrdered(l: Log, f: nat)
    requires Inv(l) && l.sealing && f in l.flights && l.flights[f].Putting?
    ensures Ordered(AfterPut(l, f, false), l.chunks[..l.flights[f].number])
  {
    var n := l.flights[f].number;
    ShorterKeepsFollows(l.follower, l.chunks, n, l.stored);
    JoinPrefix(l.chunks, n);
  }

  /** Before it, the flush will put the chunk and the buffer where the chunk was. */
  lemma ClosedFailureIsOrdered(l: Log, f: nat)
    requires Inv(l) && l.closed && !l.sealing && f in l.flights && l.flights[f].Putting?
    requires var n := l.flights[f].number; l.buf + Later(l.chunks, n) == Later(l.chunks, n) + l.buf
    ensures var n := l.flights[f].number;
            Ordered(AfterPut(l, f, false), l.chunks[n := l.chunks[n] + l.buf])
  {
    var n := l.flights[f].number;
    var l1, slots := AfterPut(l, f, false), l.chunks[n := l.chunks[n] + l.buf];
    CommutingJoin(l.chunks, n, l.buf);
    FailedAgrees(l.chunks, l.stored, l.flights, f, l.chunks[n] + l.buf);
    BeforeGap(l.follower, l.chunks, l.stored, n, slots);
    assert l1.buf == slots[n];
  }

  /** A follower cannot have got past a chunk that is not stored. */
  lemma BeforeGap(fo: Follower, a: seq<Bytes>, stored: map<nat, Bytes>, n: nat, b: seq<Bytes>)
    requires Follows(fo, a, stored) && n !in stored && n <= |a| && n <= |b| && a[..n] == b[..n]
    ensures Follows(fo, b, stored)
  {
    assert fo.got <= n;
    assert a[..fo.got] == a[..n][..fo.got] == b[..n][..fo.got] == b[..fo.got];
    SameFollows(fo, a, b, stored);
  }

  lemma FailedAgrees(chunks: seq<Bytes>, stored: map<nat, Bytes>, flights: map<nat, Flight>, f: nat, chunk: Bytes)
    requires Placed(chunks, stored, flights) && f in flights && flights[f].Putting?
    ensures var n := flights[f].number;
            n < |chunks| && Agrees(stored, flights - {f}, chunks[n := chunk]) && n !in Outstanding(flights - {f})
  {}

  lemma CommutingJoin(all: seq<Bytes>, n: nat, buf: Bytes)
    requires n < |all| && buf + Later(all, n) == Later(all, n) + buf
    ensures Join(all[n := all[n] + buf]) == Join(all) + buf
  {
    var slots := all[n := all[n] + buf];
    AroundChunk(all, n);
    AroundChunk(slots, n);
    assert slots[..n] == all[..n] && slots[n + 1..] == all[n + 1..];
    Regroup(Join(all[..n]), all[n], buf, Later(all, n));
  }

  /** After a chunk upload fails: what readers can get and what the follower has stays a prefix of
      what was written, through every continuation that is itself steady, if and only if the
      failure does not reorder. While the log is open, that is exactly when no later chunk had been
      claimed. */
  lemma FailureKeepsOrderIff(l: Log, f: nat)
    requires Inv(l) && f in l.flights && l.flights[f].Putting?
    ensures StaysInOrder(Apply(l, PutFail(f))) <==> !Reorders(l, f)
    ensures !l.closed ==> (Reorders(l, f) <==> Overtaken(l, PutFail(f)))
  {
    var n := l.flights[f].number;
    if Reorders(l, f) {
      ReorderingShows(l, f);
    } else if n + 1 == |l.chunks| {
      PutFailKeepsInv(l, f);
      InvStaysInOrder(Apply(l, PutFail(f)));
    } else if l.sealing {
      SealedFailureIsOrdered(l, f);
      OrderedStaysInOrder(Apply(l, PutFail(f)));
    } else {
      ClosedFailureIsOrdered(l, f);
      OrderedStaysInOrder(Apply(l, PutFail(f)));
    }
  }

  lemma InvStaysInOrder(l: Log)
    requires Inv(l)
    ensures StaysInOrder(l)
  {
    forall events | Each(Apply, Steady, l, events) ensures Always(Apply, InOrder, l, events) {
      RunKeepsLog(l, events);
    }
  }
}
