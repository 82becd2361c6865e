/** Build logs with any number of flushes in flight.

    A flush claims a chunk number and the buffer under the lock, uploads unlocked, and on a
    failed upload puts the bytes back. Writers, timers, Finish and a follower interleave
    between those steps. */
module BuildLogRace {
  import opened Runs
  import opened Chunks
  import opened BuildLog

  datatype Flight =
    | Putting(number: nat, chunk: Bytes, final: bool)   // the chunk upload is outstanding
    | Put(final: bool)                                  // the manifest is still to be composed
    | Sealing(manifest: Manifest, final: bool)          // the manifest upload is outstanding

  /** A reader that keeps calling ReadFrom: between calls, or about to ask for chunk n. `got`
      counts the chunks it has received. */
  datatype Follower = Idle(received: Bytes, got: nat) | Walking(received: Bytes, got: nat, n: nat, pos: nat)

  datatype Log = Log(
    buf: Bytes,
    next: nat,                     // the next chunk's number
    chunks: seq<Bytes>,            // history: by number, as claimed under the lock
    closed: bool, sealing: bool, finished: bool, failed: bool, reason: string,
    flights: map<nat, Flight>,
    stored: map<nat, Bytes>, manifest: Manifest,
    written: Bytes,                // everything Write has accepted
    follower: Follower)

  const EMPTY := Log([], 0, [], false, false, false, false, "", map[], map[], NoManifest, [], Idle([], 0))

  datatype Event =
    | Write(p: Bytes)
    | Claim(flight: nat, final: bool)
    | Close(failed: bool, reason: string)      // Finish takes the lock
    | PutOk(flight: nat)
    | PutFail(flight: nat)
    | Compose(flight: nat)                     // writeManifest takes the lock
    | SealOk(flight: nat)
    | SealFail(flight: nat)
    | Ask                                      // the follower starts a ReadFrom
    | Look                                     // it looks at its next chunk

  /** The claimed chunks up to a number, as far as there are any. */
  function UpTo(chunks: seq<Bytes>, n: nat): seq<Bytes> {
    if n <= |chunks| then chunks[..n] else chunks
  }

  function AfterClaim(l: Log, f: nat, final: bool): Log {
    if l.closed && !final then l
    else if l.buf != [] then
      l.(buf := [], next := l.next + 1, chunks := UpTo(l.chunks, l.next) + [l.buf],
         flights := l.flights[f := Putting(l.next, l.buf, final)], sealing := l.sealing || final)
    else if final then l.(flights := l.flights[f := Put(final)], sealing := true)
    else l
  }

  function AfterPut(l: Log, f: nat, ok: bool): Log {
    if f !in l.flights || !l.flights[f].Putting? then l
    else
      var flight := l.flights[f];
      if ok then l.(stored := l.stored[flight.number := flight.chunk], flights := l.flights[f := Put(flight.final)])
      else
        l.(buf := flight.chunk + l.buf, next := flight.number, chunks := UpTo(l.chunks, flight.number),
           flights := l.flights - {f})
  }

  function AfterSeal(l: Log, f: nat, ok: bool): Log {
    if f !in l.flights || !l.flights[f].Sealing? then l
    else
      l.(flights := l.flights - {f},
         manifest := if ok then l.flights[f].manifest else l.manifest,
         finished := l.finished || (ok && l.flights[f].final))
  }

  /** One round of ReadFrom's loop, as `off` is the number of bytes received. */
  function AfterLook(fo: Follower, stored: map<nat, Bytes>): Follower {
    if fo.Idle? then fo
    else if fo.n !in stored then Idle(fo.received, fo.got)
    else
      var off, next := |fo.received|, fo.pos + |stored[fo.n]|;
      if off >= next then Walking(fo.received, fo.got, fo.n + 1, next)
      else
        var start := if off - fo.pos < 0 then 0 else off - fo.pos;
        Walking(fo.received + stored[fo.n][start..], fo.got + 1, fo.n + 1, next)
  }

  function Apply(l: Log, e: Event): Log {
    match e
    case Write(p) => if l.closed then l else l.(buf := l.buf + p, written := l.written + p)
    case Claim(f, final) => AfterClaim(l, f, final)
    case Close(failed, reason) => if l.closed then l else l.(closed := true, failed := failed, reason := reason)
    case PutOk(f) => AfterPut(l, f, true)
    case PutFail(f) => AfterPut(l, f, false)
    case Compose(f) =>
      if f in l.flights && l.flights[f].Put?
      then
        var final := l.flights[f].final;
        l.(flights := l.flights[f := Sealing(Manifest(l.next, final, l.failed, l.reason), final)])
      else l
    case SealOk(f) => AfterSeal(l, f, true)
    case SealFail(f) => AfterSeal(l, f, false)
    case Ask => if l.follower.Idle? then l.(follower := Walking(l.follower.received, l.follower.got, 0, 0)) else l
    case Look => l.(follower := AfterLook(l.follower, l.stored))
  }

  /** Flush numbers are fresh, and only Finish, once, flushes finally. */
  predicate Allowed(l: Log, e: Event) {
    e.Claim? ==> e.flight !in l.flights && (e.final ==> l.closed && !l.sealing)
  }

  /** A chunk upload fails. */
  predicate Fails(l: Log, e: Event) {
    e.PutFail? && e.flight in l.flights && l.flights[e.flight].Putting?
  }

  /** And another chunk has been claimed after it already. */
  predicate Overtaken(l: Log, e: Event) {
    Fails(l, e) && l.flights[e.flight].number + 1 != l.next
  }

  predicate Steady(l: Log, e: Event) {
    Allowed(l, e) && !Overtaken(l, e)
  }

  // ---- Invariant ----

  /** The claimed chunks and the buffer are what was written. */
  ghost predicate Accounted(chunks: seq<Bytes>, buf: Bytes, written: Bytes) {
    written == Join(chunks) + buf && forall k :: 0 <= k < |chunks| ==> chunks[k] != []
  }

  function Outstanding(flights: map<nat, Flight>): set<nat> {
    set f | f in flights && flights[f].Putting? :: flights[f].number
  }

  /** Every claimed chunk is either stored or in exactly one flight. */
  ghost predicate Placed(chunks: seq<Bytes>, stored: map<nat, Bytes>, flights: map<nat, Flight>) {
    && (forall k :: k in stored ==> k < |chunks| && stored[k] == chunks[k])
    && (forall f :: f in flights && flights[f].Putting? ==>
          flights[f].number < |chunks| && flights[f].chunk == chunks[flights[f].number] && flights[f].number !in stored)
    && (forall f, g :: f in flights && g in flights && f != g && flights[f].Putting? && flights[g].Putting?
          ==> flights[f].number != flights[g].number)
    && (forall k: nat :: k < |chunks| ==> k in stored || k in Outstanding(flights))
  }

  /** The follower has received exactly the first `got` chunks, all of them stored. */
  ghost predicate Follows(fo: Follower, chunks: seq<Bytes>, stored: map<nat, Bytes>) {
    && fo.got <= |chunks| && fo.received == Join(chunks[..fo.got])
    && (forall k: nat :: k < fo.got ==> k in stored)
    && (fo.Walking? ==> fo.n <= fo.got && fo.pos == |Join(chunks[..fo.n])|)
  }

  ghost predicate Inv(l: Log) {
    && l.next == |l.chunks| && (l.sealing ==> l.closed)
    && Accounted(l.chunks, l.buf, l.written)
    && Placed(l.chunks, l.stored, l.flights)
    && Follows(l.follower, l.chunks, l.stored)
  }

  // -- Claim

  lemma ClaimKeepsInv(l: Log, f: nat, final: bool)
    requires Inv(l) && f !in l.flights && (final ==> l.closed)
    ensures Inv(AfterClaim(l, f, final))
  {
    assert l.chunks[..l.next] == l.chunks;
    if l.buf != [] {
      ClaimKeepsAccounted(l.chunks, l.buf, l.written);
      ClaimKeepsPlaced(l.chunks, l.stored, l.flights, f, l.buf, final);
      LongerKeepsFollows(l.follower, l.chunks, l.buf, l.stored);
    } else {
      AddIdleKeepsPlaced(l.chunks, l.stored, l.flights, f, Put(final));
    }
  }

  lemma ClaimKeepsAccounted(chunks: seq<Bytes>, buf: Bytes, written: Bytes)
    requires Accounted(chunks, buf, written) && buf != []
    ensures Accounted(chunks + [buf], [], written)
  {
    JoinAppend(chunks, buf);
    assert Join(chunks) + buf + [] == Join(chunks) + buf;
  }

  lemma ClaimKeepsPlaced(
      chunks: seq<Bytes>, stored: map<nat, Bytes>, flights: map<nat, Flight>, f: nat, buf: Bytes, final: bool)
    requires Placed(chunks, stored, flights) && f !in flights
    ensures Placed(chunks + [buf], stored, flights[f := Putting(|chunks|, buf, final)])
  {
    var flights' := flights[f := Putting(|chunks|, buf, final)];
    OutstandingAfterClaim(flights, f, flights'[f]);
    assert (chunks + [buf])[..|chunks|] == chunks;
  }

  lemma OutstandingAfterClaim(flights: map<nat, Flight>, f: nat, x: Flight)
    requires f !in flights && x.Putting?
    ensures Outstanding(flights) <= Outstanding(flights[f := x]) && x.number in Outstanding(flights[f := x])
  {
    var flights' := flights[f := x];
    OutstandingOf(flights', f);
    forall k | k in Outstanding(flights) ensures k in Outstanding(flights') {
      var g :| g in flights && flights[g].Putting? && flights[g].number == k;
      OutstandingOf(flights', g);
    }
  }

  lemma OutstandingOf(flights: map<nat, Flight>, f: nat)
    requires f in flights && flights[f].Putting?
    ensures flights[f].number in Outstanding(flights)
  {}

  lemma LongerKeepsFollows(fo: Follower, chunks: seq<Bytes>, c: Bytes, stored: map<nat, Bytes>)
    requires Follows(fo, chunks, stored)
    ensures Follows(fo, chunks + [c], stored)
  {
    assert (chunks + [c])[..fo.got] == chunks[..fo.got];
    if fo.Walking? { assert (chunks + [c])[..fo.n] == chunks[..fo.n]; }
  }

  lemma AddIdleKeepsPlaced(chunks: seq<Bytes>, stored: map<nat, Bytes>, flights: map<nat, Flight>, f: nat, x: Flight)
    requires Placed(chunks, stored, flights) && !x.Putting? && (f in flights ==> !flights[f].Putting?)
    ensures Placed(chunks, stored, flights[f := x])
  {
    forall k | k in Outstanding(flights) ensures k in Outstanding(flights[f := x]) {
      var g :| g in flights && flights[g].Putting? && flights[g].number == k;
      OutstandingOf(flights[f := x], g);
    }
  }

  // -- Chunk uploads

  lemma PutOkKeepsInv(l: Log, f: nat)
    requires Inv(l)
    ensures Inv(AfterPut(l, f, true))
  {
    if f in l.flights && l.flights[f].Putting? {
      StoreKeepsPlaced(l.chunks, l.stored, l.flights, f);
    }
  }

  lemma StoreKeepsPlaced(chunks: seq<Bytes>, stored: map<nat, Bytes>, flights: map<nat, Flight>, f: nat)
    requires Placed(chunks, stored, flights) && f in flights && flights[f].Putting?
    ensures Placed(chunks, stored[flights[f].number := flights[f].chunk], flights[f := Put(flights[f].final)])
  {
    var flights' := flights[f := Put(flights[f].final)];
    forall k | k in Outstanding(flights) && k != flights[f].number ensures k in Outstanding(flights') {
      var g :| g in flights && flights[g].Putting? && flights[g].number == k;
      OutstandingOf(flights', g);
    }
  }

  /** A failed chunk goes back in front of the buffer. */
  lemma PutFailKeepsInv(l: Log, f: nat)
    requires Inv(l) && !Overtaken(l, PutFail(f))
    ensures Inv(AfterPut(l, f, false))
  {
    if f in l.flights && l.flights[f].Putting? {
      var n := l.flights[f].number;
      ReturnAccounted(l.chunks, l.buf, l.written, n);
      ReturnKeepsPlaced(l.chunks, l.stored, l.flights, f);
      ShorterKeepsFollows(l.follower, l.chunks, n, l.stored);
    }
  }

  lemma ReturnAccounted(chunks: seq<Bytes>, buf: Bytes, written: Bytes, n: nat)
    requires Accounted(chunks, buf, written) && n + 1 == |chunks|
    ensures Accounted(chunks[..n], chunks[n] + buf, written)
  {
    assert chunks[..n + 1] == chunks;
    assert Join(chunks[..n]) + chunks[n] + buf == Join(chunks[..n]) + (chunks[n] + buf);
  }

  lemma ReturnKeepsPlaced(chunks: seq<Bytes>, stored: map<nat, Bytes>, flights: map<nat, Flight>, f: nat)
    requires Placed(chunks, stored, flights) && f in flights && flights[f].Putting? && flights[f].number + 1 == |chunks|
    ensures Placed(chunks[..flights[f].number], stored, flights - {f})
  {
    var flights' := flights - {f};
    forall k | k in Outstanding(flights) && k != flights[f].number ensures k in Outstanding(flights') {
      var g :| g in flights && flights[g].Putting? && flights[g].number == k;
      OutstandingOf(flights', g);
    }
  }

  lemma ShorterKeepsFollows(fo: Follower, chunks: seq<Bytes>, n: nat, stored: map<nat, Bytes>)
    requires Follows(fo, chunks, stored) && n < |chunks| && n !in stored
    ensures Follows(fo, chunks[..n], stored)
  {
    assert fo.got <= n;
    assert chunks[..n][..fo.got] == chunks[..fo.got];
    if fo.Walking? { assert chunks[..n][..fo.n] == chunks[..fo.n]; }
  }

  // -- Manifests

  lemma ManifestStepsKeepInv(l: Log, e: Event)
    requires Inv(l) && (e.Compose? || e.SealOk? || e.SealFail?)
    ensures Inv(Apply(l, e))
  {
    if e.flight in l.flights {
      if e.Compose? {
        if l.flights[e.flight].Put? {
          AddIdleKeepsPlaced(l.chunks, l.stored, l.flights, e.flight, Apply(l, e).flights[e.flight]);
        }
      } else if l.flights[e.flight].Sealing? {
        DropIdleKeepsPlaced(l.chunks, l.stored, l.flights, e.flight);
      }
    }
  }

  lemma DropIdleKeepsPlaced(chunks: seq<Bytes>, stored: map<nat, Bytes>, flights: map<nat, Flight>, f: nat)
    requires Placed(chunks, stored, flights) && f in flights && !flights[f].Putting?
    ensures Placed(chunks, stored, flights - {f})
  {
    forall k | k in Outstanding(flights) ensures k in Outstanding(flights - {f}) {
      var g :| g in flights && flights[g].Putting? && flights[g].number == k;
      OutstandingOf(flights - {f}, g);
    }
  }

  // -- The follower

  lemma LookKeepsFollows(fo: Follower, chunks: seq<Bytes>, stored: map<nat, Bytes>)
    requires Follows(fo, chunks, stored)
    requires forall k :: 0 <= k < |chunks| ==> chunks[k] != []
    requires forall k :: k in stored && k <= |chunks| ==> k < |chunks| && stored[k] == chunks[k]
    ensures Follows(AfterLook(fo, stored), chunks, stored)
  {
    if fo.Walking? && fo.n in stored {
      JoinUpTo(chunks, fo.n);
      if fo.n < fo.got {
        SkipKeepsFollows(fo, chunks, stored);
      } else {
        TakeKeepsFollows(fo, chunks, stored);
      }
    }
  }

  lemma SkipKeepsFollows(fo: Follower, chunks: seq<Bytes>, stored: map<nat, Bytes>)
    requires Follows(fo, chunks, stored) && fo.Walking? && fo.n < fo.got
    requires fo.n in stored && stored[fo.n] == chunks[fo.n]
    ensures Follows(AfterLook(fo, stored), chunks, stored)
  {
    var head, next := chunks[..fo.got], fo.pos + |stored[fo.n]|;
    JoinUpTo(chunks, fo.n);
    assert head[..fo.n + 1] == chunks[..fo.n + 1];
    JoinPrefix(head, fo.n + 1);
    assert |fo.received| >= next;
    assert AfterLook(fo, stored) == Walking(fo.received, fo.got, fo.n + 1, next);
  }

  lemma TakeKeepsFollows(fo: Follower, chunks: seq<Bytes>, stored: map<nat, Bytes>)
    requires Follows(fo, chunks, stored) && fo.Walking? && fo.n == fo.got < |chunks|
    requires fo.n in stored && stored[fo.n] == chunks[fo.n] != []
    ensures Follows(AfterLook(fo, stored), chunks, stored)
  {
    var chunk, next := stored[fo.n], fo.pos + |stored[fo.n]|;
    JoinUpTo(chunks, fo.n);
    assert |fo.received| == fo.pos && chunk[0..] == chunk;
    assert AfterLook(fo, stored) == Walking(fo.received + chunk, fo.got + 1, fo.n + 1, next);
  }

  // -- All of them

  lemma WriteKeepsInv(l: Log, p: Bytes)
    requires Inv(l)
    ensures Inv(Apply(l, Write(p)))
  {
    assert Join(l.chunks) + l.buf + p == Join(l.chunks) + (l.buf + p);
  }

  lemma AskKeepsInv(l: Log)
    requires Inv(l)
    ensures Inv(Apply(l, Ask))
  {
    assert l.chunks[..0] == [];
  }

  lemma LookKeepsInv(l: Log)
    requires Inv(l)
    ensures Inv(Apply(l, Look))
  {
    LookKeepsFollows(l.follower, l.chunks, l.stored);
  }

  lemma EventKeepsInv(l: Log, e: Event)
    requires Inv(l) && Steady(l, e)
    ensures Inv(Apply(l, e))
  {
    match e
    case Write(p) => WriteKeepsInv(l, p);
    case Claim(f, final) => ClaimKeepsInv(l, f, final);
    case PutOk(f) => PutOkKeepsInv(l, f);
    case PutFail(f) => PutFailKeepsInv(l, f);
    case Look => LookKeepsInv(l);
    case Ask => AskKeepsInv(l);
    case Close(_, _) =>
    case _ => ManifestStepsKeepInv(l, e);
  }

  /** What readers can get, and what the follower has, is a prefix of what was written. */
  ghost predicate InOrder(l: Log) {
    Available(l.stored) <= l.written && l.follower.received <= l.written
  }

  lemma InvIsInOrder(l: Log)
    requires Inv(l)
    ensures InOrder(l)
  {
    AllAvailableIffFlushed(l);
    JoinPrefix(l.chunks, l.follower.got);
  }

  /** Over every interleaving in which no upload fails after a later chunk has been claimed:
      everything written is in exactly one place, and all that readers get is in order. */
  lemma RunKeepsLog(l: Log, events: seq<Event>)
    requires Inv(l) && Each(Apply, Steady, l, events)
    ensures Always(Apply, Inv, l, events) && Always(Apply, InOrder, l, events)
  {
    forall x, e | Inv(x) && Steady(x, e) ensures Inv(Apply(x, e)) { EventKeepsInv(x, e); }
    KeptBySteps(Apply, Inv, Steady, l, events);
    forall k | 0 <= k <= |events| ensures InOrder(At(Apply, l, events, k)) {
      InvIsInOrder(At(Apply, l, events, k));
    }
  }

  lemma AllStored(l: Log, f: nat)
    requires Placed(l.chunks, l.stored, l.flights) && f in l.flights
    requires forall k: nat :: k < |l.chunks| ==> k in l.stored
    ensures !l.flights[f].Putting?
  {}

  /** A reader can get everything written exactly when nothing is buffered and no chunk upload
      is outstanding; before that it can get a prefix. */
  lemma AllAvailableIffFlushed(l: Log)
    requires Inv(l)
    ensures Available(l.stored) <= l.written
    ensures Available(l.stored) == l.written <==> l.buf == [] && Outstanding(l.flights) == {}
  {
    var all := AvailableFrom(l.stored);
    assert |all| <= |l.chunks| by { assert |all| > |l.chunks| ==> |l.chunks| in l.stored; }
    assert all == l.chunks[..|all|];
    JoinPrefix(l.chunks, |all|);
    if |all| < |l.chunks| {
      JoinShorter(l.chunks, |all|);
      assert |all| in Outstanding(l.flights);
    } else {
      assert all == l.chunks;
      forall f | f in l.flights ensures !l.flights[f].Putting? {
        AllStored(l, f);
      }
    }
  }

  // ---- The end of the log ----

  /** What Finish relies on: once the final flush has claimed, nothing is left to write. */
  ghost predicate Ending(l: Log) {
    && (l.sealing ==> l.buf == [])
    && (l.finished ==> l.sealing)
    && (forall f :: f in l.flights && l.flights[f].final ==> l.sealing && !l.finished)
    && (forall f, g :: f in l.flights && g in l.flights && l.flights[f].final && l.flights[g].final ==> f == g)
    && (forall f :: f in l.flights && l.flights[f].Sealing? ==>
          if l.flights[f].final then l.flights[f].manifest == Manifest(l.next, true, l.failed, l.reason)
          else l.flights[f].manifest.Manifest? && !l.flights[f].manifest.done)
  }

  ghost predicate Healthy(l: Log) {
    Inv(l) && Ending(l)
  }

  /** A chunk upload fails after the final flush has claimed: nothing will flush it again. */
  predicate FailsLate(l: Log, e: Event) {
    Fails(l, e) && l.sealing
  }

  lemma ClaimKeepsEnding(l: Log, e: Event)
    requires Healthy(l) && Allowed(l, e) && e.Claim?
    ensures Ending(Apply(l, e))
  {
    if e.final {
      FinalClaimKeepsEnding(l, e.flight);
    } else if !l.closed {
      OpenClaimKeepsEnding(l, e.flight);
    }
  }

  lemma OpenClaimKeepsEnding(l: Log, f: nat)
    requires Ending(l) && !l.closed && !l.sealing && f !in l.flights
    ensures Ending(AfterClaim(l, f, false))
  {}

  lemma FinalClaimKeepsEnding(l: Log, f: nat)
    requires Ending(l) && l.closed && !l.sealing && f !in l.flights
    ensures Ending(AfterClaim(l, f, true))
  {}

  lemma FailKeepsEnding(l: Log, e: Event)
    requires Healthy(l) && Steady(l, e) && e.PutFail? && !FailsLate(l, e)
    ensures Ending(Apply(l, e))
  {}

  lemma ComposeKeepsEnding(l: Log, f: nat)
    requires Ending(l)
    ensures Ending(Apply(l, Compose(f)))
  {}

  lemma SealKeepsEnding(l: Log, f: nat, ok: bool)
    requires Ending(l)
    ensures Ending(AfterSeal(l, f, ok))
  {}

  lemma OthersKeepEnding(l: Log, e: Event)
    requires Healthy(l) && (e.Write? || e.Close? || e.PutOk? || e.Ask? || e.Look?)
    ensures Ending(Apply(l, e))
  {}

  lemma EventKeepsHealthy(l: Log, e: Event)
    requires Healthy(l) && Steady(l, e) && !FailsLate(l, e)
    ensures Healthy(Apply(l, e))
  {
    EventKeepsInv(l, e);
    match e
    case Claim(_, _) => ClaimKeepsEnding(l, e);
    case PutFail(_) => FailKeepsEnding(l, e);
    case Compose(f) => ComposeKeepsEnding(l, f);
    case SealOk(f) => SealKeepsEnding(l, f, true);
    case SealFail(f) => SealKeepsEnding(l, f, false);
    case _ => OthersKeepEnding(l, e);
  }

  /** Without late failures the log stays whole and its end orderly. */
  lemma RunKeepsHealthy(l: Log, events: seq<Event>)
    requires Healthy(l) && Each(Apply, Steady, l, events) && Never(Apply, FailsLate, l, events)
    ensures Always(Apply, Healthy, l, events)
  {
    forall x, e | Healthy(x) && Steady(x, e) && !FailsLate(x, e) ensures Healthy(Apply(x, e)) {
      EventKeepsHealthy(x, e);
    }
    KeptBySteps(Apply, Healthy, (x: Log, e: Event) => Steady(x, e) && !FailsLate(x, e), l, events);
  }

  // -- Landing what is in flight

  ghost predicate Distinct(flights: map<nat, Flight>) {
    forall f, g :: f in flights && g in flights && f != g && flights[f].Putting? && flights[g].Putting?
      ==> flights[f].number != flights[g].number
  }

  function Uploading(flights: map<nat, Flight>): set<nat> {
    set f | f in flights && flights[f].Putting?
  }

  /** `r` is `l` after every chunk in flight has been stored. */
  ghost predicate Landed(l: Log, r: Log) {
    && r == l.(flights := r.flights, stored := r.stored) && r.flights.Keys == l.flights.Keys
    && Outstanding(r.flights) == {}
    && (forall k :: k in r.stored <==> k in l.stored || k in Outstanding(l.flights))
    && (forall k :: k in l.stored && k !in Outstanding(l.flights) ==> k in r.stored && r.stored[k] == l.stored[k])
    && (forall f :: f in l.flights && l.flights[f].Putting? ==>
          l.flights[f].number in r.stored && r.stored[l.flights[f].number] == l.flights[f].chunk)
  }

  predicate Lands(l: Log, e: Event) {
    e.PutOk?
  }

  lemma LandOne(l: Log, f: nat)
    requires Distinct(l.flights) && f in l.flights && l.flights[f].Putting?
    ensures var l' := Apply(l, PutOk(f));
            && Distinct(l'.flights) && Uploading(l'.flights) == Uploading(l.flights) - {f}
            && Outstanding(l'.flights) == Outstanding(l.flights) - {l.flights[f].number}
  {
    var l' := Apply(l, PutOk(f));
    forall k | k in Outstanding(l.flights) && k != l.flights[f].number ensures k in Outstanding(l'.flights) {
      var g :| g in l.flights && l.flights[g].Putting? && l.flights[g].number == k;
      OutstandingOf(l'.flights, g);
    }
    forall k | k in Outstanding(l'.flights) ensures k in Outstanding(l.flights) && k != l.flights[f].number {
      var g :| g in l'.flights && l'.flights[g].Putting? && l'.flights[g].number == k;
      OutstandingOf(l.flights, g);
    }
  }

  lemma LandedAfterOne(l: Log, f: nat, r: Log)
    requires Distinct(l.flights) && f in l.flights && l.flights[f].Putting? && Landed(Apply(l, PutOk(f)), r)
    ensures Landed(l, r)
  {
    LandOne(l, f);
    var l' := Apply(l, PutOk(f));
    OutstandingOf(l.flights, f);
    forall g | g in l.flights && l.flights[g].Putting?
      ensures l.flights[g].number in r.stored && r.stored[l.flights[g].number] == l.flights[g].chunk
    {
      if g != f { assert l'.flights[g] == l.flights[g]; }
    }
  }

  lemma {:induction false} LandAll(l: Log) returns (events: seq<Event>)
    requires Distinct(l.flights)
    ensures Each(Apply, Lands, l, events) && Landed(l, Run(Apply, l, events))
    decreases Uploading(l.flights)
  {
    if f :| f in l.flights && l.flights[f].Putting? {
      LandOne(l, f);
      var rest := LandAll(Apply(l, PutOk(f)));
      events := [PutOk(f)] + rest;
      RunCons(Apply, l, PutOk(f), rest);
      EachCons(Apply, Lands, l, PutOk(f), rest);
      LandedAfterOne(l, f, Run(Apply, Apply(l, PutOk(f)), rest));
    } else {
      events := [];
      assert Run(Apply, l, []) == l;
    }
  }

  // -- When everything can still be read

  /** Some continuation makes everything written readable. */
  ghost predicate CanBeRead(l: Log) {
    exists events :: Each(Apply, Steady, l, events) && AllRead(Run(Apply, l, events))
  }

  ghost predicate AllRead(l: Log) {
    Available(l.stored) == l.written
  }

  lemma LandingIsSteady(l: Log, events: seq<Event>)
    requires Each(Apply, Lands, l, events)
    ensures Each(Apply, Steady, l, events)
  {
    forall k | 0 <= k < |events| ensures Steady(At(Apply, l, events, k), events[k]) {
      assert Lands(At(Apply, l, events, k), events[k]);
    }
  }

  lemma FlushedCanBeRead(l: Log)
    requires Inv(l) && l.buf == []
    ensures CanBeRead(l)
  {
    var events := LandAll(l);
    LandingIsSteady(l, events);
    RunKeepsLog(l, events);
    assert events[..|events|] == events;
    var r := Run(Apply, l, events);
    assert Inv(At(Apply, l, events, |events|));
    AllAvailableIffFlushed(r);
    assert AllRead(r);
  }

  /** Bytes back in the buffer with no flush to come. */
  ghost predicate Stranded(l: Log) {
    Inv(l) && l.sealing && l.buf != []
  }

  lemma StrandedStays(l: Log, e: Event)
    requires Stranded(l) && Steady(l, e)
    ensures Stranded(Apply(l, e))
  {
    EventKeepsInv(l, e);
  }

  lemma StrandedCannotBeRead(l: Log)
    requires Stranded(l)
    ensures !CanBeRead(l)
  {
    forall events | Each(Apply, Steady, l, events) ensures !AllRead(Run(Apply, l, events)) {
      forall x, e | Stranded(x) && Steady(x, e) ensures Stranded(Apply(x, e)) { StrandedStays(x, e); }
      KeptBySteps(Apply, Stranded, Steady, l, events);
      assert events[..|events|] == events;
      assert Stranded(At(Apply, l, events, |events|));
      AllAvailableIffFlushed(Run(Apply, l, events));
    }
  }

  /** After the final flush has claimed, everything written can still be read. */
  ghost predicate EndsWell(l: Log) {
    l.sealing ==> CanBeRead(l)
  }

  /** Over every interleaving without overtaken failures: behind Finish's flush everything written
      can still be read, at every moment, if and only if no upload fails after that flush has
      claimed. */
  lemma EndsWellIffNoLateFailure(events: seq<Event>)
    requires Each(Apply, Steady, EMPTY, events)
    ensures Always(Apply, EndsWell, EMPTY, events) <==> Never(Apply, FailsLate, EMPTY, events)
  {
    forall l | Healthy(l) ensures EndsWell(l) {
      if l.sealing { FlushedCanBeRead(l); }
    }
    forall l, e | Healthy(l) && Steady(l, e)
      ensures if FailsLate(l, e) then !EndsWell(Apply(l, e)) else Healthy(Apply(l, e))
    {
      if FailsLate(l, e) {
        EventKeepsInv(l, e);
        StrandedCannotBeRead(Apply(l, e));
      } else {
        EventKeepsHealthy(l, e);
      }
    }
    GoodIffNoBadStep(Apply, Healthy, EndsWell, Steady, FailsLate, EMPTY, events);
  }

  /** Finish succeeds with a terminal manifest of no chunks, and what was written is gone: an
      earlier flush's upload failed after the final flush found nothing to claim. */
  lemma LateFailureExample(a: Bytes)
    requires a != []
    ensures var l4 := Apply(Apply(Apply(Apply(EMPTY, Write(a)), Claim(0, false)), Close(false, "")), Claim(1, true));
            var l5 := Apply(l4, PutFail(0));
            var l7 := Apply(Apply(l5, Compose(1)), SealOk(1));
            && FailsLate(l4, PutFail(0)) && !Overtaken(l4, PutFail(0))
            && l7.finished && l7.manifest == Manifest(0, true, false, "") && l7.flights == map[]
            && l7.written == a == l7.buf && l7.stored == map[]
  {
    assert [] + a == a && a + [] == a;
    var l2 := Apply(Apply(EMPTY, Write(a)), Claim(0, false));
    assert l2.flights == map[0 := Putting(0, a, false)];
    var l4 := Apply(Apply(l2, Close(false, "")), Claim(1, true));
    assert l4.flights == map[0 := Putting(0, a, false), 1 := Put(true)];
    var l5 := Apply(l4, PutFail(0));
    assert l5.flights == map[1 := Put(true)];
    var l6 := Apply(l5, Compose(1));
    assert l6.flights == map[1 := Sealing(Manifest(0, true, false, ""), true)];
    assert (l6.flights - {1}).Keys == {};
  }

  /** Only an upload that succeeds publishes anything: the manifest is the one the flush composed, a
      chunk is the one it claimed, and Finish is done only by its own manifest. */
  lemma OnlySuccessPublishes(l: Log, e: Event)
    ensures !e.SealOk? ==> Apply(l, e).manifest == l.manifest && Apply(l, e).finished == l.finished
    ensures !e.PutOk? ==> Apply(l, e).stored == l.stored
    ensures e.SealOk? && e.flight in l.flights && l.flights[e.flight].Sealing? ==>
              && Apply(l, e).manifest == l.flights[e.flight].manifest
              && Apply(l, e).finished == (l.finished || l.flights[e.flight].final)
    ensures e.PutOk? && e.flight in l.flights && l.flights[e.flight].Putting? ==>
              Apply(l, e).stored == l.stored[l.flights[e.flight].number := l.flights[e.flight].chunk]
  {}

  /** Finish's verdict on the build, as the log holds it. */
  predicate Says(l: Log, failed: bool, reason: string) {
    l.closed && l.failed == failed && l.reason == reason
  }

  lemma VerdictStays(l: Log, e: Event, failed: bool, reason: string)
    requires Says(l, failed, reason)
    ensures Says(Apply(l, e), failed, reason)
  {}

  /** Over every interleaving, the first Finish decides: from then on the log is closed and says what
      that call said, whatever later calls say. */
  lemma FirstVerdictStands(events: seq<Event>, k: nat, m: nat)
    requires Each(Apply, Allowed, EMPTY, events) && k < m <= |events|
    requires events[k].Close? && !At(Apply, EMPTY, events, k).closed
    ensures Says(At(Apply, EMPTY, events, m), events[k].failed, events[k].reason)
  {
    var failed, reason := events[k].failed, events[k].reason;
    var inv := (l: Log) => Says(l, failed, reason);
    RunPrefix(Apply, EMPTY, events, k);
    forall l, e | inv(l) && Allowed(l, e) ensures inv(Apply(l, e)) { VerdictStays(l, e, failed, reason); }
    KeptFrom(Apply, inv, Allowed, EMPTY, events, k + 1, m);
  }

  /** When Finish's manifest lands, it is terminal and counts the chunks exactly, and a reader
      can get everything written unless another flush still uploads its chunk. */
  lemma FinishSeals(l: Log, f: nat)
    requires Healthy(l) && f in l.flights && l.flights[f].final && l.flights[f].Sealing?
    ensures var l' := Apply(l, SealOk(f));
            && l'.finished && l'.manifest == Manifest(l'.next, true, l.failed, l.reason)
            && (Available(l'.stored) == l'.written <==> Outstanding(l'.flights) == {})
  {
    var l' := Apply(l, SealOk(f));
    EventKeepsInv(l, SealOk(f));
    AllAvailableIffFlushed(l');
  }

  // -- The follower, end to end

  /** Everything written is stored, and nothing more will be written. */
  ghost predicate Complete(l: Log) {
    Inv(l) && l.sealing && l.buf == [] && Outstanding(l.flights) == {}
  }

  lemma NothingUploads(l: Log, f: nat)
    requires Outstanding(l.flights) == {} && f in l.flights
    ensures !l.flights[f].Putting?
  {
    if l.flights[f].Putting? { OutstandingOf(l.flights, f); }
  }

  lemma NoUploadsStay(l: Log, e: Event)
    requires l.closed && l.sealing && Allowed(l, e) && forall f :: f in l.flights ==> !l.flights[f].Putting?
    ensures var l' := Apply(l, e);
            && l'.stored == l.stored && l'.written == l.written && l'.buf == l.buf && l'.sealing
            && Outstanding(l'.flights) == {} && !Overtaken(l, e)
  {
    var l' := Apply(l, e);
    assert forall f :: f in l'.flights ==> !l'.flights[f].Putting?;
  }

  lemma CompleteStays(l: Log, e: Event)
    requires Complete(l) && Allowed(l, e)
    ensures Complete(Apply(l, e)) && Apply(l, e).stored == l.stored && Apply(l, e).written == l.written
  {
    forall f | f in l.flights ensures !l.flights[f].Putting? { NothingUploads(l, f); }
    NoUploadsStay(l, e);
    EventKeepsInv(l, e);
  }

  /** A read that ends when everything is stored ends with everything. */
  lemma LookEndsWithEverything(l: Log)
    requires Complete(l) && l.follower.Walking? && Apply(l, Look).follower.Idle?
    ensures Apply(l, Look).follower.received == l.written
  {
    assert forall k: nat :: k < |l.chunks| ==> k in l.stored;
    assert l.chunks[..l.follower.got] == l.chunks;
    assert Join(l.chunks) + [] == Join(l.chunks);
  }

  lemma OnlyLookEndsARead(l: Log, e: Event)
    requires l.follower.Walking? && Apply(l, e).follower.Idle?
    ensures e == Look
  {}

  /** The k-th event of a run is the one in which a ReadFrom returns. */
  predicate Returns(events: seq<Event>, k: nat)
    requires k < |events|
  {
    At(Apply, EMPTY, events, k).follower.Walking? && At(Apply, EMPTY, events, k + 1).follower.Idle?
  }

  ghost predicate CompleteWith(l: Log, written: Bytes) {
    Complete(l) && l.written == written
  }

  /** End to end, over every interleaving without overtaken or late failures: at every moment the
      follower has a prefix of what was written, and once Finish's manifest has landed with no
      chunk upload outstanding, every ReadFrom that returns leaves it with exactly everything,
      whatever else happens between its looks. */
  lemma FollowerEndsWithEverything(events: seq<Event>, n: nat)
    requires Each(Apply, Steady, EMPTY, events) && Never(Apply, FailsLate, EMPTY, events)
    requires n <= |events|
    requires At(Apply, EMPTY, events, n).finished && Outstanding(At(Apply, EMPTY, events, n).flights) == {}
    ensures Always(Apply, InOrder, EMPTY, events)
    ensures forall k :: n <= k < |events| && Returns(events, k) ==>
              At(Apply, EMPTY, events, k + 1).follower.received == At(Apply, EMPTY, events, n).written
  {
    assert Inv(EMPTY);
    RunKeepsLog(EMPTY, events);
    RunKeepsHealthy(EMPTY, events);
    var l := At(Apply, EMPTY, events, n);
    assert Healthy(l);
    var inv := (x: Log) => CompleteWith(x, l.written);
    forall x, e | inv(x) && Steady(x, e) ensures inv(Apply(x, e)) { CompleteStays(x, e); }
    forall k | n <= k < |events| && Returns(events, k)
      ensures At(Apply, EMPTY, events, k + 1).follower.received == l.written
    {
      KeptFrom(Apply, inv, Steady, EMPTY, events, n, k);
      RunPrefix(Apply, EMPTY, events, k);
      OnlyLookEndsARead(At(Apply, EMPTY, events, k), events[k]);
      LookEndsWithEverything(At(Apply, EMPTY, events, k));
    }
  }

  // -- And a ReadFrom does return

  ghost predicate LookedAlong(l: Log, x: Log, k: nat) {
    Complete(x) && x == l.(follower := x.follower) && x.follower.Walking? && x.follower.n == k
  }

  predicate Looks(l: Log, e: Event) {
    e.Look?
  }

  lemma LookAlong(l: Log, x: Log, k: nat)
    requires LookedAlong(l, x, k) && k < |l.chunks|
    ensures LookedAlong(l, Apply(x, Look), k + 1)
  {
    CompleteStays(x, Look);
    assert k in x.stored;
  }

  /** Asking once everything is stored: after one look per chunk and one more, the follower is
      done and has everything. */
  lemma FollowerGetsEverything(l: Log)
    requires Complete(l) && l.follower.Idle?
    ensures var r := Apply(Run(Apply, Apply(l, Ask), Times(Look, |l.chunks|)), Look);
            r == l.(follower := r.follower) && r.follower.Idle? && r.follower.received == l.written
  {
    var asked, count := Apply(l, Ask), (x: Log, k: nat) => LookedAlong(l, x, k);
    CompleteStays(l, Ask);
    forall x, k: nat | k < |l.chunks| && count(x, k) ensures Looks(x, Look) && count(Apply(x, Look), k + 1) {
      LookAlong(l, x, k);
    }
    RunTimes(Apply, count, Looks, asked, Look, |l.chunks|);
    LastLook(l, Run(Apply, asked, Times(Look, |l.chunks|)));
  }

  lemma LastLook(l: Log, x: Log)
    requires LookedAlong(l, x, |l.chunks|)
    ensures var r := Apply(x, Look);
            r == l.(follower := r.follower) && r.follower.Idle? && r.follower.received == l.written
  {
    assert |l.chunks| !in x.stored;
    LookEndsWithEverything(x);
  }

  // -- The terminal manifest

  predicate TerminalManifest(l: Log) {
    l.manifest.Manifest? && l.manifest.done
  }

  /** Finished, and with no flush in flight. */
  ghost predicate Quiescent(l: Log) {
    Healthy(l) && l.finished && l.flights == map[] && TerminalManifest(l)
  }

  lemma QuiescentStays(l: Log, e: Event)
    requires Quiescent(l) && Allowed(l, e)
    ensures Quiescent(Apply(l, e))
    ensures Apply(l, e).stored == l.stored && Apply(l, e).written == l.written && Apply(l, e).manifest == l.manifest
  {
    OnlyFollowerMoves(l, e);
    EventKeepsInv(l, e);
  }

  lemma OnlyFollowerMoves(l: Log, e: Event)
    requires l.flights == map[] && l.closed && l.sealing && Allowed(l, e)
    ensures Apply(l, e) == l.(follower := Apply(l, e).follower) && !Overtaken(l, e)
  {}

  /** The steps that take one flush to its end. */
  function Drive(l: Log, f: nat): seq<Event>
    requires f in l.flights
  {
    match l.flights[f]
    case Putting(_, _, _) => [PutOk(f), Compose(f), SealOk(f)]
    case Put(_) => [Compose(f), SealOk(f)]
    case Sealing(_, _) => [SealOk(f)]
  }

  predicate StillOpen(l: Log, f: nat) {
    && f in l.flights && !l.flights[f].final
    && (l.flights[f].Sealing? ==> l.flights[f].manifest.Manifest? && !l.flights[f].manifest.done)
  }

  lemma DriveOnce(l: Log, f: nat)
    requires StillOpen(l, f)
    ensures l.flights[f].Putting? ==> StillOpen(Apply(l, PutOk(f)), f) && Apply(l, PutOk(f)).flights[f].Put?
    ensures l.flights[f].Put? ==> StillOpen(Apply(l, Compose(f)), f) && Apply(l, Compose(f)).flights[f].Sealing?
    ensures l.flights[f].Sealing? ==> !TerminalManifest(Apply(l, SealOk(f)))
  {}

  lemma LateFlushUnseals(l: Log, f: nat)
    requires StillOpen(l, f)
    ensures !TerminalManifest(Run(Apply, l, Drive(l, f)))
  {
    DriveOnce(l, f);
    RunsUnfolded(Apply, l, PutOk(f), Compose(f), SealOk(f));
    RunsUnfolded(Apply, l, Compose(f), SealOk(f), SealOk(f));
    RunsUnfolded(Apply, l, SealOk(f), SealOk(f), SealOk(f));
    if l.flights[f].Putting? {
      var l1 := Apply(l, PutOk(f));
      DriveOnce(l1, f);
      DriveOnce(Apply(l1, Compose(f)), f);
    } else if l.flights[f].Put? {
      DriveOnce(Apply(l, Compose(f)), f);
    }
  }

  /** After Finish has succeeded, the terminal manifest is there to stay in every continuation
      if and only if no other flush is still in flight. */
  lemma SealHoldsIffNoFlushInFlight(l: Log)
    requires Healthy(l) && l.finished && TerminalManifest(l)
    ensures l.flights == map[] <==>
            forall events :: Each(Apply, Allowed, l, events) ==> Always(Apply, TerminalManifest, l, events)
  {
    if l.flights == map[] {
      forall events | Each(Apply, Allowed, l, events) ensures Always(Apply, TerminalManifest, l, events) {
        forall x, e | Quiescent(x) && Allowed(x, e) ensures Quiescent(Apply(x, e)) { QuiescentStays(x, e); }
        KeptBySteps(Apply, Quiescent, Allowed, l, events);
        forall k | 0 <= k <= |events| ensures TerminalManifest(At(Apply, l, events, k)) {
          assert Quiescent(At(Apply, l, events, k));
        }
      }
    } else {
      var f :| f in l.flights;
      var events := Drive(l, f);
      LateFlushUnseals(l, f);
      assert Each(Apply, Allowed, l, events) by { assert forall k :: 0 <= k < |events| ==> !events[k].Claim?; }
      assert At(Apply, l, events, |events|) == Run(Apply, l, events) by { assert events[..|events|] == events; }
      assert !Always(Apply, TerminalManifest, l, events);
    }
  }
}
