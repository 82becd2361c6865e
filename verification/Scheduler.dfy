/** Schedule and ScheduleWait against a store that other replicas change at the same time.

    Between any two store calls of this replica, the environment commits whatever
    transactions it likes; the contracts hold for every environment. */
module Scheduler {
  import opened Runs
  import opened Placement
  import opened Scoring

  /** What the outside world does, indexed by this replica's store calls and poll rounds. */
  datatype Environment = Environment(
    others: nat -> seq<Step>,   // transactions other replicas commit just before the call
    fails: nat -> bool,         // whether the call itself fails, without taking effect
    cancelled: nat -> bool,     // whether the caller has gone at a poll round
    clock: nat -> int)          // the time read at a poll round

  ghost predicate Quiet(env: Environment) {
    forall k :: env.others(k) == [] && !env.fails(k)
  }

  datatype Outcome =
    | Placed(node: string)
    | RegionRequired
    | IncompatibleCpu
    | NoCapacity
    | QueueTimeout
    | Cancelled
    | StoreError

  // ---- What happened, as a history ----

  datatype Event = Ours(step: Step) | Theirs(step: Step)

  function Happens(l: Ledger, e: Event): Ledger {
    Apply(l, e.step)
  }

  /** The history accounts for the whole change of the ledger. */
  ghost predicate Explains(start: Ledger, history: seq<Event>, now: Ledger) {
    now == Run(Happens, start, history)
  }

  predicate Takes(l: Ledger, e: Event) {
    e.Ours? && e.step.Reserve? && Admits(l.nodes, e.step.node, e.step.want)
  }

  /** The nodes on which this replica's own Reserve took effect, in order. */
  ghost function Granted(start: Ledger, history: seq<Event>): seq<string> {
    if history == [] then []
    else
      var n := |history| - 1;
      var before := Run(Happens, start, history[..n]);
      Granted(start, history[..n]) + (if Takes(before, history[n]) then [history[n].step.node] else [])
  }

  function Ask(req: Request, node: string): Step {
    Reserve(node, req.sandbox, req.want, req.spread)
  }

  /** The nodes this replica asked to reserve on, in order, granted or not. */
  function Asks(history: seq<Event>): seq<string> {
    if history == [] then []
    else
      var n := |history| - 1;
      Asks(history[..n]) + (if history[n].Ours? && history[n].step.Reserve? then [history[n].step.node] else [])
  }

  /** This replica asks for something else than the request. */
  predicate IsStray(e: Event, req: Request) {
    e.Ours? && !(e.step.Reserve? && e.step == Ask(req, e.step.node))
  }

  function Strays(history: seq<Event>, req: Request): nat {
    if history == [] then 0
    else
      var n := |history| - 1;
      Strays(history[..n], req) + if IsStray(history[n], req) then 1 else 0
  }

  /** What this replica did in all: where its Reserves took effect, where it tried, and how often
      it did anything else than reserve for the request. */
  datatype Account = Account(wins: seq<string>, asks: seq<string>, strays: nat)

  ghost function AccountOf(start: Ledger, history: seq<Event>, req: Request): Account {
    Account(Granted(start, history), Asks(history), Strays(history, req))
  }

  lemma Extend(start: Ledger, history: seq<Event>, now: Ledger, e: Event, req: Request)
    requires Explains(start, history, now)
    ensures Explains(start, history + [e], Apply(now, e.step))
    ensures AccountOf(start, history + [e], req) ==
            Account(Granted(start, history) + (if Takes(now, e) then [e.step.node] else []),
                    Asks(history) + (if e.Ours? && e.step.Reserve? then [e.step.node] else []),
                    Strays(history, req) + if IsStray(e, req) then 1 else 0)
  {
    var longer := history + [e];
    assert longer[..|history|] == history;
    RunAppend(Happens, start, history, e);
  }

  // ---- The verdict without interference ----

  /** Some node fits, and the only thing wrong with it is its CPU. */
  ghost predicate CpuIsDecisive(l: Ledger, req: Request) {
    && (forall id :: id in l.nodes ==> !Feasible(l.nodes[id], req))
    && (exists id :: id in l.nodes && Feasible(l.nodes[id], req.(cpu := UNCONSTRAINED)))
  }

  /** The answer a quiet store must get. */
  ghost predicate IsVerdict(w: Weights, l: Ledger, req: Request, r: Outcome) {
    match r
    case Placed(node) => req.region != "" && IsBest(w, l, req, node)
    case RegionRequired => req.region == ""
    case IncompatibleCpu => req.region != "" && CpuIsDecisive(l, req)
    case NoCapacity =>
      && req.region != ""
      && (forall id :: id in l.nodes ==> !Feasible(l.nodes[id], req))
      && !CpuIsDecisive(l, req)
    case _ => false
  }

  /** Every request has a verdict, and only one. */
  lemma VerdictIsUnique(w: Weights, l: Ledger, req: Request, a: Outcome, b: Outcome)
    requires IsVerdict(w, l, req, a) && IsVerdict(w, l, req, b)
    ensures a == b
  {
    if a.Placed? && b.Placed? && a.node != b.node {
      BetterTotal(w, l, req, a.node, b.node);
    }
  }

  // ---- The conduct of a call, interference or not ----

  /** One round: what was read, how it was ranked, and how many candidates were tried. */
  datatype Round = Round(seen: Ledger, ranked: seq<string>, tried: nat)

  /** Every candidate of the round was tried, best first, and lost. */
  ghost predicate Contested(w: Weights, req: Request, round: Round) {
    IsRanking(w, round.seen, req, round.ranked) && round.ranked != [] && round.tried == |round.ranked|
  }

  /** The round decides the call. */
  ghost predicate Closes(w: Weights, req: Request, round: Round, r: Outcome) {
    && round.tried <= |round.ranked|
    && match r
       case Placed(node) =>
         IsRanking(w, round.seen, req, round.ranked) && 0 < round.tried && round.ranked[round.tried - 1] == node
       case IncompatibleCpu => round.tried == 0 && CpuIsDecisive(round.seen, req)
       case NoCapacity =>
         && round.tried == 0 && !CpuIsDecisive(round.seen, req)
         && forall id :: id in round.seen.nodes ==> !Feasible(round.seen.nodes[id], req)
       case StoreError => true
       case _ => false
  }

  /** The nodes asked for in a round, and in several. */
  function Tried(round: Round): seq<string> {
    if round.tried <= |round.ranked| then round.ranked[..round.tried] else []
  }

  function Attempts(rounds: seq<Round>): seq<string> {
    if rounds == [] then [] else Attempts(rounds[..|rounds| - 1]) + Tried(rounds[|rounds| - 1])
  }

  /** `blamed` means the CPU constraint is why nothing was feasible. */
  method CpuRejection(l: Ledger, req: Request) returns (blamed: bool)
    requires forall id :: id in l.nodes ==> !Feasible(l.nodes[id], req)
    ensures blamed <==> CpuIsDecisive(l, req)
  {
    blamed := false;
    if !req.cpu.Constrained() { return; }
    var probe := req.(cpu := UNCONSTRAINED);
    var rest := l.nodes.Keys;
    while rest != {}
      invariant rest <= l.nodes.Keys
      invariant forall id :: id in l.nodes && id !in rest ==> !Feasible(l.nodes[id], probe)
      decreases rest
    {
      var id :| id in rest;
      if Feasible(l.nodes[id], probe) && !req.cpu.Accepts(l.nodes[id].cpuVendor, l.nodes[id].cpuFamily) {
        return true;
      }
      rest := rest - {id};
    }
  }

  method AnyUnblocked(nodes: map<string, Node>, req: Request) returns (found: bool)
    ensures found <==> exists id :: id in nodes && Feasible(nodes[id], req)
  {
    var rest := nodes.Keys;
    while rest != {}
      invariant rest <= nodes.Keys
      invariant forall id :: id in nodes && id !in rest ==> !Feasible(nodes[id], req)
      decreases rest
    {
      var id :| id in rest;
      FeasibleIffUnblocked(nodes[id], req);
      if nodes[id].region == req.region && Blockers(nodes[id], req) == [] { return true; }
      rest := rest - {id};
    }
    return false;
  }

  // ---- What this replica does to the shared ledger ----

  /** A step of another replica that does not spoil the ledger and does not reserve `sandbox`. */
  predicate Harmless(l: Ledger, s: Step, sandbox: string) {
    WellFormed(l, s) && !Spoils(l, s) && !(s.Reserve? && s.sandbox == sandbox)
  }

  /** From the given point of the history on, the other replicas do no harm. */
  ghost predicate Behave(start: Ledger, history: seq<Event>, from: nat, sandbox: string) {
    forall k :: from <= k < |history| && history[k].Theirs? ==>
      Harmless(At(Happens, start, history, k), history[k].step, sandbox)
  }

  /** Conserved, within bounds, and without a reservation for `sandbox`. */
  ghost predicate Fresh(l: Ledger, sandbox: string) {
    Sound(l) && sandbox !in l.reservations
  }

  /** Two moments of the history since `from` show these nodes and then these reservations. */
  ghost predicate Observed(start: Ledger, history: seq<Event>, from: nat, seen: Ledger) {
    exists i: nat, j: nat :: from <= i <= j && ShowsAt(start, history, i, j, seen)
  }

  ghost predicate ShowsAt(start: Ledger, history: seq<Event>, i: nat, j: nat, seen: Ledger) {
    && i <= |history| && j <= |history|
    && seen.nodes == At(Happens, start, history, i).nodes
    && seen.reservations == At(Happens, start, history, j).reservations
  }

  lemma ObservedLater(start: Ledger, shorter: seq<Event>, longer: seq<Event>, from: nat, from': nat, seen: Ledger)
    requires shorter <= longer && from' <= from && Observed(start, shorter, from, seen)
    ensures Observed(start, longer, from', seen)
  {
    var i: nat, j: nat :| from <= i <= j && ShowsAt(start, shorter, i, j, seen);
    assert longer[..i] == shorter[..i] && longer[..j] == shorter[..j];
    assert ShowsAt(start, longer, i, j, seen);
  }

  lemma HarmlessKeepsFresh(l: Ledger, s: Step, sandbox: string)
    requires Fresh(l, sandbox) && Harmless(l, s, sandbox)
    ensures Fresh(Apply(l, s), sandbox)
  {
    StepConserves(l, s);
    StepFits(l, s);
  }

  lemma OwnReserveKeepsSound(l: Ledger, s: Step)
    requires s.Reserve? && Fresh(l, s.sandbox) && ZERO.Within(s.want)
    ensures Sound(Apply(l, s))
    ensures if Admits(l.nodes, s.node, s.want)
            then Apply(l, s).reservations == l.reservations[s.sandbox := Reservation(s.node, s.want, s.spread)]
            else Apply(l, s) == l
  {
    StepConserves(l, s);
    StepFits(l, s);
  }

  /** The ledger is sound and holds exactly this replica's reservation for the request. */
  ghost predicate Holds(l: Ledger, node: string, req: Request) {
    && Sound(l) && req.sandbox in l.reservations
    && l.reservations[req.sandbox] == Reservation(node, req.want, req.spread)
  }

  /** The last thing that happened is that this replica got the node. */
  ghost predicate EndsTaken(start: Ledger, history: seq<Event>, req: Request, node: string) {
    && history != [] && history[|history| - 1] == Ours(Ask(req, node))
    && Takes(At(Happens, start, history, |history| - 1), history[|history| - 1])
  }

  /** If the others behaved since `from` and the ledger was fresh then, it is still fresh, or it is
      sound and holds the reservation. */
  ghost predicate Sane(start: Ledger, history: seq<Event>, from: nat, req: Request, r: Outcome)
    requires from <= |history|
  {
    Behave(start, history, from, req.sandbox) && Fresh(At(Happens, start, history, from), req.sandbox)
    && (r.Placed? ==> ZERO.Within(req.want)) ==>
      var now := At(Happens, start, history, |history|);
      if r.Placed? then Holds(now, r.node, req) else Fresh(now, req.sandbox)
  }

  lemma {:induction false} AccountGrows(start: Ledger, h0: seq<Event>, h: seq<Event>, req: Request)
    requires h0 <= h
    ensures |Granted(start, h)| >= |Granted(start, h0)| && Strays(h, req) >= Strays(h0, req)
    decreases |h|
  {
    if |h0| < |h| {
      AccountGrows(start, h0, h[..|h| - 1], req);
    } else {
      assert h == h0;
    }
  }

  /** Neither this replica nor another one does anything that matters to the request. */
  predicate Calm(l: Ledger, e: Event, req: Request) {
    !IsStray(e, req) && !Takes(l, e) && (e.Theirs? ==> Harmless(l, e.step, req.sandbox))
  }

  lemma CalmKeepsFresh(l: Ledger, e: Event, req: Request)
    requires Fresh(l, req.sandbox) && Calm(l, e, req)
    ensures Fresh(Happens(l, e), req.sandbox)
  {
    if e.Theirs? { HarmlessKeepsFresh(l, e.step, req.sandbox); }
  }

  lemma GrantHolds(l: Ledger, req: Request, node: string)
    requires Fresh(l, req.sandbox) && ZERO.Within(req.want) && Takes(l, Ours(Ask(req, node)))
    ensures Holds(Happens(l, Ours(Ask(req, node))), node, req)
  {
    OwnReserveKeepsSound(l, Ask(req, node));
  }

  /** Nothing was granted and nothing stray done since `h0`. */
  ghost predicate Nothing(start: Ledger, h0: seq<Event>, h: seq<Event>, req: Request) {
    h0 <= h && |Granted(start, h)| == |Granted(start, h0)| && Strays(h, req) == Strays(h0, req)
  }

  lemma {:induction false} NothingMeansCalm(start: Ledger, h0: seq<Event>, h: seq<Event>, req: Request, k: nat)
    requires Nothing(start, h0, h, req) && |h0| <= k < |h|
    requires h[k].Theirs? ==> Harmless(At(Happens, start, h, k), h[k].step, req.sandbox)
    ensures Calm(At(Happens, start, h, k), h[k], req)
    decreases |h|
  {
    var n := |h| - 1;
    AccountGrows(start, h0, h[..n], req);
    if k < n {
      assert h[..n][..k] == h[..k];
      NothingMeansCalm(start, h0, h[..n], req, k);
    }
  }

  /** While nothing is granted, a fresh ledger stays fresh. */
  lemma StaysFresh(start: Ledger, h0: seq<Event>, h: seq<Event>, req: Request, n: nat)
    requires |h0| <= n <= |h| && Nothing(start, h0, h[..n], req)
    requires Behave(start, h, |h0|, req.sandbox) && Fresh(At(Happens, start, h, |h0|), req.sandbox)
    ensures Fresh(At(Happens, start, h, n), req.sandbox)
  {
    var inv := (l: Ledger) => Fresh(l, req.sandbox);
    var ok := (l: Ledger, e: Event) => Calm(l, e, req);
    forall k | |h0| <= k < n ensures ok(At(Happens, start, h, k), h[k]) {
      assert h[..n][..k] == h[..k];
      NothingMeansCalm(start, h0, h[..n], req, k);
    }
    forall l, e | inv(l) && ok(l, e) ensures inv(Happens(l, e)) { CalmKeepsFresh(l, e, req); }
    KeptWithin(Happens, inv, ok, start, h, |h0|, n);
  }

  lemma NothingBeforeGrant(start: Ledger, h0: seq<Event>, h: seq<Event>, req: Request, node: string)
    requires h0 < h && EndsTaken(start, h, req, node)
    requires Granted(start, h) == Granted(start, h0) + [node] && Strays(h, req) == Strays(h0, req)
    ensures Nothing(start, h0, h[..|h| - 1], req)
  {
    AccountGrows(start, h0, h[..|h| - 1], req);
  }

  /** And the grant that ends it leaves a sound ledger with the reservation. */
  lemma EndsHeld(start: Ledger, h: seq<Event>, l: Ledger, req: Request, node: string)
    requires EndsTaken(start, h, req, node) && l == At(Happens, start, h, |h| - 1)
    requires Fresh(l, req.sandbox) && ZERO.Within(req.want)
    ensures At(Happens, start, h, |h|) == Happens(l, Ours(Ask(req, node)))
    ensures Holds(Happens(l, Ours(Ask(req, node))), node, req)
  {
    RunPrefix(Happens, start, h, |h| - 1);
    GrantHolds(l, req, node);
  }

  /** What the account says about the ledger. */
  lemma AccountIsSane(start: Ledger, h0: seq<Event>, h: seq<Event>, req: Request, r: Outcome)
    requires h0 <= h && Strays(h, req) == Strays(h0, req)
    requires Granted(start, h) == Granted(start, h0) + (if r.Placed? then [r.node] else [])
    requires r.Placed? ==> h0 < h && EndsTaken(start, h, req, r.node)
    ensures Sane(start, h, |h0|, req, r)
  {
    if Behave(start, h, |h0|, req.sandbox) && Fresh(At(Happens, start, h, |h0|), req.sandbox)
       && (r.Placed? ==> ZERO.Within(req.want))
    {
      assert h[..|h|] == h;
      if r.Placed? {
        NothingBeforeGrant(start, h0, h, req, r.node);
        StaysFresh(start, h0, h, req, |h| - 1);
        EndsHeld(start, h, At(Happens, start, h, |h| - 1), req, r.node);
      } else {
        StaysFresh(start, h0, h, req, |h|);
      }
    }
  }

  /** Every round read the store since `from` and lost all its candidates. */
  ghost predicate AllContested(
      w: Weights, req: Request, start: Ledger, history: seq<Event>, from: nat, rounds: seq<Round>)
  {
    rounds == [] ||
    var n := |rounds| - 1;
    && AllContested(w, req, start, history, from, rounds[..n])
    && Contested(w, req, rounds[n]) && Observed(start, history, from, rounds[n].seen)
  }

  /** At most five rounds, of which all but the last were lost. The last one decides, by what it
      read, or it is the fifth and lost too. */
  ghost predicate Conducted(
      w: Weights, req: Request, start: Ledger, history: seq<Event>, from: nat, rounds: seq<Round>, r: Outcome)
  {
    && 0 < |rounds| <= 5
    && var n := |rounds| - 1;
       && AllContested(w, req, start, history, from, rounds[..n])
       && (r != StoreError ==> Observed(start, history, from, rounds[n].seen))
       && (Closes(w, req, rounds[n], r) || (r == NoCapacity && n == 4 && Contested(w, req, rounds[n])))
  }

  lemma {:induction false} ContestedLater(
      w: Weights, req: Request, start: Ledger, shorter: seq<Event>, longer: seq<Event>, from: nat, rounds: seq<Round>)
    requires shorter <= longer && AllContested(w, req, start, shorter, from, rounds)
    ensures AllContested(w, req, start, longer, from, rounds)
    decreases |rounds|
  {
    if rounds != [] {
      ContestedLater(w, req, start, shorter, longer, from, rounds[..|rounds| - 1]);
      ObservedLater(start, shorter, longer, from, from, rounds[|rounds| - 1].seen);
    }
  }

  lemma AttemptsGrow(asks: seq<string>, rounds: seq<Round>, round: Round)
    ensures asks + Attempts(rounds + [round]) == asks + Attempts(rounds) + Tried(round)
  {
    assert (rounds + [round])[..|rounds|] == rounds;
  }

  lemma OneMore(asks: seq<string>, ranked: seq<string>, i: nat)
    requires i < |ranked|
    ensures asks + ranked[..i] + [ranked[i]] == asks + ranked[..i + 1]
  {}

  /** One more round is lost, at the end of a longer history. */
  lemma RoundLost(
      w: Weights, req: Request, start: Ledger, h0: seq<Event>, h1: seq<Event>, h2: seq<Event>,
      rounds: seq<Round>, round: Round)
    requires h0 <= h1 <= h2 && AllContested(w, req, start, h1, |h0|, rounds)
    requires Observed(start, h2, |h1|, round.seen) && Contested(w, req, round)
    ensures AllContested(w, req, start, h2, |h0|, rounds + [round])
  {
    assert (rounds + [round])[..|rounds|] == rounds;
    ContestedLater(w, req, start, h1, h2, |h0|, rounds);
    ObservedLater(start, h2, h2, |h1|, |h0|, round.seen);
  }

  /** One more round decides. */
  lemma RoundDecides(
      w: Weights, req: Request, start: Ledger, h0: seq<Event>, h1: seq<Event>, h2: seq<Event>,
      rounds: seq<Round>, round: Round, r: Outcome)
    requires h0 <= h1 <= h2 && |rounds| < 5 && AllContested(w, req, start, h1, |h0|, rounds)
    requires r != StoreError ==> Observed(start, h2, |h1|, round.seen)
    requires Closes(w, req, round, r)
    ensures Conducted(w, req, start, h2, |h0|, rounds + [round], r)
  {
    assert (rounds + [round])[..|rounds|] == rounds;
    ContestedLater(w, req, start, h1, h2, |h0|, rounds);
    if r != StoreError { ObservedLater(start, h2, h2, |h1|, |h0|, round.seen); }
  }

  lemma RoundEnds(
      w: Weights, req: Request, start: Ledger, h0: seq<Event>, h1: seq<Event>, h2: seq<Event>,
      rounds: seq<Round>, round: Round, r: Outcome, again: bool)
    requires h0 <= h1 <= h2 && |rounds| < 5 && AllContested(w, req, start, h1, |h0|, rounds)
    requires r != StoreError ==> Observed(start, h2, |h1|, round.seen)
    requires if again then r == NoCapacity && Contested(w, req, round) else Closes(w, req, round, r)
    ensures if again then AllContested(w, req, start, h2, |h0|, rounds + [round])
            else Conducted(w, req, start, h2, |h0|, rounds + [round], r)
  {
    if again {
      RoundLost(w, req, start, h0, h1, h2, rounds, round);
    } else {
      RoundDecides(w, req, start, h0, h1, h2, rounds, round, r);
    }
  }

  /** Five lost rounds are the end. */
  lemma FiveAreEnough(w: Weights, req: Request, start: Ledger, history: seq<Event>, from: nat, rounds: seq<Round>)
    requires |rounds| == 5 && AllContested(w, req, start, history, from, rounds)
    ensures Conducted(w, req, start, history, from, rounds, NoCapacity)
  {}

  /** The last read failed, or shows no node that could take the request. */
  ghost predicate Hopeless(env: Environment, calls: nat, nodes: map<string, Node>, req: Request) {
    (calls > 0 && env.fails(calls - 1)) || forall id :: id in nodes ==> !Feasible(nodes[id], req)
  }

  /** The clock reached the deadline at some poll up to `last`. */
  ghost predicate Expired(env: Environment, deadline: int, last: nat) {
    exists k: nat :: 1 <= k <= last && env.clock(k) >= deadline
  }

  ghost predicate Abandoned(env: Environment, last: nat) {
    exists k: nat :: k <= last && env.cancelled(k)
  }

  // ---- The scheduler ----

  const MAX_ATTEMPTS := 5

  class Replica {
    const store: Store
    const weights: Weights
    var calls: nat            // store calls made so far
    ghost var start: Ledger   // the ledger when this replica came up
    ghost var history: seq<Event>

    constructor (store: Store, weights: Weights)
      ensures this.store == store && this.weights == weights
      ensures Valid() && history == []
    {
      this.store, this.weights, calls := store, weights, 0;
      start, history := store.View(), [];
    }

    ghost predicate Valid()
      reads this, store
    {
      Explains(start, history, store.View())
    }

    ghost function Books(req: Request): Account
      reads this
    {
      AccountOf(start, history, req)
    }

    /** Other replicas commit `steps`. */
    method Interfere(steps: seq<Step>, ghost req: Request)
      requires Valid()
      modifies store, this`history
      ensures Valid() && Books(req) == old(Books(req)) && old(history) <= history
      ensures |history| == old(|history|) + |steps|
      ensures steps == [] ==> store.View() == old(store.View())
    {
      for i := 0 to |steps|
        invariant Valid() && Books(req) == old(Books(req)) && old(history) <= history
        invariant |history| == old(|history|) + i
        invariant i == 0 ==> store.View() == old(store.View())
      {
        Extend(start, history, store.View(), Theirs(steps[i]), req);
        store.Commit(steps[i]);
        history := history + [Theirs(steps[i])];
      }
    }

    /** LoadNodes: a snapshot that may be stale by the time it is used. */
    method LoadNodes(env: Environment, ghost req: Request) returns (ok: bool, nodes: map<string, Node>)
      requires Valid()
      modifies store, this`history, this`calls
      ensures Valid() && Books(req) == old(Books(req)) && old(history) <= history
      ensures nodes == store.nodes && calls == old(calls) + 1 && ok == !env.fails(old(calls))
      ensures Quiet(env) ==> ok && store.View() == old(store.View())
    {
      Interfere(env.others(calls), req);
      ok, nodes := !env.fails(calls), store.nodes;
      calls := calls + 1;
    }

    /** SpreadCounts: a second read, at its own moment, unless there is no spread key. */
    method LoadSpread(env: Environment, req: Request) returns (ok: bool, reservations: map<string, Reservation>)
      requires Valid()
      modifies store, this`history, this`calls
      ensures Valid() && Books(req) == old(Books(req)) && old(history) <= history
      ensures reservations == store.reservations
      ensures req.spread == "" ==> ok && store.View() == old(store.View())
      ensures Quiet(env) ==> ok && store.View() == old(store.View())
    {
      if req.spread == "" { return true, store.reservations; }
      Interfere(env.others(calls), req);
      ok, reservations := !env.fails(calls), store.reservations;
      calls := calls + 1;
    }

    /** What one attempt scores: the nodes of the first read and the spread counts of the second. */
    method Read(env: Environment, req: Request) returns (ok: bool, seen: Ledger)
      requires Valid()
      modifies store, this`history, this`calls
      ensures Valid() && Books(req) == old(Books(req)) && old(history) <= history
      ensures Quiet(env) ==> ok && seen == store.View() == old(store.View())
      ensures ok ==> Observed(start, history, old(|history|), seen)
    {
      seen := Ledger(map[], map[]);
      var loaded, nodes := LoadNodes(env, req);
      if !loaded { return false, seen; }
      ghost var h1 := history;
      var counted, reservations := LoadSpread(env, req);
      seen := Ledger(nodes, reservations);
      assert history[..|history|] == history && history[..|h1|] == h1;
      assert ShowsAt(start, history, |h1|, |history|, seen);
      return counted, seen;
    }

    /** One Reserve. `ok` without `taken` is ErrCapacityChanged. */
    method TryReserve(env: Environment, node: string, req: Request) returns (ok: bool, taken: bool)
      requires Valid()
      modifies store, this`history, this`calls
      ensures Valid() && old(history) <= history
      ensures taken ==> ok && old(history) < history && EndsTaken(start, history, req, node)
      ensures Books(req).wins == old(Books(req)).wins + (if taken then [node] else [])
      ensures Books(req).asks == old(Books(req)).asks + (if ok then [node] else [])
      ensures Books(req).strays == old(Books(req)).strays
      ensures Quiet(env) ==> ok && (taken <==> Admits(old(store.nodes), node, req.want))
      ensures Quiet(env) && !taken ==> store.View() == old(store.View())
    {
      Interfere(env.others(calls), req);
      ok, taken := !env.fails(calls), false;
      calls := calls + 1;
      if ok { taken := CommitReserve(node, req); }
    }

    /** The reserving transaction itself. */
    method CommitReserve(node: string, req: Request) returns (taken: bool)
      requires Valid()
      modifies store, this`history
      ensures Valid() && old(history) < history
      ensures taken <==> Admits(old(store.nodes), node, req.want)
      ensures taken ==> EndsTaken(start, history, req, node)
      ensures Books(req).wins == old(Books(req)).wins + (if taken then [node] else [])
      ensures Books(req).asks == old(Books(req)).asks + [node] && Books(req).strays == old(Books(req)).strays
      ensures !taken ==> store.View() == old(store.View())
    {
      Extend(start, history, store.View(), Ours(Ask(req, node)), req);
      taken := store.Reserve(node, req.sandbox, req.want, req.spread);
      ghost var h := history;
      history := history + [Ours(Ask(req, node))];
      assert history[..|h|] == h;
    }

    /** Tries the candidates best first. NoCapacity means that every one of them was taken. */
    method TryAll(env: Environment, ranked: seq<string>, req: Request) returns (r: Outcome, ghost tried: nat)
      requires Valid() && ranked != []
      modifies store, this`history, this`calls
      ensures Valid() && old(history) <= history
      ensures r.Placed? || r == StoreError || r == NoCapacity
      ensures r.Placed? ==> 0 < tried <= |ranked| && ranked[tried - 1] == r.node
      ensures r.Placed? ==> old(history) < history && EndsTaken(start, history, req, r.node)
      ensures r == NoCapacity ==> tried == |ranked|
      ensures tried <= |ranked| && Books(req).asks == old(Books(req)).asks + ranked[..tried]
      ensures Books(req).wins == old(Books(req)).wins + (if r.Placed? then [r.node] else [])
      ensures Books(req).strays == old(Books(req)).strays
      ensures Quiet(env) && Admits(old(store.nodes), ranked[0], req.want) ==> r == Placed(ranked[0])
    {
      for i := 0 to |ranked|
        invariant Valid() && old(history) <= history
        invariant Books(req).wins == old(Books(req)).wins && Books(req).strays == old(Books(req)).strays
        invariant Books(req).asks == old(Books(req)).asks + ranked[..i]
        invariant Quiet(env) && Admits(old(store.nodes), ranked[0], req.want) ==>
                    i == 0 && store.View() == old(store.View())
      {
        var ok, taken := TryReserve(env, ranked[i], req);
        OneMore(old(Books(req)).asks, ranked, i);
        if taken { return Placed(ranked[i]), i + 1; }
        if !ok { return StoreError, i; }
      }
      return NoCapacity, |ranked|;
    }

    /** Why nothing was feasible. */
    method Explain(seen: Ledger, req: Request, ghost ranked: seq<string>) returns (r: Outcome)
      requires req.region != "" && ranked == [] && IsRanking(weights, seen, req, ranked)
      ensures Closes(weights, req, Round(seen, ranked, 0), r) && IsVerdict(weights, seen, req, r)
      ensures r in {IncompatibleCpu, NoCapacity}
    {
      forall id | id in seen.nodes ensures !Feasible(seen.nodes[id], req) {
        assert id !in ranked;
      }
      var blamed := CpuRejection(seen, req);
      return if blamed then IncompatibleCpu else NoCapacity;
    }

    /** Ranks what was read and tries the candidates. `again` means that every one was taken. */
    method Decide(env: Environment, req: Request, seen: Ledger) returns (r: Outcome, again: bool, ghost round: Round)
      requires Valid() && req.region != ""
      modifies store, this`history, this`calls
      ensures Valid() && old(history) <= history && round.seen == seen
      ensures r in {IncompatibleCpu, NoCapacity, StoreError} || r.Placed?
      ensures again ==> r == NoCapacity && Contested(weights, req, round)
      ensures !again ==> Closes(weights, req, round, r)
      ensures r.Placed? ==> old(history) < history && EndsTaken(start, history, req, r.node)
      ensures Books(req).wins == old(Books(req)).wins + (if r.Placed? then [r.node] else [])
      ensures Books(req).asks == old(Books(req)).asks + Tried(round)
      ensures Books(req).strays == old(Books(req)).strays
      ensures Quiet(env) && seen == old(store.View()) ==> !again && IsVerdict(weights, seen, req, r)
      ensures Quiet(env) && seen == old(store.View()) && !r.Placed? ==> store.View() == old(store.View())
    {
      var ranked := Rank(weights, seen, req);
      if ranked == [] {
        r := Explain(seen, req, ranked);
        return r, false, Round(seen, ranked, 0);
      }
      HeadIsBest(weights, seen, req, ranked);
      ghost var tried;
      r, tried := TryAll(env, ranked, req);
      return r, r == NoCapacity, Round(seen, ranked, tried);
    }

    /** One round of Schedule. */
    method Attempt(env: Environment, req: Request) returns (r: Outcome, again: bool, ghost round: Round)
      requires Valid() && req.region != ""
      modifies store, this`history, this`calls
      ensures Valid() && old(history) <= history
      ensures r in {IncompatibleCpu, NoCapacity, StoreError} || r.Placed?
      ensures again ==> r == NoCapacity && Contested(weights, req, round)
      ensures !again ==> Closes(weights, req, round, r)
      ensures r != StoreError ==> Observed(start, history, old(|history|), round.seen)
      ensures r.Placed? ==> old(history) < history && EndsTaken(start, history, req, r.node)
      ensures Books(req).wins == old(Books(req)).wins + (if r.Placed? then [r.node] else [])
      ensures Books(req).asks == old(Books(req)).asks + Tried(round)
      ensures Books(req).strays == old(Books(req)).strays
      ensures Quiet(env) ==> !again && IsVerdict(weights, old(store.View()), req, r)
      ensures Quiet(env) && !r.Placed? ==> store.View() == old(store.View())
    {
      var ok, seen := Read(env, req);
      if !ok { return StoreError, false, Round(seen, [], 0); }
      ghost var h1 := history;
      r, again, round := Decide(env, req, seen);
      ObservedLater(start, h1, history, old(|history|), old(|history|), seen);
    }

    /** Whatever the other replicas do, a successful Schedule has reserved exactly once, on the
        node it names, and an unsuccessful one not at all. It asks for exactly the candidates of its
        rounds, best first, and gives up only when a round's own read shows nothing that fits, or
        after five rounds in which every candidate was taken. Left alone, it gives the verdict. If
        the sandbox is new and the others do no harm, the shared ledger stays conserved and within
        bounds, and shows the reservation. */
    method Schedule(env: Environment, req: Request) returns (r: Outcome, ghost rounds: seq<Round>)
      requires Valid()
      modifies store, this`history, this`calls
      ensures Valid() && old(history) <= history
      ensures r in {RegionRequired, IncompatibleCpu, NoCapacity, StoreError} || r.Placed?
      ensures Books(req).wins == old(Books(req)).wins + (if r.Placed? then [r.node] else [])
      ensures Books(req).asks == old(Books(req)).asks + Attempts(rounds)
      ensures Books(req).strays == old(Books(req)).strays
      ensures r == RegionRequired <==> req.region == ""
      ensures if r == RegionRequired then rounds == []
              else Conducted(weights, req, start, history, old(|history|), rounds, r)
      ensures Sane(start, history, old(|history|), req, r)
      ensures Quiet(env) ==> IsVerdict(weights, old(store.View()), req, r)
      ensures Quiet(env) && !r.Placed? ==> store.View() == old(store.View())
    {
      rounds := [];
      r := RegionRequired;
      if req.region != "" { r, rounds := Contend(env, req); }
      AccountIsSane(start, old(history), history, req, r);
    }

    /** One more round after those lost so far. */
    method Turn(env: Environment, req: Request, ghost h0: seq<Event>, ghost before: seq<Round>)
      returns (r: Outcome, again: bool, ghost rounds: seq<Round>)
      requires Valid() && req.region != "" && h0 <= history
      requires |before| < 5 && AllContested(weights, req, start, history, |h0|, before)
      requires Books(req).asks == Asks(h0) + Attempts(before)
      modifies store, this`history, this`calls
      ensures Valid() && old(history) <= history && |rounds| == |before| + 1
      ensures r in {IncompatibleCpu, NoCapacity, StoreError} || r.Placed?
      ensures again ==> r == NoCapacity
      ensures if again then AllContested(weights, req, start, history, |h0|, rounds)
              else Conducted(weights, req, start, history, |h0|, rounds, r)
      ensures r.Placed? ==> old(history) < history && EndsTaken(start, history, req, r.node)
      ensures Books(req).wins == old(Books(req)).wins + (if r.Placed? then [r.node] else [])
      ensures Books(req).asks == Asks(h0) + Attempts(rounds)
      ensures Books(req).strays == old(Books(req)).strays
      ensures Quiet(env) ==> !again && IsVerdict(weights, old(store.View()), req, r)
      ensures Quiet(env) && !r.Placed? ==> store.View() == old(store.View())
    {
      ghost var h1, round := history, Round(Ledger(map[], map[]), [], 0);
      r, again, round := Attempt(env, req);
      AttemptsGrow(Asks(h0), before, round);
      RoundEnds(weights, req, start, h0, h1, history, before, round, r, again);
      rounds := before + [round];
    }

    /** The rounds. */
    method Contend(env: Environment, req: Request) returns (r: Outcome, ghost rounds: seq<Round>)
      requires Valid() && req.region != ""
      modifies store, this`history, this`calls
      ensures Valid() && old(history) <= history
      ensures r in {IncompatibleCpu, NoCapacity, StoreError} || r.Placed?
      ensures r.Placed? ==> old(history) < history && EndsTaken(start, history, req, r.node)
      ensures Books(req).wins == old(Books(req)).wins + (if r.Placed? then [r.node] else [])
      ensures Books(req).asks == old(Books(req)).asks + Attempts(rounds)
      ensures Books(req).strays == old(Books(req)).strays
      ensures Conducted(weights, req, start, history, old(|history|), rounds, r)
      ensures Quiet(env) ==> IsVerdict(weights, old(store.View()), req, r)
      ensures Quiet(env) && !r.Placed? ==> store.View() == old(store.View())
    {
      rounds := [];
      ghost var h0 := history;
      for attempt := 0 to MAX_ATTEMPTS
        invariant Valid() && h0 <= history
        invariant Books(req).wins == old(Books(req)).wins && Books(req).strays == old(Books(req)).strays
        invariant Quiet(env) ==> attempt == 0 && store.View() == old(store.View())
        invariant |rounds| == attempt && AllContested(weights, req, start, history, |h0|, rounds)
        invariant Books(req).asks == Asks(h0) + Attempts(rounds)
      {
        var again;
        r, again, rounds := Turn(env, req, h0, rounds);
        if !again { return; }
      }
      FiveAreEnough(weights, req, start, history, |h0|, rounds);
      return NoCapacity, rounds;
    }

    /** Some node in the region could take the request as of this read. */
    method WorthWaiting(env: Environment, req: Request) returns (worth: bool)
      requires Valid()
      modifies store, this`history, this`calls
      ensures Valid() && Books(req) == old(Books(req)) && old(history) <= history
      ensures Quiet(env) ==> store.View() == old(store.View())
      ensures worth ==> exists id :: id in store.nodes && Feasible(store.nodes[id], req)
      ensures !worth ==> Hopeless(env, calls, store.nodes, req)
      ensures Quiet(env) ==> (worth <==> exists id :: id in store.nodes && Feasible(store.nodes[id], req))
    {
      var ok, nodes := LoadNodes(env, req);
      if !ok { return false; }
      worth := AnyUnblocked(nodes, req);
    }

    /** Schedule, as its waiting caller sees it. */
    method Once(env: Environment, req: Request) returns (r: Outcome)
      requires Valid()
      modifies store, this`history, this`calls
      ensures Valid() && r !in {QueueTimeout, Cancelled}
      ensures Books(req).wins == old(Books(req)).wins + (if r.Placed? then [r.node] else [])
      ensures Quiet(env) ==> IsVerdict(weights, old(store.View()), req, r)
      ensures Quiet(env) && !r.Placed? ==> store.View() == old(store.View())
    {
      ghost var rounds;
      r, rounds := Schedule(env, req);
    }

    /** Waiting does not change the account: one reservation on success, none on any failure,
        over any number of polls. A caller that is already gone reserves nothing at all. It times
        out only at a poll past the deadline, reports a cancellation only if there was one, and,
        told to wait, gives up for want of capacity only when a read says that waiting is no use.
        `last` is a poll at which the caller has gone or the clock has reached the deadline. */
    method ScheduleWait(env: Environment, req: Request, timeout: int, ghost last: nat) returns (r: Outcome)
      requires Valid()
      requires timeout > 0 ==> last >= 1 && (env.cancelled(last) || env.clock(last) >= env.clock(0) + timeout)
      modifies store, this`history, this`calls
      ensures Valid()
      ensures Books(req).wins == old(Books(req)).wins + (if r.Placed? then [r.node] else [])
      ensures env.cancelled(0) ==> r == Cancelled && store.View() == old(store.View())
      ensures Quiet(env) && !env.cancelled(0) ==> IsVerdict(weights, old(store.View()), req, r)
      ensures r == QueueTimeout ==> timeout > 0 && Expired(env, env.clock(0) + timeout, last)
      ensures r == Cancelled ==> Abandoned(env, last)
      ensures r == NoCapacity && timeout > 0 ==> Hopeless(env, calls, store.nodes, req)
    {
      if env.cancelled(0) { return Cancelled; }
      r := Once(env, req);
      if r.Placed? || timeout <= 0 || r != NoCapacity { return; }
      var worth := WorthWaiting(env, req);
      if !worth { return; }
      r := Wait(env, req, env.clock(0) + timeout, last);
    }

    /** The polling loop. */
    method Wait(env: Environment, req: Request, deadline: int, ghost last: nat) returns (r: Outcome)
      requires Valid() && last >= 1 && (env.cancelled(last) || env.clock(last) >= deadline)
      modifies store, this`history, this`calls
      ensures Valid()
      ensures Books(req).wins == old(Books(req)).wins + (if r.Placed? then [r.node] else [])
      ensures r == QueueTimeout ==> Expired(env, deadline, last)
      ensures r == Cancelled ==> Abandoned(env, last)
      ensures r == NoCapacity ==> Hopeless(env, calls, store.nodes, req)
    {
      var round := 0;
      while true
        invariant Valid() && Books(req).wins == old(Books(req)).wins && round < last
        decreases last - round
      {
        round := round + 1;
        if env.cancelled(round) { return Cancelled; }
        var again;
        r, again := Poll(env, req);
        if !again { return; }
        if env.clock(round) >= deadline { return QueueTimeout; }
      }
    }

    /** One more attempt, and whether it is worth another. */
    method Poll(env: Environment, req: Request) returns (r: Outcome, again: bool)
      requires Valid()
      modifies store, this`history, this`calls
      ensures Valid() && (again ==> r == NoCapacity)
      ensures r !in {QueueTimeout, Cancelled}
      ensures r == NoCapacity && !again ==> Hopeless(env, calls, store.nodes, req)
      ensures Books(req).wins == old(Books(req)).wins + (if r.Placed? then [r.node] else [])
    {
      r := Once(env, req);
      if r != NoCapacity { return r, false; }
      again := WorthWaiting(env, req);
    }
  }
}
