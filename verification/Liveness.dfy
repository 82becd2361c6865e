/** Liveness sweeps by several replicas, interleaved statement by statement with heartbeats,
    drains, registrations and placements.

    A sweep answers the stale nodes once and then issues one UPDATE per node; anything may
    happen between those statements. */
module Liveness {
  import opened Placement

  /** Where one SweepLiveness call stands. */
  datatype Phase =
    | Losing(pending: seq<string>)     // nodes read as stale, still to be set LOST
    | Doubting(pending: seq<string>)   // nodes read as doubtful, still to be set SUSPECT
    | Returned

  /** `found` is the list the call has built so far, or has returned. */
  datatype Sweep = Sweep(phase: Phase, found: seq<string>)

  datatype System = System(ledger: Ledger, sweeps: map<nat, Sweep>)

  datatype Action =
    | Other(step: Step)                             // any other transaction of any replica
    | Begin(sweep: nat, lostCutoff: int)            // the first StaleNodes read
    | Lose(sweep: nat)                              // SetNodeState(next, LOST)
    | Turn(sweep: nat, suspectCutoff: int)          // the second StaleNodes read
    | Doubt(sweep: nat)                             // SetNodeState(next, SUSPECT)
    | Return(sweep: nat)                            // the call ends, normally or on an error

  /** The rows StaleNodes selects, in some order, each once. */
  ghost predicate IsStaleList(l: Ledger, cutoff: int, excluded: set<NodeState>, ids: seq<string>) {
    && (forall id :: id in ids <==> id in l.nodes && l.nodes[id].heartbeat < cutoff && l.nodes[id].state !in excluded)
    && (forall i, j :: 0 <= i < j < |ids| ==> ids[i] != ids[j])
  }

  method StaleNodes(l: Ledger, cutoff: int, excluded: set<NodeState>) returns (ids: seq<string>)
    ensures IsStaleList(l, cutoff, excluded, ids)
  {
    ids := [];
    var rest := l.nodes.Keys;
    while rest != {}
      invariant rest <= l.nodes.Keys
      invariant forall id :: id in ids <==>
                  id in l.nodes && id !in rest && l.nodes[id].heartbeat < cutoff && l.nodes[id].state !in excluded
      invariant forall i, j :: 0 <= i < j < |ids| ==> ids[i] != ids[j]
      decreases rest
    {
      var id :| id in rest;
      rest := rest - {id};
      if l.nodes[id].state !in excluded && l.nodes[id].heartbeat < cutoff { ids := ids + [id]; }
    }
  }

  predicate IsLost(l: Ledger, id: string) {
    id in l.nodes && l.nodes[id].state == Lost
  }

  /** The nodes whose state changed into LOST between two ledgers, whoever did it. */
  function BecameLost(l: Ledger, l': Ledger): set<string> {
    set id | id in l'.nodes && IsLost(l', id) && !IsLost(l, id)
  }

  /** One statement. `stale` is what a read in this statement returned. */
  ghost predicate Next(s: System, a: Action, stale: seq<string>, s': System) {
    match a
    case Other(step) =>
      && !(step.SetNodeState? && step.state == Lost)       // only sweeps mark nodes LOST
      && !(step.UpsertNode? && step.record.state == Lost)  // a registration writes READY
      && s' == s.(ledger := Apply(s.ledger, step))
    case Begin(p, cutoff) =>
      && p !in s.sweeps
      && IsStaleList(s.ledger, cutoff, {Draining, Lost}, stale)
      && s' == s.(sweeps := s.sweeps[p := Sweep(Losing(stale), [])])
    case Lose(p) =>
      && p in s.sweeps && s.sweeps[p].phase.Losing? && s.sweeps[p].phase.pending != []
      && var id := s.sweeps[p].phase.pending[0];
         var changed := id in s.ledger.nodes && s.ledger.nodes[id].state != Lost;
         s' == System(Apply(s.ledger, SetNodeState(id, Lost)),
                      s.sweeps[p := Sweep(Losing(s.sweeps[p].phase.pending[1..]),
                                          s.sweeps[p].found + if changed then [id] else [])])
    case Turn(p, cutoff) =>
      && p in s.sweeps && s.sweeps[p].phase == Losing([])
      && IsStaleList(s.ledger, cutoff, {Draining, Lost, Suspect}, stale)
      && s' == s.(sweeps := s.sweeps[p := s.sweeps[p].(phase := Doubting(stale))])
    case Doubt(p) =>
      && p in s.sweeps && s.sweeps[p].phase.Doubting? && s.sweeps[p].phase.pending != []
      && s' == s.(ledger := Apply(s.ledger, SetNodeState(s.sweeps[p].phase.pending[0], Suspect)),
                  sweeps := s.sweeps[p := s.sweeps[p].(phase := Doubting(s.sweeps[p].phase.pending[1..]))])
    case Return(p) =>
      && p in s.sweeps
      && s' == s.(sweeps := s.sweeps[p := s.sweeps[p].(phase := Returned)])
  }

  // ---- One statement ----

  /** Where the sweeps' lists name a node: which sweep, and where in its list. */
  function Places(sweeps: map<nat, Sweep>, id: string): set<(nat, nat)> {
    set p, j: nat | p in sweeps && j < |sweeps[p].found| && sweeps[p].found[j] == id :: (p, j)
  }

  lemma PlaceOf(sweeps: map<nat, Sweep>, id: string, p: nat, j: nat)
    ensures (p, j) in Places(sweeps, id) <==> p in sweeps && j < |sweeps[p].found| && sweeps[p].found[j] == id
  {}

  /** Statements that find nothing leave every place as it was. */
  lemma SamePlaces(a: map<nat, Sweep>, b: map<nat, Sweep>, id: string)
    requires forall p :: p in a ==> p in b && b[p].found == a[p].found
    requires forall p :: p in b && p !in a ==> b[p].found == []
    ensures Places(b, id) == Places(a, id)
  {
    forall p: nat, j: nat ensures (p, j) in Places(b, id) <==> (p, j) in Places(a, id) {
      PlaceOf(a, id, p, j);
      PlaceOf(b, id, p, j);
    }
  }

  /** Naming a node once more adds one place. */
  lemma OneMorePlace(a: map<nat, Sweep>, p: nat, phase: Phase, node: string, id: string)
    requires p in a
    ensures var b := a[p := Sweep(phase, a[p].found + [node])];
            Places(b, id) == Places(a, id) + (if node == id then {(p, |a[p].found|)} else {})
    ensures (p, |a[p].found|) !in Places(a, id)
  {
    var b := a[p := Sweep(phase, a[p].found + [node])];
    var more := Places(a, id) + if node == id then {(p, |a[p].found|)} else {};
    PlaceOf(a, id, p, |a[p].found|);
    forall q: nat, j: nat ensures (q, j) in Places(b, id) <==> (q, j) in more {
      PlaceOf(a, id, q, j);
      PlaceOf(b, id, q, j);
    }
  }

  /** A statement changes a node into LOST exactly when it adds a place that names it, and then
      just one; no statement takes a place away. */
  lemma LossAddsOnePlace(s: System, a: Action, stale: seq<string>, s': System, id: string)
    requires Next(s, a, stale, s')
    ensures Places(s.sweeps, id) <= Places(s'.sweeps, id)
    ensures |Places(s'.sweeps, id)| == |Places(s.sweeps, id)| + if id in BecameLost(s.ledger, s'.ledger) then 1 else 0
  {
    if a.Lose? && LosesNow(s, a.sweep) {
      var sw := s.sweeps[a.sweep];
      OneMorePlace(s.sweeps, a.sweep, Losing(sw.phase.pending[1..]), sw.phase.pending[0], id);
      OneLost(s, a.sweep, stale, s');
    } else {
      NothingLost(s, a, stale, s');
      SamePlaces(s.sweeps, s'.sweeps, id);
    }
  }

  predicate LosesNow(s: System, p: nat) {
    && p in s.sweeps && s.sweeps[p].phase.Losing? && s.sweeps[p].phase.pending != []
    && var id := s.sweeps[p].phase.pending[0];
       id in s.ledger.nodes && s.ledger.nodes[id].state != Lost
  }

  lemma OneLost(s: System, p: nat, stale: seq<string>, s': System)
    requires Next(s, Lose(p), stale, s') && LosesNow(s, p)
    ensures BecameLost(s.ledger, s'.ledger) == {s.sweeps[p].phase.pending[0]}
    ensures s'.sweeps == s.sweeps[p := Sweep(Losing(s.sweeps[p].phase.pending[1..]),
                                            s.sweeps[p].found + [s.sweeps[p].phase.pending[0]])]
  {}

  lemma NothingLost(s: System, a: Action, stale: seq<string>, s': System)
    requires Next(s, a, stale, s') && !(a.Lose? && LosesNow(s, a.sweep))
    ensures BecameLost(s.ledger, s'.ledger) == {}
    ensures forall p :: p in s.sweeps ==> p in s'.sweeps && s'.sweeps[p].found == s.sweeps[p].found
    ensures forall p :: p in s'.sweeps && p !in s.sweeps ==> s'.sweeps[p].found == []
  {}

  // ---- No list names a node twice ----

  /** No list names a node twice, and none names a node the sweep has still to visit. */
  ghost predicate NamesOnce(sw: Sweep) {
    && (forall i, j :: 0 <= i < j < |sw.found| ==> sw.found[i] != sw.found[j])
    && (sw.phase.Losing? ==>
          && (forall i, j :: 0 <= i < j < |sw.phase.pending| ==> sw.phase.pending[i] != sw.phase.pending[j])
          && (forall id :: id in sw.phase.pending ==> id !in sw.found))
  }

  ghost predicate Inv(s: System) {
    forall p :: p in s.sweeps ==> NamesOnce(s.sweeps[p])
  }

  lemma LoseNamesOnce(sw: Sweep, id: string, changed: bool)
    requires NamesOnce(sw) && sw.phase.Losing? && sw.phase.pending != [] && id == sw.phase.pending[0]
    ensures NamesOnce(Sweep(Losing(sw.phase.pending[1..]), sw.found + if changed then [id] else []))
  {
    assert id in sw.phase.pending;
    forall x | x in sw.phase.pending[1..] ensures x in sw.phase.pending && x != id {}
  }

  lemma NextKeepsInv(s: System, a: Action, stale: seq<string>, s': System)
    requires Inv(s) && Next(s, a, stale, s')
    ensures Inv(s')
  {
    if a.Lose? {
      var sw := s.sweeps[a.sweep];
      var id := sw.phase.pending[0];
      LoseNamesOnce(sw, id, id in s.ledger.nodes && s.ledger.nodes[id].state != Lost);
    }
  }

  // ---- Whole behaviours ----

  /** A behaviour: a sequence of systems, each reached from the one before by one statement. */
  ghost predicate Behaviour(states: seq<System>, actions: seq<Action>, answers: seq<seq<string>>) {
    && |states| == |actions| + 1 == |answers| + 1
    && states[0].sweeps == map[]
    && forall k :: 0 <= k < |actions| ==> Next(states[k], actions[k], answers[k], states[k + 1])
  }

  lemma {:induction false} BehaviourKeepsInv(
      states: seq<System>, actions: seq<Action>, answers: seq<seq<string>>, k: nat)
    requires Behaviour(states, actions, answers) && k < |states|
    ensures Inv(states[k])
    decreases k
  {
    if k > 0 {
      BehaviourKeepsInv(states, actions, answers, k - 1);
      NextKeepsInv(states[k - 1], actions[k - 1], answers[k - 1], states[k]);
    }
  }

  /** The k-th statement changed the node into LOST, by what the ledger shows. */
  predicate LostBy(states: seq<System>, id: string, k: nat) {
    k + 1 < |states| && id in BecameLost(states[k].ledger, states[k + 1].ledger)
  }

  function Losses(states: seq<System>, id: string, n: nat): set<nat> {
    set k: nat | k < n && LostBy(states, id, k)
  }

  lemma LossesGrow(states: seq<System>, id: string, n: nat)
    requires n + 1 < |states|
    ensures |Losses(states, id, n + 1)| ==
            |Losses(states, id, n)| + if LostBy(states, id, n) then 1 else 0
  {
    var new_ := if LostBy(states, id, n) then {n} else {};
    assert Losses(states, id, n + 1) == Losses(states, id, n) + new_;
  }

  lemma {:induction false} PlacesCountLosses(
      states: seq<System>, actions: seq<Action>, answers: seq<seq<string>>, id: string, n: nat)
    requires Behaviour(states, actions, answers) && n < |states|
    ensures |Places(states[n].sweeps, id)| == |Losses(states, id, n)|
    decreases n
  {
    if n > 0 {
      PlacesCountLosses(states, actions, answers, id, n - 1);
      LossAddsOnePlace(states[n - 1], actions[n - 1], answers[n - 1], states[n], id);
      LossesGrow(states, id, n - 1);
    }
  }

  /** In every behaviour, for every node, at every moment: the sweeps' lists together name the node
      exactly as often as the ledger changed it into LOST, each such change adding one place of one
      list, and no list names a node twice. */
  lemma EachLossReportedOnce(
      states: seq<System>, actions: seq<Action>, answers: seq<seq<string>>, id: string, n: nat)
    requires Behaviour(states, actions, answers) && n < |states|
    ensures |Places(states[n].sweeps, id)| == |Losses(states, id, n)|
    ensures n > 0 ==> Places(states[n - 1].sweeps, id) <= Places(states[n].sweeps, id)
    ensures forall p, i, j :: p in states[n].sweeps && 0 <= i < j < |states[n].sweeps[p].found| ==>
              states[n].sweeps[p].found[i] != states[n].sweeps[p].found[j]
  {
    PlacesCountLosses(states, actions, answers, id, n);
    BehaviourKeepsInv(states, actions, answers, n);
    if n > 0 { LossAddsOnePlace(states[n - 1], actions[n - 1], answers[n - 1], states[n], id); }
  }

  // ---- One sweep on its own ----

  /** A behaviour, as it is recorded. */
  datatype Trace = Trace(states: seq<System>, actions: seq<Action>, answers: seq<seq<string>>)

  /** The trace is a behaviour that began with `first` and has come to `now`. */
  ghost predicate Records(t: Trace, first: System, now: System) {
    && Behaviour(t.states, t.actions, t.answers)
    && t.states[0] == first && t.states[|t.actions|] == now
  }

  function With(t: Trace, a: Action, answer: seq<string>, s: System): Trace {
    Trace(t.states + [s], t.actions + [a], t.answers + [answer])
  }

  lemma RecordOne(t: Trace, first: System, now: System, a: Action, answer: seq<string>, s: System)
    requires Records(t, first, now) && Next(now, a, answer, s)
    ensures Records(With(t, a, answer, s), first, s)
  {
    var t' := With(t, a, answer, s);
    forall k | 0 <= k < |t'.actions| ensures Next(t'.states[k], t'.actions[k], t'.answers[k], t'.states[k + 1]) {
      if k < |t.actions| {
        assert Next(t.states[k], t.actions[k], t.answers[k], t.states[k + 1]);
      }
    }
  }

  /** What a sweep leaves of a row nobody else touches meanwhile. */
  function Swept(n: Node, lostCutoff: int, suspectCutoff: int): Node {
    if n.heartbeat < lostCutoff && n.state !in {Draining, Lost} then n.(state := Lost)
    else if n.heartbeat < suspectCutoff && n.state == Ready then n.(state := Suspect)
    else n
  }

  /** The rows of `ids` have the state and are otherwise as they were, like all other rows. */
  ghost predicate Marked(l: Ledger, ids: seq<string>, state: NodeState, l': Ledger) {
    && l'.reservations == l.reservations && l'.nodes.Keys == l.nodes.Keys
    && forall id :: id in l.nodes ==> l'.nodes[id] == if id in ids then l.nodes[id].(state := state) else l.nodes[id]
  }

  lemma MarkOne(l: Ledger, ids: seq<string>, i: nat, state: NodeState, l': Ledger)
    requires i < |ids| && Marked(l, ids[..i], state, l')
    ensures Marked(l, ids[..i + 1], state, Apply(l', SetNodeState(ids[i], state)))
  {
    assert forall id :: id in ids[..i + 1] <==> id in ids[..i] || id == ids[i];
  }

  method LoseOne(store: Store, stale: seq<string>, i: nat, lost: seq<string>, ghost first: System, ghost before: Trace)
    returns (found: seq<string>, ghost t: Trace)
    requires i < |stale|
    requires Records(before, first, System(store.View(), map[0 := Sweep(Losing(stale[i..]), lost)]))
    modifies store
    ensures Records(t, first, System(store.View(), map[0 := Sweep(Losing(stale[i + 1..]), found)]))
    ensures store.View() == Apply(old(store.View()), SetNodeState(stale[i], Lost))
    ensures found == lost + if IsNotLost(old(store.View()), stale[i]) then [stale[i]] else []
  {
    ghost var now := System(store.View(), map[0 := Sweep(Losing(stale[i..]), lost)]);
    var changed := store.SetNodeState(stale[i], Lost);
    found := lost + if changed then [stale[i]] else [];
    ghost var next := System(store.View(), map[0 := Sweep(Losing(stale[i + 1..]), found)]);
    assert stale[i..][1..] == stale[i + 1..];
    assert next.sweeps == now.sweeps[0 := Sweep(Losing(stale[i + 1..]), found)];
    RecordOne(before, first, now, Lose(0), [], next);
    t := With(before, Lose(0), [], next);
  }

  predicate IsNotLost(l: Ledger, id: string) {
    id in l.nodes && l.nodes[id].state != Lost
  }

  /** A node listed later has not been touched yet. */
  lemma NextIsNotLost(l: Ledger, cutoff: int, stale: seq<string>, i: nat, l': Ledger)
    requires IsStaleList(l, cutoff, {Draining, Lost}, stale) && i < |stale| && Marked(l, stale[..i], Lost, l')
    ensures IsNotLost(l', stale[i])
  {
    assert stale[i] in stale && stale[i] !in stale[..i];
  }

  lemma LoseNext(l: Ledger, cutoff: int, stale: seq<string>, i: nat, l': Ledger)
    requires i < |stale| && IsStaleList(l, cutoff, {Draining, Lost}, stale) && Marked(l, stale[..i], Lost, l')
    ensures Marked(l, stale[..i + 1], Lost, Apply(l', SetNodeState(stale[i], Lost)))
    ensures stale[..i] + (if IsNotLost(l', stale[i]) then [stale[i]] else []) == stale[..i + 1]
  {
    NextIsNotLost(l, cutoff, stale, i, l');
    MarkOne(l, stale, i, Lost, l');
  }

  method LoseAll(store: Store, stale: seq<string>, ghost cutoff: int, ghost first: System, ghost before: Trace)
    returns (lost: seq<string>, ghost t: Trace)
    requires Records(before, first, System(store.View(), map[0 := Sweep(Losing(stale), [])]))
    requires IsStaleList(store.View(), cutoff, {Draining, Lost}, stale)
    modifies store
    ensures Records(t, first, System(store.View(), map[0 := Sweep(Losing([]), lost)]))
    ensures Marked(old(store.View()), stale, Lost, store.View()) && lost == stale
  {
    lost, t := [], before;
    for i := 0 to |stale|
      invariant Records(t, first, System(store.View(), map[0 := Sweep(Losing(stale[i..]), lost)]))
      invariant Marked(old(store.View()), stale[..i], Lost, store.View())
      invariant lost == stale[..i]
    {
      LoseNext(old(store.View()), cutoff, stale, i, store.View());
      lost, t := LoseOne(store, stale, i, lost, first, t);
    }
    assert stale[..|stale|] == stale && stale[|stale|..] == [];
  }

  method DoubtAll(
      store: Store, doubtful: seq<string>, ghost lost: seq<string>, ghost first: System, ghost before: Trace)
    returns (ghost t: Trace)
    requires Records(before, first, System(store.View(), map[0 := Sweep(Doubting(doubtful), lost)]))
    modifies store
    ensures Records(t, first, System(store.View(), map[0 := Sweep(Doubting([]), lost)]))
    ensures Marked(old(store.View()), doubtful, Suspect, store.View())
  {
    t := before;
    for i := 0 to |doubtful|
      invariant Records(t, first, System(store.View(), map[0 := Sweep(Doubting(doubtful[i..]), lost)]))
      invariant Marked(old(store.View()), doubtful[..i], Suspect, store.View())
    {
      ghost var now := System(store.View(), map[0 := Sweep(Doubting(doubtful[i..]), lost)]);
      MarkOne(old(store.View()), doubtful, i, Suspect, store.View());
      var _ := store.SetNodeState(doubtful[i], Suspect);
      ghost var next := System(store.View(), map[0 := Sweep(Doubting(doubtful[i + 1..]), lost)]);
      assert doubtful[i..][1..] == doubtful[i + 1..];
      assert next.sweeps == now.sweeps[0 := Sweep(Doubting(doubtful[i + 1..]), lost)];
      RecordOne(t, first, now, Doubt(0), [], next);
      t := With(t, Doubt(0), [], next);
    }
    assert doubtful[..|doubtful|] == doubtful && doubtful[|doubtful|..] == [];
  }

  lemma RowIsSwept(n: Node, lostCutoff: int, suspectCutoff: int, n1: Node, n2: Node)
    requires n1 == if n.heartbeat < lostCutoff && n.state !in {Draining, Lost} then n.(state := Lost) else n
    requires n2 == if n1.heartbeat < suspectCutoff && n1.state !in {Draining, Lost, Suspect}
                   then n1.(state := Suspect) else n1
    ensures n2 == Swept(n, lostCutoff, suspectCutoff)
  {}

  lemma MarkedRow(
      l: Ledger, cutoff: int, excluded: set<NodeState>, ids: seq<string>, state: NodeState, l': Ledger, id: string)
    requires IsStaleList(l, cutoff, excluded, ids) && Marked(l, ids, state, l') && id in l.nodes
    ensures id in l'.nodes
    ensures var n := l.nodes[id];
            l'.nodes[id] == if n.heartbeat < cutoff && n.state !in excluded then n.(state := state) else n
  {}

  lemma TwiceMarked(
      l: Ledger, stale: seq<string>, l1: Ledger, doubtful: seq<string>, l2: Ledger,
      lostCutoff: int, suspectCutoff: int)
    requires IsStaleList(l, lostCutoff, {Draining, Lost}, stale) && Marked(l, stale, Lost, l1)
    requires IsStaleList(l1, suspectCutoff, {Draining, Lost, Suspect}, doubtful) && Marked(l1, doubtful, Suspect, l2)
    ensures l2.reservations == l.reservations && l2.nodes.Keys == l.nodes.Keys
    ensures forall id :: id in l.nodes ==> l2.nodes[id] == Swept(l.nodes[id], lostCutoff, suspectCutoff)
  {
    forall id | id in l.nodes ensures l2.nodes[id] == Swept(l.nodes[id], lostCutoff, suspectCutoff) {
      TwiceMarkedRow(l, stale, l1, doubtful, l2, lostCutoff, suspectCutoff, id);
    }
  }

  lemma TwiceMarkedRow(
      l: Ledger, stale: seq<string>, l1: Ledger, doubtful: seq<string>, l2: Ledger,
      lostCutoff: int, suspectCutoff: int, id: string)
    requires IsStaleList(l, lostCutoff, {Draining, Lost}, stale) && Marked(l, stale, Lost, l1)
    requires IsStaleList(l1, suspectCutoff, {Draining, Lost, Suspect}, doubtful) && Marked(l1, doubtful, Suspect, l2)
    requires id in l.nodes
    ensures id in l2.nodes && l2.nodes[id] == Swept(l.nodes[id], lostCutoff, suspectCutoff)
  {
    MarkedRow(l, lostCutoff, {Draining, Lost}, stale, Lost, l1, id);
    MarkedRow(l1, suspectCutoff, {Draining, Lost, Suspect}, doubtful, Suspect, l2, id);
    RowIsSwept(l.nodes[id], lostCutoff, suspectCutoff, l1.nodes[id], l2.nodes[id]);
  }

  /** The first half: the nodes to be lost. */
  method LosePhase(store: Store, lostCutoff: int, ghost first: System) returns (lost: seq<string>, ghost t: Trace)
    requires first == System(store.View(), map[])
    modifies store
    ensures Records(t, first, System(store.View(), map[0 := Sweep(Losing([]), lost)]))
    ensures IsStaleList(first.ledger, lostCutoff, {Draining, Lost}, lost)
    ensures Marked(first.ledger, lost, Lost, store.View())
  {
    t := Trace([first], [], []);
    var stale := StaleNodes(store.View(), lostCutoff, {Draining, Lost});
    ghost var s1 := System(store.View(), map[0 := Sweep(Losing(stale), [])]);
    RecordOne(t, first, first, Begin(0, lostCutoff), stale, s1);
    lost, t := LoseAll(store, stale, lostCutoff, first, With(t, Begin(0, lostCutoff), stale, s1));
  }

  /** The second half: the nodes in doubt. */
  method DoubtPhase(store: Store, suspectCutoff: int, ghost lost: seq<string>, ghost first: System, ghost before: Trace)
    returns (ghost t: Trace, ghost doubtful: seq<string>)
    requires Records(before, first, System(store.View(), map[0 := Sweep(Losing([]), lost)]))
    modifies store
    ensures Records(t, first, System(store.View(), map[0 := Sweep(Doubting([]), lost)]))
    ensures IsStaleList(old(store.View()), suspectCutoff, {Draining, Lost, Suspect}, doubtful)
    ensures Marked(old(store.View()), doubtful, Suspect, store.View())
  {
    var ids := StaleNodes(store.View(), suspectCutoff, {Draining, Lost, Suspect});
    ghost var s2 := System(store.View(), map[0 := Sweep(Losing([]), lost)]);
    ghost var s3 := System(store.View(), map[0 := Sweep(Doubting(ids), lost)]);
    assert s3.sweeps == s2.sweeps[0 := Sweep(Doubting(ids), lost)];
    RecordOne(before, first, s2, Turn(0, suspectCutoff), ids, s3);
    t := DoubtAll(store, ids, lost, first, With(before, Turn(0, suspectCutoff), ids, s3));
    doubtful := ids;
  }

  lemma SweepReturns(t: Trace, first: System, l: Ledger, lost: seq<string>)
    requires Records(t, first, System(l, map[0 := Sweep(Doubting([]), lost)]))
    ensures var s := System(l, map[0 := Sweep(Returned, lost)]); Records(With(t, Return(0), [], s), first, s)
  {
    var s, s' := System(l, map[0 := Sweep(Doubting([]), lost)]), System(l, map[0 := Sweep(Returned, lost)]);
    assert s'.sweeps == s.sweeps[0 := Sweep(Returned, lost)];
    RecordOne(t, first, s, Return(0), [], s');
  }

  /** A sweep with nobody else about: nodes silent since `lostCutoff` turn LOST and are returned, each
      once, unless they are draining or lost already; READY nodes silent since `suspectCutoff` turn
      SUSPECT; nothing else changes. It is a behaviour of the system above. */
  method SweepLiveness(store: Store, lostCutoff: int, suspectCutoff: int) returns (lost: seq<string>, ghost t: Trace)
    modifies store
    ensures Records(t, System(old(store.View()), map[]), System(store.View(), map[0 := Sweep(Returned, lost)]))
    ensures IsStaleList(old(store.View()), lostCutoff, {Draining, Lost}, lost)
    ensures store.reservations == old(store.reservations) && store.nodes.Keys == old(store.nodes).Keys
    ensures forall id :: id in old(store.nodes) ==>
              store.nodes[id] == Swept(old(store.nodes)[id], lostCutoff, suspectCutoff)
  {
    ghost var first, doubtful := System(store.View(), map[]), [];
    lost, t := LosePhase(store, lostCutoff, first);
    ghost var l1 := store.View();
    t, doubtful := DoubtPhase(store, suspectCutoff, lost, first, t);
    TwiceMarked(first.ledger, lost, l1, doubtful, store.View(), lostCutoff, suspectCutoff);
    SweepReturns(t, first, store.View(), lost);
    t := With(t, Return(0), [], System(store.View(), map[0 := Sweep(Returned, lost)]));
  }
}
