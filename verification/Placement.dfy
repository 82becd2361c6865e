/** The placement ledger: what has been promised to each node, and by which reservation.

    Every store call is one database transaction, so it is one `Step`. Any interleaving of
    any number of control-plane replicas is a sequence of steps, and the theorems below
    quantify over all such sequences. */
module Placement {
  import opened Runs

  /** The four ledger columns. CPU is a float64 in the source and an exact real here. */
  datatype Amounts = Amounts(cpu: real, mem: int, disk: int, gpu: int) {
    function Plus(o: Amounts): Amounts {
      Amounts(cpu + o.cpu, mem + o.mem, disk + o.disk, gpu + o.gpu)
    }

    /** `CASE WHEN c - x < 0 THEN 0 ELSE c - x END`, column by column. */
    function ClampedMinus(o: Amounts): Amounts {
      Amounts(if cpu - o.cpu < 0.0 then 0.0 else cpu - o.cpu,
              if mem - o.mem < 0 then 0 else mem - o.mem,
              if disk - o.disk < 0 then 0 else disk - o.disk,
              if gpu - o.gpu < 0 then 0 else gpu - o.gpu)
    }

    predicate Within(o: Amounts) {
      cpu <= o.cpu && mem <= o.mem && disk <= o.disk && gpu <= o.gpu
    }
  }

  const ZERO := Amounts(0.0, 0, 0, 0)

  datatype NodeState = Ready | Suspect | Lost | Draining

  datatype CachedImage = CachedImage(sizeBytes: int, warm: bool)

  datatype Node = Node(
    region: string, labels: map<string, string>, runtimes: seq<string>,
    alloc: Amounts, committed: Amounts,
    inFlight: int, maxCreates: int,
    images: map<string, CachedImage>, nvme: bool,
    cpuVendor: string, cpuFamily: int,
    state: NodeState, heartbeat: int,
    diskUsed: int, cpuUsed: real, memUsed: real)

  datatype Reservation = Reservation(node: string, held: Amounts, spread: string)

  datatype Ledger = Ledger(nodes: map<string, Node>, reservations: map<string, Reservation>)

  const EMPTY := Ledger(map[], map[])

  const DEFAULT_MAX_CREATES := 16

  datatype Step =
    | Reserve(node: string, sandbox: string, want: Amounts, spread: string)
    | Release(sandbox: string)
    | FinishCreate(node: string)
    | UpsertNode(node: string, record: Node)
    | SetNodeState(node: string, state: NodeState)
    | RenewLease(node: string, now: int)
    | SetNodeUsage(node: string, diskUsed: int, cpuUsed: real, memUsed: real)
    | PutNodeImages(node: string, images: map<string, CachedImage>)

  /** The WHERE clause of the reserving UPDATE. */
  predicate Admits(nodes: map<string, Node>, id: string, want: Amounts) {
    id in nodes && nodes[id].state == Ready && nodes[id].committed.Plus(want).Within(nodes[id].alloc)
  }

  /** What a registration leaves in a row: accounting survives, everything else is replaced. */
  function Registered(nodes: map<string, Node>, id: string, record: Node): Node {
    var filled := record.(maxCreates := if record.maxCreates <= 0 then DEFAULT_MAX_CREATES else record.maxCreates);
    if id in nodes then
      var was := nodes[id];
      filled.(committed := was.committed, inFlight := was.inFlight,
              diskUsed := was.diskUsed, cpuUsed := was.cpuUsed, memUsed := was.memUsed)
    else
      filled.(committed := ZERO, inFlight := 0, diskUsed := 0, cpuUsed := 0.0, memUsed := 0.0)
  }

  function Apply(l: Ledger, s: Step): Ledger {
    match s
    case Reserve(n, sandbox, want, spread) =>
      if !Admits(l.nodes, n, want) then l
      else
        var row := l.nodes[n];
        Ledger(l.nodes[n := row.(committed := row.committed.Plus(want), inFlight := row.inFlight + 1)],
               if sandbox in l.reservations then l.reservations
               else l.reservations[sandbox := Reservation(n, want, spread)])
    case Release(sandbox) =>
      if sandbox !in l.reservations then l
      else
        var r := l.reservations[sandbox];
        Ledger(if r.node !in l.nodes then l.nodes
               else l.nodes[r.node := l.nodes[r.node].(committed := l.nodes[r.node].committed.ClampedMinus(r.held))],
               l.reservations - {sandbox})
    case FinishCreate(n) =>
      if n in l.nodes && l.nodes[n].inFlight > 0
      then l.(nodes := l.nodes[n := l.nodes[n].(inFlight := l.nodes[n].inFlight - 1)]) else l
    case UpsertNode(n, record) =>
      l.(nodes := l.nodes[n := Registered(l.nodes, n, record)])
    case SetNodeState(n, state) =>
      if n in l.nodes then l.(nodes := l.nodes[n := l.nodes[n].(state := state)]) else l
    case RenewLease(n, now) =>
      if n in l.nodes then
        var row := l.nodes[n];
        l.(nodes := l.nodes[n := row.(heartbeat := now,
                                      state := if row.state in {Suspect, Lost} then Ready else row.state)])
      else l
    case SetNodeUsage(n, disk, cpu, mem) =>
      if n in l.nodes
      then l.(nodes := l.nodes[n := l.nodes[n].(diskUsed := disk, cpuUsed := cpu, memUsed := mem)]) else l
    case PutNodeImages(n, images) =>
      if n in l.nodes then l.(nodes := l.nodes[n := l.nodes[n].(images := images)]) else l
  }

  // ---- What a node's reservations add up to ----

  function Share(r: Reservation, node: string): Amounts {
    if r.node == node then r.held else ZERO
  }

  ghost function Pick(keys: set<string>): (k: string)
    requires keys != {}
    ensures k in keys
  {
    var k :| k in keys;
    k
  }

  ghost function SumOver(res: map<string, Reservation>, keys: set<string>, node: string): Amounts
    requires keys <= res.Keys
  {
    if keys == {} then ZERO
    else
      Share(res[Pick(keys)], node).Plus(SumOver(res, keys - {Pick(keys)}, node))
  }

  /** The sum of the reservations held on a node. */
  ghost function Held(res: map<string, Reservation>, node: string): Amounts {
    SumOver(res, res.Keys, node)
  }

  lemma PlusSwap(a: Amounts, b: Amounts, c: Amounts)
    ensures a.Plus(b.Plus(c)) == b.Plus(a.Plus(c))
  {}

  /** The sum does not depend on the order in which reservations are taken. */
  lemma {:induction false} SumWithout(res: map<string, Reservation>, keys: set<string>, k: string, node: string)
    requires k in keys && keys <= res.Keys
    ensures SumOver(res, keys, node) == Share(res[k], node).Plus(SumOver(res, keys - {k}, node))
    decreases keys
  {
    var j := Pick(keys);
    if j == k { return; }
    var rest := keys - {j} - {k};
    assert keys - {k} - {j} == rest;
    calc {
      SumOver(res, keys, node);
      Share(res[j], node).Plus(SumOver(res, keys - {j}, node));
      { SumWithout(res, keys - {j}, k, node); }
      Share(res[j], node).Plus(Share(res[k], node).Plus(SumOver(res, rest, node)));
      { PlusSwap(Share(res[j], node), Share(res[k], node), SumOver(res, rest, node)); }
      Share(res[k], node).Plus(Share(res[j], node).Plus(SumOver(res, rest, node)));
      { SumWithout(res, keys - {k}, j, node); }
      Share(res[k], node).Plus(SumOver(res, keys - {k}, node));
    }
  }

  lemma {:induction false} SumAgrees(
      a: map<string, Reservation>, b: map<string, Reservation>, keys: set<string>, node: string)
    requires keys <= a.Keys && keys <= b.Keys
    requires forall k :: k in keys ==> a[k] == b[k]
    ensures SumOver(a, keys, node) == SumOver(b, keys, node)
    decreases keys
  {
    if keys != {} { SumAgrees(a, b, keys - {Pick(keys)}, node); }
  }

  lemma HeldWithout(res: map<string, Reservation>, k: string, node: string)
    requires k in res
    ensures Held(res, node) == Share(res[k], node).Plus(Held(res - {k}, node))
  {
    SumWithout(res, res.Keys, k, node);
    SumAgrees(res, res - {k}, res.Keys - {k}, node);
    assert (res - {k}).Keys == res.Keys - {k};
  }

  lemma InsertThenDelete<K, V>(m: map<K, V>, k: K, v: V)
    requires k !in m
    ensures m[k := v] - {k} == m
  {}

  lemma {:induction false} SumNonNegative(res: map<string, Reservation>, keys: set<string>, node: string)
    requires keys <= res.Keys && forall k :: k in keys ==> ZERO.Within(res[k].held)
    ensures ZERO.Within(SumOver(res, keys, node))
    decreases keys
  {
    if keys != {} { SumNonNegative(res, keys - {Pick(keys)}, node); }
  }

  lemma {:induction false} SumNowhere(res: map<string, Reservation>, keys: set<string>, node: string)
    requires keys <= res.Keys && forall k :: k in keys ==> res[k].node != node
    ensures SumOver(res, keys, node) == ZERO
    decreases keys
  {
    if keys != {} { SumNowhere(res, keys - {Pick(keys)}, node); }
  }

  // ---- Conservation ----

  /** Each node's committed columns are exactly the sum of its reservations. */
  ghost predicate Conserved(l: Ledger) {
    && (forall n :: n in l.nodes ==> l.nodes[n].committed == Held(l.reservations, n))
    && (forall k :: k in l.reservations ==> l.reservations[k].node in l.nodes)
    && (forall k :: k in l.reservations ==> ZERO.Within(l.reservations[k].held))
  }

  /** Request amounts are never negative. */
  predicate WellFormed(l: Ledger, s: Step) {
    s.Reserve? ==> ZERO.Within(s.want)
  }

  /** The reserving UPDATE takes effect while the INSERT finds the sandbox already recorded. */
  predicate CountsTwice(l: Ledger, s: Step) {
    s.Reserve? && Admits(l.nodes, s.node, s.want) && s.sandbox in l.reservations && s.want != ZERO
  }

  /** Recording a reservation while adding its amounts to its node keeps the books straight. */
  lemma RecordConserves(l: Ledger, l': Ledger, k: string)
    requires Conserved(l) && k in l'.reservations && l'.reservations - {k} == l.reservations
    requires var r := l'.reservations[k];
             r.node in l.nodes && ZERO.Within(r.held) && l'.nodes.Keys == l.nodes.Keys
             && forall m :: m in l'.nodes ==> l'.nodes[m].committed == l.nodes[m].committed.Plus(Share(r, m))
    ensures Conserved(l')
  {
    var r := l'.reservations[k];
    forall m | m in l'.nodes ensures l'.nodes[m].committed == Held(l'.reservations, m) {
      calc {
        l'.nodes[m].committed;
        l.nodes[m].committed.Plus(Share(r, m));
        { PlusCommutes(l.nodes[m].committed, Share(r, m)); }
        Share(r, m).Plus(l.nodes[m].committed);
        Share(r, m).Plus(Held(l.reservations, m));
        { HeldWithout(l'.reservations, k, m); }
        Held(l'.reservations, m);
      }
    }
    forall j | j in l'.reservations
      ensures l'.reservations[j].node in l'.nodes && ZERO.Within(l'.reservations[j].held)
    {
      assert j == k || j in l.reservations;
    }
  }

  /** A step that touches neither table's accounting columns keeps the books straight. */
  lemma UnrelatedConserves(l: Ledger, nodes: map<string, Node>)
    requires Conserved(l) && l.nodes.Keys <= nodes.Keys
    requires forall m :: m in nodes ==> nodes[m].committed == if m in l.nodes then l.nodes[m].committed else ZERO
    ensures Conserved(Ledger(nodes, l.reservations))
  {
    forall m | m in nodes ensures nodes[m].committed == Held(l.reservations, m) {
      if m !in l.nodes { SumNowhere(l.reservations, l.reservations.Keys, m); }
    }
  }

  lemma PlusCommutes(a: Amounts, b: Amounts)
    ensures a.Plus(b) == b.Plus(a)
    ensures a.Plus(b) == a ==> b == ZERO
    ensures a.Plus(ZERO) == a
  {}

  lemma RepeatedReserve(l: Ledger, n: string, sandbox: string, want: Amounts, spread: string)
    requires Conserved(l) && Admits(l.nodes, n, want) && sandbox in l.reservations
    ensures Conserved(Apply(l, Reserve(n, sandbox, want, spread))) <==> want == ZERO
  {
    var was := l.nodes[n].committed;
    var l' := Apply(l, Reserve(n, sandbox, want, spread));
    PlusCommutes(was, want);
    assert was == Held(l.reservations, n) && l'.reservations == l.reservations;
    assert l'.nodes[n].committed == was.Plus(want);
    assert n in l'.nodes;
  }

  /** In a conserved ledger the clamp in Release never bites. */
  lemma ReleaseIsExact(l: Ledger, sandbox: string)
    requires Conserved(l) && sandbox in l.reservations
    ensures var r := l.reservations[sandbox];
            var was := l.nodes[r.node].committed;
            was.ClampedMinus(r.held).Plus(r.held) == was
  {
    var r := l.reservations[sandbox];
    HeldWithout(l.reservations, sandbox, r.node);
    SumNonNegative(l.reservations - {sandbox}, (l.reservations - {sandbox}).Keys, r.node);
  }

  lemma EraseOne(res: map<string, Reservation>, k: string, n: string)
    requires k in res && forall j :: j in res ==> ZERO.Within(res[j].held)
    ensures Held(res, n).ClampedMinus(Share(res[k], n)) == Held(res - {k}, n)
  {
    var rest := Held(res - {k}, n);
    calc {
      Held(res, n).ClampedMinus(Share(res[k], n));
      { HeldWithout(res, k, n); PlusCommutes(rest, Share(res[k], n)); }
      rest.Plus(Share(res[k], n)).ClampedMinus(Share(res[k], n));
      { SumNonNegative(res - {k}, (res - {k}).Keys, n); PlusThenMinus(rest, Share(res[k], n)); }
      rest;
    }
  }

  lemma ReleaseConserves(l: Ledger, sandbox: string)
    requires Conserved(l)
    ensures Conserved(Apply(l, Release(sandbox)))
  {
    if sandbox in l.reservations {
      var l' := Apply(l, Release(sandbox));
      var r := l.reservations[sandbox];
      forall n | n in l'.nodes ensures l'.nodes[n].committed == Held(l'.reservations, n) {
        EraseOne(l.reservations, sandbox, n);
        SumNonNegative(l.reservations, l.reservations.Keys, n);
        PlusThenMinus(l.nodes[n].committed, ZERO);
        PlusCommutes(l.nodes[n].committed, ZERO);
      }
    }
  }

  /** Every transaction other than an effective Reserve or Release leaves the accounts alone. */
  lemma OtherStepsKeepAccounts(l: Ledger, s: Step)
    requires !s.Release? && !(s.Reserve? && Admits(l.nodes, s.node, s.want))
    ensures var l' := Apply(l, s);
            && l'.reservations == l.reservations && l.nodes.Keys <= l'.nodes.Keys
            && forall m :: m in l'.nodes ==>
                 l'.nodes[m].committed == if m in l.nodes then l.nodes[m].committed else ZERO
  {}

  /** One transaction keeps the ledger conserved exactly when it is not a Reserve that takes
      effect for a sandbox which already holds a reservation. */
  lemma StepConserves(l: Ledger, s: Step)
    requires Conserved(l) && WellFormed(l, s)
    ensures Conserved(Apply(l, s)) <==> !CountsTwice(l, s)
  {
    if s.Release? {
      ReleaseConserves(l, s.sandbox);
    } else if s.Reserve? && Admits(l.nodes, s.node, s.want) {
      if s.sandbox in l.reservations {
        RepeatedReserve(l, s.node, s.sandbox, s.want, s.spread);
      } else {
        FreshReserveConserves(l, s);
      }
    } else {
      OtherStepsKeepAccounts(l, s);
      UnrelatedConserves(l, Apply(l, s).nodes);
    }
  }

  lemma FreshReserveConserves(l: Ledger, s: Step)
    requires Conserved(l) && WellFormed(l, s) && s.Reserve? && Admits(l.nodes, s.node, s.want)
    requires s.sandbox !in l.reservations
    ensures Conserved(Apply(l, s))
  {
    PlusCommutes(ZERO, ZERO);
    InsertThenDelete(l.reservations, s.sandbox, Reservation(s.node, s.want, s.spread));
    RecordConserves(l, Apply(l, s), s.sandbox);
  }

  lemma EveryStepConserves()
    ensures forall l, s :: Conserved(l) && WellFormed(l, s) ==> (Conserved(Apply(l, s)) <==> !CountsTwice(l, s))
  {
    forall l, s | Conserved(l) && WellFormed(l, s) ensures Conserved(Apply(l, s)) <==> !CountsTwice(l, s) {
      StepConserves(l, s);
    }
  }

  /** Conservation over every interleaving: a run stays conserved at every moment if and only
      if no Reserve in it counts a sandbox twice. */
  lemma RunConserves(l: Ledger, steps: seq<Step>)
    requires Conserved(l)
    requires Each(Apply, WellFormed, l, steps)
    ensures Always(Apply, Conserved, l, steps) <==> Never(Apply, CountsTwice, l, steps)
  {
    EveryStepConserves();
    KeptIffNoBadStep(Apply, Conserved, WellFormed, CountsTwice, l, steps);
  }

  // ---- No oversell ----

  /** No node has promised more than it can allocate. */
  ghost predicate Fits(l: Ledger) {
    forall n :: n in l.nodes ==> Held(l.reservations, n).Within(l.nodes[n].alloc)
  }

  /** A registration that offers less than the node has already promised. */
  predicate Undercuts(l: Ledger, s: Step) {
    s.UpsertNode? && !(if s.node in l.nodes then l.nodes[s.node].committed else ZERO).Within(s.record.alloc)
  }

  lemma StepFits(l: Ledger, s: Step)
    requires Conserved(l) && Fits(l) && WellFormed(l, s) && !CountsTwice(l, s)
    ensures Fits(Apply(l, s)) <==> !Undercuts(l, s)
  {
    StepConserves(l, s);
    CommittedDecides(l);
    CommittedDecides(Apply(l, s));
    if s.Release? && s.sandbox in l.reservations { ReleaseIsExact(l, s.sandbox); }
    StepWithin(l, s);
  }

  ghost predicate AllWithin(nodes: map<string, Node>) {
    forall n :: n in nodes ==> nodes[n].committed.Within(nodes[n].alloc)
  }

  lemma StepWithin(l: Ledger, s: Step)
    requires AllWithin(l.nodes)
    requires forall k :: k in l.reservations ==> ZERO.Within(l.reservations[k].held)
    requires forall n :: n in l.nodes ==> ZERO.Within(l.nodes[n].committed)
    ensures AllWithin(Apply(l, s).nodes) <==> !Undercuts(l, s)
  {
    if s.UpsertNode? {
      var nodes := Apply(l, s).nodes;
      assert s.node in nodes;
      assert !Undercuts(l, s) <==> nodes[s.node].committed.Within(nodes[s.node].alloc);
    }
  }

  lemma CommittedDecides(l: Ledger)
    requires Conserved(l)
    ensures Fits(l) <==> AllWithin(l.nodes)
    ensures forall n :: n in l.nodes ==> ZERO.Within(l.nodes[n].committed)
  {
    forall n | n in l.nodes ensures ZERO.Within(l.nodes[n].committed) {
      SumNonNegative(l.reservations, l.reservations.Keys, n);
    }
  }

  /** No oversell over every interleaving: as long as no sandbox is counted twice, the four
      sums stay within every node's allocatable amounts at every moment if and only if no
      registration undercuts what its node has already promised. */
  lemma RunNeverOversells(l: Ledger, steps: seq<Step>)
    requires Conserved(l) && Fits(l)
    requires Each(Apply, WellFormed, l, steps)
    ensures Always(Apply, Sound, l, steps) <==> Never(Apply, Spoils, l, steps)
  {
    EveryStepKeepsSound();
    KeptIffNoBadStep(Apply, Sound, WellFormed, Spoils, l, steps);
  }

  lemma EveryStepKeepsSound()
    ensures forall l, s :: Sound(l) && WellFormed(l, s) ==> (Sound(Apply(l, s)) <==> !Spoils(l, s))
  {
    forall l, s | Sound(l) && WellFormed(l, s) ensures Sound(Apply(l, s)) <==> !Spoils(l, s) {
      StepConserves(l, s);
      if !CountsTwice(l, s) { StepFits(l, s); }
    }
  }

  ghost predicate Sound(l: Ledger) {
    Conserved(l) && Fits(l)
  }

  predicate Spoils(l: Ledger, s: Step) {
    CountsTwice(l, s) || Undercuts(l, s)
  }

  /** A ledger with one node, and possibly the one reservation of the example below. */
  function Sample(node: Node, cpu: real, creates: int, recorded: bool): Ledger {
    Ledger(map["n" := node.(committed := Amounts(cpu, 0, 0, 0), inFlight := node.inFlight + creates)],
           if recorded then map["sb" := Reservation("n", Amounts(1.0, 0, 0, 0), "")] else map[])
  }

  const ONE_CPU := Reserve("n", "sb", Amounts(1.0, 0, 0, 0), "")

  lemma SampleReserve(node: Node, cpu: real, creates: int, recorded: bool)
    requires node.state == Ready && node.alloc == Amounts(2.0, 0, 0, 0) && cpu <= 1.0
    ensures Apply(Sample(node, cpu, creates, recorded), ONE_CPU) == Sample(node, cpu + 1.0, creates + 1, true)
  {
    var l := Sample(node, cpu, creates, recorded);
    assert Admits(l.nodes, "n", ONE_CPU.want);
    assert Apply(l, ONE_CPU).nodes == Sample(node, cpu + 1.0, creates + 1, true).nodes;
  }

  lemma SampleRelease(node: Node, cpu: real, creates: int)
    requires cpu >= 1.0
    ensures Apply(Sample(node, cpu, creates, true), Release("sb")) == Sample(node, cpu - 1.0, creates, false)
  {
    var l := Sample(node, cpu, creates, true);
    assert (l.reservations - {"sb"}).Keys == {};
    assert Apply(l, Release("sb")).nodes == Sample(node, cpu - 1.0, creates, false).nodes;
  }

  /** The schema promises an idempotent Reserve; the second one is counted a second time, and
      releasing the sandbox leaves it behind. */
  lemma ReserveIsNotIdempotent(node: Node)
    requires node.state == Ready && node.alloc == Amounts(2.0, 0, 0, 0)
    ensures var twice := Apply(Apply(Sample(node, 0.0, 0, false), ONE_CPU), ONE_CPU);
            twice == Sample(node, 2.0, 2, true) && Apply(twice, Release("sb")) == Sample(node, 1.0, 2, false)
  {
    SampleReserve(node, 0.0, 0, false);
    SampleReserve(node, 1.0, 1, true);
    SampleRelease(node, 2.0, 2);
  }

  // ---- Who changes what ----

  /** The row without the columns that placements, heartbeats and reports write. */
  function Standing(n: Node): Node {
    n.(committed := ZERO, inFlight := 0, state := Ready, heartbeat := 0, images := map[],
       diskUsed := 0, cpuUsed := 0.0, memUsed := 0.0)
  }

  /** Only a registration of the node changes what it is, where it is and what it can allocate. */
  lemma StandingStays(l: Ledger, s: Step, m: string)
    requires m in l.nodes && !(s.UpsertNode? && s.node == m)
    ensures m in Apply(l, s).nodes && Standing(Apply(l, s).nodes[m]) == Standing(l.nodes[m])
  {}

  /** A heartbeat moves SUSPECT and LOST back to READY and leaves READY and DRAINING alone; besides
      the node's heartbeat it changes nothing else, in its row or in any other. */
  lemma HeartbeatRevives(l: Ledger, m: string, now: int)
    requires m in l.nodes
    ensures var l', was := Apply(l, RenewLease(m, now)), l.nodes[m].state;
            && l'.reservations == l.reservations && l'.nodes.Keys == l.nodes.Keys
            && (forall x :: x in l.nodes && x != m ==> l'.nodes[x] == l.nodes[x])
            && l'.nodes[m].heartbeat == now
            && (was == Suspect || was == Lost ==> l'.nodes[m].state == Ready)
            && (was == Ready || was == Draining ==> l'.nodes[m].state == was)
            && l'.nodes[m].(heartbeat := 0, state := Ready) == l.nodes[m].(heartbeat := 0, state := Ready)
  {}

  /** A registration keeps the accounts and the reported load of a node that is known, starts them
      at nothing for a new one, and takes every other column from the node, with 16 creates for a
      node that names none. No other row and no reservation changes. */
  lemma RegistrationKeepsAccounts(l: Ledger, m: string, record: Node)
    ensures var l' := Apply(l, UpsertNode(m, record));
            && l'.reservations == l.reservations && l'.nodes.Keys == l.nodes.Keys + {m}
            && (forall x :: x in l.nodes && x != m ==> l'.nodes[x] == l.nodes[x])
            && var n := l'.nodes[m];
               && n.maxCreates == (if record.maxCreates <= 0 then 16 else record.maxCreates)
               && n.state == record.state && n.heartbeat == record.heartbeat && n.images == record.images
               && Standing(n.(maxCreates := 0)) == Standing(record.(maxCreates := 0))
               && (m in l.nodes ==> n.committed == l.nodes[m].committed && n.inFlight == l.nodes[m].inFlight
                                    && n.diskUsed == l.nodes[m].diskUsed
                                    && n.cpuUsed == l.nodes[m].cpuUsed && n.memUsed == l.nodes[m].memUsed)
               && (m !in l.nodes ==> n.committed == ZERO && n.inFlight == 0 && n.diskUsed == 0
                                     && n.cpuUsed == 0.0 && n.memUsed == 0.0)
  {}

  /** A status report replaces the three load figures, and an inventory report the image list. */
  lemma ReportsReplace(l: Ledger, m: string, disk: int, cpu: real, mem: real, images: map<string, CachedImage>)
    requires m in l.nodes
    ensures var u, i := Apply(l, SetNodeUsage(m, disk, cpu, mem)), Apply(l, PutNodeImages(m, images));
            && u.reservations == i.reservations == l.reservations && u.nodes.Keys == i.nodes.Keys == l.nodes.Keys
            && (forall x :: x in l.nodes && x != m ==> u.nodes[x] == i.nodes[x] == l.nodes[x])
            && u.nodes[m].diskUsed == disk && u.nodes[m].cpuUsed == cpu && u.nodes[m].memUsed == mem
            && u.nodes[m].(diskUsed := 0, cpuUsed := 0.0, memUsed := 0.0)
               == l.nodes[m].(diskUsed := 0, cpuUsed := 0.0, memUsed := 0.0)
            && i.nodes[m].images == images && i.nodes[m].(images := map[]) == l.nodes[m].(images := map[])
  {}

  /** Setting a state sets that state, and nothing else. */
  lemma StateIsSet(l: Ledger, m: string, state: NodeState)
    requires m in l.nodes
    ensures var l' := Apply(l, SetNodeState(m, state));
            && l'.reservations == l.reservations && l'.nodes.Keys == l.nodes.Keys
            && (forall x :: x in l.nodes && x != m ==> l'.nodes[x] == l.nodes[x])
            && l'.nodes[m].state == state && l'.nodes[m].(state := Ready) == l.nodes[m].(state := Ready)
  {}

  /** A step about a node that is not there, other than its registration, changes no node. */
  lemma UnknownNodeStaysUnknown(l: Ledger, s: Step)
    requires s.Release? || s.UpsertNode? || s.node !in l.nodes
    ensures s.UpsertNode? || Apply(l, s).nodes.Keys == l.nodes.Keys
    ensures !s.UpsertNode? && !s.Release? ==> Apply(l, s) == l
  {}

  // -- Draining

  predicate IsDraining(l: Ledger, m: string) {
    m in l.nodes && l.nodes[m].state == Draining
  }

  /** Someone decides the node's state afresh: sets it, or registers the node again. */
  predicate Decides(s: Step, m: string) {
    (s.SetNodeState? || s.UpsertNode?) && s.node == m
  }

  function Resident(l: Ledger, m: string): set<string> {
    set k | k in l.reservations && l.reservations[k].node == m
  }

  /** A reservation appears only through a Reserve of that sandbox on a READY node, as it was asked
      for, and only there does a node's commitment grow. */
  lemma WorkNeedsReady(l: Ledger, s: Step, k: string)
    requires k in Apply(l, s).reservations && k !in l.reservations
    ensures s.Reserve? && s.sandbox == k && s.node in l.nodes && l.nodes[s.node].state == Ready
    ensures Apply(l, s).reservations[k] == Reservation(s.node, s.want, s.spread)
  {}

  lemma DrainingTakesNothing(l: Ledger, s: Step, m: string)
    requires IsDraining(l, m) && !Decides(s, m)
    ensures IsDraining(Apply(l, s), m) && Resident(Apply(l, s), m) <= Resident(l, m)
  {
    var l' := Apply(l, s);
    forall k | k in Resident(l', m) ensures k in Resident(l, m) {
      if k !in l.reservations { WorkNeedsReady(l, s, k); }
    }
  }

  /** Draining holds: through every run in which nobody sets the node's state or registers it, the
      node stays DRAINING, heartbeats included, and no sandbox is added to it. */
  lemma DrainingHolds(l: Ledger, steps: seq<Step>, m: string)
    requires IsDraining(l, m) && forall k :: 0 <= k < |steps| ==> !Decides(steps[k], m)
    ensures Always(Apply, (x: Ledger) => IsDraining(x, m) && Resident(x, m) <= Resident(l, m), l, steps)
  {
    var inv := (x: Ledger) => IsDraining(x, m) && Resident(x, m) <= Resident(l, m);
    var ok := (x: Ledger, s: Step) => !Decides(s, m);
    forall x, s | inv(x) && ok(x, s) ensures inv(Apply(x, s)) { DrainingTakesNothing(x, s, m); }
    KeptBySteps(Apply, inv, ok, l, steps);
  }

  // -- Creates in flight

  function Starts(l: Ledger, s: Step, m: string): nat {
    if s.Reserve? && s.node == m && Admits(l.nodes, m, s.want) then 1 else 0
  }

  function Finishes(l: Ledger, s: Step, m: string): nat {
    if s == FinishCreate(m) && m in l.nodes && l.nodes[m].inFlight > 0 then 1 else 0
  }

  lemma StepCountsCreates(l: Ledger, s: Step, m: string)
    requires m in l.nodes
    ensures m in Apply(l, s).nodes
    ensures Apply(l, s).nodes[m].inFlight == l.nodes[m].inFlight + Starts(l, s, m) - Finishes(l, s, m)
  {}

  /** How often something happened along a run. */
  ghost function Occurrences(what: (Ledger, Step) -> nat, l: Ledger, steps: seq<Step>): nat {
    if steps == [] then 0
    else
      var n := |steps| - 1;
      Occurrences(what, l, steps[..n]) + what(Run(Apply, l, steps[..n]), steps[n])
  }

  /** Over every run, the creates in flight on a node are those at the start, and one for each
      Reserve that took effect there, less one for each FinishCreate that found any. */
  lemma {:induction false} CreatesAreCounted(l: Ledger, steps: seq<Step>, m: string)
    requires m in l.nodes
    ensures var l' := Run(Apply, l, steps);
            && m in l'.nodes
            && l'.nodes[m].inFlight == l.nodes[m].inFlight
                 + Occurrences((x: Ledger, s: Step) => Starts(x, s, m), l, steps)
                 - Occurrences((x: Ledger, s: Step) => Finishes(x, s, m), l, steps)
    decreases |steps|
  {
    if steps != [] {
      var n := |steps| - 1;
      CreatesAreCounted(l, steps[..n], m);
      StepCountsCreates(Run(Apply, l, steps[..n]), steps[n], m);
    }
  }

  // ---- Reserve and Release undo each other ----

  /** Releasing a fresh reservation restores both tables; only the in-flight marker stays. */
  lemma ReleaseUndoesReserve(l: Ledger, s: Step)
    requires Conserved(l) && s.Reserve? && WellFormed(l, s)
    requires s.sandbox !in l.reservations && Admits(l.nodes, s.node, s.want)
    ensures var back := Apply(Apply(l, s), Release(s.sandbox));
            && back.reservations == l.reservations
            && back.nodes == l.nodes[s.node := l.nodes[s.node].(inFlight := l.nodes[s.node].inFlight + 1)]
  {
    var was := l.nodes[s.node].committed;
    assert was == Held(l.reservations, s.node);
    SumNonNegative(l.reservations, l.reservations.Keys, s.node);
    PlusThenMinus(was, s.want);
    InsertThenDelete(l.reservations, s.sandbox, Reservation(s.node, s.want, s.spread));
  }

  lemma PlusThenMinus(a: Amounts, b: Amounts)
    requires ZERO.Within(a)
    ensures a.Plus(b).ClampedMinus(b) == a
  {}

  // ---- The store itself ----

  class Store {
    var nodes: map<string, Node>
    var reservations: map<string, Reservation>

    constructor ()
      ensures View() == EMPTY
    {
      nodes, reservations := map[], map[];
    }

    function View(): Ledger
      reads this
    {
      Ledger(nodes, reservations)
    }

    /** `ok` is false exactly for ErrCapacityChanged. */
    method Reserve(node: string, sandbox: string, want: Amounts, spread: string) returns (ok: bool)
      modifies this
      ensures ok <==> Admits(old(nodes), node, want)
      ensures View() == Apply(old(View()), Step.Reserve(node, sandbox, want, spread))
    {
      ok := false;
      if node in nodes {
        var row := nodes[node];
        if row.state == Ready && row.committed.Plus(want).Within(row.alloc) {
          nodes := nodes[node := row.(committed := row.committed.Plus(want), inFlight := row.inFlight + 1)];
          if sandbox !in reservations {
            reservations := reservations[sandbox := Reservation(node, want, spread)];
          }
          ok := true;
        }
      }
    }

    method Release(sandbox: string)
      modifies this
      ensures View() == Apply(old(View()), Step.Release(sandbox))
    {
      if sandbox !in reservations { return; }
      var r := reservations[sandbox];
      if r.node in nodes {
        var row := nodes[r.node];
        nodes := nodes[r.node := row.(committed := row.committed.ClampedMinus(r.held))];
      }
      reservations := reservations - {sandbox};
    }

    /** `changed` is how a sweep learns that this very call moved the node. */
    method SetNodeState(node: string, state: NodeState) returns (changed: bool)
      modifies this`nodes
      ensures changed <==> node in old(nodes) && old(nodes)[node].state != state
      ensures View() == Apply(old(View()), Step.SetNodeState(node, state))
    {
      changed := node in nodes && nodes[node].state != state;
      if changed { nodes := nodes[node := nodes[node].(state := state)]; }
    }

    /** Any store transaction, as another replica may commit it. */
    method Commit(s: Step)
      modifies this
      ensures View() == Apply(old(View()), s)
    {
      match s
      case Reserve(n, sandbox, want, spread) => var _ := Reserve(n, sandbox, want, spread);
      case Release(sandbox) => Release(sandbox);
      case FinishCreate(n) =>
        if n in nodes && nodes[n].inFlight > 0 { nodes := nodes[n := nodes[n].(inFlight := nodes[n].inFlight - 1)]; }
      case UpsertNode(n, record) => nodes := nodes[n := Registered(nodes, n, record)];
      case SetNodeState(n, state) => var _ := SetNodeState(n, state);
      case RenewLease(n, now) =>
        if n in nodes {
          var row := nodes[n];
          if row.state in {Suspect, Lost} { row := row.(state := Ready); }
          nodes := nodes[n := row.(heartbeat := now)];
        }
      case SetNodeUsage(n, disk, cpu, mem) =>
        if n in nodes { nodes := nodes[n := nodes[n].(diskUsed := disk, cpuUsed := cpu, memUsed := mem)]; }
      case PutNodeImages(n, images) =>
        if n in nodes { nodes := nodes[n := nodes[n].(images := images)]; }
    }
  }
}
