/** What each column of a node is worth to the scheduler: laws of the score on two nodes of one
    ledger that differ in that column alone. */
module Preference {
  import opened Placement
  import opened Scoring

  /** The spread key does not tell the two nodes apart. */
  predicate SameGroup(l: Ledger, req: Request, a: string, b: string) {
    req.spread == "" || GroupSize(l, req.spread, a) == GroupSize(l, req.spread, b)
  }

  /** Both nodes are there, the row of `a` is `n`, and the spread key does not tell them apart. */
  predicate Alike(l: Ledger, req: Request, a: string, b: string, n: Node) {
    a in l.nodes && b in l.nodes && l.nodes[a] == n && SameGroup(l, req, a, b)
  }

  // ---- The score is a sum ----

  lemma PressureCosts(w: Weights, f: Features, pressure: real)
    ensures Total(w, f) - Total(w, f.(pressure := pressure))
         == w.createPressure * pressure - w.createPressure * f.pressure
  {}

  lemma ImageAdds(w: Weights, f: Features, warm: bool)
    requires !f.cached && !f.warm
    ensures Total(w, f.(cached := true, warm := warm)) - Total(w, f)
         == w.imageAffinity + if warm then w.warmSnapshot else 0.0
  {}

  lemma FastPullAdds(w: Weights, f: Features)
    requires !f.fastPull
    ensures Total(w, f.(fastPull := true)) - Total(w, f) == w.nvmeCache
  {}

  lemma PackingAdds(w: Weights, f: Features, packed: real)
    ensures Total(w, f.(packed := packed)) - Total(w, f) == w.packing * packed - w.packing * f.packed
  {}

  lemma HeatCosts(w: Weights, f: Features, hot: real)
    ensures Total(w, f) - Total(w, f.(hot := hot)) == w.load * (hot - f.hot) / 100.0
  {
    assert w.load * hot - w.load * f.hot == w.load * (hot - f.hot);
  }

  lemma PeersCost(w: Weights, f: Features, peers: nat)
    ensures Total(w, f) - Total(w, f.(peers := peers)) == w.spread * (peers - f.peers) as real
  {
    var x, y := f.peers as real, peers as real;
    assert w.spread * y - w.spread * x == w.spread * (y - x);
  }

  // ---- Creates in flight ----

  lemma PressureBelowLimit(weight: real, inFlight: int, limit: int)
    requires 0 <= inFlight <= limit && 0 < limit
    ensures weight * Pressure(inFlight, limit) * limit as real == weight * inFlight as real
  {
    var whole := limit as real;
    var q := inFlight as real / whole;
    QuotientInUnit(inFlight as real, whole);
    assert Pressure(inFlight, limit) == q;
    calc {
      weight * q * whole;
      weight * (q * whole);
      weight * inFlight as real;
    }
  }

  /** Against an idle node otherwise like it, a node loses the create-pressure weight in proportion
      to how much of its own limit is in flight. */
  lemma PressureIsProportional(w: Weights, l: Ledger, req: Request, idle: string, busy: string)
    requires busy in l.nodes && Alike(l, req, idle, busy, l.nodes[busy].(inFlight := 0))
    requires 0 <= l.nodes[busy].inFlight <= l.nodes[busy].maxCreates && 0 < l.nodes[busy].maxCreates
    ensures (Score(w, l, idle, req) - Score(w, l, busy, req)) * l.nodes[busy].maxCreates as real
         == w.createPressure * l.nodes[busy].inFlight as real
  {
    var n, f := l.nodes[busy], FeaturesOf(l, idle, req);
    PressureBelowLimit(w.createPressure, n.inFlight, n.maxCreates);
    PressureCosts(w, f, Pressure(n.inFlight, n.maxCreates));
    assert FeaturesOf(l, busy, req) == f.(pressure := Pressure(n.inFlight, n.maxCreates));
  }

  lemma PressureAtLimit(inFlight: int, limit: int)
    requires 0 < limit <= inFlight
    ensures Pressure(inFlight, limit) == 1.0
  {
    var load := inFlight as real / limit as real;
    assert (load - 1.0) * limit as real == (inFlight - limit) as real;
  }

  /** At or past its limit it loses the whole weight, and a node with no limit or nothing in
      flight loses nothing. */
  lemma PressureStopsAtTheLimit(w: Weights, l: Ledger, req: Request, idle: string, busy: string)
    requires busy in l.nodes && Alike(l, req, idle, busy, l.nodes[busy].(inFlight := 0))
    ensures var n, lost := l.nodes[busy], Score(w, l, idle, req) - Score(w, l, busy, req);
            && (0 < n.maxCreates <= n.inFlight ==> lost == w.createPressure)
            && (n.maxCreates <= 0 || n.inFlight <= 0 ==> lost == 0.0)
  {
    var n, f := l.nodes[busy], FeaturesOf(l, idle, req);
    if 0 < n.maxCreates <= n.inFlight { PressureAtLimit(n.inFlight, n.maxCreates); }
    PressureCosts(w, f, Pressure(n.inFlight, n.maxCreates));
    assert FeaturesOf(l, busy, req) == f.(pressure := Pressure(n.inFlight, n.maxCreates));
  }

  lemma PressureGrows(fewer: int, more: int, limit: int)
    requires 0 <= fewer < more && fewer < limit
    ensures Pressure(fewer, limit) < Pressure(more, limit)
  {
    var whole := limit as real;
    var p, q := fewer as real / whole, more as real / whole;
    QuotientInUnit(fewer as real, whole);
    assert (q - p) * whole == (more - fewer) as real;
    assert (1.0 - p) * whole == (limit - fewer) as real;
  }

  lemma WeightKeepsOrder(weight: real, p: real, q: real)
    requires weight > 0.0 && p < q
    ensures weight * p < weight * q
  {
    assert weight * (q - p) > 0.0;
  }

  /** So of two nodes that differ in nothing else, the one with fewer creates in flight, below
      the limit, is preferred, whatever their ids. */
  lemma IdlerIsPreferred(w: Weights, l: Ledger, req: Request, a: string, b: string, fewer: int)
    requires b in l.nodes && Alike(l, req, a, b, l.nodes[b].(inFlight := fewer)) && w.createPressure > 0.0
    requires 0 <= fewer < l.nodes[b].inFlight && fewer < l.nodes[b].maxCreates
    ensures Better(w, l, req, a, b)
  {
    var n, f := l.nodes[b], FeaturesOf(l, a, req);
    PressureGrows(fewer, n.inFlight, n.maxCreates);
    WeightKeepsOrder(w.createPressure, Pressure(fewer, n.maxCreates), Pressure(n.inFlight, n.maxCreates));
    PressureCosts(w, f, Pressure(n.inFlight, n.maxCreates));
    assert FeaturesOf(l, b, req) == f.(pressure := Pressure(n.inFlight, n.maxCreates));
  }

  // ---- Reported load ----

  /** Of CPU and memory the hotter one counts, each point of it a hundredth of the weight. */
  lemma LoadIsTheHotter(w: Weights, l: Ledger, req: Request, a: string, b: string, cpu: real, mem: real)
    requires b in l.nodes && Alike(l, req, a, b, l.nodes[b].(cpuUsed := cpu, memUsed := mem))
    ensures var gain, n := Score(w, l, a, req) - Score(w, l, b, req), l.nodes[b];
            && (cpu >= mem && n.cpuUsed >= n.memUsed ==> gain == w.load * (n.cpuUsed - cpu) / 100.0)
            && (cpu >= mem && n.cpuUsed <= n.memUsed ==> gain == w.load * (n.memUsed - cpu) / 100.0)
            && (cpu <= mem && n.cpuUsed >= n.memUsed ==> gain == w.load * (n.cpuUsed - mem) / 100.0)
            && (cpu <= mem && n.cpuUsed <= n.memUsed ==> gain == w.load * (n.memUsed - mem) / 100.0)
  {
    var n, f := l.nodes[b], FeaturesOf(l, a, req);
    var hot := Hotter(n.cpuUsed, n.memUsed);
    HeatCosts(w, f, hot);
    assert FeaturesOf(l, b, req) == f.(hot := hot);
  }

  // ---- Packing ----

  lemma Quotients(p: real, q: real, whole: real)
    requires whole > 0.0
    ensures p / whole - q / whole == (p - q) / whole
  {
    var x, y, z := p / whole, q / whole, (p - q) / whole;
    assert x * whole == p && y * whole == q && z * whole == p - q;
    assert (x - y - z) * whole == 0.0;
  }

  lemma PackedDiffers(x: Amounts, y: Amounts, want: Amounts, alloc: Amounts)
    requires alloc.cpu > 0.0 && alloc.mem > 0
    ensures Packed(x, want, alloc) - Packed(y, want, alloc)
         == ((x.cpu - y.cpu) / alloc.cpu + (x.mem - y.mem) as real / alloc.mem as real) / 2.0
  {
    Quotients(x.cpu + want.cpu, y.cpu + want.cpu, alloc.cpu);
    Quotients((x.mem + want.mem) as real, (y.mem + want.mem) as real, alloc.mem as real);
  }

  /** Packing adds half the weight for the whole of a node's CPU and half for the whole of its
      memory, in proportion to what is committed of each. */
  lemma PackingIsProportional(w: Weights, l: Ledger, req: Request, a: string, b: string, x: Amounts)
    requires b in l.nodes && Alike(l, req, a, b, l.nodes[b].(committed := x))
    requires l.nodes[b].alloc.cpu > 0.0 && l.nodes[b].alloc.mem > 0
    ensures var y, alloc := l.nodes[b].committed, l.nodes[b].alloc;
            Score(w, l, a, req) - Score(w, l, b, req) == w.packing
              * (((x.cpu - y.cpu) / alloc.cpu + (x.mem - y.mem) as real / alloc.mem as real) / 2.0)
  {
    var y, alloc := l.nodes[b].committed, l.nodes[b].alloc;
    PackedDiffers(x, y, req.want, alloc);
    var p, f := Packed(x, req.want, alloc), FeaturesOf(l, b, req);
    PackingAdds(w, f, p);
    assert FeaturesOf(l, a, req) == f.(packed := p);
    assert w.packing * p - w.packing * f.packed == w.packing * (p - f.packed);
  }

  /** The request itself counts as committed: asking for as much more as one node has committed
      less makes up the difference. */
  lemma PackingCountsTheRequest(w: Weights, l: Ledger, req: Request, a: string, b: string, more: Amounts)
    requires b in l.nodes && Alike(l, req, a, b, l.nodes[b].(committed := l.nodes[b].committed.Plus(more)))
    ensures Score(w, l, a, req) == Score(w, l, b, req.(want := req.want.Plus(more)))
  {
    var n, larger := l.nodes[b], req.(want := req.want.Plus(more));
    assert Packed(n.committed.Plus(more), req.want, n.alloc) == Packed(n.committed, larger.want, n.alloc);
    assert FeaturesOf(l, a, req) == FeaturesOf(l, b, larger);
  }

  /** A resource the node has none of does not count. */
  lemma NothingToPack(w: Weights, l: Ledger, req: Request, a: string, b: string, x: Amounts)
    requires b in l.nodes && Alike(l, req, a, b, l.nodes[b].(committed := x))
    requires l.nodes[b].alloc.cpu <= 0.0 && l.nodes[b].alloc.mem <= 0
    ensures Score(w, l, a, req) == Score(w, l, b, req)
  {
    assert Packed(x, req.want, l.nodes[b].alloc) == 0.0;
    assert FeaturesOf(l, a, req) == FeaturesOf(l, b, req);
  }

  // ---- Images and the cache disk ----

  /** Against a node without the image and without an NVMe cache, the bytes of the image are worth
      the affinity weight and a warm snapshot of it the warm weight on top; a listing without bytes
      is worth nothing. */
  lemma ImageIsWorth(w: Weights, l: Ledger, req: Request, a: string, b: string, image: CachedImage)
    requires b in l.nodes && req.image !in l.nodes[b].images && !l.nodes[b].nvme
    requires Alike(l, req, a, b, l.nodes[b].(images := l.nodes[b].images[req.image := image]))
    ensures var gain := Score(w, l, a, req) - Score(w, l, b, req);
            && (image.sizeBytes <= 0 ==> gain == 0.0)
            && (image.sizeBytes > 0 && !image.warm ==> gain == w.imageAffinity)
            && (image.sizeBytes > 0 && image.warm ==> gain == w.imageAffinity + w.warmSnapshot)
  {
    var f := FeaturesOf(l, b, req);
    ImageAdds(w, f, image.warm);
    assert FeaturesOf(l, a, req) == if image.sizeBytes > 0 then f.(cached := true, warm := image.warm) else f;
  }

  /** An NVMe cache is worth its weight exactly to a node that does not list the image at all. */
  lemma CacheIsWorth(w: Weights, l: Ledger, req: Request, a: string, b: string)
    requires b in l.nodes && !l.nodes[b].nvme && Alike(l, req, a, b, l.nodes[b].(nvme := true))
    ensures Score(w, l, a, req) - Score(w, l, b, req)
         == if req.image in l.nodes[b].images then 0.0 else w.nvmeCache
  {
    var f := FeaturesOf(l, b, req);
    FastPullAdds(w, f);
    assert FeaturesOf(l, a, req) == if req.image in l.nodes[b].images then f else f.(fastPull := true);
  }

  // ---- Spread ----

  /** Each member of the request's group on a node costs it the spread weight once, and without a
      spread key the groups do not matter. */
  lemma SpreadIsProportional(w: Weights, l: Ledger, req: Request, a: string, b: string)
    requires a in l.nodes && b in l.nodes && l.nodes[a] == l.nodes[b]
    ensures Score(w, l, a, req) - Score(w, l, b, req)
         == if req.spread == "" then 0.0
            else w.spread * (GroupSize(l, req.spread, b) - GroupSize(l, req.spread, a)) as real
  {
    var f, peers := FeaturesOf(l, a, req), FeaturesOf(l, b, req).peers;
    PeersCost(w, f, peers);
    assert FeaturesOf(l, b, req) == f.(peers := peers);
  }

  /** So of two nodes that differ in nothing else, the one with fewer members of the request's
      spread group is preferred, whatever their ids. */
  lemma SpreadPrefersEmptier(w: Weights, l: Ledger, req: Request, a: string, b: string)
    requires a in l.nodes && b in l.nodes && l.nodes[a] == l.nodes[b]
    requires req.spread != "" && w.spread > 0.0
    requires GroupSize(l, req.spread, a) < GroupSize(l, req.spread, b)
    ensures Better(w, l, req, a, b)
  {
    SpreadIsProportional(w, l, req, a, b);
    assert w.spread * (GroupSize(l, req.spread, b) - GroupSize(l, req.spread, a)) as real > 0.0;
  }

  function Members(l: Ledger, spread: string, id: string): set<string> {
    set k | k in l.reservations && l.reservations[k].spread == spread && l.reservations[k].node == id
  }

  lemma NewMember(l: Ledger, s: Step, spread: string, id: string)
    requires s.Reserve? && Admits(l.nodes, s.node, s.want) && s.sandbox !in l.reservations
    ensures Members(Apply(l, s), spread, id)
         == Members(l, spread, id) + if spread == s.spread && id == s.node then {s.sandbox} else {}
  {}

  /** A new reservation is one more member of its own group on its own node, and of no other. */
  lemma ReservationJoinsItsGroup(l: Ledger, s: Step, spread: string, id: string)
    requires s.Reserve? && Admits(l.nodes, s.node, s.want) && s.sandbox !in l.reservations
    ensures GroupSize(Apply(l, s), spread, id)
         == GroupSize(l, spread, id) + if spread == s.spread && id == s.node then 1 else 0
  {
    NewMember(l, s, spread, id);
    assert GroupSize(Apply(l, s), spread, id) == |Members(Apply(l, s), spread, id)|;
    assert GroupSize(l, spread, id) == |Members(l, spread, id)|;
  }

  // ---- Defaults and ties ----

  /** What a node is worth with the shipped weights, in points. */
  lemma DefaultPoints(f: Features)
    ensures Total(DEFAULT_WEIGHTS, f)
         == (if f.cached then 10.0 else 0.0) + (if f.warm then 15.0 else 0.0) + (if f.fastPull then 2.0 else 0.0)
            + 3.0 * f.packed - 12.0 * f.pressure - 6.0 * f.hot / 100.0 - 4.0 * f.peers as real
  {}

  /** Equal nodes are taken in the order of their ids. */
  lemma TieGoesToTheLowerId(w: Weights, l: Ledger, req: Request, a: string, b: string)
    requires a in l.nodes && b in l.nodes && l.nodes[a] == l.nodes[b] && SameGroup(l, req, a, b)
    ensures Better(w, l, req, a, b) <==> Less(a, b)
  {
    assert FeaturesOf(l, a, req) == FeaturesOf(l, b, req);
  }

  predicate FirstDifference(a: string, b: string, k: nat) {
    && k <= |a| && k < |b| && a[..k] == b[..k]
    && (k < |a| ==> a[k] < b[k])
  }

  lemma FirstDifferenceOfTails(a: string, b: string, k: nat)
    requires 0 < k && a != "" && b != "" && a[0] == b[0]
    ensures FirstDifference(a, b, k) <==> FirstDifference(a[1..], b[1..], k - 1)
  {
    if k <= |a| && k < |b| {
      var x, y := a[1..][..k - 1], b[1..][..k - 1];
      assert a[..k] == [a[0]] + x && b[..k] == [b[0]] + y;
      assert a[..k] == b[..k] <==> x == y by {
        assert a[..k][1..] == x && b[..k][1..] == y;
      }
    }
  }

  /** The order of ids is that of the first character in which they differ, a proper prefix
      coming first. */
  lemma {:induction false} LessIff(a: string, b: string)
    ensures Less(a, b) <==> exists k: nat :: FirstDifference(a, b, k)
    decreases |a|
  {
    if b != "" {
      if a == "" || a[0] < b[0] {
        assert FirstDifference(a, b, 0);
      } else if a[0] == b[0] {
        LessIff(a[1..], b[1..]);
        if k: nat :| FirstDifference(a, b, k) {
          FirstDifferenceOfTails(a, b, k);
        }
        if k: nat :| FirstDifference(a[1..], b[1..], k) {
          FirstDifferenceOfTails(a, b, k + 1);
        }
      } else {
        forall k: nat ensures !FirstDifference(a, b, k) {
          assert 0 < k <= |a| && k < |b| ==> a[..k][0] == a[0] && b[..k][0] == b[0];
        }
      }
    }
  }

  // ---- Hard constraints ----

  /** Letters match in either case, and nothing else does. */
  lemma FoldIff(c: char, d: char)
    ensures Fold(c) == Fold(d) <==>
            || c == d
            || ('A' <= c <= 'Z' && d as int == c as int + 32)
            || ('A' <= d <= 'Z' && c as int == d as int + 32)
  {}

  /** A snapshot of guest memory taken on one node may go to another exactly when their vendors are
      the same and their families too, unless one of the families is not known; a snapshot whose
      vendor is not known may go anywhere. */
  lemma SnapshotsTravelIff(from: Node, to: Node, template: string)
    ensures CpuConstraint(from.cpuVendor, from.cpuFamily, template).Accepts(to.cpuVendor, to.cpuFamily) <==>
            || from.cpuVendor == ""
            || (from.cpuVendor == to.cpuVendor
                && (from.cpuFamily == 0 || to.cpuFamily == 0 || from.cpuFamily == to.cpuFamily))
  {}

  /** Asking for one more label leaves exactly the nodes that have it; asking for the empty value
      also leaves the nodes without the label. */
  lemma SelectorNarrows(n: Node, req: Request, key: string, value: string)
    requires key !in req.selector
    ensures Feasible(n, req.(selector := req.selector[key := value])) <==>
            Feasible(n, req) && (if key in n.labels then n.labels[key] == value else value == "")
  {
    var wider := req.selector[key := value];
    assert wider[key] == value;
    assert forall k :: k in req.selector ==> k in wider && wider[k] == req.selector[k];
  }

  /** Asking for a runtime leaves exactly the nodes that list it, in upper or lower case. */
  lemma RuntimeNarrows(n: Node, req: Request, runtime: string)
    requires runtime != ""
    ensures Feasible(n, req.(runtime := runtime)) <==>
            && Feasible(n, req.(runtime := ""))
            && exists i :: 0 <= i < |n.runtimes| && EqualFold(n.runtimes[i], runtime)
  {}
}
