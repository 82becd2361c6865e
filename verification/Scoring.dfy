/** The scheduler's pure half: which nodes may host a request, and in which order they are
    preferred. */
module Scoring {
  import opened Placement

  /** What a memory snapshot requires of the node that restores it. */
  datatype CpuConstraint = CpuConstraint(vendor: string, family: int, template: string) {
    predicate Constrained() { vendor != "" }

    /** True where the source returns a nil error. */
    predicate Accepts(nodeVendor: string, nodeFamily: int) {
      Constrained() ==>
        && nodeVendor != ""
        && nodeVendor == vendor
        && !(family != 0 && nodeFamily != 0 && family != nodeFamily)
    }
  }

  const UNCONSTRAINED := CpuConstraint("", 0, "")

  datatype Request = Request(
    sandbox: string, region: string, image: string, want: Amounts, runtime: string,
    selector: map<string, string>, spread: string, cpu: CpuConstraint)

  datatype Weights = Weights(
    imageAffinity: real, warmSnapshot: real, createPressure: real,
    packing: real, nvmeCache: real, spread: real, load: real)

  const DEFAULT_WEIGHTS := Weights(10.0, 15.0, 12.0, 3.0, 2.0, 4.0, 6.0)

  // ---- Hard constraints ----

  function Fold(c: char): char {
    if 'A' <= c <= 'Z' then (c as int + 32) as char else c
  }

  predicate EqualFold(a: string, b: string) {
    |a| == |b| && forall i :: 0 <= i < |a| ==> Fold(a[i]) == Fold(b[i])
  }

  predicate HasRuntime(have: seq<string>, want: string) {
    exists i :: 0 <= i < |have| && EqualFold(have[i], want)
  }

  /** A missing label reads as the empty string. */
  predicate LabelsMatch(have: map<string, string>, want: map<string, string>) {
    forall k :: k in want ==> (if k in have then have[k] else "") == want[k]
  }

  predicate Feasible(n: Node, req: Request) {
    && n.state == Ready && n.region == req.region
    && (req.runtime != "" ==> HasRuntime(n.runtimes, req.runtime))
    && LabelsMatch(n.labels, req.selector)
    && req.cpu.Accepts(n.cpuVendor, n.cpuFamily)
    && n.committed.Plus(req.want).Within(n.alloc)
  }

  datatype Constraint = Cpu | Memory | Disk | Gpu | Runtime | NodeSelector | State | CpuCompatibility

  function When(blocked: bool, c: Constraint): seq<Constraint> {
    if blocked then [c] else []
  }

  function Mismatches(n: Node, req: Request): seq<Constraint> {
    When(n.state != Ready, State)
    + When(req.runtime != "" && !HasRuntime(n.runtimes, req.runtime), Runtime)
    + When(!LabelsMatch(n.labels, req.selector), NodeSelector)
    + When(!req.cpu.Accepts(n.cpuVendor, n.cpuFamily), CpuCompatibility)
  }

  function Shortages(total: Amounts, alloc: Amounts): seq<Constraint> {
    When(total.cpu > alloc.cpu, Cpu)
    + When(total.mem > alloc.mem, Memory)
    + When(total.disk > alloc.disk, Disk)
    + When(total.gpu > alloc.gpu, Gpu)
  }

  /** Every reason a node was rejected, in the order the source lists them. */
  function Blockers(n: Node, req: Request): seq<Constraint> {
    Mismatches(n, req) + Shortages(n.committed.Plus(req.want), n.alloc)
  }

  lemma NoShortage(total: Amounts, alloc: Amounts)
    ensures Shortages(total, alloc) == [] <==> total.Within(alloc)
  {
    assert |Shortages(total, alloc)| ==
           |When(total.cpu > alloc.cpu, Cpu)| + |When(total.mem > alloc.mem, Memory)|
           + |When(total.disk > alloc.disk, Disk)| + |When(total.gpu > alloc.gpu, Gpu)|;
  }

  lemma NoMismatch(n: Node, req: Request)
    ensures Mismatches(n, req) == [] <==>
            && n.state == Ready
            && (req.runtime != "" ==> HasRuntime(n.runtimes, req.runtime))
            && LabelsMatch(n.labels, req.selector)
            && req.cpu.Accepts(n.cpuVendor, n.cpuFamily)
  {
    assert |Mismatches(n, req)| ==
           |When(n.state != Ready, State)|
           + |When(req.runtime != "" && !HasRuntime(n.runtimes, req.runtime), Runtime)|
           + |When(!LabelsMatch(n.labels, req.selector), NodeSelector)|
           + |When(!req.cpu.Accepts(n.cpuVendor, n.cpuFamily), CpuCompatibility)|;
  }

  /** The filter and the explanation agree: a node is feasible exactly when it is in the
      region and nothing blocks it. */
  lemma FeasibleIffUnblocked(n: Node, req: Request)
    ensures Feasible(n, req) <==> n.region == req.region && Blockers(n, req) == []
  {
    NoMismatch(n, req);
    NoShortage(n.committed.Plus(req.want), n.alloc);
    assert |Blockers(n, req)| == |Mismatches(n, req)| + |Shortages(n.committed.Plus(req.want), n.alloc)|;
  }

  /** What the scheduler judges feasible, the reserving UPDATE admits. */
  lemma FeasibleIsAdmitted(l: Ledger, id: string, req: Request)
    requires id in l.nodes && Feasible(l.nodes[id], req)
    ensures Admits(l.nodes, id, req.want)
  {}

  // ---- Score ----

  /** How many members of a spread group a node holds. */
  function GroupSize(l: Ledger, spread: string, id: string): nat {
    |set k | k in l.reservations && l.reservations[k].spread == spread && l.reservations[k].node == id|
  }

  /** How full the node's create pipeline is. */
  function Pressure(inFlight: int, maxCreates: int): real {
    if maxCreates > 0 && inFlight > 0 then
      var load := inFlight as real / maxCreates as real;
      if load > 1.0 then 1.0 else load
    else 0.0
  }

  function Fraction(part: real, whole: real): real {
    if whole > 0.0 then part / whole else 0.0
  }

  /** How utilised the node ends up, its CPU and its memory counting half each. */
  function Packed(committed: Amounts, want: Amounts, alloc: Amounts): real {
    (Fraction(committed.cpu + want.cpu, alloc.cpu)
     + Fraction((committed.mem + want.mem) as real, alloc.mem as real)) / 2.0
  }

  function Hotter(cpuUsed: real, memUsed: real): real {
    if memUsed > cpuUsed then memUsed else cpuUsed
  }

  /** What of a node counts for a request: whether it has the image's bytes and a warm snapshot of
      it, whether it would pull it onto an NVMe cache, how full its create pipeline is, how utilised
      it ends up, how hot it is in percent, and how many members of the request's group it holds. */
  datatype Features = Features(
    cached: bool, warm: bool, fastPull: bool, pressure: real, packed: real, hot: real, peers: nat)

  function FeaturesOf(l: Ledger, id: string, req: Request): Features
    requires id in l.nodes
  {
    var n := l.nodes[id];
    var cached := req.image in n.images && n.images[req.image].sizeBytes > 0;
    Features(
      cached, cached && n.images[req.image].warm, n.nvme && req.image !in n.images,
      Pressure(n.inFlight, n.maxCreates), Packed(n.committed, req.want, n.alloc), Hotter(n.cpuUsed, n.memUsed),
      if req.spread != "" then GroupSize(l, req.spread, id) else 0)
  }

  function Total(w: Weights, f: Features): real {
    (if f.cached then w.imageAffinity else 0.0) + (if f.warm then w.warmSnapshot else 0.0)
    - w.createPressure * f.pressure
    + w.packing * f.packed
    - w.load * f.hot / 100.0
    + (if f.fastPull then w.nvmeCache else 0.0)
    - w.spread * f.peers as real
  }

  function Score(w: Weights, l: Ledger, id: string, req: Request): real
    requires id in l.nodes
  {
    Total(w, FeaturesOf(l, id, req))
  }

  // ---- Preference ----

  /** Go's order on strings. */
  predicate Less(a: string, b: string) {
    if b == "" then false
    else if a == "" then true
    else a[0] < b[0] || (a[0] == b[0] && Less(a[1..], b[1..]))
  }

  lemma {:induction false} LessTotal(a: string, b: string)
    ensures a != b ==> (Less(a, b) <==> !Less(b, a))
    ensures a == b ==> !Less(a, b)
    decreases |a|
  {
    if a != "" && b != "" {
      assert a == [a[0]] + a[1..] && b == [b[0]] + b[1..];
      LessTotal(a[1..], b[1..]);
    }
  }

  lemma {:induction false} LessTransitive(a: string, b: string, c: string)
    requires Less(a, b) && Less(b, c)
    ensures Less(a, c)
    decreases |a|
  {
    if a != "" && a[0] == b[0] == c[0] { LessTransitive(a[1..], b[1..], c[1..]); }
  }

  /** Higher score first, lower id on a tie. */
  predicate Better(w: Weights, l: Ledger, req: Request, a: string, b: string)
    requires a in l.nodes && b in l.nodes
  {
    var sa, sb := Score(w, l, a, req), Score(w, l, b, req);
    if sa != sb then sa > sb else Less(a, b)
  }

  lemma BetterTotal(w: Weights, l: Ledger, req: Request, a: string, b: string)
    requires a in l.nodes && b in l.nodes
    ensures a != b ==> (Better(w, l, req, a, b) <==> !Better(w, l, req, b, a))
    ensures !Better(w, l, req, a, a)
  {
    LessTotal(a, b);
    LessTotal(a, a);
  }

  lemma BetterTransitive(w: Weights, l: Ledger, req: Request, a: string, b: string, c: string)
    requires a in l.nodes && b in l.nodes && c in l.nodes
    requires Better(w, l, req, a, b) && Better(w, l, req, b, c)
    ensures Better(w, l, req, a, c)
  {
    var sa, sb, sc := Score(w, l, a, req), Score(w, l, b, req), Score(w, l, c, req);
    if sa == sb == sc { LessTransitive(a, b, c); }
  }

  /** The feasible nodes, each once, best first. */
  ghost predicate IsRanking(w: Weights, l: Ledger, req: Request, ranked: seq<string>) {
    && (forall id :: id in ranked <==> id in l.nodes && Feasible(l.nodes[id], req))
    && Sorted(w, l, req, ranked)
  }

  ghost predicate Sorted(w: Weights, l: Ledger, req: Request, ids: seq<string>) {
    && (forall i :: 0 <= i < |ids| ==> ids[i] in l.nodes)
    && (forall i, j :: 0 <= i < j < |ids| ==> Better(w, l, req, ids[i], ids[j]))
  }

  /** The node Schedule should name: feasible, and preferred to every other feasible node. */
  ghost predicate IsBest(w: Weights, l: Ledger, req: Request, id: string) {
    && id in l.nodes && Feasible(l.nodes[id], req)
    && forall o :: o in l.nodes && o != id && Feasible(l.nodes[o], req) ==> Better(w, l, req, id, o)
  }

  lemma HeadIsBest(w: Weights, l: Ledger, req: Request, ranked: seq<string>)
    requires IsRanking(w, l, req, ranked) && ranked != []
    ensures IsBest(w, l, req, ranked[0])
  {
    assert ranked[0] in ranked;
    forall o | o in l.nodes && o != ranked[0] && Feasible(l.nodes[o], req)
      ensures Better(w, l, req, ranked[0], o)
    {
      assert o in ranked;
    }
  }

  lemma {:induction false} SortedIsUnique(w: Weights, l: Ledger, req: Request, a: seq<string>, b: seq<string>)
    requires Sorted(w, l, req, a) && Sorted(w, l, req, b)
    requires forall id :: id in a <==> id in b
    ensures a == b
    decreases |a|
  {
    assert |b| > 0 ==> b[0] in b;
    if a != [] {
      assert a[0] in a && a[0] in b && b[0] in b && b[0] in a;
      if a[0] != b[0] { BetterTotal(w, l, req, a[0], b[0]); }
      forall id ensures id in a[1..] <==> id in b[1..] {
        BetterTotal(w, l, req, a[0], a[0]);
        assert id in a <==> id == a[0] || id in a[1..];
        assert id in b <==> id == b[0] || id in b[1..];
      }
      SortedIsUnique(w, l, req, a[1..], b[1..]);
      assert a == [a[0]] + a[1..] && b == [b[0]] + b[1..];
    }
  }

  /** A ledger and a request determine the ranking, in whatever order the rows were read. */
  lemma RankingIsUnique(w: Weights, l: Ledger, req: Request, a: seq<string>, b: seq<string>)
    requires IsRanking(w, l, req, a) && IsRanking(w, l, req, b)
    ensures a == b
  {
    SortedIsUnique(w, l, req, a, b);
  }

  /** Where an id belongs in a sorted list it is not part of. */
  method Position(w: Weights, l: Ledger, req: Request, ids: seq<string>, id: string) returns (at: nat)
    requires Sorted(w, l, req, ids) && id in l.nodes && id !in ids
    ensures at <= |ids|
    ensures forall i :: 0 <= i < at ==> Better(w, l, req, ids[i], id)
    ensures forall i :: at <= i < |ids| ==> Better(w, l, req, id, ids[i])
  {
    at := 0;
    while at < |ids| && Better(w, l, req, ids[at], id)
      invariant at <= |ids|
      invariant forall i :: 0 <= i < at ==> Better(w, l, req, ids[i], id)
    {
      at := at + 1;
    }
    forall i | at <= i < |ids| ensures Better(w, l, req, id, ids[i]) {
      BetterTotal(w, l, req, ids[at], id);
      if i > at { BetterTransitive(w, l, req, id, ids[at], ids[i]); }
    }
  }

  lemma InsertSorted(w: Weights, l: Ledger, req: Request, ids: seq<string>, id: string, at: nat)
    requires Sorted(w, l, req, ids) && id in l.nodes && at <= |ids|
    requires forall i :: 0 <= i < at ==> Better(w, l, req, ids[i], id)
    requires forall i :: at <= i < |ids| ==> Better(w, l, req, id, ids[i])
    ensures Sorted(w, l, req, ids[..at] + [id] + ids[at..])
  {
    var out := ids[..at] + [id] + ids[at..];
    forall i, j | 0 <= i < j < |out| ensures Better(w, l, req, out[i], out[j]) {
      if i != at && j != at {
        var i', j' := if i < at then i else i - 1, if j < at then j else j - 1;
        assert out[i] == ids[i'] && out[j] == ids[j'];
      }
    }
  }

  method Rank(w: Weights, l: Ledger, req: Request) returns (ranked: seq<string>)
    ensures IsRanking(w, l, req, ranked)
  {
    ranked := [];
    var rest := l.nodes.Keys;
    while rest != {}
      invariant rest <= l.nodes.Keys
      invariant forall id :: id in ranked <==> id in l.nodes && id !in rest && Feasible(l.nodes[id], req)
      invariant Sorted(w, l, req, ranked)
      decreases rest
    {
      var id :| id in rest;
      rest := rest - {id};
      if Feasible(l.nodes[id], req) {
        var at := Position(w, l, req, ranked, id);
        InsertSorted(w, l, req, ranked, id, at);
        var before, after := ranked[..at], ranked[at..];
        assert ranked == before + after;
        ranked := before + [id] + after;
      }
    }
  }

  // ---- Warm nodes first ----

  /** The node holds a warm snapshot of the image. */
  predicate WarmFor(n: Node, image: string) {
    image in n.images && n.images[image].sizeBytes > 0 && n.images[image].warm
  }

  /** The node does not hold the image's bytes. */
  predicate Lacks(n: Node, image: string) {
    image !in n.images || n.images[image].sizeBytes <= 0
  }

  predicate ReportsLoad(n: Node) {
    0.0 <= n.cpuUsed <= 100.0 && 0.0 <= n.memUsed <= 100.0
  }

  lemma QuotientInUnit(a: real, b: real)
    requires 0.0 <= a <= b && 0.0 < b
    ensures 0.0 <= a / b <= 1.0
  {
    var q := a / b;
    assert q * b == a;
    assert (1.0 - q) * b == b - a;
  }

  lemma PressureInUnit(inFlight: int, maxCreates: int)
    ensures 0.0 <= Pressure(inFlight, maxCreates) <= 1.0
  {
    if maxCreates > 0 && inFlight > 0 {
      if inFlight <= maxCreates { QuotientInUnit(inFlight as real, maxCreates as real); }
      assert inFlight as real / maxCreates as real >= 0.0;
    }
  }

  lemma FractionInUnit(part: real, whole: real)
    requires 0.0 <= part <= whole
    ensures 0.0 <= Fraction(part, whole) <= 1.0
  {
    if whole > 0.0 { QuotientInUnit(part, whole); }
  }

  lemma TermsInUnit(n: Node, req: Request)
    requires Feasible(n, req) && ZERO.Within(req.want) && ZERO.Within(n.committed)
    ensures 0.0 <= Pressure(n.inFlight, n.maxCreates) <= 1.0
    ensures 0.0 <= Packed(n.committed, req.want, n.alloc) <= 1.0
  {
    PressureInUnit(n.inFlight, n.maxCreates);
    FractionInUnit(n.committed.cpu + req.want.cpu, n.alloc.cpu);
    FractionInUnit((n.committed.mem + req.want.mem) as real, n.alloc.mem as real);
  }

  lemma WarmScoresAtLeastSeven(l: Ledger, id: string, req: Request)
    requires id in l.nodes && Feasible(l.nodes[id], req) && WarmFor(l.nodes[id], req.image)
    requires ZERO.Within(req.want) && ZERO.Within(l.nodes[id].committed) && ReportsLoad(l.nodes[id]) && req.spread == ""
    ensures Score(DEFAULT_WEIGHTS, l, id, req) >= 7.0
  {
    TermsInUnit(l.nodes[id], req);
  }

  lemma LackingScoresAtMostFive(l: Ledger, id: string, req: Request)
    requires id in l.nodes && Feasible(l.nodes[id], req) && Lacks(l.nodes[id], req.image)
    requires ZERO.Within(req.want) && ZERO.Within(l.nodes[id].committed) && ReportsLoad(l.nodes[id]) && req.spread == ""
    ensures Score(DEFAULT_WEIGHTS, l, id, req) <= 5.0
  {
    TermsInUnit(l.nodes[id], req);
  }

  /** With the default weights and no spread key, every ranking lists every node with a warm
      snapshot of the image before every node that does not hold the image, however busy,
      loaded or packed either of them is. */
  lemma WarmNodesComeFirst(l: Ledger, req: Request, ranked: seq<string>, i: nat, j: nat)
    requires IsRanking(DEFAULT_WEIGHTS, l, req, ranked) && i < |ranked| && j < |ranked|
    requires req.spread == "" && ZERO.Within(req.want)
    requires forall id :: id in l.nodes ==> ZERO.Within(l.nodes[id].committed) && ReportsLoad(l.nodes[id])
    requires WarmFor(l.nodes[ranked[i]], req.image) && Lacks(l.nodes[ranked[j]], req.image)
    ensures i < j
  {
    assert ranked[i] in ranked && ranked[j] in ranked;
    assert j < i ==> Better(DEFAULT_WEIGHTS, l, req, ranked[j], ranked[i]);
    WarmScoresAtLeastSeven(l, ranked[i], req);
    LackingScoresAtMostFive(l, ranked[j], req);
  }
}
