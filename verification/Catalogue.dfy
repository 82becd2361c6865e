/** The snapshot catalogue: base links, reference counts, and what may be deleted.

    A diff snapshot is only restorable together with every snapshot below it, so the
    catalogue is a heap of links in which a held snapshot must keep its whole chain. */
module Catalogue {
  import opened Runs

  datatype SnapshotState = Creating | Ready | Failed

  /** A stored row. An empty base means self-contained. */
  datatype Row = Row(state: SnapshotState, refCount: int, base: string, depth: int, memory: bool)

  type Rows = map<string, Row>

  // ---- Walking base links ----

  /** One step down the base links; the walk stays put once it has ended or gone missing. */
  function Down(rows: Rows, id: string): string {
    if id == "" || id !in rows then id else rows[id].base
  }

  /** The k-th id on the walk from `id`. */
  function Ancestor(rows: Rows, id: string, k: nat): string {
    if k == 0 then id else Down(rows, Ancestor(rows, id, k - 1))
  }

  predicate Stored(rows: Rows, id: string) {
    id != "" && id in rows
  }

  /** The walk reaches a self-contained snapshot. */
  ghost predicate Ends(rows: Rows, id: string) {
    exists k :: Ancestor(rows, id, k) == ""
  }

  /** The walk reaches an id with no row. */
  ghost predicate Dangles(rows: Rows, id: string) {
    exists k :: Ancestor(rows, id, k) != "" && Ancestor(rows, id, k) !in rows
  }

  /** The walk never leaves the stored rows. */
  ghost predicate Cycles(rows: Rows, id: string) {
    forall k :: Stored(rows, Ancestor(rows, id, k))
  }

  lemma {:induction false} AncestorStays(rows: Rows, id: string, j: nat, k: nat)
    requires j <= k && !Stored(rows, Ancestor(rows, id, j))
    ensures Ancestor(rows, id, k) == Ancestor(rows, id, j)
    decreases k
  {
    if j < k { AncestorStays(rows, id, j, k - 1); }
  }

  /** Exactly one of the three happens, on any map. */
  lemma WalksAreExclusive(rows: Rows, id: string)
    ensures Ends(rows, id) || Dangles(rows, id) || Cycles(rows, id)
    ensures !(Ends(rows, id) && Dangles(rows, id))
    ensures Cycles(rows, id) ==> !Ends(rows, id) && !Dangles(rows, id)
  {
    if Ends(rows, id) && Dangles(rows, id) {
      var e :| Ancestor(rows, id, e) == "";
      var d :| Ancestor(rows, id, d) != "" && Ancestor(rows, id, d) !in rows;
      if e <= d { AncestorStays(rows, id, e, d); } else { AncestorStays(rows, id, d, e); }
    }
  }

  /** `chain` is what a restore of `id` replays: base first, `id` last, each link's base being
      the element before it. */
  ghost predicate IsChain(rows: Rows, chain: seq<string>, id: string) {
    && (chain == [] <==> id == "")
    && (forall i :: 0 <= i < |chain| ==> Stored(rows, chain[i]))
    && (chain != [] ==> chain[|chain| - 1] == id && rows[chain[0]].base == "")
    && (forall i :: 1 <= i < |chain| ==> rows[chain[i]].base == chain[i - 1])
  }

  /** A chain is the walk read backwards. */
  lemma {:induction false} ChainIsWalk(rows: Rows, chain: seq<string>, id: string, k: nat)
    requires IsChain(rows, chain, id) && k < |chain|
    ensures Ancestor(rows, id, k) == chain[|chain| - 1 - k]
    decreases k
  {
    if k > 0 { ChainIsWalk(rows, chain, id, k - 1); }
  }

  lemma ChainEnds(rows: Rows, chain: seq<string>, id: string)
    requires IsChain(rows, chain, id)
    ensures Ancestor(rows, id, |chain|) == "" && Ends(rows, id)
  {
    if chain != [] {
      ChainIsWalk(rows, chain, id, |chain| - 1);
      assert Ancestor(rows, id, |chain|) == Down(rows, chain[0]);
    }
  }

  /** There is at most one chain, and it names no snapshot twice. */
  lemma ChainIsUnique(rows: Rows, a: seq<string>, b: seq<string>, id: string)
    requires IsChain(rows, a, id) && IsChain(rows, b, id)
    ensures a == b
  {
    ChainEnds(rows, a, id);
    ChainEnds(rows, b, id);
    if |a| < |b| { ChainIsWalk(rows, b, id, |a|); }
    if |b| < |a| { ChainIsWalk(rows, a, id, |b|); }
    forall i | 0 <= i < |a| ensures a[i] == b[i] {
      ChainIsWalk(rows, a, id, |a| - 1 - i);
      ChainIsWalk(rows, b, id, |b| - 1 - i);
    }
  }

  lemma ChainPrefix(rows: Rows, chain: seq<string>, id: string, n: nat)
    requires IsChain(rows, chain, id) && 0 < n <= |chain|
    ensures IsChain(rows, chain[..n], chain[n - 1])
  {
    assert chain[..n][n - 1] == chain[n - 1];
  }

  lemma ChainNamesOnce(rows: Rows, chain: seq<string>, id: string, i: nat, j: nat)
    requires IsChain(rows, chain, id) && i < j < |chain|
    ensures chain[i] != chain[j]
  {
    ChainPrefix(rows, chain, id, i + 1);
    ChainPrefix(rows, chain, id, j + 1);
    if chain[i] == chain[j] { ChainIsUnique(rows, chain[..i + 1], chain[..j + 1], chain[i]); }
  }

  datatype ChainResult = Chain(ids: seq<string>) | Cycle(id: string) | Missing(id: string)

  /** A set of ids closed under the base links is never left. */
  lemma {:induction false} ClosedIsNeverLeft(rows: Rows, seen: set<string>, id: string, k: nat)
    requires id in seen
    requires forall x :: x in seen ==> Stored(rows, x) && rows[x].base in seen
    ensures Ancestor(rows, id, k) in seen
    decreases k
  {
    if k > 0 { ClosedIsNeverLeft(rows, seen, id, k - 1); }
  }

  /** Terminates on every map, cycles and dangling bases included: each round visits an id not
      seen before. The three answers are given exactly when the walk ends, cycles or dangles. */
  method SnapshotChain(rows: Rows, id: string) returns (r: ChainResult)
    ensures r.Chain? <==> Ends(rows, id)
    ensures r.Cycle? <==> Cycles(rows, id)
    ensures r.Missing? <==> Dangles(rows, id)
    ensures r.Chain? ==> IsChain(rows, r.ids, id)
    ensures r.Missing? ==> r.id != "" && r.id !in rows && exists k :: Ancestor(rows, id, k) == r.id
  {
    WalksAreExclusive(rows, id);
    var chain: seq<string> := [];
    var seen: set<string> := {};
    var next := id;
    while next != ""
      invariant next == Ancestor(rows, id, |chain|)
      invariant seen == set x | x in chain
      invariant forall i :: 0 <= i < |chain| ==> Stored(rows, chain[i])
      invariant chain == [] ==> next == id
      invariant chain != [] ==> chain[|chain| - 1] == id && rows[chain[0]].base == next
      invariant forall i :: 1 <= i < |chain| ==> rows[chain[i]].base == chain[i - 1]
      decreases rows.Keys - seen
    {
      if next in seen {
        forall x | x in seen ensures Stored(rows, x) && rows[x].base in seen {
          var i :| 0 <= i < |chain| && chain[i] == x;
          if i > 0 { assert chain[i - 1] in chain; }
        }
        assert chain[|chain| - 1] in chain;
        forall k: nat ensures Stored(rows, Ancestor(rows, id, k)) {
          ClosedIsNeverLeft(rows, seen, id, k);
        }
        return Cycle(next);
      }
      seen := seen + {next};
      if next !in rows { return Missing(next); }
      assert next in rows.Keys;
      var was := chain;
      chain := [next] + chain;
      assert forall i :: 1 <= i < |chain| ==> chain[i] == was[i - 1];
      next := rows[next].base;
    }
    return Chain(chain);
  }

  // ---- References and deletion ----

  /** The rows, and who still holds a reference: one entry per acquire not yet released. */
  datatype State = State(rows: Rows, holders: multiset<string>)

  datatype Op =
    | Put(id: string, row: Row)
    | Acquire(id: string)
    | Release(id: string, owned: bool)   // owned: by a caller that still holds its reference
    | Delete(id: string)

  predicate HasChild(rows: Rows, id: string) {
    exists c :: c in rows && rows[c].base == id
  }

  /** The WHERE clause of the DELETE. */
  predicate Deletable(rows: Rows, id: string) {
    id in rows && rows[id].refCount == 0 && !HasChild(rows, id)
  }

  function PutRow(rows: Rows, id: string, row: Row): Rows {
    rows[id := if id in rows then row.(refCount := rows[id].refCount) else row]
  }

  function AddRef(rows: Rows, id: string): Rows {
    if id in rows && rows[id].state == Ready then rows[id := rows[id].(refCount := rows[id].refCount + 1)] else rows
  }

  function DropRef(rows: Rows, id: string): Rows {
    if id in rows && rows[id].refCount > 0 then rows[id := rows[id].(refCount := rows[id].refCount - 1)] else rows
  }

  function Remove(rows: Rows, id: string): Rows {
    if Deletable(rows, id) then rows - {id} else rows
  }

  function Apply(s: State, op: Op): State {
    match op
    case Put(id, row) => s.(rows := PutRow(s.rows, id, row))
    case Acquire(id) =>
      State(AddRef(s.rows, id),
            if id in s.rows && s.rows[id].state == Ready then s.holders + multiset{id} else s.holders)
    case Release(id, owned) =>
      State(DropRef(s.rows, id), if owned then s.holders - multiset{id} else s.holders)
    case Delete(id) => s.(rows := Remove(s.rows, id))
  }

  /** A put stores the whole row it is given, new or not, except that a row already there keeps its
      references; they are counted by Acquire and Release alone. */
  lemma PutStores(s: State, id: string, row: Row)
    ensures var s' := Apply(s, Put(id, row));
            && s'.rows.Keys == s.rows.Keys + {id} && s'.holders == s.holders
            && s'.rows[id].state == row.state && s'.rows[id].base == row.base
            && s'.rows[id].depth == row.depth && s'.rows[id].memory == row.memory
            && s'.rows[id].refCount == (if id in s.rows then s.rows[id].refCount else row.refCount)
  {}

  /** Every statement is about one row and leaves the others as they were. */
  lemma StatementsAreLocal(s: State, op: Op, x: string)
    requires x != op.id
    ensures var rows' := Apply(s, op).rows;
            (x in rows' <==> x in s.rows) && (x in s.rows ==> rows'[x] == s.rows[x])
  {}

  /** What callers keep to: a row's base link never changes, a new row starts unreferenced,
      and an owned release gives up a reference that is outstanding. */
  predicate Proper(s: State, op: Op) {
    match op
    case Put(id, row) =>
      && id != ""
      && if id in s.rows then row.base == s.rows[id].base else row.refCount == 0
    case Release(id, owned) => owned ==> s.holders[id] > 0
    case _ => true
  }

  /** A new row over a base that is not there, or a second release of one reference while
      someone else holds the snapshot. */
  predicate Harmful(s: State, op: Op) {
    match op
    case Put(id, row) => id !in s.rows && row.base != "" && row.base !in s.rows
    case Release(id, owned) => !owned && id in s.rows && s.rows[id].refCount > 0
    case _ => false
  }

  ghost predicate HasChain(rows: Rows, id: string) {
    exists chain :: IsChain(rows, chain, id)
  }

  /** The count is the number of outstanding holders, and what is held is stored. */
  ghost predicate Counted(s: State) {
    && (forall id :: id in s.rows ==> s.rows[id].refCount == s.holders[id])
    && (forall id :: id in s.holders ==> id in s.rows)
  }

  /** Every base link leads to a stored row, and every row has a chain. */
  ghost predicate Linked(rows: Rows) {
    && "" !in rows
    && (forall id :: id in rows && rows[id].base != "" ==> rows[id].base in rows)
    && (forall id :: id in rows ==> HasChain(rows, id))
  }

  ghost predicate Inv(s: State) {
    Counted(s) && Linked(s.rows)
  }

  /** A chain survives any change that keeps its rows and their base links. */
  lemma ChainSurvives(rows: Rows, rows': Rows, chain: seq<string>, id: string)
    requires IsChain(rows, chain, id)
    requires forall x :: x in chain ==> x in rows' && rows'[x].base == rows[x].base
    ensures IsChain(rows', chain, id)
  {
    forall i | 0 <= i < |chain| ensures Stored(rows', chain[i]) && rows'[chain[i]].base == rows[chain[i]].base {
      assert chain[i] in chain;
    }
  }

  lemma AllChainsSurvive(rows: Rows, rows': Rows)
    requires Linked(rows)
    requires forall id :: id in rows ==> id in rows' && rows'[id].base == rows[id].base
    ensures forall id :: id in rows ==> HasChain(rows', id)
  {
    forall id | id in rows ensures HasChain(rows', id) {
      var chain :| IsChain(rows, chain, id);
      forall x | x in chain ensures x in rows {
        var i :| 0 <= i < |chain| && chain[i] == x;
        assert Stored(rows, chain[i]);
      }
      ChainSurvives(rows, rows', chain, id);
    }
  }

  lemma PutKeepsLinks(s: State, id: string, row: Row)
    requires Linked(s.rows) && Proper(s, Put(id, row))
    ensures Linked(PutRow(s.rows, id, row)) <==> !Harmful(s, Put(id, row))
  {
    var rows' := PutRow(s.rows, id, row);
    if id in s.rows {
      SameLinks(s.rows, rows');
    } else if row.base == "" || row.base in s.rows {
      GroundedPutKeepsLinks(s.rows, rows', id);
    } else {
      DanglingPutBreaksLinks(s.rows, rows', id);
    }
  }

  lemma GroundedPutKeepsLinks(rows: Rows, rows': Rows, id: string)
    requires Linked(rows) && Stored(rows', id) && id !in rows && rows'.Keys == rows.Keys + {id}
    requires forall x :: x in rows ==> rows'[x] == rows[x]
    requires rows'[id].base == "" || rows'[id].base in rows
    ensures Linked(rows')
  {
    AllChainsSurvive(rows, rows');
    NewRowHasChain(rows, rows', id);
  }

  lemma DanglingPutBreaksLinks(rows: Rows, rows': Rows, id: string)
    requires Stored(rows', id) && rows'.Keys == rows.Keys + {id}
    requires rows'[id].base != "" && rows'[id].base !in rows
    ensures !Linked(rows')
  {
    if rows'[id].base == id { SelfBaseHasNoChain(rows', id); }
  }

  lemma SelfBaseHasNoChain(rows: Rows, id: string)
    requires Stored(rows, id) && rows[id].base == id
    ensures !HasChain(rows, id)
  {
    if HasChain(rows, id) {
      var chain :| IsChain(rows, chain, id);
      if |chain| > 1 { ChainNamesOnce(rows, chain, id, |chain| - 2, |chain| - 1); }
    }
  }

  lemma NewRowHasChain(rows: Rows, rows': Rows, id: string)
    requires Linked(rows) && Stored(rows', id) && id !in rows
    requires forall x :: x in rows ==> x in rows' && rows'[x].base == rows[x].base
    requires rows'[id].base == "" || rows'[id].base in rows
    ensures HasChain(rows', id)
  {
    if rows'[id].base == "" {
      assert IsChain(rows', [id], id);
    } else {
      AllChainsSurvive(rows, rows');
      var below :| IsChain(rows', below, rows'[id].base);
      ChainGrows(rows', below, id);
    }
  }

  lemma ChainGrows(rows: Rows, below: seq<string>, id: string)
    requires Stored(rows, id) && rows[id].base != "" && IsChain(rows, below, rows[id].base)
    ensures IsChain(rows, below + [id], id)
  {
    var chain := below + [id];
    assert forall i :: 0 <= i < |below| ==> chain[i] == below[i];
  }

  /** No chain passes through a row without children, except as its end. */
  lemma ChildlessIsLast(rows: Rows, chain: seq<string>, id: string, gone: string)
    requires IsChain(rows, chain, id) && !HasChild(rows, gone) && gone != id
    ensures gone !in chain
  {
    forall i | 0 <= i < |chain| ensures chain[i] != gone {
      if i + 1 < |chain| {
        assert Stored(rows, chain[i + 1]) && rows[chain[i + 1]].base == chain[i];
      }
    }
  }

  lemma RemoveKeepsLinks(rows: Rows, id: string)
    requires Linked(rows)
    ensures Linked(Remove(rows, id))
  {
    if Deletable(rows, id) {
      var rows' := rows - {id};
      forall x | x in rows' ensures HasChain(rows', x) {
        var chain :| IsChain(rows, chain, x);
        ChildlessIsLast(rows, chain, x, id);
        forall y | y in chain ensures y in rows' {
          var i :| 0 <= i < |chain| && chain[i] == y;
          assert Stored(rows, chain[i]);
        }
        ChainSurvives(rows, rows', chain, x);
      }
    }
  }

  lemma ReleaseKeepsCounts(s: State, id: string, owned: bool)
    requires Counted(s) && Proper(s, Release(id, owned))
    ensures Counted(Apply(s, Release(id, owned))) <==> !Harmful(s, Release(id, owned))
  {
    var s' := Apply(s, Release(id, owned));
    if owned {
      assert s'.rows == s.rows[id := s.rows[id].(refCount := s.rows[id].refCount - 1)];
      assert forall x :: x != id ==> s'.holders[x] == s.holders[x];
    } else if id in s.rows && s.rows[id].refCount > 0 {
      assert s'.rows[id].refCount != s'.holders[id];
    }
  }

  lemma AcquireKeepsCounts(s: State, id: string)
    requires Counted(s)
    ensures Counted(Apply(s, Acquire(id)))
  {
    var s' := Apply(s, Acquire(id));
    assert forall x :: x != id ==> s'.holders[x] == s.holders[x];
  }

  lemma OpKeepsCounts(s: State, op: Op)
    requires Counted(s) && Proper(s, op)
    ensures op.Release? ==> (Counted(Apply(s, op)) <==> !Harmful(s, op))
    ensures !op.Release? ==> Counted(Apply(s, op))
  {
    match op
    case Release(id, owned) => ReleaseKeepsCounts(s, id, owned);
    case Acquire(id) => AcquireKeepsCounts(s, id);
    case _ =>
  }

  /** One statement keeps the catalogue's invariant exactly when it is not harmful. */
  lemma OpKeepsInv(s: State, op: Op)
    requires Inv(s) && Proper(s, op)
    ensures Inv(Apply(s, op)) <==> !Harmful(s, op)
  {
    OpKeepsCounts(s, op);
    OpKeepsLinks(s, op);
  }

  lemma OpKeepsLinks(s: State, op: Op)
    requires Linked(s.rows) && (op.Put? ==> Proper(s, op))
    ensures op.Put? ==> (Linked(Apply(s, op).rows) <==> !Harmful(s, op))
    ensures !op.Put? ==> Linked(Apply(s, op).rows)
  {
    match op
    case Put(id, row) => PutKeepsLinks(s, id, row);
    case Delete(id) => RemoveKeepsLinks(s.rows, id);
    case Acquire(id) => SameLinks(s.rows, AddRef(s.rows, id));
    case Release(id, _) => SameLinks(s.rows, DropRef(s.rows, id));
  }

  lemma SameLinks(rows: Rows, rows': Rows)
    requires Linked(rows) && rows'.Keys == rows.Keys
    requires forall id :: id in rows ==> rows'[id].base == rows[id].base
    ensures Linked(rows')
  {
    AllChainsSurvive(rows, rows');
  }

  lemma EveryOpKeepsInv()
    ensures forall s, op :: Inv(s) && Proper(s, op) ==> (Inv(Apply(s, op)) <==> !Harmful(s, op))
  {
    forall s, op | Inv(s) && Proper(s, op) ensures Inv(Apply(s, op)) <==> !Harmful(s, op) {
      OpKeepsInv(s, op);
    }
  }

  /** Over every interleaving of acquires, releases, puts and deletes: counts stay equal to
      the outstanding holders and every row stays restorable, if and only if nobody puts a row
      over a missing base and nobody releases twice while another caller holds. */
  lemma RunKeepsInv(s: State, ops: seq<Op>)
    requires Inv(s) && Each(Apply, Proper, s, ops)
    ensures Always(Apply, Inv, s, ops) <==> Never(Apply, Harmful, s, ops)
  {
    EveryOpKeepsInv();
    KeptIffNoBadStep(Apply, Inv, Proper, Harmful, s, ops);
  }

  // ---- Pinning ----

  predicate Held(s: State, id: string) {
    s.holders[id] > 0
  }

  /** `id` is stored over `chain`, and its count is the number of its holders. */
  ghost predicate Pinned(s: State, chain: seq<string>, id: string) {
    id in s.rows && s.rows[id].refCount == s.holders[id] && IsChain(s.rows, chain, id)
  }

  /** A statement of anyone while `id` is held: whatever it does to other rows. */
  predicate WhileHeld(s: State, op: Op, id: string) {
    Proper(s, op) && Held(s, id)
  }

  /** Giving up a reference to `id` without owning one. */
  predicate Steals(op: Op, id: string) {
    op == Release(id, false)
  }

  /** While a snapshot is held, one statement keeps it pinned exactly when it does not release it
      without owning a reference. Dangling puts and double releases elsewhere do no harm. */
  lemma OpKeepsHeldChain(s: State, op: Op, chain: seq<string>, id: string)
    requires Pinned(s, chain, id) && WhileHeld(s, op, id)
    ensures Pinned(Apply(s, op), chain, id) <==> !Steals(op, id)
  {
    var rows' := Apply(s, op).rows;
    if op.Delete? {
      DeleteSparesChain(s.rows, op.id, chain, id);
    } else {
      KeepsBases(s, op);
    }
    ChainSurvives(s.rows, rows', chain, id);
    OpKeepsCount(s, op, id);
  }

  lemma OpKeepsCount(s: State, op: Op, id: string)
    requires id in s.rows && s.rows[id].refCount == s.holders[id] && WhileHeld(s, op, id)
    ensures var s' := Apply(s, op); id in s'.rows && (s'.rows[id].refCount == s'.holders[id] <==> !Steals(op, id))
  {
    match op
    case Put(_, _) =>
    case Delete(_) =>
    case Acquire(x) => AcquireKeepsCount(s, x, id);
    case Release(x, owned) => ReleaseKeepsCount(s, x, owned, id);
  }

  lemma AcquireKeepsCount(s: State, x: string, id: string)
    requires id in s.rows
    ensures var s' := Apply(s, Acquire(x));
            id in s'.rows && s'.rows[id].refCount - s.rows[id].refCount == s'.holders[id] - s.holders[id]
  {}

  lemma ReleaseKeepsCount(s: State, x: string, owned: bool, id: string)
    requires id in s.rows && s.rows[id].refCount == s.holders[id] > 0 && (owned ==> s.holders[x] > 0)
    ensures var s' := Apply(s, Release(x, owned));
            id in s'.rows && (s'.rows[id].refCount == s'.holders[id] <==> !(x == id && !owned))
  {}

  lemma KeepsBases(s: State, op: Op)
    requires Proper(s, op) && !op.Delete?
    ensures forall x :: x in s.rows ==> x in Apply(s, op).rows && Apply(s, op).rows[x].base == s.rows[x].base
  {}

  lemma DeleteSparesChain(rows: Rows, gone: string, chain: seq<string>, id: string)
    requires IsChain(rows, chain, id) && id in rows && rows[id].refCount > 0
    ensures forall x :: x in chain && x in rows ==> x in Remove(rows, gone) && Remove(rows, gone)[x] == rows[x]
  {
    if Deletable(rows, gone) { ChildlessIsLast(rows, chain, id, gone); }
  }

  /** As long as a reference to `id` is outstanding, `id` and all its ancestors stay stored, its
      chain stays the same list and its count stays the number of its holders, across every
      interleaving of other callers, if and only if nobody releases `id` without owning a
      reference to it. */
  lemma HeldChainIsPinned(s: State, ops: seq<Op>, chain: seq<string>, id: string)
    requires Pinned(s, chain, id)
    requires Each(Apply, (x, op) => WhileHeld(x, op, id), s, ops)
    ensures Always(Apply, (x: State) => Pinned(x, chain, id), s, ops) <==>
            Never(Apply, (x: State, op: Op) => Steals(op, id), s, ops)
  {
    var inv := (x: State) => Pinned(x, chain, id);
    var ok := (x: State, op: Op) => WhileHeld(x, op, id);
    var bad := (x: State, op: Op) => Steals(op, id);
    forall x, op | inv(x) && ok(x, op) ensures inv(Apply(x, op)) <==> !bad(x, op) {
      OpKeepsHeldChain(x, op, chain, id);
    }
    KeptIffNoBadStep(Apply, inv, ok, bad, s, ops);
  }

  // -- What a stolen reference costs

  /** As `WhileHeld`, and nobody steals. */
  predicate Fair(s: State, op: Op, id: string) {
    WhileHeld(s, op, id) && !Steals(op, id)
  }

  function FairFor(id: string): (State, Op) -> bool {
    (s, op) => Fair(s, op, id)
  }

  ghost function HasChainOf(chain: seq<string>, id: string): State -> bool {
    (s: State) => IsChain(s.rows, chain, id)
  }

  function LessBy(rows: Rows, id: string, k: nat): Rows
    requires id in rows
  {
    rows[id := rows[id].(refCount := rows[id].refCount - k)]
  }

  /** `t` is `s` after k releases of `id`. */
  predicate Less(s: State, t: State, id: string, k: nat)
    requires id in s.rows
  {
    t.holders[id] == s.holders[id] - k && t.rows == LessBy(s.rows, id, k)
  }

  lemma OneRelease(s: State, t: State, id: string, k: nat)
    requires id in s.rows && k < s.rows[id].refCount < s.holders[id] && Less(s, t, id, k)
    ensures Fair(t, Release(id, true), id) && Less(s, Apply(t, Release(id, true)), id, k + 1)
  {}

  lemma OwnersRelease(s: State, id: string, k: nat)
    requires id in s.rows && k <= s.rows[id].refCount < s.holders[id]
    ensures Less(s, Run(Apply, s, Times(Release(id, true), k)), id, k)
    ensures Each(Apply, FairFor(id), s, Times(Release(id, true), k))
  {
    forall t, i: nat | i < k && Less(s, t, id, i)
      ensures FairFor(id)(t, Release(id, true)) && Less(s, Apply(t, Release(id, true)), id, i + 1)
    {
      OneRelease(s, t, id, i);
    }
    assert s.rows == LessBy(s.rows, id, 0);
    RunTimes(Apply, LessFor(s, id), FairFor(id), s, Release(id, true), k);
  }

  function LessFor(s: State, id: string): (State, nat) -> bool
    requires id in s.rows
  {
    (t: State, i: nat) => id in s.rows && Less(s, t, id, i)
  }

  lemma DeleteTakes(s: State, t: State, id: string)
    requires id in s.rows && !HasChild(s.rows, id) && 0 <= s.rows[id].refCount < s.holders[id]
    requires Less(s, t, id, s.rows[id].refCount)
    ensures id !in Apply(t, Delete(id)).rows && Fair(t, Delete(id), id)
  {
    assert !HasChild(t.rows, id);
  }

  /** With a reference stolen, the rightful holders' releases and a delete take a snapshot that
      nothing stands on away from the holder that is left. */
  lemma StolenReferenceUnpins(s: State, chain: seq<string>, id: string)
    requires id in s.rows && id != "" && 0 <= s.rows[id].refCount < s.holders[id] && !HasChild(s.rows, id)
    requires IsChain(s.rows, chain, id)
    ensures var ops := Times(Release(id, true), s.rows[id].refCount) + [Delete(id)];
            Each(Apply, FairFor(id), s, ops) && !Always(Apply, HasChainOf(chain, id), s, ops)
  {
    var front := Times(Release(id, true), s.rows[id].refCount);
    var left := Run(Apply, s, front);
    OwnersRelease(s, id, s.rows[id].refCount);
    DeleteTakes(s, left, id);
    EachAppend(Apply, FairFor(id), s, front, Delete(id));
    RunAppend(Apply, s, front, Delete(id));
    GoneHasNoChain(Apply(left, Delete(id)).rows, chain, id);
    EndsBadly(Apply, HasChainOf(chain, id), s, front + [Delete(id)]);
  }

  lemma GoneHasNoChain(rows: Rows, chain: seq<string>, id: string)
    requires id !in rows && id != ""
    ensures !IsChain(rows, chain, id)
  {
    assert chain != [] && chain[|chain| - 1] == id ==> !Stored(rows, chain[|chain| - 1]);
  }

  /** For a held snapshot that nothing stands on: its chain stays through every fair continuation
      if and only if its count is the number of its holders. */
  lemma CountDecidesPin(s: State, chain: seq<string>, id: string)
    requires id in s.rows && id != "" && 0 <= s.rows[id].refCount <= s.holders[id] && !HasChild(s.rows, id)
    requires IsChain(s.rows, chain, id)
    ensures s.rows[id].refCount == s.holders[id] <==>
            forall ops :: Each(Apply, FairFor(id), s, ops) ==> Always(Apply, HasChainOf(chain, id), s, ops)
  {
    if s.rows[id].refCount < s.holders[id] {
      StolenReferenceUnpins(s, chain, id);
    } else {
      forall ops | Each(Apply, FairFor(id), s, ops) ensures Always(Apply, HasChainOf(chain, id), s, ops) {
        FairRunKeepsChain(s, ops, chain, id);
      }
    }
  }

  lemma FairRunKeepsChain(s: State, ops: seq<Op>, chain: seq<string>, id: string)
    requires Pinned(s, chain, id) && Each(Apply, FairFor(id), s, ops)
    ensures Always(Apply, HasChainOf(chain, id), s, ops)
  {
    var fair := FairFor(id);
    assert Each(Apply, (x, op) => WhileHeld(x, op, id), s, ops) by {
      forall k | 0 <= k < |ops| ensures WhileHeld(At(Apply, s, ops, k), ops[k], id) {
        assert fair(At(Apply, s, ops, k), ops[k]);
      }
    }
    assert Never(Apply, (x: State, op: Op) => Steals(op, id), s, ops) by {
      forall k | 0 <= k < |ops| ensures !Steals(ops[k], id) { assert fair(At(Apply, s, ops, k), ops[k]); }
    }
    HeldChainIsPinned(s, ops, chain, id);
    var inv := (x: State) => Pinned(x, chain, id);
    forall k | 0 <= k <= |ops| ensures IsChain(At(Apply, s, ops, k).rows, chain, id) {
      assert inv(At(Apply, s, ops, k));
    }
  }

  /** The walk SnapshotChain makes when every read sees the catalogue at its own moment. */
  function WalkAcross(views: nat -> Rows, id: string, k: nat): string {
    if k == 0 then id else Down(views(k - 1), WalkAcross(views, id, k - 1))
  }

  /** The reads of one walk need not be simultaneous: over views that all carry the chain, as
      the views during a hold do, the walk visits that chain and then ends. */
  lemma {:induction false} ReadsNeedNotBeSimultaneous(views: nat -> Rows, chain: seq<string>, id: string, k: nat)
    requires chain != [] && k <= |chain| && forall i :: IsChain(views(i), chain, id)
    ensures WalkAcross(views, id, k) == if k < |chain| then chain[|chain| - 1 - k] else ""
    decreases k
  {
    assert IsChain(views(0), chain, id);
    if k > 0 {
      ReadsNeedNotBeSimultaneous(views, chain, id, k - 1);
      assert IsChain(views(k - 1), chain, id);
    }
  }

  /** A delete goes through exactly when nobody holds the snapshot and nothing stands on it. */
  lemma DeleteIffFree(s: State, id: string)
    requires Inv(s) && id in s.rows
    ensures id !in Apply(s, Delete(id)).rows <==> !Held(s, id) && !HasChild(s.rows, id)
  {}

  /** The source calls a repeated release a no-op. With another restore in progress it is not:
      the restore's snapshot can be deleted underneath it. */
  lemma SecondReleaseDropsAnother(row: Row)
    requires row.state == Ready && row.refCount == 0 && row.base == ""
    ensures var s := State(map["a" := row], multiset{});
            var ops := [Acquire("a"), Acquire("a"), Release("a", true), Release("a", false), Delete("a")];
            var end := Apply(Apply(Apply(Apply(Apply(s, ops[0]), ops[1]), ops[2]), ops[3]), ops[4]);
            end.holders == multiset{"a"} && end.rows == map[]
  {
    var s0 := State(map["a" := row], multiset{});
    var s2 := Apply(Apply(s0, Acquire("a")), Acquire("a"));
    assert s2.rows == map["a" := row.(refCount := 2)] && s2.holders == multiset{"a", "a"};
    var s4 := Apply(Apply(s2, Release("a", true)), Release("a", false));
    assert s4.rows == map["a" := row] && s4.holders == multiset{"a"};
    assert !HasChild(s4.rows, "a");
    assert (s4.rows - {"a"}).Keys == {};
  }
}
