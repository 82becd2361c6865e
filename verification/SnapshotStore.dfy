/** The snapshot store's calls, and a restore that reads a chain link by link while other callers
    change the catalogue between its statements. */
module SnapshotStore {
  import opened Catalogue

  datatype StoreError = NotFound | NotReady(state: SnapshotState) | InUse

  datatype StoreResult = Ok | Err(error: StoreError)

  datatype Restored = Read(chain: ChainResult) | Refused(error: StoreError)

  /** What others may do while one caller holds `id`: anything proper, but they neither release
      `id` unowned nor give up this caller's reference. */
  predicate Leaves(s: State, op: Op, id: string) {
    Proper(s, op) && !Steals(op, id) && (op == Release(id, true) ==> s.holders[id] > 1)
  }

  class Snapshots {
    var rows: Rows
    var holders: multiset<string>   // one entry per acquire not yet released

    constructor ()
      ensures View() == State(map[], multiset{})
    {
      rows, holders := map[], multiset{};
    }

    function View(): State
      reads this
    {
      State(rows, holders)
    }

    method PutSnapshot(id: string, row: Row)
      modifies this
      ensures View() == Apply(old(View()), Put(id, row))
      ensures id in rows && rows[id].(refCount := 0) == row.(refCount := 0)
      ensures rows[id].refCount == if id in old(rows) then old(rows)[id].refCount else row.refCount
    {
      if id in rows {
        rows := rows[id := row.(refCount := rows[id].refCount)];
      } else {
        rows := rows[id := row];
      }
    }

    method AcquireSnapshot(id: string) returns (r: StoreResult)
      modifies this
      ensures View() == Apply(old(View()), Acquire(id))
      ensures r == if id !in old(rows) then Err(NotFound)
                   else if old(rows)[id].state != Ready then Err(NotReady(old(rows)[id].state))
                   else Ok
    {
      if id in rows && rows[id].state == Ready {
        rows := rows[id := rows[id].(refCount := rows[id].refCount + 1)];
        holders := holders + multiset{id};
        return Ok;
      }
      if id !in rows { return Err(NotFound); }
      return Err(NotReady(rows[id].state));
    }

    method ReleaseSnapshot(id: string, owned: bool)
      modifies this
      ensures View() == Apply(old(View()), Release(id, owned))
    {
      if id in rows && rows[id].refCount > 0 {
        rows := rows[id := rows[id].(refCount := rows[id].refCount - 1)];
      }
      if owned { holders := holders - multiset{id}; }
    }

    method DeleteSnapshot(id: string) returns (r: StoreResult)
      modifies this
      ensures View() == Apply(old(View()), Delete(id))
      ensures r == if id !in old(rows) then Err(NotFound) else if Deletable(old(rows), id) then Ok else Err(InUse)
    {
      if id in rows && rows[id].refCount == 0 && !(exists c :: c in rows && rows[c].base == id) {
        rows := rows - {id};
        return Ok;
      }
      return if id !in rows then Err(NotFound) else Err(InUse);
    }

    /** Other callers' statements while this one holds `id`. */
    method Others(ops: seq<Op>, id: string, ghost chain: seq<string>)
      requires Pinned(View(), chain, id) && Held(View(), id)
      modifies this
      ensures Pinned(View(), chain, id) && Held(View(), id)
    {
      for i := 0 to |ops|
        invariant Pinned(View(), chain, id) && Held(View(), id)
      {
        Other(ops[i], id, chain);
      }
    }

    method Other(op: Op, id: string, ghost chain: seq<string>)
      requires Pinned(View(), chain, id) && Held(View(), id)
      modifies this
      ensures Pinned(View(), chain, id) && Held(View(), id)
    {
      if Leaves(View(), op, id) {
        OpKeepsHeldChain(View(), op, chain, id);
        match op
        case Put(x, row) => PutSnapshot(x, row);
        case Acquire(x) => var _ := AcquireSnapshot(x);
        case Release(x, owned) => ReleaseSnapshot(x, owned);
        case Delete(x) => var _ := DeleteSnapshot(x);
      }
    }

    /** SnapshotChain as it runs: one read per link, and others between the reads. */
    method ReadChain(id: string, others: nat -> seq<Op>, ghost chain: seq<string>) returns (r: ChainResult)
      requires id != "" && Pinned(View(), chain, id) && Held(View(), id)
      modifies this
      ensures Pinned(View(), chain, id) && Held(View(), id)
      ensures r == Chain(chain)
    {
      var ids: seq<string> := [];
      var seen: set<string> := {};
      var next := id;
      while next != "" && next !in seen && next in rows
        invariant Pinned(View(), chain, id) && Held(View(), id)
        invariant |ids| <= |chain| && ids == chain[|chain| - |ids|..]
        invariant forall x :: x in seen <==> x in ids
        invariant next == if |ids| < |chain| then chain[|chain| - 1 - |ids|] else ""
        invariant next != "" ==> next !in seen && next in rows
        decreases |chain| - |ids|
      {
        NextLink(rows, chain, id, |ids|);
        seen := seen + {next};
        ids := [next] + ids;
        next := rows[next].base;
        Others(others(|ids|), id, chain);
        NextIsNew(rows, chain, id, |ids|);
      }
      r := if next == "" then Chain(ids) else if next in seen then Cycle(next) else Missing(next);
    }

    /** A restore: holds a reference while it reads the chain and sends it, then gives it back.
        Whatever other callers do to the catalogue meanwhile, it reads the chain the snapshot had
        when it was acquired. */
    method Restore(id: string, others: nat -> seq<Op>, ghost chain: seq<string>) returns (r: Restored)
      requires id in rows ==> id != "" && Pinned(View(), chain, id)
      modifies this
      ensures r.Read? <==> id in old(rows) && old(rows)[id].state == Ready
      ensures r.Read? ==> r.chain == Chain(chain) && IsChain(old(rows), chain, id)
      ensures r.Read? ==> Pinned(View(), chain, id)
      ensures r.Refused? ==>
                View() == old(View()) &&
                r.error == if id !in old(rows) then NotFound else NotReady(old(rows)[id].state)
    {
      ghost var before := View();
      var acquired := AcquireSnapshot(id);
      if acquired.Err? { return Refused(acquired.error); }
      AcquirePins(before, chain, id);
      var ids := ReadChain(id, others, chain);
      Others(others(0), id, chain);
      OpKeepsHeldChain(View(), Release(id, true), chain, id);
      ReleaseSnapshot(id, true);
      return Read(ids);
    }
  }

  lemma AcquirePins(s: State, chain: seq<string>, id: string)
    requires Pinned(s, chain, id) && s.rows[id].state == Ready
    ensures Pinned(Apply(s, Acquire(id)), chain, id) && Held(Apply(s, Acquire(id)), id)
  {
    ChainSurvives(s.rows, AddRef(s.rows, id), chain, id);
  }

  /** The link below the k lowest ones read so far. */
  lemma NextLink(rows: Rows, chain: seq<string>, id: string, k: nat)
    requires IsChain(rows, chain, id) && k < |chain|
    ensures var at := |chain| - 1 - k;
            && chain[at] in rows && chain[at] != ""
            && rows[chain[at]].base == (if at > 0 then chain[at - 1] else "")
            && [chain[at]] + chain[at + 1..] == chain[at..]
  {
    assert Stored(rows, chain[|chain| - 1 - k]);
  }

  lemma NextIsNew(rows: Rows, chain: seq<string>, id: string, k: nat)
    requires IsChain(rows, chain, id) && 0 < k <= |chain|
    ensures k < |chain| ==>
              var next := chain[|chain| - 1 - k];
              next in rows && next != "" && next !in chain[|chain| - k..]
  {
    if k < |chain| {
      var at := |chain| - 1 - k;
      assert Stored(rows, chain[at]);
      forall i | at < i < |chain| ensures chain[i] != chain[at] { ChainNamesOnce(rows, chain, id, at, i); }
    }
  }
}
