/** Network slots: every path through Create, ForkSandbox, Destroy and PrewarmImage must give back
    the index and the namespace it took, whichever step fails, and no two sandboxes may ever share
    an index. */
module Network {

  const MAX_INDEX := 4095

  /** Which steps of a call fail. `warmHit` is not a failure: the node holds a warm snapshot for the
      image and tries to restore it first. */
  datatype Faults = Faults(
    refused: bool,       // the disk or memory guard
    listing: bool,       // listing the host's namespaces
    setup: bool,         // building the namespace
    token: bool,         // minting the agent token
    warmHit: bool,
    restore: bool,       // restoring the warm snapshot, or the fork itself
    boot: bool,          // booting a guest
    dial: bool,          // the agent never answers
    teardown: bool)      // removing the namespace

  datatype Call =
    | Create(id: string, faults: Faults)
    | Fork(id: string, faults: Faults)
    | Destroy(id: string, faults: Faults)
    | Prewarm(id: string, faults: Faults, warmable: bool, store: bool)

  // ---- The pool ----

  /** Which sandbox an index was handed to, "" for one adopted because its namespace stands. */
  type Taken = map<nat, string>

  predicate Free(taken: Taken, host: set<nat>, i: nat) {
    i <= 4095 && i !in taken && i !in host
  }

  ghost predicate HasFree(taken: Taken, host: set<nat>) {
    exists i :: Free(taken, host, i)
  }

  /** The sandboxes that have an index. */
  function Owners(taken: Taken): set<string> {
    set i | i in taken && taken[i] != "" :: taken[i]
  }

  lemma OwnerOf(taken: Taken, i: nat)
    requires i in taken && taken[i] != ""
    ensures taken[i] in Owners(taken)
  {}

  /** The indices handed to sandboxes. */
  function Owned(taken: Taken): set<nat> {
    set i | i in taken && taken[i] != ""
  }

  /** Reserve marks the standing namespaces it passes over. */
  function Adopted(taken: Taken, host: set<nat>, upTo: nat): Taken {
    taken + map i | i in host && i < upTo && i !in taken :: ""
  }

  /** A sandbox has one index at most, and the namespaces that stand are those of the owned indices
      and the abandoned ones, which nobody owns. */
  ghost predicate Sound(taken: Taken, host: set<nat>, abandoned: seq<nat>) {
    && (forall i :: i in taken ==> i <= MAX_INDEX)
    && (forall i, j :: i in taken && j in taken && taken[i] == taken[j] != "" ==> i == j)
    && (forall i :: i in host <==> i in Owned(taken) || i in abandoned)
    && (forall i :: i in abandoned ==> i !in Owned(taken))
  }

  lemma AdoptNext(taken: Taken, host: set<nat>, i: nat)
    ensures var t := Adopted(taken, host, i);
            && (i in t <==> i in taken)
            && Adopted(taken, host, i + 1) == if i in host && i !in taken then t[i := ""] else t
  {}

  lemma AdoptingChangesNoOwner(taken: Taken, host: set<nat>, abandoned: seq<nat>, upTo: nat)
    requires upTo <= MAX_INDEX + 1 && Sound(taken, host, abandoned)
    ensures var t := Adopted(taken, host, upTo);
            Owned(t) == Owned(taken) && Owners(t) == Owners(taken) && Sound(t, host, abandoned)
  {
    var t := Adopted(taken, host, upTo);
    assert forall i :: i in t && t[i] != "" ==> i in taken && taken[i] == t[i];
    assert forall i :: i in taken ==> i in t && t[i] == taken[i];
    forall x | x in Owners(taken) ensures x in Owners(t) {
      var i :| i in taken && taken[i] == x && x != "";
      OwnerOf(t, i);
    }
    forall x | x in Owners(t) ensures x in Owners(taken) {
      var i :| i in t && t[i] == x && x != "";
      OwnerOf(taken, i);
    }
  }

  /** A sandbox is given an index that was free. */
  lemma HandingOut(taken: Taken, host: set<nat>, abandoned: seq<nat>, i: nat, id: string)
    requires Sound(taken, host, abandoned) && Free(taken, host, i) && id != "" && id !in Owners(taken)
    ensures Sound(taken[i := id], host + {i}, abandoned) && Owned(taken[i := id]) == Owned(taken) + {i}
    ensures Owners(taken[i := id]) == Owners(taken) + {id}
  {
    var t := taken[i := id];
    OwnerOf(t, i);
    forall k | k in taken && taken[k] != "" ensures taken[k] != id { OwnerOf(taken, k); }
    forall x | x in Owners(taken) ensures x in Owners(t) {
      var k :| k in taken && taken[k] == x && x != "";
      OwnerOf(t, k);
    }
    forall x | x in Owners(t) && x != id ensures x in Owners(taken) {
      var k :| k in t && t[k] == x && x != "";
      OwnerOf(taken, k);
    }
  }

  /** It gives its index back; the namespace may be left standing. */
  lemma TakingBack(taken: Taken, host: set<nat>, abandoned: seq<nat>, i: nat)
    requires Sound(taken, host, abandoned) && i in taken && taken[i] != ""
    ensures Sound(taken - {i}, host - {i}, abandoned) && Sound(taken - {i}, host, abandoned + [i])
    ensures Owners(taken - {i}) == Owners(taken) - {taken[i]}
  {
    var t := taken - {i};
    assert Owned(t) == Owned(taken) - {i};
    forall x | x in Owners(taken) && x != taken[i] ensures x in Owners(t) {
      var k :| k in taken && taken[k] == x && x != "";
      OwnerOf(t, k);
    }
    forall x | x in Owners(t) ensures x in Owners(taken) && x != taken[i] {
      var k :| k in t && t[k] == x && x != "";
      OwnerOf(taken, k);
    }
  }

  // ---- What each call needs ----

  ghost predicate NetworkComesUp(taken: Taken, host: set<nat>, networked: bool, f: Faults) {
    networked ==> !f.listing && HasFree(taken, host) && !f.setup && !f.token
  }

  ghost predicate CreateSucceeds(
      held: set<string>, taken: Taken, host: set<nat>, networked: bool, id: string, f: Faults)
  {
    && id != "" && !f.refused && id !in held
    && NetworkComesUp(taken, host, networked, f)
    && (!f.boot || (f.warmHit && !f.restore))
    && !f.dial
  }

  ghost predicate ForkSucceeds(
      held: set<string>, taken: Taken, host: set<nat>, networked: bool, id: string, f: Faults)
  {
    id != "" && id !in held && NetworkComesUp(taken, host, networked, f) && !f.restore && !f.dial
  }

  function FailedTeardowns(calls: seq<Call>): nat {
    if calls == [] then 0
    else
      FailedTeardowns(calls[..|calls| - 1]) + if calls[|calls| - 1].faults.teardown then 1 else 0
  }

  /** Namespaces are only ever left behind by a failed teardown, one at a time, and for good. */
  ghost predicate LeavesBehind(before: seq<nat>, after: seq<nat>, failed: bool) {
    before <= after && |after| <= |before| + if failed then 1 else 0
  }

  class Node {
    const networked: bool
    var sandboxes: set<string>
    var taken: Taken
    var host: set<nat>            // the namespaces standing on the host
    ghost var abandoned: seq<nat> // of these, the ones without a sandbox

    /** `standing` namespaces are left from an earlier process. */
    constructor (networked: bool, standing: seq<nat>)
      ensures this.networked == networked && Valid() && sandboxes == {} && taken == map[] && abandoned == standing
    {
      this.networked := networked;
      sandboxes, taken, host, abandoned := {}, map[], (set i | i in standing), standing;
    }

    /** On a networked node the sandboxes are exactly the owners of indices, one each, and the
        namespaces standing are theirs and the abandoned ones; otherwise no index is handed out. */
    ghost predicate Valid()
      reads this
    {
      && "" !in sandboxes
      && Sound(taken, host, abandoned)
      && if networked then Owners(taken) == sandboxes else taken == map[]
    }

    /** The lowest index that is neither handed out nor standing on the host, or -1. */
    method Reserve(id: string, listingFails: bool) returns (r: int)
      requires id !in Owners(taken)
      modifies this`taken
      ensures r < 0 ==> listingFails || !HasFree(old(taken), host)
      ensures r < 0 ==> taken == Adopted(old(taken), host, if listingFails then 0 else MAX_INDEX + 1)
      ensures r >= 0 ==> !listingFails && Free(old(taken), host, r) && r !in Adopted(old(taken), host, r)
      ensures r >= 0 ==> taken == Adopted(old(taken), host, r)[r := id]
      ensures r >= 0 ==> forall j: nat :: j < r ==> !Free(old(taken), host, j)
    {
      if listingFails {
        assert taken == Adopted(taken, host, 0);
        return -1;
      }
      for idx := 0 to MAX_INDEX + 1
        invariant taken == Adopted(old(taken), host, idx)
        invariant forall j: nat :: j < idx ==> !Free(old(taken), host, j)
      {
        AdoptNext(old(taken), host, idx);
        if idx in taken {
        } else if idx in host {
          taken := taken[idx := ""];
        } else {
          taken := taken[idx := id];
          return idx;
        }
      }
      return -1;
    }

    /** An error leaves nothing behind. */
    method Provision(id: string, f: Faults) returns (ok: bool)
      requires Sound(taken, host, abandoned) && id != "" && id !in Owners(taken)
      modifies this`taken, this`host
      ensures Sound(taken, host, abandoned)
      ensures ok <==> !f.listing && HasFree(old(taken), old(host)) && !f.setup
      ensures Owners(taken) == old(Owners(taken)) + if ok then {id} else {}
    {
      ghost var t0 := taken;
      var r := Reserve(id, f.listing);
      if r < 0 {
        AdoptingChangesNoOwner(t0, host, abandoned, if f.listing then 0 else MAX_INDEX + 1);
        return false;
      }
      AdoptingChangesNoOwner(t0, host, abandoned, r);
      ghost var t1 := Adopted(t0, host, r);
      HandingOut(t1, host, abandoned, r, id);
      if f.setup {
        taken := taken - {r};
        assert taken == t1;
        return false;
      }
      host := host + {r};
      return true;
    }

    /** The index goes back even when the teardown fails: the standing namespace keeps it from being
        handed out again. A sandbox without an index is left alone. */
    method Deprovision(id: string, fails: bool)
      requires Sound(taken, host, abandoned) && id != ""
      modifies this`taken, this`host, this`abandoned
      ensures Sound(taken, host, abandoned) && LeavesBehind(old(abandoned), abandoned, fails)
      ensures Owners(taken) == old(Owners(taken)) - {id}
    {
      if i :| i in taken && taken[i] == id {
        TakingBack(taken, host, abandoned, i);
        if fails { abandoned := abandoned + [i]; } else { host := host - {i}; }
        taken := taken - {i};
      } else {
        assert id !in Owners(taken);
      }
    }

    method ReleaseNetwork(id: string, fails: bool)
      requires Sound(taken, host, abandoned) && id != ""
      modifies this`taken, this`host, this`abandoned
      ensures Sound(taken, host, abandoned) && LeavesBehind(old(abandoned), abandoned, fails)
      ensures if networked then Owners(taken) == old(Owners(taken)) - {id} else taken == old(taken)
    {
      if !networked { return; }
      Deprovision(id, fails);
    }

    /** Every abandoned create comes through here, so no failure path can keep an index. */
    method DropFailed(id: string, fails: bool)
      requires id != "" && "" !in sandboxes && Sound(taken, host, abandoned)
      requires if networked then Owners(taken) - {id} == sandboxes - {id} else taken == map[]
      modifies this`sandboxes, this`taken, this`host, this`abandoned
      ensures Valid() && sandboxes == old(sandboxes) - {id}
      ensures LeavesBehind(old(abandoned), abandoned, fails)
    {
      sandboxes := sandboxes - {id};
      ReleaseNetwork(id, fails);
    }

    /** Starts a fresh guest: restored from a warm snapshot if the node has one, and booted if it
        has none or the restore fails. */
    method StartGuest(f: Faults) returns (up: bool)
      ensures up <==> !f.boot || (f.warmHit && !f.restore)
    {
      up := false;
      if f.warmHit { up := !f.restore; }
      if !up { up := !f.boot; }
    }

    /** What Create and ForkSandbox share, from taking the id to the healthy agent. A fork's guest
        comes from the layers it names and from nowhere else. */
    method BringUp(id: string, f: Faults, fork: bool) returns (ok: bool)
      requires Valid() && id != "" && id !in sandboxes
      modifies this`sandboxes, this`taken, this`host, this`abandoned
      ensures Valid()
      ensures ok <==>
                && NetworkComesUp(old(taken), old(host), networked, f) && !f.dial
                && if fork then !f.restore else !f.boot || (f.warmHit && !f.restore)
      ensures sandboxes == if ok then old(sandboxes) + {id} else old(sandboxes)
      ensures LeavesBehind(old(abandoned), abandoned, f.teardown && !ok)
    {
      sandboxes := sandboxes + {id};
      if networked {
        var provisioned := Provision(id, f);
        if !provisioned || f.token {
          DropFailed(id, f.teardown);
          return false;
        }
      }
      var up := !f.restore;
      if !fork { up := StartGuest(f); }
      if !up || f.dial {
        DropFailed(id, f.teardown);
        return false;
      }
      return true;
    }

    method Create(id: string, f: Faults) returns (ok: bool)
      requires Valid()
      modifies this`sandboxes, this`taken, this`host, this`abandoned
      ensures Valid()
      ensures ok <==> CreateSucceeds(old(sandboxes), old(taken), old(host), networked, id, f)
      ensures sandboxes == if ok then old(sandboxes) + {id} else old(sandboxes)
      ensures LeavesBehind(old(abandoned), abandoned, f.teardown && !ok)
    {
      if id == "" || f.refused || id in sandboxes { return false; }
      ok := BringUp(id, f, false);
    }

    method ForkSandbox(id: string, f: Faults) returns (ok: bool)
      requires Valid()
      modifies this`sandboxes, this`taken, this`host, this`abandoned
      ensures Valid()
      ensures ok <==> ForkSucceeds(old(sandboxes), old(taken), old(host), networked, id, f)
      ensures sandboxes == if ok then old(sandboxes) + {id} else old(sandboxes)
      ensures LeavesBehind(old(abandoned), abandoned, f.teardown && !ok)
    {
      if id == "" || id in sandboxes { return false; }
      ok := BringUp(id, f, true);
    }

    /** The index goes whether or not the runtime managed to destroy the VM. */
    method Destroy(id: string, f: Faults)
      requires Valid()
      modifies this`sandboxes, this`taken, this`host, this`abandoned
      ensures Valid() && sandboxes == old(sandboxes) - {id}
      ensures LeavesBehind(old(abandoned), abandoned, f.teardown)
    {
      if id !in sandboxes { return; }
      sandboxes := sandboxes - {id};
      ReleaseNetwork(id, f.teardown);
    }

    /** Boots a throwaway guest, captures it, and destroys it whether or not that worked. */
    method PrewarmImage(id: string, f: Faults, warmable: bool, storeFails: bool) returns (warmed: bool)
      requires Valid()
      modifies this`sandboxes, this`taken, this`host, this`abandoned
      ensures Valid() && sandboxes == old(sandboxes)
      ensures warmed <==>
                warmable && CreateSucceeds(old(sandboxes), old(taken), old(host), networked, id, f) && !storeFails
      ensures LeavesBehind(old(abandoned), abandoned, f.teardown)
    {
      if !warmable { return false; }
      var ok := Create(id, f);
      if ok { Destroy(id, f); }
      warmed := ok && !storeFails;
    }

    /** Over any sequence of calls with failures anywhere: the sandboxes are always exactly the
        owners of indices, no index has two owners, and the namespaces standing are those of the
        owned indices, those there before, and at most one per failed teardown. */
    method Serve(calls: seq<Call>)
      requires Valid()
      modifies this`sandboxes, this`taken, this`host, this`abandoned
      ensures Valid() && old(abandoned) <= abandoned
      ensures |abandoned| <= |old(abandoned)| + FailedTeardowns(calls)
      ensures FailedTeardowns(calls) == 0 ==> forall i :: i in host <==> i in Owned(taken) || i in old(abandoned)
    {
      for i := 0 to |calls|
        invariant Valid() && old(abandoned) <= abandoned
        invariant |abandoned| <= |old(abandoned)| + FailedTeardowns(calls[..i])
      {
        Handle(calls[i]);
        assert calls[..i + 1][..i] == calls[..i];
      }
      assert calls[..|calls|] == calls;
    }

    method Handle(call: Call)
      requires Valid()
      modifies this`sandboxes, this`taken, this`host, this`abandoned
      ensures Valid() && LeavesBehind(old(abandoned), abandoned, call.faults.teardown)
    {
      match call
      case Create(id, f) => var _ := Create(id, f);
      case Fork(id, f) => var _ := ForkSandbox(id, f);
      case Destroy(id, f) => Destroy(id, f);
      case Prewarm(id, f, warmable, store) => var _ := PrewarmImage(id, f, warmable, store);
    }
  }
}
