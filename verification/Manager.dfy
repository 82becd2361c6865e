/** The node's manager: Create, Pause, Resume, Snapshot and Destroy as calls, with other goroutines
    running between their lock regions. Every call is a run of the machine in `Lifecycle`. */
module Manager {
  import opened Runs
  import opened Lifecycle

  /** What happens around one call: the events of other goroutines at each point where the lock
      is free, and which of the call's runtime calls fail. */
  datatype Environment = Environment(others: nat -> seq<Event>, fails: nat -> bool)

  /** `Finished` calls ran to their end; `ok` is whether they report success. */
  datatype Result = Finished(ok: bool) | NotFound | WrongState(state: SandboxState) | Already

  /** A node that came up empty has reached `n` by the allowed events of `history`. */
  ghost predicate Reached(history: seq<Event>, n: Node) {
    Each(Apply, Allowed, EMPTY, history) && n == Run(Apply, EMPTY, history)
  }

  lemma ReachedKeepsInv(history: seq<Event>, n: Node)
    requires Reached(history, n)
    ensures Inv(n)
  {
    TransitionsExclude(history);
    assert history[..|history|] == history;
    assert Inv(At(Apply, EMPTY, history, |history|));
  }

  lemma ReachStep(history: seq<Event>, n: Node, e: Event)
    requires Reached(history, n) && Allowed(n, e)
    ensures Reached(history + [e], Apply(n, e))
  {
    var longer := history + [e];
    assert longer[..|history|] == history;
    RunAppend(Apply, EMPTY, history, e);
    EachSplits(Apply, Allowed, EMPTY, longer);
  }

  /** An event of the call that owns job `mine`, which nobody else performs. */
  predicate Touches(e: Event, mine: nat) {
    (e.Command? || e.Checkpointed? || e.Settle?) && e.job == mine
  }

  lemma OthersSpareJob(n: Node, e: Event, mine: nat)
    requires Allowed(n, e) && !Touches(e, mine) && mine in n.jobs
    ensures mine in Apply(n, e).jobs && Apply(n, e).jobs[mine] == n.jobs[mine]
  {}

  /** While a job is between claim and settlement, its record shows the claim or is gone. */
  lemma RecordShowsClaim(history: seq<Event>, n: Node, j: nat)
    requires Reached(history, n) && j in n.jobs && n.jobs[j].id in n.records
    ensures n.records[n.jobs[j].id] == Transitional(n.jobs[j].kind) && Fits(n.live, n.jobs[j])
  {
    ReachedKeepsInv(history, n);
  }

  /** An event of the create that owns `id`, which nobody else performs. */
  predicate Advances(e: Event, id: string) {
    (e.GuestUp? || e.Boot? || e.DropFailed?) && e.id == id
  }

  /** The create of the sandbox is in progress, with its guest up or not. */
  predicate Coming(n: Node, id: string, up: bool) {
    id in n.used && id in n.creating && n.creating[id] == up
  }

  lemma OthersSpareCreate(n: Node, e: Event, id: string, up: bool)
    requires Allowed(n, e) && !Advances(e, id) && Coming(n, id, up)
    ensures Coming(Apply(n, e), id, up)
  {}

  class Manager {
    var sandboxes: Records
    var live: map<string, bool>
    var jobs: map<nat, Job>
    var used: set<string>
    var creating: map<string, bool>
    ghost var history: seq<Event>

    constructor ()
      ensures Valid() && View() == EMPTY
    {
      sandboxes, live, jobs, used, creating, history := map[], map[], map[], {}, map[], [];
    }

    function View(): Node
      reads this
    {
      Node(sandboxes, live, jobs, used, creating)
    }

    ghost predicate Valid()
      reads this
    {
      Reached(history, View())
    }

    /** Other goroutines run while the lock is free. */
    method Others(events: seq<Event>, mine: nat)
      requires Valid() && mine in jobs
      modifies this
      ensures Valid() && old(history) <= history
      ensures mine in jobs && jobs[mine] == old(jobs)[mine]
    {
      for i := 0 to |events|
        invariant Valid() && old(history) <= history
        invariant mine in jobs && jobs[mine] == old(jobs)[mine]
      {
        Other(events[i], mine);
      }
    }

    method Other(e: Event, mine: nat)
      requires Valid() && mine in jobs
      modifies this
      ensures Valid() && old(history) <= history
      ensures mine in jobs && jobs[mine] == old(jobs)[mine]
    {
      if Allowed(View(), e) && !Touches(e, mine) {
        OthersSpareJob(View(), e, mine);
        Perform(e);
      }
    }

    /** An event of some other call. */
    method Perform(e: Event)
      requires Valid() && Allowed(View(), e)
      modifies this
      ensures Valid() && history == old(history) + [e] && View() == Apply(old(View()), e)
    {
      ghost var before := View();
      var n := Apply(View(), e);
      sandboxes, live, jobs, used, creating := n.records, n.live, n.jobs, n.used, n.creating;
      Note(e, before);
    }

    /** Other goroutines run while a create is between its regions. */
    method OthersWhileCreating(events: seq<Event>, id: string, up: bool)
      requires Valid() && Coming(View(), id, up)
      modifies this
      ensures Valid() && old(history) <= history && Coming(View(), id, up)
      ensures events == [] ==> View() == old(View())
    {
      for i := 0 to |events|
        invariant Valid() && old(history) <= history && Coming(View(), id, up)
        invariant i == 0 ==> View() == old(View())
      {
        if Allowed(View(), events[i]) && !Advances(events[i], id) {
          OthersSpareCreate(View(), events[i], id, up);
          Perform(events[i]);
        }
      }
    }

    /** Other goroutines run while a destroy is between its regions. */
    method OthersWhileDestroying(events: seq<Event>, id: string)
      requires Valid() && Removed(View(), id)
      modifies this
      ensures Valid() && old(history) <= history && Removed(View(), id)
      ensures Destroyed(old(View()), id) ==> Destroyed(View(), id)
      ensures !ToComeUp(old(View()), id) ==> !ToComeUp(View(), id)
    {
      for i := 0 to |events|
        invariant Valid() && old(history) <= history && Removed(View(), id)
        invariant Destroyed(old(View()), id) ==> Destroyed(View(), id)
        invariant !ToComeUp(old(View()), id) ==> !ToComeUp(View(), id)
      {
        if Allowed(View(), events[i]) {
          RemovedStays(View(), events[i], id);
          Perform(events[i]);
        }
      }
    }

    /** One of the call's own events. */
    ghost method Note(e: Event, before: Node)
      requires Reached(history, before) && Allowed(before, e) && View() == Apply(before, e)
      modifies this`history
      ensures Valid() && history == old(history) + [e]
    {
      ReachStep(history, before, e);
      history := history + [e];
    }

    /** Takes the sandbox for an operation, under the lock. */
    method Claim(id: string, j: nat, kind: Kind)
      requires Valid() && j !in jobs && CanClaim(sandboxes, id, kind)
      modifies this
      ensures Valid() && old(history) <= history
      ensures j in jobs && jobs[j] == Job(id, kind, Waiting)
      ensures View() == Apply(old(View()), Event.Claim(j, id, kind))
    {
      ghost var before := View();
      sandboxes := sandboxes[id := Transitional(kind)];
      jobs := jobs[j := Job(id, kind, Waiting)];
      Note(Event.Claim(j, id, kind), before);
    }

    /** The runtime's Pause or Resume for a job, outside the lock. */
    method Command(j: nat, ok: bool)
      requires Valid() && j in jobs && NextOrder(jobs[j]) != Nothing
      modifies this
      ensures Valid() && old(history) <= history && sandboxes == old(sandboxes)
      ensures j in jobs && jobs[j] == old(jobs)[j].(stage := NextStage(old(jobs)[j], ok))
    {
      ghost var before := View();
      var job := jobs[j];
      if ok && job.id in live { live := live[job.id := NextOrder(job) == Go]; }
      jobs := jobs[j := job.(stage := NextStage(job, ok))];
      Note(Event.Command(j, ok), before);
    }

    /** A runtime call, with others before and after it. */
    method Call(j: nat, ok: bool, before: seq<Event>, after: seq<Event>)
      requires Valid() && j in jobs && NextOrder(jobs[j]) != Nothing
      modifies this
      ensures Valid() && old(history) <= history
      ensures j in jobs && jobs[j] == old(jobs)[j].(stage := NextStage(old(jobs)[j], ok))
    {
      Others(before, j);
      Command(j, ok);
      Others(after, j);
    }

    method PauseSettles(id: string, j: nat, ok: bool)
      requires Valid() && j in jobs && jobs[j] == Job(id, PauseKind, Returned(ok))
      modifies this
      ensures Valid() && old(history) <= history && j !in jobs
      ensures id in sandboxes ==> sandboxes[id] == (if ok then Paused else Running) && id in live && (ok ==> !live[id])
    {
      ghost var before := View();
      if id in sandboxes { RecordShowsClaim(history, before, j); }
      if ok {
        if id in sandboxes { sandboxes := sandboxes[id := Paused]; }
      } else {
        if id in sandboxes && sandboxes[id] == Pausing { sandboxes := sandboxes[id := Running]; }
      }
      jobs := jobs - {j};
      Note(Settle(j), before);
    }

    /** Pauses a RUNNING sandbox. Whatever others do meanwhile, unless they destroy it, success
        leaves it PAUSED with its vCPUs stopped and failure leaves it RUNNING. */
    method Pause(id: string, j: nat, env: Environment) returns (r: Result)
      requires Valid() && j !in jobs
      modifies this
      ensures Valid() && old(history) <= history && j !in jobs
      ensures r.Finished? <==> CanPause(old(sandboxes), id)
      ensures r.Finished? ==> r.ok == !env.fails(0)
      ensures r.Finished? && id in sandboxes ==>
                sandboxes[id] == (if r.ok then Paused else Running) && id in live && (r.ok ==> !live[id])
      ensures !r.Finished? ==> View() == old(View())
      ensures r.NotFound? <==> id !in old(sandboxes)
      ensures r.WrongState? ==> r.state == old(sandboxes)[id]
    {
      if id !in sandboxes { return NotFound; }
      if sandboxes[id] != Running { return WrongState(sandboxes[id]); }
      Claim(id, j, PauseKind);
      Call(j, !env.fails(0), env.others(0), env.others(1));
      PauseSettles(id, j, !env.fails(0));
      return Finished(!env.fails(0));
    }

    method ResumeSettles(id: string, j: nat, ok: bool)
      requires Valid() && j in jobs && jobs[j] == Job(id, ResumeKind, Returned(ok))
      modifies this
      ensures Valid() && old(history) <= history && j !in jobs
      ensures id in sandboxes ==> sandboxes[id] == (if ok then Running else Paused) && id in live && live[id] == ok
    {
      ghost var before := View();
      if id in sandboxes { RecordShowsClaim(history, before, j); }
      if ok {
        if id in sandboxes { sandboxes := sandboxes[id := Running]; }
      } else {
        if id in sandboxes && sandboxes[id] == Resuming { sandboxes := sandboxes[id := Paused]; }
      }
      jobs := jobs - {j};
      Note(Settle(j), before);
    }

    /** Resumes a PAUSED sandbox; a RUNNING one needs nothing. Unless others destroy it meanwhile,
        success leaves it RUNNING with its vCPUs running and failure PAUSED with them stopped. */
    method Resume(id: string, j: nat, env: Environment) returns (r: Result)
      requires Valid() && j !in jobs
      modifies this
      ensures Valid() && old(history) <= history && j !in jobs
      ensures r.Finished? <==> CanResume(old(sandboxes), id)
      ensures r.Already? <==> id in old(sandboxes) && old(sandboxes)[id] == Running
      ensures r.Finished? ==> r.ok == !env.fails(0)
      ensures r.Finished? && id in sandboxes ==>
                sandboxes[id] == (if r.ok then Running else Paused) && id in live && live[id] == r.ok
      ensures !r.Finished? ==> View() == old(View())
      ensures r.NotFound? <==> id !in old(sandboxes)
      ensures r.WrongState? ==> r.state == old(sandboxes)[id]
    {
      if id !in sandboxes { return NotFound; }
      match sandboxes[id] {
        case Running => return Already;
        case Paused => Claim(id, j, ResumeKind);
        case state => return WrongState(state);
      }
      Call(j, !env.fails(0), env.others(0), env.others(1));
      ResumeSettles(id, j, !env.fails(0));
      return Finished(!env.fails(0));
    }

    method TakeId(id: string, fork: bool)
      requires Valid() && id !in used
      modifies this
      ensures Valid() && old(history) <= history && Coming(View(), id, false)
      ensures id in sandboxes && sandboxes[id] == if fork then Restoring else Starting
    {
      ghost var before := View();
      sandboxes, used := sandboxes[id := if fork then Restoring else Starting], used + {id};
      creating := creating[id := false];
      Note(Begin(id, fork), before);
    }

    /** The runtime's Create or Fork returns a running guest. */
    method GuestStarts(id: string)
      requires Valid() && Coming(View(), id, false)
      modifies this
      ensures Valid() && old(history) <= history && Coming(View(), id, true)
      ensures sandboxes == old(sandboxes)
    {
      ghost var before := View();
      live, creating := live[id := true], creating[id := true];
      Note(GuestUp(id), before);
    }

    method CreateFails(id: string, ghost up: bool)
      requires Valid() && Coming(View(), id, up)
      modifies this
      ensures Valid() && old(history) <= history && id in used && id !in sandboxes && id !in live && id !in creating
    {
      ghost var before := View();
      sandboxes, live, creating := sandboxes - {id}, live - {id}, creating - {id};
      Note(DropFailed(id), before);
    }

    method CreateEnds(id: string)
      requires Valid() && Coming(View(), id, true)
      modifies this
      ensures Valid() && old(history) <= history && id in used && id !in creating
      ensures id in sandboxes <==> id in old(sandboxes)
      ensures id in sandboxes ==> sandboxes[id] == Running && id in live && live[id]
    {
      ghost var before := View();
      ReachedKeepsInv(history, before);
      if id in sandboxes { sandboxes := sandboxes[id := Running]; }
      creating := creating - {id};
      Note(Boot(id), before);
    }

    /** From the taken id to a healthy agent. */
    method BringUp(id: string, env: Environment) returns (ok: bool)
      requires Valid() && Coming(View(), id, false)
      modifies this
      ensures Valid() && old(history) <= history && id in used && id !in creating
      ensures ok == (!env.fails(0) && !env.fails(1))
      ensures ok && id in sandboxes ==> sandboxes[id] == Running && id in live && live[id]
      ensures ok && env.others(0) == [] && env.others(1) == [] ==> (id in sandboxes <==> id in old(sandboxes))
      ensures !ok ==> id !in sandboxes && id !in live
    {
      OthersWhileCreating(env.others(0), id, false);
      ok := !env.fails(0);
      if ok {
        GuestStarts(id);
        OthersWhileCreating(env.others(1), id, true);
        ok := !env.fails(1);
      }
      if ok {
        CreateEnds(id);
      } else {
        CreateFails(id, !env.fails(0));
      }
    }

    /** Create and ForkSandbox: take the id, start the guest outside the lock, wait for its agent, and
        record how that went. Whatever others do meanwhile, unless they destroy it, success leaves
        the sandbox RUNNING with its vCPUs running; a failure leaves neither record nor VM. An id
        that is in use is refused. */
    method Create(id: string, fork: bool, env: Environment) returns (r: Result)
      requires Valid() && (id in used ==> id in sandboxes)
      modifies this
      ensures Valid() && old(history) <= history
      ensures r.WrongState? <==> id in old(sandboxes)
      ensures r.WrongState? ==> r.state == old(sandboxes)[id] && View() == old(View())
      ensures !r.WrongState? ==> r == Finished(!env.fails(0) && !env.fails(1)) && id in used && id !in creating
      ensures r == Finished(true) ==> (id in sandboxes ==> sandboxes[id] == Running && id in live && live[id])
      ensures r == Finished(true) && env.others(0) == [] && env.others(1) == [] ==> id in sandboxes
      ensures r == Finished(false) ==> id !in sandboxes && id !in live
    {
      if id in sandboxes { return WrongState(sandboxes[id]); }
      TakeId(id, fork);
      var ok := BringUp(id, env);
      return Finished(ok);
    }

    method RemoveRecord(id: string)
      requires Valid() && id in sandboxes
      modifies this
      ensures Valid() && old(history) <= history && Removed(View(), id) && creating == old(creating)
    {
      ghost var before := View();
      ReachedKeepsInv(history, before);
      sandboxes := sandboxes - {id};
      Note(Remove(id), before);
    }

    /** The runtime's Destroy, outside the lock. */
    method DestroyVm(id: string)
      requires Valid() && Removed(View(), id)
      modifies this
      ensures Valid() && old(history) <= history && Removed(View(), id)
      ensures creating == old(creating) && id !in live
    {
      ghost var before := View();
      live := live - {id};
      Note(Gone(id), before);
    }

    /** Destroys a sandbox in whatever state it is, operations in progress included. Whatever others
        do meanwhile it has no record afterwards, and no VM unless the runtime failed to destroy it
        or its create had still to bring it up. A sandbox without a record needs nothing. */
    method Destroy(id: string, env: Environment) returns (r: Result)
      requires Valid()
      modifies this
      ensures Valid() && old(history) <= history
      ensures r.Already? <==> id !in old(sandboxes)
      ensures r.Already? ==> View() == old(View())
      ensures !r.Already? ==> r == Finished(!env.fails(0))
      ensures id !in sandboxes
      ensures r == Finished(true) && !ToComeUp(old(View()), id) ==> id !in live
    {
      if id !in sandboxes { return Already; }
      RemoveRecord(id);
      OthersWhileDestroying(env.others(0), id);
      if !env.fails(0) { DestroyVm(id); }
      OthersWhileDestroying(env.others(1), id);
      return Finished(!env.fails(0));
    }

    /** The checkpoint of a sandbox that was PAUSED already: no vCPU command is needed. */
    method CheckpointReturns(j: nat)
      requires Valid() && j in jobs && jobs[j].kind == SnapshotKind(Paused) && jobs[j].stage == Waiting
      modifies this
      ensures Valid() && old(history) <= history
      ensures j in jobs && jobs[j] == old(jobs)[j].(stage := Returned(true))
    {
      ghost var before := View();
      jobs := jobs[j := jobs[j].(stage := Returned(true))];
      Note(Checkpointed(j), before);
    }

    method SnapshotSettles(id: string, j: nat, prev: SandboxState)
      requires Valid() && j in jobs && Settleable(jobs[j]) && jobs[j] == Job(id, SnapshotKind(prev), jobs[j].stage)
      modifies this
      ensures Valid() && old(history) <= history && j !in jobs
      ensures id in sandboxes ==>
                && sandboxes[id] == prev && id in live
                && (prev == Paused || old(jobs)[j].stage == Unthawed ==> !live[id])
                && (prev == Running && old(jobs)[j].stage == Returned(true) ==> live[id])
    {
      ghost var before := View();
      if id in sandboxes { RecordShowsClaim(history, before, j); }
      if id in sandboxes && sandboxes[id] == Snapshotting { sandboxes := sandboxes[id := prev]; }
      jobs := jobs - {j};
      Note(Settle(j), before);
    }

    /** Checkpoints a RUNNING or PAUSED sandbox, frozen meanwhile. Whatever fails inside and
        whatever others do, unless they destroy it, the record is back where it was. The vCPUs
        are too, unless the closing resume failed. */
    method Snapshot(id: string, j: nat, env: Environment) returns (r: Result)
      requires Valid() && j !in jobs
      modifies this
      ensures Valid() && old(history) <= history && j !in jobs
      ensures r.Finished? <==> CanSnapshot(old(sandboxes), id)
      ensures r.Finished? ==> (r.ok <==> !(old(sandboxes)[id] == Running && env.fails(0)) && !env.fails(1))
      ensures r.Finished? && id in sandboxes ==>
                && sandboxes[id] == old(sandboxes)[id] && id in live
                && (sandboxes[id] == Paused ==> !live[id])
                && (sandboxes[id] == Running && !env.fails(0) ==> live[id] == !env.fails(2))
      ensures !r.Finished? ==> View() == old(View())
      ensures r.NotFound? <==> id !in old(sandboxes)
      ensures r.WrongState? ==> r.state == old(sandboxes)[id]
    {
      if id !in sandboxes { return NotFound; }
      var prev := sandboxes[id];
      if prev != Running && prev != Paused { return WrongState(prev); }
      Claim(id, j, SnapshotKind(prev));
      if prev == Running {
        var ok := CaptureRunning(id, j, env);
        return Finished(ok);
      }
      Others(env.others(0), j);
      CheckpointReturns(j);
      SnapshotSettles(id, j, prev);
      return Finished(!env.fails(1));
    }

    /** Freezes, checkpoints and thaws a RUNNING sandbox. */
    method CaptureRunning(id: string, j: nat, env: Environment) returns (ok: bool)
      requires Valid() && j in jobs && jobs[j] == Job(id, SnapshotKind(Running), Waiting)
      modifies this
      ensures Valid() && old(history) <= history && j !in jobs
      ensures ok <==> !env.fails(0) && !env.fails(1)
      ensures id in sandboxes ==>
                sandboxes[id] == Running && id in live && (!env.fails(0) ==> live[id] == !env.fails(2))
    {
      Call(j, !env.fails(0), env.others(0), env.others(1));
      if !env.fails(0) { Call(j, !env.fails(2), env.others(2), env.others(3)); }
      SnapshotSettles(id, j, Running);
      return !env.fails(0) && !env.fails(1);
    }
  }
}
