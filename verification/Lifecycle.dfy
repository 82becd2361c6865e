/** Create, Pause, Resume, Snapshot and Destroy on one node, interleaved lock region by lock region.

    Each operation claims a transitional state under the manager's lock, calls the runtime
    unlocked, and settles under the lock. Runtime calls may fail at any time; a call that
    fails leaves the vCPUs as they were. Wake-on-request and the idle sweep start ordinary
    Resume, Pause and Destroy operations. */
module Lifecycle {
  import opened Runs

  datatype SandboxState = Starting | Restoring | Running | Pausing | Paused | Resuming | Snapshotting

  type Records = map<string, SandboxState>

  // ---- The lock regions ----

  predicate CanPause(r: Records, id: string) {
    id in r && r[id] == Running
  }

  predicate CanResume(r: Records, id: string) {
    id in r && r[id] == Paused
  }

  predicate CanSnapshot(r: Records, id: string) {
    id in r && (r[id] == Running || r[id] == Paused)
  }

  /** A successful runtime call is recorded whatever the record says by then. */
  function Settled(r: Records, id: string, state: SandboxState): Records {
    if id in r then r[id := state] else r
  }

  /** A failed call is undone only while the record still shows the claim. */
  function Undone(r: Records, id: string, claimed: SandboxState, back: SandboxState): Records {
    if id in r && r[id] == claimed then r[id := back] else r
  }

  // ---- The machine ----

  datatype Kind = PauseKind | ResumeKind | SnapshotKind(prev: SandboxState)

  /** Where an operation stands between claim and settlement. `Unthawed` is a snapshot whose
      closing resume failed; the failure is logged and the snapshot carries on. */
  datatype Stage = Waiting | Frozen | Returned(ok: bool) | Unthawed

  datatype Job = Job(id: string, kind: Kind, stage: Stage)

  /** `live` is the runtime's truth: whether a VM's vCPUs run. `creating` holds the creates in
      progress, and whether their guest is up already. */
  datatype Node = Node(
    records: Records, live: map<string, bool>, jobs: map<nat, Job>, used: set<string>, creating: map<string, bool>)

  const EMPTY := Node(map[], map[], map[], {}, map[])

  datatype Event =
    | Begin(id: string, fork: bool)        // Create or ForkSandbox takes the id
    | GuestUp(id: string)                  // the runtime has started the guest
    | Boot(id: string)                     // its agent answers, the record turns RUNNING
    | DropFailed(id: string)               // the create failed, before or after the guest came up
    | Claim(job: nat, id: string, kind: Kind)
    | Command(job: nat, ok: bool)          // the runtime's Pause or Resume call returns
    | Checkpointed(job: nat)               // the checkpoint of an already paused sandbox returns
    | Settle(job: nat)
    | Remove(id: string)                   // Destroy deletes the record
    | Gone(id: string)                     // the runtime destroys the VM

  function Transitional(k: Kind): SandboxState {
    match k
    case PauseKind => Pausing
    case ResumeKind => Resuming
    case SnapshotKind(_) => Snapshotting
  }

  predicate CanClaim(r: Records, id: string, k: Kind) {
    match k
    case PauseKind => CanPause(r, id)
    case ResumeKind => CanResume(r, id)
    case SnapshotKind(prev) => CanSnapshot(r, id) && r[id] == prev
  }

  datatype Order = Nothing | Stop | Go

  /** The runtime call a job makes next. */
  function NextOrder(job: Job): Order {
    match job.kind
    case PauseKind => if job.stage == Waiting then Stop else Nothing
    case ResumeKind => if job.stage == Waiting then Go else Nothing
    case SnapshotKind(prev) =>
      if prev != Running then Nothing
      else if job.stage == Waiting then Stop
      else if job.stage == Frozen then Go
      else Nothing
  }

  function NextStage(job: Job, ok: bool): Stage {
    if !job.kind.SnapshotKind? then Returned(ok)
    else if job.stage == Waiting then (if ok then Frozen else Returned(false))
    else if ok then Returned(true) else Unthawed
  }

  /** The runtime call returns. A failed one leaves the vCPUs as they were. */
  function ApplyCommand(n: Node, j: nat, ok: bool): Node
    requires j in n.jobs
  {
    var job := n.jobs[j];
    var order := NextOrder(job);
    if order == Nothing then n
    else
      n.(live := if ok && job.id in n.live then n.live[job.id := order == Go] else n.live,
         jobs := n.jobs[j := job.(stage := NextStage(job, ok))])
  }

  predicate Settleable(job: Job) {
    job.stage.Returned? || job.stage.Unthawed?
  }

  function SettledRecords(r: Records, job: Job): Records {
    match job.kind
    case PauseKind =>
      if job.stage == Returned(true) then Settled(r, job.id, Paused) else Undone(r, job.id, Pausing, Running)
    case ResumeKind =>
      if job.stage == Returned(true) then Settled(r, job.id, Running) else Undone(r, job.id, Resuming, Paused)
    case SnapshotKind(prev) => Undone(r, job.id, Snapshotting, prev)
  }

  function Apply(n: Node, e: Event): Node {
    match e
    case Begin(id, fork) =>
      n.(records := n.records[id := if fork then Restoring else Starting], used := n.used + {id},
         creating := n.creating[id := false])
    case GuestUp(id) =>
      if id in n.creating && !n.creating[id]
      then n.(live := n.live[id := true], creating := n.creating[id := true]) else n
    case Boot(id) =>
      if id in n.creating && n.creating[id]
      then n.(records := Settled(n.records, id, Running), creating := n.creating - {id}) else n
    case DropFailed(id) =>
      if id in n.creating
      then n.(records := n.records - {id}, live := n.live - {id}, creating := n.creating - {id}) else n
    case Claim(j, id, kind) =>
      if CanClaim(n.records, id, kind)
      then n.(records := n.records[id := Transitional(kind)], jobs := n.jobs[j := Job(id, kind, Waiting)]) else n
    case Command(j, ok) => if j in n.jobs then ApplyCommand(n, j, ok) else n
    case Checkpointed(j) =>
      if j in n.jobs && n.jobs[j].kind == SnapshotKind(Paused) && n.jobs[j].stage == Waiting
      then n.(jobs := n.jobs[j := n.jobs[j].(stage := Returned(true))]) else n
    case Settle(j) =>
      if j in n.jobs && Settleable(n.jobs[j])
      then n.(records := SettledRecords(n.records, n.jobs[j]), jobs := n.jobs - {j}) else n
    case Remove(id) => n.(records := n.records - {id})
    case Gone(id) => if id in n.records then n else n.(live := n.live - {id})
  }

  /** Ids are never reused, and job numbers are fresh. */
  predicate Allowed(n: Node, e: Event) {
    && (e.Begin? ==> e.id !in n.used)
    && (e.Claim? ==> e.job !in n.jobs)
  }

  // ---- What always holds ----

  predicate Going(live: map<string, bool>, id: string) {
    id in live && live[id]
  }

  predicate Stopped(live: map<string, bool>, id: string) {
    id in live && !live[id]
  }

  /** What a job's stage says about the vCPUs. */
  predicate Fits(live: map<string, bool>, job: Job) {
    match job.kind
    case PauseKind =>
      && (job.stage == Waiting || job.stage.Returned?) && job.id in live
      && (job.stage == Returned(true) ==> Stopped(live, job.id))
    case ResumeKind =>
      && (job.stage == Waiting || job.stage.Returned?)
      && if job.stage == Returned(true) then Going(live, job.id) else Stopped(live, job.id)
    case SnapshotKind(prev) =>
      if prev == Running then
        && job.id in live
        && (job.stage in {Frozen, Unthawed} ==> Stopped(live, job.id))
        && (job.stage == Returned(true) ==> Going(live, job.id))
      else prev == Paused && job.stage in {Waiting, Returned(true)} && Stopped(live, job.id)
  }

  /** At most one of Pause, Resume and Snapshot is between claim and settlement per sandbox. */
  ghost predicate Exclusive(n: Node) {
    forall i, j :: i in n.jobs && j in n.jobs && i != j ==> n.jobs[i].id != n.jobs[j].id
  }

  /** A record that says PAUSED is stopped, and one that says RUNNING has a VM. */
  ghost predicate Grounded(n: Node) {
    forall id :: id in n.records ==>
      && (n.records[id] == Running ==> id in n.live)
      && (n.records[id] == Paused ==> Stopped(n.live, id))
  }

  ghost predicate JobsFit(n: Node) {
    forall j :: j in n.jobs ==>
      && n.jobs[j].id in n.used
      && (n.jobs[j].id in n.records ==>
            n.records[n.jobs[j].id] == Transitional(n.jobs[j].kind) && Fits(n.live, n.jobs[j]))
  }

  /** A sandbox that is being created and has not been destroyed is STARTING or RESTORING, and runs
      once its guest is up. */
  ghost predicate CreatesFit(n: Node) {
    forall id :: id in n.creating && id in n.records ==>
      n.records[id] in {Starting, Restoring} && (n.creating[id] ==> Going(n.live, id))
  }

  ghost predicate Inv(n: Node) {
    && Exclusive(n) && Grounded(n) && JobsFit(n) && CreatesFit(n)
    && n.records.Keys <= n.used && n.live.Keys <= n.used && n.creating.Keys <= n.used
  }

  lemma NoJobWhenSteady(n: Node, id: string, j: nat)
    requires JobsFit(n) && j in n.jobs && id in n.records && n.records[id] in {Starting, Restoring, Running, Paused}
    ensures n.jobs[j].id != id
  {}

  lemma ClaimKeepsInv(n: Node, e: Event)
    requires Inv(n) && Allowed(n, e) && e.Claim?
    ensures Inv(Apply(n, e))
  {
    if CanClaim(n.records, e.id, e.kind) {
      forall j | j in n.jobs ensures n.jobs[j].id != e.id { NoJobWhenSteady(n, e.id, j); }
    }
  }

  lemma CommandFits(n: Node, j: nat, ok: bool)
    requires j in n.jobs && Fits(n.live, n.jobs[j])
    ensures Fits(ApplyCommand(n, j, ok).live, ApplyCommand(n, j, ok).jobs[j])
  {}

  /** A command for one sandbox does not change what another one's vCPUs do. */
  lemma CommandIsLocal(n: Node, j: nat, ok: bool, id: string)
    requires j in n.jobs && id != n.jobs[j].id
    ensures var live := ApplyCommand(n, j, ok).live;
            (id in live <==> id in n.live) && (id in live ==> live[id] == n.live[id])
  {}

  lemma CommandKeepsJobs(n: Node, j: nat, ok: bool)
    requires Exclusive(n) && JobsFit(n) && j in n.jobs
    ensures JobsFit(ApplyCommand(n, j, ok))
  {
    var n' := ApplyCommand(n, j, ok);
    if n.jobs[j].id in n.records { CommandFits(n, j, ok); }
    forall i | i in n.jobs && i != j
      ensures n'.jobs[i] == n.jobs[i] && (Fits(n.live, n.jobs[i]) ==> Fits(n'.live, n.jobs[i]))
    {
      CommandIsLocal(n, j, ok, n.jobs[i].id);
    }
  }

  lemma CommandKeepsInv(n: Node, j: nat, ok: bool)
    requires Inv(n) && j in n.jobs
    ensures Inv(ApplyCommand(n, j, ok))
  {
    var n' := ApplyCommand(n, j, ok);
    CommandKeepsJobs(n, j, ok);
    forall id | id in n.records && n.records[id] in {Running, Paused}
      ensures (id in n'.live <==> id in n.live) && (id in n'.live ==> n'.live[id] == n.live[id])
    {
      NoJobWhenSteady(n, id, j);
      CommandIsLocal(n, j, ok, id);
    }
    assert forall i :: i in n'.jobs ==> i in n.jobs && n'.jobs[i].id == n.jobs[i].id;
  }

  lemma SettlementIsGrounded(n: Node, j: nat)
    requires JobsFit(n) && j in n.jobs && Settleable(n.jobs[j]) && n.jobs[j].id in n.records
    ensures var id := n.jobs[j].id;
            var r := SettledRecords(n.records, n.jobs[j]);
            && r == n.records[id := r[id]] && r[id] in {Running, Paused}
            && id in n.live && (r[id] == Paused ==> Stopped(n.live, id))
  {
    assert Fits(n.live, n.jobs[j]);
  }

  lemma SettleKeepsInv(n: Node, j: nat)
    requires Inv(n) && j in n.jobs && Settleable(n.jobs[j])
    ensures Inv(Apply(n, Settle(j)))
  {
    var n' := Apply(n, Settle(j));
    var id := n.jobs[j].id;
    forall i | i in n'.jobs ensures n'.jobs[i] == n.jobs[i] && n'.jobs[i].id != id {}
    if id in n.records {
      SettlementIsGrounded(n, j);
    } else {
      assert n'.records == n.records;
    }
  }

  lemma BootKeepsInv(n: Node, id: string)
    requires Inv(n)
    ensures Inv(Apply(n, Boot(id)))
  {
    if id in n.creating && id in n.records {
      forall j | j in n.jobs ensures n.jobs[j].id != id { NoJobWhenSteady(n, id, j); }
    }
  }

  lemma GuestUpKeepsInv(n: Node, id: string)
    requires Inv(n)
    ensures Inv(Apply(n, GuestUp(id)))
  {
    if id in n.creating && id in n.records {
      forall j | j in n.jobs ensures n.jobs[j].id != id { NoJobWhenSteady(n, id, j); }
    }
  }

  lemma CheckpointKeepsInv(n: Node, j: nat)
    requires Inv(n)
    ensures Inv(Apply(n, Checkpointed(j)))
  {}

  lemma RecordsComeAndGo(n: Node, e: Event)
    requires Inv(n) && (e.Remove? || e.Gone?)
    ensures Inv(Apply(n, e))
  {}

  lemma DropKeepsInv(n: Node, id: string)
    requires Inv(n)
    ensures Inv(Apply(n, DropFailed(id)))
  {}

  lemma BeginKeepsInv(n: Node, e: Event)
    requires Inv(n) && Allowed(n, e) && e.Begin?
    ensures Inv(Apply(n, e))
  {
    assert e.id !in n.records;
  }

  lemma EventKeepsInv(n: Node, e: Event)
    requires Inv(n) && Allowed(n, e)
    ensures Inv(Apply(n, e))
  {
    match e
    case Claim(_, _, _) => ClaimKeepsInv(n, e);
    case Command(j, ok) => if j in n.jobs { CommandKeepsInv(n, j, ok); }
    case Settle(j) => if j in n.jobs && Settleable(n.jobs[j]) { SettleKeepsInv(n, j); }
    case Boot(id) => BootKeepsInv(n, id);
    case GuestUp(id) => GuestUpKeepsInv(n, id);
    case Checkpointed(j) => CheckpointKeepsInv(n, j);
    case Begin(_, _) => BeginKeepsInv(n, e);
    case DropFailed(id) => DropKeepsInv(n, id);
    case _ => RecordsComeAndGo(n, e);
  }

  /** Over every interleaving: operations exclude each other, PAUSED records are stopped, and
      RUNNING ones have a VM. */
  lemma TransitionsExclude(events: seq<Event>)
    requires Each(Apply, Allowed, EMPTY, events)
    ensures Always(Apply, Inv, EMPTY, events)
    ensures Always(Apply, Exclusive, EMPTY, events) && Always(Apply, Grounded, EMPTY, events)
  {
    forall n, e | Inv(n) && Allowed(n, e) ensures Inv(Apply(n, e)) { EventKeepsInv(n, e); }
    KeptBySteps(Apply, Inv, Allowed, EMPTY, events);
    forall k | 0 <= k <= |events|
      ensures Exclusive(At(Apply, EMPTY, events, k)) && Grounded(At(Apply, EMPTY, events, k))
    {
      assert Inv(At(Apply, EMPTY, events, k));
    }
  }

  // ---- What one event changes ----

  /** The sandbox an event is about. A job's events are about the sandbox it claimed. */
  function About(n: Node, e: Event): string {
    match e
    case Command(j, _) => if j in n.jobs then n.jobs[j].id else ""
    case Checkpointed(j) => if j in n.jobs then n.jobs[j].id else ""
    case Settle(j) => if j in n.jobs then n.jobs[j].id else ""
    case _ => e.id
  }

  predicate SameFor(n: Node, n': Node, id: string) {
    && (id in n'.records <==> id in n.records) && (id in n.records ==> n'.records[id] == n.records[id])
    && (id in n'.live <==> id in n.live) && (id in n.live ==> n'.live[id] == n.live[id])
  }

  /** An event changes the record and the vCPUs of the sandbox it is about, and of no other. */
  lemma EventsAreLocal(n: Node, e: Event, id: string)
    requires id != About(n, e)
    ensures SameFor(n, Apply(n, e), id)
  {}

  // ---- Destroyed for good ----

  /** The id was taken once and has no record. */
  predicate Removed(n: Node, id: string) {
    id in n.used && id !in n.records
  }

  /** And neither a VM nor a create that will still bring one up. */
  predicate Destroyed(n: Node, id: string) {
    Removed(n, id) && id !in n.live && !ToComeUp(n, id)
  }

  /** A create of the sandbox is in progress whose guest is not up yet. */
  predicate ToComeUp(n: Node, id: string) {
    id in n.creating && !n.creating[id]
  }

  lemma RemovedStays(n: Node, e: Event, id: string)
    requires Removed(n, id) && Allowed(n, e)
    ensures Removed(Apply(n, e), id)
    ensures Destroyed(n, id) ==> Destroyed(Apply(n, e), id)
    ensures !ToComeUp(n, id) ==> !ToComeUp(Apply(n, e), id)
    ensures e.Claim? && e.id == id ==> Apply(n, e) == n
  {}

  /** Remove takes the record, and nothing else, whatever state it was in; Gone then takes the VM. */
  lemma RemoveRemoves(n: Node, id: string)
    ensures id !in Apply(n, Remove(id)).records
    ensures Apply(n, Remove(id)).(records := map[]) == n.(records := map[])
    ensures var n' := Apply(Apply(n, Remove(id)), Gone(id));
            && id !in n'.records && id !in n'.live
            && n'.(records := map[], live := map[]) == n.(records := map[], live := map[])
  {}

  /** Over every interleaving: once a sandbox is removed it has no record at any later moment, so no
      operation claims it any more. */
  lemma RemovedForGood(events: seq<Event>, k: nat, m: nat, id: string)
    requires Each(Apply, Allowed, EMPTY, events) && k < m <= |events|
    requires events[k] == Remove(id) && id in At(Apply, EMPTY, events, k).used
    ensures id !in At(Apply, EMPTY, events, m).records
    ensures m < |events| && events[m].Claim? && events[m].id == id ==>
              At(Apply, EMPTY, events, m + 1) == At(Apply, EMPTY, events, m)
  {
    var inv := (n: Node) => Removed(n, id);
    RunPrefix(Apply, EMPTY, events, k);
    forall n, e | inv(n) && Allowed(n, e) ensures inv(Apply(n, e)) { RemovedStays(n, e, id); }
    KeptFrom(Apply, inv, Allowed, EMPTY, events, k + 1, m);
    if m < |events| {
      RunPrefix(Apply, EMPTY, events, m);
      assert Allowed(At(Apply, EMPTY, events, m), events[m]);
      RemovedStays(At(Apply, EMPTY, events, m), events[m], id);
    }
  }

  lemma DestroyedStays(n: Node, id: string, events: seq<Event>)
    requires Destroyed(n, id) && Each(Apply, Allowed, n, events)
    ensures Destroyed(Run(Apply, n, events), id)
  {
    var inv := (x: Node) => Destroyed(x, id);
    forall x, e | inv(x) && Allowed(x, e) ensures inv(Apply(x, e)) { RemovedStays(x, e, id); }
    KeptBySteps(Apply, inv, Allowed, n, events);
    assert events[..|events|] == events;
    assert inv(At(Apply, n, events, |events|));
  }

  lemma DestroyedCreateComesUp(n: Node, id: string)
    requires Removed(n, id) && ToComeUp(n, id)
    ensures var n' := Run(Apply, Apply(n, Gone(id)), [GuestUp(id)]);
            Each(Apply, Allowed, Apply(n, Gone(id)), [GuestUp(id)]) && Going(n'.live, id) && id !in n'.records
  {
    var gone := Apply(n, Gone(id));
    assert [GuestUp(id)][..0] == [] && [] + [GuestUp(id)] == [GuestUp(id)];
    RunAppend(Apply, gone, [], GuestUp(id));
  }

  /** When Destroy's runtime call has returned, the sandbox has no VM in any continuation if and only
      if no create of it was still to bring its guest up. Otherwise the guest can come up with no
      record. */
  lemma GoneForGoodIff(n: Node, id: string)
    requires Removed(n, id)
    ensures (forall events :: Each(Apply, Allowed, Apply(n, Gone(id)), events) ==>
              id !in Run(Apply, Apply(n, Gone(id)), events).live) <==> !ToComeUp(n, id)
  {
    var gone := Apply(n, Gone(id));
    if ToComeUp(n, id) {
      DestroyedCreateComesUp(n, id);
    } else {
      forall events | Each(Apply, Allowed, gone, events) ensures id !in Run(Apply, gone, events).live {
        DestroyedStays(gone, id, events);
      }
    }
  }

  /** A snapshot, whatever failed inside it, returns the record to the state it found. */
  lemma SnapshotReturnsWhatItFound(n: Node, j: nat)
    requires Inv(n) && j in n.jobs && n.jobs[j].kind.SnapshotKind? && Settleable(n.jobs[j])
    requires n.jobs[j].id in n.records
    ensures Apply(n, Settle(j)).records == n.records[n.jobs[j].id := n.jobs[j].kind.prev]
    ensures n.jobs[j].kind.prev in {Running, Paused}
  {
    assert Fits(n.live, n.jobs[j]);
  }

  // ---- When the records match the vCPUs outright ----

  /** RUNNING runs and PAUSED is stopped, without exception. */
  ghost predicate Matches(n: Node) {
    forall id :: id in n.records ==>
      && (n.records[id] == Running ==> Going(n.live, id))
      && (n.records[id] == Paused ==> Stopped(n.live, id))
  }

  /** The vCPUs a job found running still run, unless it stopped them itself. */
  predicate StillRuns(live: map<string, bool>, job: Job) {
    match job.kind
    case PauseKind => job.stage != Returned(true) ==> Going(live, job.id)
    case ResumeKind => true
    case SnapshotKind(prev) => prev == Running && job.stage !in {Frozen, Unthawed} ==> Going(live, job.id)
  }

  ghost predicate Exact(n: Node) {
    && Inv(n) && Matches(n)
    && forall j :: j in n.jobs && n.jobs[j].id in n.records ==> StillRuns(n.live, n.jobs[j])
  }

  /** A snapshot of a running sandbox settles although its closing resume failed, and the sandbox
      is still there. */
  predicate SettlesUnthawed(n: Node, e: Event) {
    e.Settle? && e.job in n.jobs && n.jobs[e.job].stage == Unthawed && n.jobs[e.job].id in n.records
  }

  lemma CommandKeepsExact(n: Node, j: nat, ok: bool)
    requires Exact(n) && j in n.jobs
    ensures Exact(ApplyCommand(n, j, ok))
  {
    var n' := ApplyCommand(n, j, ok);
    CommandKeepsInv(n, j, ok);
    forall id | id in n.records && n.records[id] in {Running, Paused}
      ensures (id in n'.live <==> id in n.live) && (id in n'.live ==> n'.live[id] == n.live[id])
    {
      NoJobWhenSteady(n, id, j);
      CommandIsLocal(n, j, ok, id);
    }
    if n.jobs[j].id in n.records { CommandStillRuns(n, j, ok); }
    forall i | i in n.jobs && i != j
      ensures n'.jobs[i] == n.jobs[i] && (StillRuns(n.live, n.jobs[i]) ==> StillRuns(n'.live, n.jobs[i]))
    {
      CommandIsLocal(n, j, ok, n.jobs[i].id);
    }
  }

  lemma CommandStillRuns(n: Node, j: nat, ok: bool)
    requires j in n.jobs && Fits(n.live, n.jobs[j]) && StillRuns(n.live, n.jobs[j])
    ensures StillRuns(ApplyCommand(n, j, ok).live, ApplyCommand(n, j, ok).jobs[j])
  {}

  lemma SettleKeepsExact(n: Node, j: nat)
    requires Exact(n) && j in n.jobs && Settleable(n.jobs[j])
    ensures if SettlesUnthawed(n, Settle(j)) then !Matches(Apply(n, Settle(j))) else Exact(Apply(n, Settle(j)))
  {
    var n', id := Apply(n, Settle(j)), n.jobs[j].id;
    SettleKeepsInv(n, j);
    forall i | i in n'.jobs ensures n'.jobs[i] == n.jobs[i] && n'.jobs[i].id != id {}
    if id in n.records {
      SettlementIsGrounded(n, j);
      SettlementMatches(n, j);
    } else {
      assert n'.records == n.records;
    }
  }

  lemma SettlementMatches(n: Node, j: nat)
    requires JobsFit(n) && j in n.jobs && Settleable(n.jobs[j]) && n.jobs[j].id in n.records
    requires StillRuns(n.live, n.jobs[j])
    ensures var id := n.jobs[j].id;
            var r := SettledRecords(n.records, n.jobs[j]);
            r[id] == Running ==> (Going(n.live, id) <==> n.jobs[j].stage != Unthawed)
    ensures n.jobs[j].stage == Unthawed ==> SettledRecords(n.records, n.jobs[j])[n.jobs[j].id] == Running
  {
    assert Fits(n.live, n.jobs[j]);
  }

  lemma ClaimKeepsExact(n: Node, e: Event)
    requires Exact(n) && Allowed(n, e) && e.Claim?
    ensures Exact(Apply(n, e))
  {
    ClaimKeepsInv(n, e);
  }

  lemma OthersKeepExact(n: Node, e: Event)
    requires Exact(n) && Allowed(n, e) && !e.Claim? && !e.Command? && !e.Settle?
    ensures Exact(Apply(n, e))
  {
    EventKeepsInv(n, e);
    if (e.Boot? || e.GuestUp?) && e.id in n.creating && e.id in n.records {
      forall j | j in n.jobs ensures n.jobs[j].id != e.id { NoJobWhenSteady(n, e.id, j); }
    }
  }

  /** One event keeps the records exact, or it settles an unthawed snapshot and they no longer
      match. */
  lemma EventKeepsExact(n: Node, e: Event)
    requires Exact(n) && Allowed(n, e)
    ensures if SettlesUnthawed(n, e) then !Matches(Apply(n, e)) else Exact(Apply(n, e))
  {
    match e
    case Claim(_, _, _) => ClaimKeepsExact(n, e);
    case Command(j, ok) => if j in n.jobs { CommandKeepsExact(n, j, ok); }
    case Settle(j) => if j in n.jobs && Settleable(n.jobs[j]) { SettleKeepsExact(n, j); }
    case _ => OthersKeepExact(n, e);
  }

  /** Over every interleaving, every record that says RUNNING or PAUSED matches the vCPUs at
      every moment if and only if no snapshot settles after a failed closing resume while its
      sandbox is still there. */
  lemma RecordsMatchUnlessThawFails(events: seq<Event>)
    requires Each(Apply, Allowed, EMPTY, events)
    ensures Always(Apply, Matches, EMPTY, events) <==> Never(Apply, SettlesUnthawed, EMPTY, events)
  {
    forall n, e | Exact(n) && Allowed(n, e)
      ensures if SettlesUnthawed(n, e) then !Matches(Apply(n, e)) else Exact(Apply(n, e))
    {
      EventKeepsExact(n, e);
    }
    GoodIffNoBadStep(Apply, Exact, Matches, Allowed, SettlesUnthawed, EMPTY, events);
  }

  /** After a failed one, the settled record says RUNNING while the vCPUs are stopped. */
  lemma FailedThawMisleads(n: Node, j: nat)
    requires Inv(n) && j in n.jobs && n.jobs[j].id in n.records
    requires n.jobs[j].kind == SnapshotKind(Running) && n.jobs[j].stage == Frozen
    ensures var id := n.jobs[j].id;
            var n' := Apply(Apply(n, Command(j, false)), Settle(j));
            n'.records[id] == Running && Stopped(n'.live, id)
  {
    assert Fits(n.live, n.jobs[j]);
    CommandKeepsInv(n, j, false);
    SnapshotReturnsWhatItFound(Apply(n, Command(j, false)), j);
  }
}
