/** Captures in progress, and the depth they give to chains.

    A capture reads its base, puts a CREATING row, streams, and puts the row again as READY
    or FAILED. Other callers act between those statements. */
module Capture {
  import opened Runs
  import opened Catalogue
  import Restore

  const MAX_DIFF_CHAIN := 8

  /** What resolving a base decided, before anything is captured. */
  datatype Plan = Plan(base: string, depth: int, memory: bool)

  datatype Resolution = Planned(plan: Plan) | BaseNeedsMemory | BaseNotFound | BaseNotReady | BaseWithoutMemory

  /** Past the limit the checkpoint is taken in full and becomes a new root. */
  function Resolve(rows: Rows, base: string, memory: bool): Resolution {
    if base == "" then Planned(Plan("", 0, memory))
    else if !memory then BaseNeedsMemory
    else if base !in rows then BaseNotFound
    else if rows[base].state != Ready then BaseNotReady
    else if !rows[base].memory then BaseWithoutMemory
    else if rows[base].depth + 1 <= MAX_DIFF_CHAIN then Planned(Plan(base, rows[base].depth + 1, memory))
    else Planned(Plan("", 0, memory))
  }

  /** A capture that has resolved its base, and then one that has put its row. */
  datatype Job = Resolved(plan: Plan) | Streaming(plan: Plan, id: string)

  datatype System = System(cat: State, jobs: map<nat, Job>, used: set<string>)

  datatype Event =
    | Start(job: nat, base: string, memory: bool)   // GetSnapshot and the checks
    | Open(job: nat, id: string)                    // PutSnapshot, state CREATING, fresh id
    | Settle(job: nat, ok: bool)                    // PutSnapshot, state READY or FAILED
    | Other(op: Op)                                 // acquire, release or delete by anyone

  function RowOf(plan: Plan, state: SnapshotState): Row {
    Row(state, 0, plan.base, plan.depth, plan.memory)
  }

  /** The catalogue statement an event issues, if any. */
  function Statement(s: System, e: Event): Option<Op> {
    match e
    case Open(j, id) =>
      if j in s.jobs && s.jobs[j].Resolved? then Some(Put(id, RowOf(s.jobs[j].plan, Creating))) else None
    case Settle(j, ok) =>
      if j in s.jobs && s.jobs[j].Streaming?
      then Some(Put(s.jobs[j].id, RowOf(s.jobs[j].plan, if ok then Ready else Failed))) else None
    case Other(op) => Some(op)
    case _ => None
  }

  datatype Option<T> = None | Some(value: T)

  function Apply(s: System, e: Event): System {
    var op := Statement(s, e);
    var cat := if op.Some? then Catalogue.Apply(s.cat, op.value) else s.cat;
    match e
    case Start(j, base, memory) =>
      var r := Resolve(s.cat.rows, base, memory);
      if r.Planned? then s.(jobs := s.jobs[j := Resolved(r.plan)]) else s
    case Open(j, id) =>
      if op.Some? then System(cat, s.jobs[j := Streaming(s.jobs[j].plan, id)], s.used + {id}) else s
    case Settle(j, _) =>
      if op.Some? then System(cat, s.jobs - {j}, s.used) else s
    case Other(_) => s.(cat := cat)
  }

  /** Job numbers and snapshot ids are fresh, and only captures put rows. */
  predicate Possible(s: System, e: Event) {
    && (e.Start? ==> e.job !in s.jobs)
    && (e.Open? ==> e.id != "" && e.id !in s.used)
    && (e.Other? ==> !e.op.Put?)
  }

  /** And owned releases are balanced. */
  predicate Allowed(s: System, e: Event) {
    Possible(s, e) && (e.Other? ==> Proper(s.cat, e.op))
  }

  /** A row is put over a base that is gone. */
  predicate PutsDangling(s: System, e: Event) {
    Statement(s, e).Some? && Statement(s, e).value.Put? && Harmful(s.cat, Statement(s, e).value)
  }

  /** A row is put over a base that is gone, or a reference is released twice. */
  predicate Harms(s: System, e: Event) {
    Statement(s, e).Some? && Harmful(s.cat, Statement(s, e).value)
  }

  /** `base` is what a diff of depth `depth` may stand on. */
  predicate Supports(rows: Rows, base: string, depth: int) {
    base in rows && rows[base].state == Ready && rows[base].memory && rows[base].depth + 1 == depth
  }

  /** A row that is self-contained, or stands at the right depth on a READY base with memory. */
  predicate Grounded(rows: Rows, base: string, depth: int) {
    if base == "" then depth == 0 else 1 <= depth <= MAX_DIFF_CHAIN && Supports(rows, base, depth)
  }

  /** The ids whose captures have put a row and not settled it. */
  function OpenIds(jobs: map<nat, Job>): set<string> {
    set j | j in jobs && jobs[j].Streaming? :: jobs[j].id
  }

  /** A plan whose base is still stored is still good; its base is settled for good. */
  predicate GoodPlan(rows: Rows, used: set<string>, open: set<string>, plan: Plan) {
    if plan.base == "" then plan.depth == 0
    else
      && 1 <= plan.depth <= MAX_DIFF_CHAIN
      && plan.base in used && plan.base !in open
      && (plan.base in rows ==> Supports(rows, plan.base, plan.depth))
  }

  predicate SameButCount(a: Row, b: Row) {
    a == b.(refCount := a.refCount)
  }

  predicate GoodJob(rows: Rows, used: set<string>, open: set<string>, job: Job) {
    && GoodPlan(rows, used, open, job.plan)
    && (job.Streaming? ==>
          && job.id in used && job.id != ""
          && (job.id in rows ==> SameButCount(rows[job.id], RowOf(job.plan, Creating))))
  }

  ghost predicate GoodJobs(rows: Rows, used: set<string>, jobs: map<nat, Job>) {
    forall j :: j in jobs ==> GoodJob(rows, used, OpenIds(jobs), jobs[j])
  }

  ghost predicate DistinctIds(jobs: map<nat, Job>) {
    forall i, j :: i in jobs && j in jobs && i != j && jobs[i].Streaming? && jobs[j].Streaming? ==>
      jobs[i].id != jobs[j].id
  }

  ghost predicate AllGrounded(rows: Rows) {
    forall id :: id in rows ==> Grounded(rows, rows[id].base, rows[id].depth)
  }

  /** Every row stands on a chain of grounded rows. No count matters for this. */
  ghost predicate Sound(s: System) {
    && Linked(s.cat.rows)
    && s.cat.rows.Keys <= s.used
    && AllGrounded(s.cat.rows)
    && GoodJobs(s.cat.rows, s.used, s.jobs)
    && DistinctIds(s.jobs)
  }

  ghost predicate Inv(s: System) {
    Counted(s.cat) && Sound(s)
  }

  /** A job stays good while settled ids stay settled and its own row only changes its count. */
  lemma JobStaysGood(
      rows: Rows, used: set<string>, open: set<string>, rows': Rows, used': set<string>, open': set<string>, job: Job)
    requires GoodJob(rows, used, open, job) && used <= used'
    requires forall x :: x in used && x !in open ==>
               x !in open' && (x in rows' ==> x in rows && SameButCount(rows'[x], rows[x]))
    requires job.Streaming? && job.id in rows' ==> job.id in rows && SameButCount(rows'[job.id], rows[job.id])
    ensures GoodJob(rows', used', open', job)
  {}

  lemma StatementIsProper(s: System, e: Event)
    requires Sound(s) && Possible(s, e) && Statement(s, e).Some?
    ensures Statement(s, e).value.Put? ==> Proper(s.cat, Statement(s, e).value)
    ensures Linked(Catalogue.Apply(s.cat, Statement(s, e).value).rows) <==> !PutsDangling(s, e)
  {
    if e.Settle? { assert GoodJob(s.cat.rows, s.used, OpenIds(s.jobs), s.jobs[e.job]); }
    OpKeepsLinks(s.cat, Statement(s, e).value);
  }

  // -- Start

  lemma StartKeepsSound(s: System, e: Event)
    requires Sound(s) && Possible(s, e) && !PutsDangling(s, e) && e.Start?
    ensures Sound(Apply(s, e))
  {
    var r := Resolve(s.cat.rows, e.base, e.memory);
    if r.Planned? {
      var jobs' := s.jobs[e.job := Resolved(r.plan)];
      OpenIdsAfterStart(s.jobs, e.job, r.plan);
      ResolvedPlanIsGood(s, e.base, e.memory);
    }
  }

  lemma OpenIdsAfterStart(jobs: map<nat, Job>, j: nat, plan: Plan)
    requires j !in jobs
    ensures OpenIds(jobs[j := Resolved(plan)]) == OpenIds(jobs)
  {
    var jobs' := jobs[j := Resolved(plan)];
    forall x | x in OpenIds(jobs) ensures x in OpenIds(jobs') {
      var i :| i in jobs && jobs[i].Streaming? && jobs[i].id == x;
      assert jobs'[i].id == x;
    }
  }

  lemma ResolvedPlanIsGood(s: System, base: string, memory: bool)
    requires s.cat.rows.Keys <= s.used && AllGrounded(s.cat.rows) && GoodJobs(s.cat.rows, s.used, s.jobs)
    requires Resolve(s.cat.rows, base, memory).Planned?
    ensures GoodPlan(s.cat.rows, s.used, OpenIds(s.jobs), Resolve(s.cat.rows, base, memory).plan)
  {
    var rows := s.cat.rows;
    var plan := Resolve(rows, base, memory).plan;
    if plan.base != "" {
      assert Grounded(rows, rows[base].base, rows[base].depth);
      forall j | j in s.jobs && s.jobs[j].Streaming? ensures s.jobs[j].id != base {
        assert GoodJob(rows, s.used, OpenIds(s.jobs), s.jobs[j]);
      }
    }
  }

  // -- Acquire, release, delete

  lemma OtherKeepsSound(s: System, e: Event)
    requires Sound(s) && Possible(s, e) && !PutsDangling(s, e) && e.Other?
    ensures Sound(Apply(s, e))
  {
    StatementIsProper(s, e);
    var rows, rows' := s.cat.rows, Apply(s, e).cat.rows;
    OtherKeepsRows(s.cat, e.op);
    forall id | id in rows' ensures Grounded(rows', rows'[id].base, rows'[id].depth) {
      assert Grounded(rows, rows[id].base, rows[id].depth);
      if rows[id].base != "" { assert HasChild(rows, rows[id].base); }
    }
    forall j | j in s.jobs ensures GoodJob(rows', s.used, OpenIds(s.jobs), s.jobs[j]) {
      JobStaysGood(rows, s.used, OpenIds(s.jobs), rows', s.used, OpenIds(s.jobs), s.jobs[j]);
    }
  }

  lemma OtherKeepsRows(cat: State, op: Op)
    requires !op.Put?
    ensures var rows' := Catalogue.Apply(cat, op).rows;
            && rows'.Keys <= cat.rows.Keys
            && (forall x :: x in rows' ==> SameButCount(rows'[x], cat.rows[x]))
            && (forall x :: x in cat.rows && HasChild(cat.rows, x) ==> x in rows')
  {}

  // -- Putting the CREATING row

  lemma OpenKeepsSound(s: System, e: Event)
    requires Sound(s) && Possible(s, e) && !PutsDangling(s, e) && e.Open?
    ensures Sound(Apply(s, e))
  {
    if Statement(s, e).Some? {
      StatementIsProper(s, e);
      var plan := s.jobs[e.job].plan;
      var rows' := s.cat.rows[e.id := RowOf(plan, Creating)];
      assert GoodJob(s.cat.rows, s.used, OpenIds(s.jobs), s.jobs[e.job]);
      assert Grounded(s.cat.rows, plan.base, plan.depth);
      PutKeepsGrounded(s.cat.rows, rows', e.id);
      OpenKeepsJobs(s.cat.rows, s.used, s.jobs, e.job, e.id);
      var s' := Apply(s, e);
      assert s'.cat.rows == rows' && s'.used == s.used + {e.id};
    }
  }

  lemma OpenKeepsJobs(rows: Rows, used: set<string>, jobs: map<nat, Job>, j: nat, id: string)
    requires GoodJobs(rows, used, jobs) && DistinctIds(jobs) && rows.Keys <= used
    requires j in jobs && jobs[j].Resolved? && id != "" && id !in used
    ensures var jobs' := jobs[j := Streaming(jobs[j].plan, id)];
            && GoodJobs(rows[id := RowOf(jobs[j].plan, Creating)], used + {id}, jobs')
            && DistinctIds(jobs')
  {
    var rows' := rows[id := RowOf(jobs[j].plan, Creating)];
    var jobs' := jobs[j := Streaming(jobs[j].plan, id)];
    OpenIdsAfterOpen(jobs, j, id);
    forall i | i in jobs ensures GoodJob(rows', used + {id}, OpenIds(jobs'), jobs'[i]) {
      JobStaysGood(rows, used, OpenIds(jobs), rows', used + {id}, OpenIds(jobs'), jobs[i]);
    }
    forall i | i in jobs && jobs[i].Streaming? ensures jobs[i].id in used {
      assert GoodJob(rows, used, OpenIds(jobs), jobs[i]);
    }
  }

  lemma OpenIdsAfterOpen(jobs: map<nat, Job>, j: nat, id: string)
    requires j in jobs && jobs[j].Resolved?
    ensures OpenIds(jobs[j := Streaming(jobs[j].plan, id)]) == OpenIds(jobs) + {id}
  {
    var jobs' := jobs[j := Streaming(jobs[j].plan, id)];
    forall x | x in OpenIds(jobs) ensures x in OpenIds(jobs') {
      var i :| i in jobs && jobs[i].Streaming? && jobs[i].id == x;
      assert jobs'[i].id == x;
    }
    assert jobs'[j].id == id;
  }

  /** Writing a grounded row that is not yet READY leaves every row grounded. */
  lemma PutKeepsGrounded(rows: Rows, rows': Rows, id: string)
    requires AllGrounded(rows) && id in rows' && rows' == rows[id := rows'[id]]
    requires Grounded(rows, rows'[id].base, rows'[id].depth)
    requires id in rows ==> rows[id].state == Creating
    ensures AllGrounded(rows')
  {
    forall x | x in rows' ensures Grounded(rows', rows'[x].base, rows'[x].depth) {
      if x != id { assert Grounded(rows, rows[x].base, rows[x].depth); }
    }
  }

  // -- Settling it

  lemma SettleKeepsSound(s: System, e: Event)
    requires Sound(s) && Possible(s, e) && !PutsDangling(s, e) && e.Settle?
    ensures Sound(Apply(s, e))
  {
    if Statement(s, e).Some? {
      StatementIsProper(s, e);
      var s' := Apply(s, e);
      var rows, rows' := s.cat.rows, s'.cat.rows;
      var job := s.jobs[e.job];
      assert GoodJob(rows, s.used, OpenIds(s.jobs), job);
      assert rows' == rows[job.id := rows'[job.id]];
      SettledPlanIsGrounded(rows, s.used, OpenIds(s.jobs), job, s.cat, Statement(s, e).value);
      PutKeepsGrounded(rows, rows', job.id);
      SettleKeepsJobs(rows, rows', s.used, s.jobs, e.job);
    }
  }

  lemma SettleKeepsJobs(rows: Rows, rows': Rows, used: set<string>, jobs: map<nat, Job>, j: nat)
    requires GoodJobs(rows, used, jobs) && DistinctIds(jobs) && j in jobs && jobs[j].Streaming?
    requires jobs[j].id in rows' && rows' == rows[jobs[j].id := rows'[jobs[j].id]]
    ensures GoodJobs(rows', used, jobs - {j}) && DistinctIds(jobs - {j})
  {
    OpenIdsAfterSettle(jobs, j);
    assert jobs[j].id in OpenIds(jobs);
    forall i | i in jobs - {j} ensures GoodJob(rows', used, OpenIds(jobs - {j}), jobs[i]) {
      JobStaysGood(rows, used, OpenIds(jobs), rows', used, OpenIds(jobs - {j}), jobs[i]);
    }
  }

  lemma SettledPlanIsGrounded(rows: Rows, used: set<string>, open: set<string>, job: Job, cat: State, op: Op)
    requires cat.rows == rows && AllGrounded(rows) && job.Streaming? && GoodJob(rows, used, open, job)
    requires op.Put? && op.id == job.id && op.row.base == job.plan.base && !Harmful(cat, op)
    ensures Grounded(rows, job.plan.base, job.plan.depth)
  {
    if job.id in rows { assert Grounded(rows, rows[job.id].base, rows[job.id].depth); }
  }

  lemma OpenIdsAfterSettle(jobs: map<nat, Job>, j: nat)
    requires j in jobs && jobs[j].Streaming? && DistinctIds(jobs)
    ensures OpenIds(jobs - {j}) == OpenIds(jobs) - {jobs[j].id}
  {
    forall x | x in OpenIds(jobs) && x != jobs[j].id ensures x in OpenIds(jobs - {j}) {
      var i :| i in jobs && jobs[i].Streaming? && jobs[i].id == x;
      assert (jobs - {j})[i].id == x;
    }
    forall x | x in OpenIds(jobs - {j}) ensures x in OpenIds(jobs) && x != jobs[j].id {
      var i :| i in jobs - {j} && (jobs - {j})[i].Streaming? && (jobs - {j})[i].id == x;
      assert jobs[i].id == x;
    }
  }

  /** One event keeps the rows sound exactly when it puts none over a missing base. */
  lemma EventKeepsSound(s: System, e: Event)
    requires Sound(s) && Possible(s, e)
    ensures Sound(Apply(s, e)) <==> !PutsDangling(s, e)
  {
    if PutsDangling(s, e) {
      StatementIsProper(s, e);
      assert Apply(s, e).cat == Catalogue.Apply(s.cat, Statement(s, e).value);
    } else {
      match e
      case Start(_, _, _) => StartKeepsSound(s, e);
      case Open(_, _) => OpenKeepsSound(s, e);
      case Settle(_, _) => SettleKeepsSound(s, e);
      case Other(_) => OtherKeepsSound(s, e);
    }
  }

  lemma CatAfter(s: System, e: Event)
    ensures Apply(s, e).cat == if Statement(s, e).Some? then Catalogue.Apply(s.cat, Statement(s, e).value) else s.cat
  {}

  lemma EventKeepsCounts(s: System, e: Event)
    requires Inv(s) && Allowed(s, e)
    ensures Counted(Apply(s, e).cat) <==> !(Harms(s, e) && Statement(s, e).value.Release?)
  {
    CatAfter(s, e);
    if Statement(s, e).Some? {
      StatementIsProper(s, e);
      OpKeepsCounts(s.cat, Statement(s, e).value);
    }
  }

  /** One event keeps counts and rows exactly when it does no harm. */
  lemma EventKeepsInv(s: System, e: Event)
    requires Inv(s) && Allowed(s, e)
    ensures Inv(Apply(s, e)) <==> !Harms(s, e)
  {
    EventKeepsCounts(s, e);
    EventKeepsSound(s, e);
  }

  const EMPTY := System(State(map[], multiset{}), map[], {})

  /** Over every interleaving of captures, acquires, releases and deletes: counts stay exact and
      every row grounded if and only if no event does harm. */
  lemma RunKeepsInv(events: seq<Event>)
    requires Each(Apply, Allowed, EMPTY, events)
    ensures Always(Apply, Inv, EMPTY, events) <==> Never(Apply, Harms, EMPTY, events)
  {
    forall s, e | Inv(s) && Allowed(s, e) ensures Inv(Apply(s, e)) <==> !Harms(s, e) { EventKeepsInv(s, e); }
    KeptIffNoBadStep(Apply, Inv, Allowed, Harms, EMPTY, events);
  }

  // ---- What a capture leaves behind ----

  /** The event settles the capture of `id`. */
  predicate Settles(s: System, e: Event, id: string) {
    e.Settle? && e.job in s.jobs && s.jobs[e.job].Streaming? && s.jobs[e.job].id == id
  }

  /** A settling put leaves the row READY or FAILED as the capture went, with the plan's base, depth
      and memory and the count it had, and touches no other row. */
  lemma SettleWrites(s: System, e: Event, id: string)
    requires Settles(s, e, id)
    ensures var s', plan := Apply(s, e), s.jobs[e.job].plan;
            && s'.cat.rows.Keys == s.cat.rows.Keys + {id}
            && (forall x :: x in s.cat.rows && x != id ==> s'.cat.rows[x] == s.cat.rows[x])
            && s'.cat.rows[id].state == (if e.ok then Ready else Failed)
            && s'.cat.rows[id].base == plan.base && s'.cat.rows[id].depth == plan.depth
            && s'.cat.rows[id].memory == plan.memory
            && s'.cat.rows[id].refCount == (if id in s.cat.rows then s.cat.rows[id].refCount else 0)
            && s'.cat.holders == s.cat.holders && e.job !in s'.jobs
  {}

  /** Starting reads the base once: the job keeps what that read decided, and a refused one leaves no
      trace. The catalogue is not written. */
  lemma StartPlans(s: System, e: Event)
    requires e.Start?
    ensures var s', r := Apply(s, e), Resolve(s.cat.rows, e.base, e.memory);
            && s'.cat == s.cat && s'.used == s.used
            && (r.Planned? ==> s'.jobs.Keys == s.jobs.Keys + {e.job} && s'.jobs[e.job] == Resolved(r.plan))
            && (!r.Planned? ==> s'.jobs == s.jobs)
            && (forall j :: j in s.jobs && j != e.job ==> s'.jobs[j] == s.jobs[j])
  {}

  /** The first put adds an unreferenced CREATING row under a new id, and touches no other row. */
  lemma OpenWrites(s: System, e: Event)
    requires e.Open? && e.job in s.jobs && s.jobs[e.job].Resolved? && e.id !in s.cat.rows
    ensures var s', plan := Apply(s, e), s.jobs[e.job].plan;
            && s'.cat.rows.Keys == s.cat.rows.Keys + {e.id}
            && (forall x :: x in s.cat.rows ==> s'.cat.rows[x] == s.cat.rows[x])
            && s'.cat.rows[e.id] == Row(Creating, 0, plan.base, plan.depth, plan.memory)
            && s'.jobs[e.job] == Streaming(plan, e.id)
  {}

  /** Ids in use are known, and no two captures write the same row. */
  ghost predicate Tidy(s: System) {
    && DistinctIds(s.jobs) && s.cat.rows.Keys <= s.used
    && forall j :: j in s.jobs && s.jobs[j].Streaming? ==> s.jobs[j].id in s.used
  }

  lemma EventKeepsTidy(s: System, e: Event)
    requires Tidy(s) && Possible(s, e)
    ensures Tidy(Apply(s, e))
  {
    CatAfter(s, e);
    if e.Other? { OtherKeepsRows(s.cat, e.op); }
  }

  /** No capture will write `id` again, and its row, if stored, says `row` but for the count. */
  ghost predicate Final(s: System, id: string, row: Row) {
    && Tidy(s) && id in s.used
    && (forall j :: j in s.jobs && s.jobs[j].Streaming? ==> s.jobs[j].id != id)
    && (id in s.cat.rows ==> SameButCount(s.cat.rows[id], row))
  }

  lemma SettleIsFinal(s: System, e: Event, id: string)
    requires Tidy(s) && Possible(s, e) && Settles(s, e, id)
    ensures Final(Apply(s, e), id, RowOf(s.jobs[e.job].plan, if e.ok then Ready else Failed))
  {
    EventKeepsTidy(s, e);
    SettleWrites(s, e, id);
  }

  lemma EventKeepsFinal(s: System, e: Event, id: string, row: Row)
    requires Final(s, id, row) && Possible(s, e)
    ensures Final(Apply(s, e), id, row)
  {
    EventKeepsTidy(s, e);
    CatAfter(s, e);
    if e.Other? { OtherKeepsRows(s.cat, e.op); }
  }

  lemma AlwaysTidy(events: seq<Event>, k: nat)
    requires Each(Apply, Possible, EMPTY, events) && k <= |events|
    ensures Tidy(At(Apply, EMPTY, events, k))
  {
    forall s, e | Tidy(s) && Possible(s, e) ensures Tidy(Apply(s, e)) { EventKeepsTidy(s, e); }
    KeptFrom(Apply, Tidy, Possible, EMPTY, events, 0, k);
  }

  /** Over every interleaving: what a capture settles on is final. At every later moment its row is
      gone or says READY, or FAILED, with the plan's base, depth and memory. */
  lemma SettledForGood(events: seq<Event>, k: nat, m: nat, id: string)
    requires Each(Apply, Possible, EMPTY, events) && k < m <= |events|
    requires Settles(At(Apply, EMPTY, events, k), events[k], id)
    ensures var plan := At(Apply, EMPTY, events, k).jobs[events[k].job].plan;
            var rows := At(Apply, EMPTY, events, m).cat.rows;
            id in rows ==>
              && rows[id].state == (if events[k].ok then Ready else Failed)
              && rows[id].base == plan.base && rows[id].depth == plan.depth && rows[id].memory == plan.memory
  {
    var s, e := At(Apply, EMPTY, events, k), events[k];
    var row := RowOf(s.jobs[e.job].plan, if e.ok then Ready else Failed);
    var inv := (x: System) => Final(x, id, row);
    AlwaysTidy(events, k);
    SettleIsFinal(s, e, id);
    RunPrefix(Apply, EMPTY, events, k);
    forall x, a | inv(x) && Possible(x, a) ensures inv(Apply(x, a)) { EventKeepsFinal(x, a, id, row); }
    KeptFrom(Apply, inv, Possible, EMPTY, events, k + 1, m);
  }

  predicate IsReady(rows: Rows, id: string) {
    id in rows && rows[id].state == Ready
  }

  /** Nothing but a capture that went well makes a row READY. */
  lemma ReadyComesFromSettle(s: System, e: Event, id: string)
    requires Possible(s, e) && IsReady(Apply(s, e).cat.rows, id) && !IsReady(s.cat.rows, id)
    ensures Settles(s, e, id) && e.ok
  {
    CatAfter(s, e);
    if e.Other? { OtherKeepsRows(s.cat, e.op); }
  }

  /** Over every interleaving: a row is READY at some moment only if a capture of its id settled
      well before. */
  lemma {:induction false} ReadyWasSettled(events: seq<Event>, m: nat, id: string) returns (k: nat)
    requires Each(Apply, Possible, EMPTY, events) && m <= |events|
    requires IsReady(At(Apply, EMPTY, events, m).cat.rows, id)
    ensures k < m && Settles(At(Apply, EMPTY, events, k), events[k], id) && events[k].ok
    decreases m
  {
    var before := At(Apply, EMPTY, events, m - 1);
    RunPrefix(Apply, EMPTY, events, m - 1);
    if IsReady(before.cat.rows, id) {
      k := ReadyWasSettled(events, m - 1, id);
    } else {
      k := m - 1;
      ReadyComesFromSettle(before, events[k], id);
    }
  }

  // ---- What may stand on what ----

  /** A diff is planned exactly over a READY base with memory, for a capture with memory, while the
      chain under it has at most eight members; then it stands one deeper than its base. */
  lemma DiffIff(rows: Rows, base: string, memory: bool)
    ensures var r := Resolve(rows, base, memory);
            r.Planned? && r.plan.base != "" <==>
              && base != "" && memory && base in rows
              && rows[base].state == Ready && rows[base].memory && rows[base].depth < 8
    ensures var r := Resolve(rows, base, memory);
            r.Planned? && r.plan.base != "" ==> r.plan == Plan(base, rows[base].depth + 1, true)
    ensures var r := Resolve(rows, base, memory);
            r.Planned? && r.plan.base == "" ==> r.plan == Plan("", 0, memory)
  {}

  /** Otherwise a capture with no base, or over a base at the limit, is taken in full, and any other
      is refused with the first thing that is wrong. */
  lemma RefusedIff(rows: Rows, base: string, memory: bool)
    ensures var r := Resolve(rows, base, memory);
            && (r.BaseNeedsMemory? <==> base != "" && !memory)
            && (r.BaseNotFound? <==> base != "" && memory && base !in rows)
            && (r.BaseNotReady? <==> base != "" && memory && base in rows && rows[base].state != Ready)
            && (r.BaseWithoutMemory? <==>
                  base != "" && memory && base in rows && rows[base].state == Ready && !rows[base].memory)
  {}

  // ---- Depth ----

  lemma {:induction false} ChainLengthIsDepth(rows: Rows, chain: seq<string>, id: string)
    requires AllGrounded(rows) && id != "" && IsChain(rows, chain, id) && Stored(rows, id)
    ensures |chain| == rows[id].depth + 1
    ensures forall i :: 0 <= i < |chain| - 1 ==>
              chain[i] in rows && rows[chain[i]].state == Ready && rows[chain[i]].memory
    decreases |chain|
  {
    assert Grounded(rows, rows[id].base, rows[id].depth);
    if |chain| > 1 {
      var n := |chain| - 1;
      var below := chain[..n];
      ChainPrefix(rows, chain, id, n);
      assert Stored(rows, chain[n - 1]) && rows[id].base == chain[n - 1];
      ChainLengthIsDepth(rows, below, chain[n - 1]);
      forall i | 0 <= i < n ensures chain[i] in rows && rows[chain[i]].state == Ready && rows[chain[i]].memory {
        assert Stored(rows, chain[i]);
        if i < n - 1 { assert below[i] == chain[i]; }
      }
    }
  }

  /** Every snapshot in the catalogue has a chain of one more than its recorded depth, never
      longer than nine, whose members below the requested one are READY and carry memory. */
  ghost predicate ChainsAreShort(s: System) {
    forall id :: id in s.cat.rows ==> HasShortChain(s.cat.rows, id)
  }

  ghost predicate HasShortChain(rows: Rows, id: string) {
    exists chain :: IsShortChain(rows, chain, id)
  }

  ghost predicate IsShortChain(rows: Rows, chain: seq<string>, id: string) {
    && id in rows && IsChain(rows, chain, id)
    && |chain| == rows[id].depth + 1 <= 9 < Restore.MAX_RESTORE_LAYERS
    && forall i :: 0 <= i < |chain| - 1 ==> chain[i] in rows && rows[chain[i]].state == Ready && rows[chain[i]].memory
  }

  lemma SoundMakesChainsShort(s: System)
    requires Sound(s)
    ensures ChainsAreShort(s)
  {
    var rows := s.cat.rows;
    forall id | id in rows ensures HasShortChain(rows, id) {
      assert HasChain(rows, id);
      var chain :| IsChain(rows, chain, id);
      assert Grounded(rows, rows[id].base, rows[id].depth);
      ChainLengthIsDepth(rows, chain, id);
      assert IsShortChain(rows, chain, id);
    }
  }

  /** A row over a missing base has no chain at all. */
  lemma DanglingHasNoChain(rows: Rows, id: string)
    requires Stored(rows, id) && rows[id].base != "" && (rows[id].base == id || rows[id].base !in rows)
    ensures !HasChain(rows, id)
  {
    if rows[id].base == id {
      SelfBaseHasNoChain(rows, id);
    } else {
      forall chain ensures !IsChain(rows, chain, id) {
        assert |chain| > 1 && IsChain(rows, chain, id) ==> Stored(rows, chain[|chain| - 2]);
      }
    }
  }

  lemma DanglingPutShows(s: System, e: Event)
    requires Sound(s) && Possible(s, e) && PutsDangling(s, e)
    ensures !ChainsAreShort(Apply(s, e))
  {
    StatementIsProper(s, e);
    var op := Statement(s, e).value;
    var rows := Apply(s, e).cat.rows;
    assert rows == s.cat.rows[op.id := op.row];
    DanglingHasNoChain(rows, op.id);
    assert op.id in rows && !HasShortChain(rows, op.id);
  }

  /** The depth bound, over every interleaving of captures, acquires, releases of any kind and
      deletes: chains are short at every moment if and only if no row is put over a base that is
      gone. */
  lemma DepthIsBounded(events: seq<Event>)
    requires Each(Apply, Possible, EMPTY, events)
    ensures Always(Apply, ChainsAreShort, EMPTY, events) <==> Never(Apply, PutsDangling, EMPTY, events)
  {
    forall s | Sound(s) ensures ChainsAreShort(s) { SoundMakesChainsShort(s); }
    forall s, e | Sound(s) && Possible(s, e)
      ensures if PutsDangling(s, e) then !ChainsAreShort(Apply(s, e)) else Sound(Apply(s, e))
    {
      EventKeepsSound(s, e);
      if PutsDangling(s, e) { DanglingPutShows(s, e); }
    }
    GoodIffNoBadStep(Apply, Sound, ChainsAreShort, Possible, PutsDangling, EMPTY, events);
  }

  // -- The bound is reached

  function Name(k: nat): (id: string)
    ensures |id| == k + 1
  {
    seq(k + 1, _ => 'x')
  }

  function Below(k: nat): string {
    if k == 0 then "" else Name(k - 1)
  }

  ghost predicate IsTower(s: System, k: nat) {
    && s.jobs == map[]
    && (forall x :: x in s.used ==> |x| <= k + 1) && s.cat.rows.Keys <= s.used
    && Name(k) in s.cat.rows && s.cat.rows[Name(k)] == Row(Ready, 0, Below(k), k, true)
  }

  predicate Orderly(s: System, e: Event) {
    Allowed(s, e) && !Harms(s, e)
  }

  lemma Storey(s: System, k: nat)
    requires k <= 8 && if k == 0 then s == EMPTY else IsTower(s, k - 1)
    ensures Orderly(s, Start(k, Below(k), true))
    ensures var s1 := Apply(s, Start(k, Below(k), true));
            var s2 := Apply(s1, Open(k, Name(k)));
            Orderly(s1, Open(k, Name(k))) && Orderly(s2, Settle(k, true)) && IsTower(Apply(s2, Settle(k, true)), k)
  {
    var plan := Plan(Below(k), k, true);
    var s1 := Apply(s, Start(k, Below(k), true));
    assert s1 == s.(jobs := map[k := Resolved(plan)]);
    var s2 := Apply(s1, Open(k, Name(k)));
    assert Name(k) !in s.used;
    assert s2.jobs == map[k := Streaming(plan, Name(k))];
    assert s2.cat.rows == s.cat.rows[Name(k) := RowOf(plan, Creating)];
    var s3 := Apply(s2, Settle(k, true));
    assert s3.cat.rows[Name(k)] == RowOf(plan, Ready);
  }

  lemma AddStorey(events: seq<Event>, s: System, k: nat) returns (more: seq<Event>)
    requires k <= 8 && if k == 0 then s == EMPTY else IsTower(s, k - 1)
    requires Each(Apply, Orderly, EMPTY, events) && Run(Apply, EMPTY, events) == s
    ensures Each(Apply, Orderly, EMPTY, more) && IsTower(Run(Apply, EMPTY, more), k)
  {
    Storey(s, k);
    ThreeMore(Apply, Orderly, EMPTY, events, Start(k, Below(k), true), Open(k, Name(k)), Settle(k, true));
    more := events + [Start(k, Below(k), true)] + [Open(k, Name(k))] + [Settle(k, true)];
  }

  /** One capture after another, each over the one before. */
  lemma {:induction false} BuildTower(k: nat) returns (events: seq<Event>)
    requires k <= 8
    ensures Each(Apply, Orderly, EMPTY, events) && IsTower(Run(Apply, EMPTY, events), k)
    decreases k
  {
    events := [];
    if k > 0 { events := BuildTower(k - 1); }
    events := AddStorey(events, Run(Apply, EMPTY, events), k);
  }

  /** Nine is not an overestimate: orderly captures reach every depth up to eight, and the next one
      over the deepest is taken in full. */
  lemma EveryDepthIsReached(k: nat) returns (events: seq<Event>, id: string)
    requires k <= 8
    ensures Each(Apply, Orderly, EMPTY, events)
    ensures var rows := Run(Apply, EMPTY, events).cat.rows;
            && IsReady(rows, id) && rows[id].depth == k
            && Resolve(rows, id, true) == Planned(if k < 8 then Plan(id, k + 1, true) else Plan("", 0, true))
  {
    id := Name(k);
    events := BuildTower(k);
  }

  /** A base present at the first put is not enough. Deleting a snapshot while its capture
      still streams, and then its base, lets the settling put bring the snapshot back READY
      over a base that is gone. */
  lemma DeletedCaptureComesBackDangling(base: Row)
    requires base == Row(Ready, 0, "", 0, true)
    ensures var s0 := System(State(map["b" := base], multiset{}), map[], {"b"});
            var s2 := Apply(Apply(s0, Start(0, "b", true)), Open(0, "d"));
            var s4 := Apply(Apply(s2, Other(Delete("d"))), Other(Delete("b")));
            var s5 := Apply(s4, Settle(0, true));
            && s2.cat.rows.Keys == {"b", "d"} && s4.cat.rows == map[]
            && s5.cat.rows == map["d" := Row(Ready, 0, "b", 1, true)]
            && Dangles(s5.cat.rows, "d")
  {
    var s0 := System(State(map["b" := base], multiset{}), map[], {"b"});
    var plan := Plan("b", 1, true);
    var s1 := Apply(s0, Start(0, "b", true));
    assert s1.jobs == map[0 := Resolved(plan)];
    var s2 := Apply(s1, Open(0, "d"));
    assert s2.cat.rows == map["b" := base, "d" := RowOf(plan, Creating)];
    assert s2.jobs == map[0 := Streaming(plan, "d")];
    var s3 := Apply(s2, Other(Delete("d")));
    assert !HasChild(s2.cat.rows, "d") && s3.cat.rows == map["b" := base];
    var s4 := Apply(s3, Other(Delete("b")));
    assert !HasChild(s3.cat.rows, "b") && (s3.cat.rows - {"b"}).Keys == {};
    var s5 := Apply(s4, Settle(0, true));
    assert s5.cat.rows == map["d" := RowOf(plan, Ready)];
    assert Ancestor(s5.cat.rows, "d", 0) == "d";
    assert Ancestor(s5.cat.rows, "d", 1) == "b";
  }
}
