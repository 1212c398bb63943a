/** The job pool of the MooseFS chunk server (mfschunkserver/bgjobs.c) as a machine whose steps are
    the sections that hold one of its locks. Any number of threads submit jobs, any number of
    workers run them, and one thread hands the results to the callbacks. */
module JobPool {
  import opened Lists
  import opened Wrappers

  const JHASHSIZE: nat := 0x400
  const WORD: nat := 0x1_0000_0000
  const STATUS_EINVAL: nat := 6     // MFS_ERROR_EINVAL
  const STATUS_NOTDONE: nat := 16   // MFS_ERROR_NOTDONE

  function JHashPos(id: nat): (pos: nat)
    ensures pos < JHASHSIZE
  {
    id % JHASHSIZE
  }

  datatype JState = Disabled | Enabled | InProgress
  datatype Mode = AlwaysDo | LimitedReturn | LimitedQueue

  /** `OP_INVAL`, or any of the operations that call into the chunk code. */
  datatype Op = Inval | Work

  datatype Job = Job(jobid: nat, callback: bool, jstate: JState)

  /** An entry of the job queue; `ref` is the address of the record. */
  datatype Task = Task(jobid: nat, op: Op, ref: nat)

  datatype Status = Status(jobid: nat, status: nat)

  /** Where a worker thread is in its loop. */
  datatype Worker = Idle | Got(task: Task) | Running(task: Task, jstate: JState) | Sent

  /** What a thread in `job_new` has decided to do with its job. */
  datatype Route = Undecided | Remove | Report | Enqueue
  datatype Submission = Submission(task: Task, busy: int, mode: Mode, errstatus: nat, route: Route)

  /** Who is responsible for a job. */
  datatype Place = Submitting | Queued | Held(worker: nat) | Pending

  type Ids = map<nat, nat>
  type Places = map<nat, Place>

  function IdsOf(records: map<nat, Job>): Ids {
    map r | r in records :: records[r].jobid
  }

  // ---------- the invariant ----------

  /** Every record is in the chain of its id, once, and ids are unique. */
  ghost predicate Hashed(ids: Ids, hash: seq<seq<nat>>) {
    |hash| == JHASHSIZE &&
    (forall r | r in ids :: r in hash[JHashPos(ids[r])]) &&
    (forall b, i | 0 <= b < JHASHSIZE && 0 <= i < |hash[b]| :: hash[b][i] in ids && JHashPos(ids[hash[b][i]]) == b) &&
    (forall b, i, j | 0 <= b < JHASHSIZE && 0 <= i < j < |hash[b]| :: hash[b][i] != hash[b][j]) &&
    forall r, q | r in ids && q in ids && ids[r] == ids[q] :: r == q
  }

  ghost predicate Submitters(ids: Ids, place: Places, submitting: map<nat, Submission>) {
    (forall r | r in submitting ::
       r in place && place[r] == Submitting && submitting[r].task.ref == r && r in ids &&
         ids[r] == submitting[r].task.jobid) &&
    forall r | r in place && place[r] == Submitting :: r in submitting
  }

  ghost predicate Queues(ids: Ids, place: Places, queue: seq<Task>) {
    (forall i | 0 <= i < |queue| ::
       queue[i].ref in place && place[queue[i].ref] == Queued && queue[i].ref in ids &&
         ids[queue[i].ref] == queue[i].jobid) &&
    (forall i, j | 0 <= i < j < |queue| :: queue[i].ref != queue[j].ref) &&
    forall r | r in place && place[r] == Queued :: exists i :: 0 <= i < |queue| && queue[i].ref == r
  }

  predicate Holds(w: Worker) {
    w.Got? || w.Running?
  }

  ghost predicate Holders(ids: Ids, place: Places, workers: map<nat, Worker>) {
    (forall w | w in workers && Holds(workers[w]) ::
       var task := workers[w].task;
       task.ref in place && place[task.ref] == Held(w) && task.ref in ids && ids[task.ref] == task.jobid) &&
    forall r | r in place && place[r].Held? ::
      place[r].worker in workers && Holds(workers[place[r].worker]) && workers[place[r].worker].task.ref == r
  }

  /** `owners` are the records that the queued statuses belong to. */
  ghost predicate Reports(ids: Ids, place: Places, statuses: seq<Status>, owners: seq<nat>) {
    |owners| == |statuses| &&
    (forall i | 0 <= i < |owners| ::
       owners[i] in place && place[owners[i]] == Pending && owners[i] in ids && ids[owners[i]] == statuses[i].jobid) &&
    (forall i, j | 0 <= i < j < |owners| :: owners[i] != owners[j]) &&
    forall r | r in place && place[r] == Pending :: r in owners
  }

  /** A job is in progress only after its worker has taken it up, and a worker knows what it found. */
  ghost predicate Stages(records: map<nat, Job>, place: Places, workers: map<nat, Worker>) {
    (forall r | r in records && r in place && place[r] in {Submitting, Queued} :: records[r].jstate != InProgress) &&
    forall w | w in workers && Holds(workers[w]) && workers[w].task.ref in records ::
      var state := records[workers[w].task.ref].jstate;
      if workers[w].Got? then state != InProgress
      else if workers[w].jstate == Enabled then state == InProgress
      else workers[w].jstate == Disabled && state == Disabled
  }

  function Free(workers: map<nat, Worker>): set<nat> {
    set w | w in workers && IsFree(workers[w])
  }

  ghost predicate Counted(workers: map<nat, Worker>, avail: int, total: int) {
    total == |workers| && avail == |Free(workers)|
  }

  // ---------- a job changes hands ----------

  /** Only the job `r` is different. */
  ghost predicate OnlyJob(ids: Ids, place: Places, ids': Ids, place': Places, r: nat) {
    (forall q | q in place && q != r :: q in place' && place'[q] == place[q]) &&
    (forall q | q in place' && q != r :: q in place) &&
    (forall q | q in ids && q != r :: q in ids' && ids'[q] == ids[q])
  }

  lemma OnlyNew(ids: Ids, place: Places, r: nat, id: nat, p: Place)
    ensures OnlyJob(ids, place, ids[r := id], place[r := p], r)
  {
  }

  lemma OnlyMoved(ids: Ids, place: Places, r: nat, p: Place)
    ensures OnlyJob(ids, place, ids, place[r := p], r)
  {
  }

  lemma OnlyGone(ids: Ids, place: Places, r: nat)
    ensures OnlyJob(ids, place, ids - {r}, place - {r}, r)
  {
  }

  predicate At(place: Places, r: nat, p: Place) {
    r in place && place[r] == p
  }

  lemma SubmittersFrame(ids: Ids, place: Places, ids': Ids, place': Places, submitting: map<nat, Submission>, r: nat)
    requires Submitters(ids, place, submitting) && OnlyJob(ids, place, ids', place', r)
    requires !At(place, r, Submitting) && !At(place', r, Submitting)
    ensures Submitters(ids', place', submitting)
  {
  }

  lemma QueuesFrame(ids: Ids, place: Places, ids': Ids, place': Places, queue: seq<Task>, r: nat)
    requires Queues(ids, place, queue) && OnlyJob(ids, place, ids', place', r)
    requires !At(place, r, Queued) && !At(place', r, Queued)
    ensures Queues(ids', place', queue)
  {
  }

  lemma HoldersFrame(ids: Ids, place: Places, ids': Ids, place': Places, workers: map<nat, Worker>, r: nat)
    requires Holders(ids, place, workers) && OnlyJob(ids, place, ids', place', r)
    requires !(r in place && place[r].Held?) && !(r in place' && place'[r].Held?)
    ensures Holders(ids', place', workers)
  {
  }

  lemma ReportsFrame(ids: Ids, place: Places, ids': Ids, place': Places, statuses: seq<Status>, owners: seq<nat>,
                     r: nat)
    requires Reports(ids, place, statuses, owners) && OnlyJob(ids, place, ids', place', r)
    requires !At(place, r, Pending) && !At(place', r, Pending)
    ensures Reports(ids', place', statuses, owners)
  {
  }

  lemma SubmittersPut(ids: Ids, place: Places, submitting: map<nat, Submission>, r: nat, id: nat, sub: Submission)
    requires Submitters(ids, place, submitting) && r !in ids && sub.task.ref == r && sub.task.jobid == id
    ensures Submitters(ids[r := id], place[r := Submitting], submitting[r := sub])
  {
  }

  lemma SubmittersGive(ids: Ids, place: Places, submitting: map<nat, Submission>, r: nat, p: Place)
    requires Submitters(ids, place, submitting) && r in submitting && p != Submitting
    ensures At(place, r, Submitting) && r in ids && ids[r] == submitting[r].task.jobid && submitting[r].task.ref == r
    ensures Submitters(ids, place[r := p], submitting - {r}) && Submitters(ids - {r}, place - {r}, submitting - {r})
  {
  }

  lemma SubmittersRoute(ids: Ids, place: Places, submitting: map<nat, Submission>, r: nat, route: Route)
    requires Submitters(ids, place, submitting) && r in submitting
    ensures Submitters(ids, place, submitting[r := submitting[r].(route := route)])
  {
  }

  /** `queue_put` on the job queue */
  lemma QueuesPut(ids: Ids, place: Places, queue: seq<Task>, task: Task)
    requires Queues(ids, place, queue) && task.ref in place && place[task.ref] != Queued
    requires task.ref in ids && ids[task.ref] == task.jobid
    ensures Queues(ids, place[task.ref := Queued], queue + [task])
  {
    var queue', place' := queue + [task], place[task.ref := Queued];
    assert queue'[|queue|] == task;
    forall r | At(place', r, Queued) ensures exists i :: 0 <= i < |queue'| && queue'[i].ref == r {
      if r != task.ref {
        assert At(place, r, Queued);
        var i :| 0 <= i < |queue| && queue[i].ref == r;
        assert queue'[i].ref == r;
      }
    }
    assert forall r | r in place' && place'[r] == Queued :: At(place', r, Queued);
  }

  /** `queue_get` on the job queue */
  lemma QueuesGet(ids: Ids, place: Places, queue: seq<Task>, p: Place)
    requires Queues(ids, place, queue) && queue != [] && p != Queued
    ensures At(place, queue[0].ref, Queued) && queue[0].ref in ids && ids[queue[0].ref] == queue[0].jobid
    ensures Queues(ids, place[queue[0].ref := p], queue[1..])
  {
    var r0, place' := queue[0].ref, place[queue[0].ref := p];
    forall r | At(place', r, Queued) ensures exists i :: 0 <= i < |queue[1..]| && queue[1..][i].ref == r {
      assert At(place, r, Queued);
      var i :| 0 <= i < |queue| && queue[i].ref == r;
      assert queue[1..][i - 1].ref == r;
    }
    assert forall r | r in place' && place'[r] == Queued :: At(place', r, Queued);
  }

  /** Putting a status */
  lemma ReportsPut(ids: Ids, place: Places, statuses: seq<Status>, owners: seq<nat>, r: nat, status: Status)
    requires Reports(ids, place, statuses, owners) && r in place && place[r] != Pending && r in ids
    requires ids[r] == status.jobid
    ensures Reports(ids, place[r := Pending], statuses + [status], owners + [r])
  {
  }

  /** Taking the first status, when its job is forgotten */
  lemma ReportsGet(ids: Ids, place: Places, statuses: seq<Status>, owners: seq<nat>)
    requires Reports(ids, place, statuses, owners) && statuses != []
    ensures owners != [] && At(place, owners[0], Pending) && owners[0] in ids && ids[owners[0]] == statuses[0].jobid
    ensures Reports(ids - {owners[0]}, place - {owners[0]}, statuses[1..], owners[1..])
  {
  }

  /** A worker takes the job up that it has got from the queue. */
  lemma HoldersTake(ids: Ids, place: Places, workers: map<nat, Worker>, w: nat, task: Task)
    requires Holders(ids, place, workers) && w in workers && !Holds(workers[w])
    requires task.ref in place && !place[task.ref].Held? && task.ref in ids && ids[task.ref] == task.jobid
    ensures Holders(ids, place[task.ref := Held(w)], workers[w := Got(task)])
  {
  }

  /** A worker goes on with the same job, or one without a job goes on without. */
  lemma HoldersKeep(ids: Ids, place: Places, workers: map<nat, Worker>, w: nat, state: Worker)
    requires Holders(ids, place, workers)
    requires if w in workers && Holds(workers[w]) then Holds(state) && state.task == workers[w].task else !Holds(state)
    ensures Holders(ids, place, workers[w := state])
  {
  }

  lemma HoldersLeave(ids: Ids, place: Places, workers: map<nat, Worker>, w: nat)
    requires Holders(ids, place, workers) && w in workers && !Holds(workers[w])
    ensures Holders(ids, place, workers - {w})
  {
  }

  /** A worker hands its job on. */
  lemma HoldersGive(ids: Ids, place: Places, workers: map<nat, Worker>, w: nat, p: Place)
    requires Holders(ids, place, workers) && w in workers && Holds(workers[w]) && !p.Held?
    ensures At(place, workers[w].task.ref, Held(w)) && workers[w].task.ref in ids
    ensures ids[workers[w].task.ref] == workers[w].task.jobid
    ensures Holders(ids, place[workers[w].task.ref := p], workers[w := Sent])
  {
  }

  // ---------- the chains ----------

  lemma HashedInsert(ids: Ids, hash: seq<seq<nat>>, r: nat, id: nat)
    requires Hashed(ids, hash) && r !in ids && forall q | q in ids :: ids[q] != id
    ensures Hashed(ids[r := id], hash[JHashPos(id) := [r] + hash[JHashPos(id)]])
  {
    hide JHashPos;
    var b := JHashPos(id);
    var hash' := hash[b := [r] + hash[b]];
    assert hash'[b][0] == r;
    forall q | q in ids ensures q in hash'[JHashPos(ids[q])] {
      var i :| 0 <= i < |hash[JHashPos(ids[q])]| && hash[JHashPos(ids[q])][i] == q;
      if JHashPos(ids[q]) == b {
        assert hash'[b][i + 1] == q;
      }
    }
  }

  lemma HashedRemove(ids: Ids, hash: seq<seq<nat>>, b: nat, i: nat)
    requires Hashed(ids, hash) && b < JHASHSIZE && i < |hash[b]|
    ensures Hashed(ids - {hash[b][i]}, hash[b := hash[b][..i] + hash[b][i + 1..]])
  {
    hide JHashPos;
    var r, chain := hash[b][i], hash[b][..i] + hash[b][i + 1..];
    var hash' := hash[b := chain];
    assert forall j | 0 <= j < |chain| :: chain[j] == hash[b][if j < i then j else j + 1];
    forall q | q in ids && q != r ensures q in hash'[JHashPos(ids[q])] {
      var k :| 0 <= k < |hash[JHashPos(ids[q])]| && hash[JHashPos(ids[q])][k] == q;
      if JHashPos(ids[q]) == b {
        assert if k < i then chain[k] == q else chain[k - 1] == q;
      }
    }
  }

  // ---------- counting workers ----------

  lemma WithOrWithout(a: set<nat>, w: nat)
    ensures |a - {w}| == |a| - (if w in a then 1 else 0) && |a + {w}| == |a - {w}| + 1
  {
    assert a + {w} == a - {w} + {w};
    assert w !in a ==> a - {w} == a;
    assert w in a ==> a == a - {w} + {w};
  }

  predicate IsFree(state: Worker) {
    state.Idle? || state.Got?
  }

  lemma FreeUpdate(workers: map<nat, Worker>, w: nat, state: Worker)
    ensures Free(workers[w := state]) == if IsFree(state) then Free(workers) + {w} else Free(workers) - {w}
    ensures w in Free(workers) <==> w in workers && IsFree(workers[w])
    ensures workers[w := state].Keys == workers.Keys + {w}
  {
    var f := Free(workers[w := state]);
    if IsFree(state) {
      forall v ensures v in f <==> v in Free(workers) || v == w {
      }
    } else {
      forall v ensures v in f <==> v in Free(workers) && v != w {
      }
    }
  }

  lemma FreeChanges(workers: map<nat, Worker>, w: nat, state: Worker)
    ensures |workers[w := state]| == |workers| + if w in workers then 0 else 1
    ensures |Free(workers[w := state])| ==
            |Free(workers)| + (if IsFree(state) then 1 else 0) - (if w in workers && IsFree(workers[w]) then 1 else 0)
  {
    hide Free, IsFree;
    FreeUpdate(workers, w, state);
    WithOrWithout(Free(workers), w);
    WithOrWithout(workers.Keys, w);
  }

  lemma FreeLeaves(workers: map<nat, Worker>, w: nat)
    requires w in workers
    ensures |workers - {w}| == |workers| - 1
    ensures |Free(workers - {w})| == |Free(workers)| - if IsFree(workers[w]) then 1 else 0
  {
    assert (workers - {w}).Keys == workers.Keys - {w};
    assert Free(workers - {w}) == Free(workers) - {w};
    assert w in Free(workers) <==> IsFree(workers[w]);
    hide Free;
    WithOrWithout(Free(workers), w);
    WithOrWithout(workers.Keys, w);
  }

  lemma FreeAreWorkers(workers: map<nat, Worker>)
    ensures |Free(workers)| <= |workers|
  {
    assert Free(workers) <= workers.Keys;
    SubsetSize(Free(workers), workers.Keys);
  }

  // ---------- all of it together ----------

  datatype State = State(records: map<nat, Job>, hash: seq<seq<nat>>, submitting: map<nat, Submission>,
                         queue: seq<Task>, threads: map<nat, Worker>, statuses: seq<Status>)

  ghost predicate Consistent(s: State, place: Places, owners: seq<nat>) {
    var ids := IdsOf(s.records);
    && Hashed(ids, s.hash) && place.Keys == s.records.Keys && Submitters(ids, place, s.submitting) &&
      Queues(ids, place, s.queue)
    && Holders(ids, place, s.threads) && Reports(ids, place, s.statuses, owners) && Stages(s.records, place, s.threads)
  }

  /** Conservation: a job is with the thread that submits it, in the job queue, with a worker or in
      the status queue, in exactly one of them and once. */
  ghost predicate InOnePlace(s: State, r: nat, id: nat) {
    var a := if r in s.submitting then 1 else 0;
    var b := multiset(Refs(s.queue))[r];
    var c := |Carriers(s.threads, r)|;
    var d := multiset(JobIds(s.statuses))[id];
    a + b + c + d == 1
  }

  function Refs(queue: seq<Task>): seq<nat> {
    seq(|queue|, i requires 0 <= i < |queue| => queue[i].ref)
  }

  function JobIds(statuses: seq<Status>): seq<nat> {
    seq(|statuses|, i requires 0 <= i < |statuses| => statuses[i].jobid)
  }

  function Carriers(threads: map<nat, Worker>, r: nat): set<nat> {
    set w | w in threads && Holds(threads[w]) && threads[w].task.ref == r
  }

  lemma {:induction false} CountOnce(s: seq<nat>, x: nat)
    requires forall i, j | 0 <= i < j < |s| :: s[i] != s[j]
    ensures multiset(s)[x] == if x in s then 1 else 0
  {
    if s != [] {
      assert s == [s[0]] + s[1..];
      CountOnce(s[1..], x);
    }
  }

  lemma QueuedOnce(ids: Ids, place: Places, queue: seq<Task>, r: nat)
    requires Queues(ids, place, queue) && r in place
    ensures multiset(Refs(queue))[r] == if place[r] == Queued then 1 else 0
  {
    var refs := Refs(queue);
    forall i, j | 0 <= i < j < |refs| ensures refs[i] != refs[j] {
      assert queue[i].ref != queue[j].ref;
    }
    CountOnce(refs, r);
    if place[r] == Queued {
      var i :| 0 <= i < |queue| && queue[i].ref == r;
      assert refs[i] == r;
    }
  }

  lemma ReportedOnce(ids: Ids, place: Places, statuses: seq<Status>, owners: seq<nat>, r: nat)
    requires Reports(ids, place, statuses, owners) && r in place && r in ids
    requires forall p, q | p in ids && q in ids && ids[p] == ids[q] :: p == q
    ensures multiset(JobIds(statuses))[ids[r]] == if place[r] == Pending then 1 else 0
  {
    var jobIds := JobIds(statuses);
    forall i, j | 0 <= i < j < |jobIds| ensures jobIds[i] != jobIds[j] {
      assert ids[owners[i]] == jobIds[i] && ids[owners[j]] == jobIds[j];
    }
    CountOnce(jobIds, ids[r]);
    if i :| 0 <= i < |jobIds| && jobIds[i] == ids[r] {
      assert ids[owners[i]] == ids[r];
    }
    if place[r] == Pending {
      var i :| 0 <= i < |owners| && owners[i] == r;
      assert jobIds[i] == ids[r];
    }
  }

  lemma HeldOnce(ids: Ids, place: Places, threads: map<nat, Worker>, r: nat)
    requires Holders(ids, place, threads) && r in place
    ensures |Carriers(threads, r)| == if place[r].Held? then 1 else 0
  {
    assert Carriers(threads, r) == if place[r].Held? then {place[r].worker} else {};
  }

  /** Every record has exactly one place. */
  lemma Conservation(s: State, place: Places, owners: seq<nat>, r: nat)
    requires Consistent(s, place, owners) && r in s.records
    ensures InOnePlace(s, r, s.records[r].jobid)
  {
    var ids := IdsOf(s.records);
    assert ids[r] == s.records[r].jobid;
    assert r in s.submitting <==> place[r] == Submitting;
    hide Queues, Reports, Holders;
    QueuedOnce(ids, place, s.queue, r);
    ReportedOnce(ids, place, s.statuses, owners, r);
    HeldOnce(ids, place, s.threads, r);
  }

  lemma Elsewhere(ids: Ids, place: Places, ids': Ids, place': Places, r: nat, s: State, owners: seq<nat>)
    requires OnlyJob(ids, place, ids', place', r)
    ensures !At(place, r, Submitting) && !At(place', r, Submitting) && Submitters(ids, place, s.submitting) ==>
      Submitters(ids', place', s.submitting)
    ensures !At(place, r, Queued) && !At(place', r, Queued) && Queues(ids, place, s.queue) ==>
      Queues(ids', place', s.queue)
    ensures !(r in place && place[r].Held?) && !(r in place' && place'[r].Held?) && Holders(ids, place, s.threads) ==>
      Holders(ids', place', s.threads)
    ensures !At(place, r, Pending) && !At(place', r, Pending) && Reports(ids, place, s.statuses, owners) ==>
      Reports(ids', place', s.statuses, owners)
  {
    hide Submitters, Queues, Holders, Reports, OnlyJob;
    if !At(place, r, Submitting) && !At(place', r, Submitting) && Submitters(ids, place, s.submitting) {
      SubmittersFrame(ids, place, ids', place', s.submitting, r);
    }
    if !At(place, r, Queued) && !At(place', r, Queued) && Queues(ids, place, s.queue) {
      QueuesFrame(ids, place, ids', place', s.queue, r);
    }
    if !(r in place && place[r].Held?) && !(r in place' && place'[r].Held?) && Holders(ids, place, s.threads) {
      HoldersFrame(ids, place, ids', place', s.threads, r);
    }
    if !At(place, r, Pending) && !At(place', r, Pending) && Reports(ids, place, s.statuses, owners) {
      ReportsFrame(ids, place, ids', place', s.statuses, owners, r);
    }
  }

  // ---------- what the workers know ----------

  lemma StagesNew(records: map<nat, Job>, place: Places, threads: map<nat, Worker>, ids: Ids, r: nat, job: Job)
    requires Stages(records, place, threads) && Holders(ids, place, threads) && ids.Keys == records.Keys
    requires r !in records
    requires job.jstate != InProgress
    ensures Stages(records[r := job], place[r := Submitting], threads)
  {
  }

  /** Nothing is said about a job that is pending, and a job on its way to a worker is as it was. */
  lemma StagesMoved(records: map<nat, Job>, place: Places, threads: map<nat, Worker>, r: nat, p: Place)
    requires Stages(records, place, threads) && r in records && r in place
    requires p in {Submitting, Queued} ==> place[r] in {Submitting, Queued}
    ensures Stages(records, place[r := p], threads)
  {
  }

  lemma StagesGone(records: map<nat, Job>, place: Places, threads: map<nat, Worker>, r: nat)
    requires Stages(records, place, threads)
    ensures Stages(records - {r}, place - {r}, threads)
  {
  }

  lemma StagesThread(records: map<nat, Job>, place: Places, threads: map<nat, Worker>, w: nat, state: Worker)
    requires Stages(records, place, threads)
    requires Holds(state) && state.task.ref in records ==>
      if state.Got? then records[state.task.ref].jstate != InProgress
      else if state.jstate == Enabled then records[state.task.ref].jstate == InProgress
      else state.jstate == Disabled && records[state.task.ref].jstate == Disabled
    ensures Stages(records, place, threads[w := state]) && Stages(records, place, threads - {w})
  {
  }

  // ---------- the steps on values ----------

  function Created(s: State, r: nat, job: Job, sub: Submission): State
    requires |s.hash| == JHASHSIZE
  {
    var b := JHashPos(job.jobid);
    s.(records := s.records[r := job], hash := s.hash[b := [r] + s.hash[b]], submitting := s.submitting[r := sub])
  }

  lemma CreatedIds(records: map<nat, Job>, r: nat, job: Job)
    requires r !in records && forall q | q in records :: records[q].jobid != job.jobid
    ensures IdsOf(records[r := job]) == IdsOf(records)[r := job.jobid] && r !in IdsOf(records)
    ensures forall q | q in IdsOf(records) :: IdsOf(records)[q] != job.jobid
    ensures IdsOf(records).Keys == records.Keys
  {
  }

  lemma CreatedOk(s: State, place: Places, owners: seq<nat>, r: nat, job: Job, sub: Submission)
    requires |s.hash| == JHASHSIZE && Consistent(s, place, owners)
    requires r !in s.records && forall q | q in s.records :: s.records[q].jobid != job.jobid
    requires job.jstate != InProgress && sub.task.ref == r && sub.task.jobid == job.jobid
    ensures Consistent(Created(s, r, job, sub), place[r := Submitting], owners)
  {
    var ids := IdsOf(s.records);
    hide Hashed, Submitters, Queues, Holders, Reports, Stages, OnlyJob, IdsOf, JHashPos;
    CreatedIds(s.records, r, job);
    HashedInsert(ids, s.hash, r, job.jobid);
    SubmittersPut(ids, place, s.submitting, r, job.jobid, sub);
    OnlyNew(ids, place, r, job.jobid, Submitting);
    Elsewhere(ids, place, ids[r := job.jobid], place[r := Submitting], r, s, owners);
    StagesNew(s.records, place, s.threads, ids, r, job);
  }

  /** Another decision about the same submission */
  lemma RoutedOk(s: State, place: Places, owners: seq<nat>, r: nat, route: Route)
    requires Consistent(s, place, owners) && r in s.submitting
    ensures Consistent(s.(submitting := s.submitting[r := s.submitting[r].(route := route)]), place, owners)
  {
    hide Hashed, Submitters, Queues, Holders, Reports, Stages, IdsOf;
    SubmittersRoute(IdsOf(s.records), place, s.submitting, r, route);
  }

  lemma SubmittingRecord(s: State, place: Places, owners: seq<nat>, r: nat)
    requires Consistent(s, place, owners) && r in s.submitting
    ensures r in s.records && At(place, r, Submitting) && s.records[r].jobid == s.submitting[r].task.jobid
    ensures s.submitting[r].task.ref == r
  {
    SubmittersGive(IdsOf(s.records), place, s.submitting, r, Queued);
  }

  /** The submitting thread puts the job on the queue. */
  lemma EnqueuedOk(s: State, place: Places, owners: seq<nat>, r: nat)
    requires Consistent(s, place, owners) && r in s.submitting
    ensures Consistent(s.(submitting := s.submitting - {r}, queue := s.queue + [s.submitting[r].task]),
                       place[r := Queued], owners)
  {
    var ids := IdsOf(s.records);
    SubmittingRecord(s, place, owners, r);
    hide Hashed, Submitters, Queues, Holders, Reports, Stages, OnlyJob, IdsOf;
    SubmittersGive(ids, place, s.submitting, r, Queued);
    QueuesPut(ids, place, s.queue, s.submitting[r].task);
    OnlyMoved(ids, place, r, Queued);
    Elsewhere(ids, place, ids, place[r := Queued], r, s, owners);
    StagesMoved(s.records, place, s.threads, r, Queued);
  }

  /** The submitting thread reports that there are too many jobs. */
  lemma ReportedOk(s: State, place: Places, owners: seq<nat>, r: nat, status: nat)
    requires Consistent(s, place, owners) && r in s.submitting
    ensures Consistent(s.(submitting := s.submitting - {r},
                          statuses := s.statuses + [Status(s.submitting[r].task.jobid, status)]),
                       place[r := Pending], owners + [r])
  {
    var ids := IdsOf(s.records);
    SubmittingRecord(s, place, owners, r);
    hide Hashed, Submitters, Queues, Holders, Reports, Stages, OnlyJob, IdsOf;
    SubmittersGive(ids, place, s.submitting, r, Pending);
    ReportsPut(ids, place, s.statuses, owners, r, Status(s.submitting[r].task.jobid, status));
    OnlyMoved(ids, place, r, Pending);
    Elsewhere(ids, place, ids, place[r := Pending], r, s, owners);
    StagesMoved(s.records, place, s.threads, r, Pending);
  }

  /** The submitting thread takes the job back. */
  lemma RemovedOk(s: State, place: Places, owners: seq<nat>, r: nat, b: nat, i: nat)
    requires Consistent(s, place, owners) && r in s.submitting && b < JHASHSIZE && b < |s.hash| && i < |s.hash[b]|
    requires s.hash[b][i] == r
    ensures Consistent(s.(records := s.records - {r}, hash := s.hash[b := s.hash[b][..i] + s.hash[b][i + 1..]],
                          submitting := s.submitting - {r}), place - {r}, owners)
  {
    var ids := IdsOf(s.records);
    assert IdsOf(s.records - {r}) == ids - {r};
    SubmittingRecord(s, place, owners, r);
    hide Hashed, Submitters, Queues, Holders, Reports, Stages, OnlyJob, IdsOf;
    HashedRemove(ids, s.hash, b, i);
    SubmittersGive(ids, place, s.submitting, r, Queued);
    OnlyGone(ids, place, r);
    Elsewhere(ids, place, ids - {r}, place - {r}, r, s, owners);
    StagesGone(s.records, place, s.threads, r);
  }

  /** A worker gets a job from the queue. */
  lemma TakenOk(s: State, place: Places, owners: seq<nat>, w: nat)
    requires Consistent(s, place, owners) && w in s.threads && !Holds(s.threads[w]) && s.queue != []
    ensures s.queue[0].ref in s.records && At(place, s.queue[0].ref, Queued)
    ensures Consistent(s.(queue := s.queue[1..], threads := s.threads[w := Got(s.queue[0])]),
                       place[s.queue[0].ref := Held(w)], owners)
  {
    var ids, r := IdsOf(s.records), s.queue[0].ref;
    QueuesGet(ids, place, s.queue, Held(w));
    assert s.records[r].jstate != InProgress;
    hide Hashed, Submitters, Queues, Holders, Reports, Stages, OnlyJob, IdsOf;
    HoldersTake(ids, place, s.threads, w, s.queue[0]);
    OnlyMoved(ids, place, r, Held(w));
    Elsewhere(ids, place, ids, place[r := Held(w)], r, s, owners);
    StagesMoved(s.records, place, s.threads, r, Held(w));
    StagesThread(s.records, place[r := Held(w)], s.threads, w, Got(s.queue[0]));
  }

  /** A worker that has no job, before and after */
  lemma IdlingOk(s: State, place: Places, owners: seq<nat>, w: nat, state: Worker)
    requires Consistent(s, place, owners) && !Holds(state) && (w in s.threads ==> !Holds(s.threads[w]))
    ensures Consistent(s.(threads := s.threads[w := state]), place, owners)
    ensures w in s.threads ==> Consistent(s.(threads := s.threads - {w}), place, owners)
  {
    hide Hashed, Submitters, Queues, Holders, Reports, Stages, IdsOf;
    HoldersKeep(IdsOf(s.records), place, s.threads, w, state);
    StagesThread(s.records, place, s.threads, w, state);
    if w in s.threads {
      HoldersLeave(IdsOf(s.records), place, s.threads, w);
    }
  }

  /** A worker takes up its job. */
  lemma StartedOk(s: State, place: Places, owners: seq<nat>, w: nat)
    requires Consistent(s, place, owners) && w in s.threads && s.threads[w].Got?
    ensures var task := s.threads[w].task;
      task.ref in s.records &&
      var job := s.records[task.ref];
      var job' := if job.jstate == Enabled then job.(jstate := InProgress) else job;
      job.jstate != InProgress &&
      Consistent(s.(records := s.records[task.ref := job'], threads := s.threads[w := Running(task, job.jstate)]),
                 place, owners)
  {
    var ids, task := IdsOf(s.records), s.threads[w].task;
    StartedStages(s, place, owners, w);
    var job := s.records[task.ref];
    MarkedIds(s.records, task.ref, if job.jstate == Enabled then job.(jstate := InProgress) else job);
    hide Hashed, Submitters, Queues, Holders, Reports, Stages, IdsOf;
    HoldersKeep(ids, place, s.threads, w, Running(task, job.jstate));
  }

  lemma StartedStages(s: State, place: Places, owners: seq<nat>, w: nat)
    requires Consistent(s, place, owners) && w in s.threads && s.threads[w].Got?
    ensures var task := s.threads[w].task;
      task.ref in s.records &&
      var job := s.records[task.ref];
      var job' := if job.jstate == Enabled then job.(jstate := InProgress) else job;
      job.jstate != InProgress && Stages(s.records[task.ref := job'], place, s.threads[w := Running(task, job.jstate)])
  {
    hide Hashed, Submitters, Queues, Reports;
    var task := s.threads[w].task;
    assert place[task.ref] == Held(w);
    forall v | v in s.threads && v != w && Holds(s.threads[v]) ensures s.threads[v].task.ref != task.ref {
      assert place[s.threads[v].task.ref] == Held(v);
    }
  }

  /** A worker reports the status of its job. */
  lemma DoneOk(s: State, place: Places, owners: seq<nat>, w: nat, status: nat)
    requires Consistent(s, place, owners) && w in s.threads && s.threads[w].Running?
    ensures var task := s.threads[w].task;
      task.ref in s.records && At(place, task.ref, Held(w)) && s.records[task.ref].jobid == task.jobid &&
      Consistent(s.(threads := s.threads[w := Sent], statuses := s.statuses + [Status(task.jobid, status)]),
                 place[task.ref := Pending], owners + [task.ref])
  {
    var ids, task := IdsOf(s.records), s.threads[w].task;
    var r := task.ref;
    HoldersGive(ids, place, s.threads, w, Pending);
    assert r in s.records && s.records[r].jobid == task.jobid;
    hide Hashed, Submitters, Queues, Holders, Reports, Stages, OnlyJob, IdsOf;
    ReportsPut(ids, place, s.statuses, owners, r, Status(task.jobid, status));
    OnlyMoved(ids, place, r, Pending);
    Elsewhere(ids, place, ids, place[r := Pending], r, s, owners);
    StagesMoved(s.records, place, s.threads, r, Pending);
    StagesThread(s.records, place[r := Pending], s.threads, w, Sent);
  }

  /** The first status is delivered and its job forgotten. */
  lemma DeliveredOk(s: State, place: Places, owners: seq<nat>, b: nat, i: nat)
    requires Consistent(s, place, owners) && s.statuses != []
    requires b < JHASHSIZE && b < |s.hash| && i < |s.hash[b]| && owners != [] && s.hash[b][i] == owners[0]
    ensures Consistent(s.(records := s.records - {owners[0]}, hash := s.hash[b := s.hash[b][..i] + s.hash[b][i + 1..]],
                          statuses := s.statuses[1..]), place - {owners[0]}, owners[1..])
  {
    var ids, r := IdsOf(s.records), owners[0];
    assert IdsOf(s.records - {r}) == ids - {r};
    ReportsGet(ids, place, s.statuses, owners);
    hide Hashed, Submitters, Queues, Holders, Reports, Stages, OnlyJob, IdsOf;
    HashedRemove(ids, s.hash, b, i);
    OnlyGone(ids, place, r);
    Elsewhere(ids, place, ids - {r}, place - {r}, r, s, owners);
    StagesGone(s.records, place, s.threads, r);
  }

  lemma FirstOwner(s: State, place: Places, owners: seq<nat>)
    requires Consistent(s, place, owners) && s.statuses != []
    ensures owners != [] && owners[0] in s.records && s.records[owners[0]].jobid == s.statuses[0].jobid
    ensures At(place, owners[0], Pending)
  {
    ReportsGet(IdsOf(s.records), place, s.statuses, owners);
  }

  // ---------- the whole run ----------

  /** What a worker has sent for its job */
  datatype Result = Result(op: Op, status: nat)

  /** What has happened so far; `disabled` are the jobs that were disabled before a worker took them up. */
  datatype History = History(place: Places, owners: seq<nat>, made: nat, refused: set<nat>, finished: set<nat>,
                             calls: seq<nat>, runs: seq<nat>, disabled: set<nat>, results: map<nat, Result>)

  const NOTHING: History := History(map[], [], 0, {}, {}, [], [], {}, map[])

  /** Every job that was made is alive, was refused or is finished; callbacks run for finished jobs
      and operations for taken-up ones, never twice. */
  ghost predicate Kept(records: map<nat, Job>, h: History) {
    (forall r: nat :: r < h.made <==> r in records || r in h.refused || r in h.finished) &&
    (forall r | r in records :: r !in h.refused && r !in h.finished) && h.refused !! h.finished &&
    Distinct(h.calls) && Distinct(h.runs) && (forall r | r in h.calls :: r in h.finished) &&
    forall r | r in h.runs ::
        r in h.finished || (r in records && At(h.place, r, Pending) && records[r].jstate == InProgress)
  }

  /** A job that was disabled before it was taken up is never carried out, and what its worker sends is
      that it was not done; any other job that a worker has finished was carried out. */
  ghost predicate Switched(records: map<nat, Job>, statuses: seq<Status>, h: History) {
    (forall r | r in records :: records[r].jstate == Disabled <==> r in h.disabled) &&
    (forall r | r in h.disabled :: r < h.made && r !in h.runs) &&
    (forall r | r in h.results :: r in h.finished || (r in records && At(h.place, r, Pending))) &&
    (forall r | r in h.results && h.results[r].op == Work ::
       if r in h.disabled then h.results[r].status == STATUS_NOTDONE else r in h.runs) &&
    forall i | 0 <= i < |statuses| && i < |h.owners| && h.owners[i] in h.results ::
      statuses[i].status == h.results[h.owners[i]].status
  }

  ghost predicate Good(s: State, h: History) {
    Consistent(s, h.place, h.owners) && Kept(s.records, h) && Switched(s.records, s.statuses, h)
  }

  /** Over every run, disabling a job in time keeps it from being carried out, and the status that is
      waiting for the main thread is the one that the worker has sent. */
  lemma DisabledIsNotDone(s: State, h: History, r: nat)
    requires Good(s, h) && r in h.disabled
    ensures r !in h.runs && (r in s.records ==> s.records[r].jstate == Disabled)
    ensures forall w | w in s.threads && s.threads[w].Running? && s.threads[w].task.ref == r ::
      s.threads[w].jstate == Disabled
    ensures r in h.results && h.results[r].op == Work ==> h.results[r].status == STATUS_NOTDONE
    ensures forall i | 0 <= i < |s.statuses| && i < |h.owners| && h.owners[i] == r && r in h.results ::
      s.statuses[i].status == h.results[r].status
  {
    hide Hashed, Kept;
    forall w | w in s.threads && s.threads[w].Running? && s.threads[w].task.ref == r
      ensures s.threads[w].jstate == Disabled
    {
      HolderRecord(s, h.place, h.owners, w);
    }
  }

  lemma OwnersMatch(s: State, h: History)
    requires Consistent(s, h.place, h.owners)
    ensures |h.owners| == |s.statuses| && forall i | 0 <= i < |h.owners| :: At(h.place, h.owners[i], Pending)
    ensures h.place.Keys == s.records.Keys
  {
  }

  lemma SwitchedNew(records: map<nat, Job>, statuses: seq<Status>, h: History, job: Job)
    requires Switched(records, statuses, h) && Kept(records, h) && job.jstate == Enabled
    ensures Switched(records[h.made := job], statuses,
                     h.(place := h.place[h.made := Submitting], made := h.made + 1))
  {
  }

  lemma SwitchedMoved(records: map<nat, Job>, statuses: seq<Status>, h: History, r: nat, p: Place)
    requires Switched(records, statuses, h) && Kept(records, h) && r in records && !At(h.place, r, Pending)
    ensures Switched(records, statuses, h.(place := h.place[r := p])) && r !in h.results
  {
  }

  lemma SwitchedReported(records: map<nat, Job>, statuses: seq<Status>, h: History, r: nat, status: Status)
    requires Switched(records, statuses, h) && Kept(records, h) && r in records && !At(h.place, r, Pending)
    requires |h.owners| == |statuses|
    ensures Switched(records, statuses + [status], h.(place := h.place[r := Pending], owners := h.owners + [r]))
  {
  }

  lemma SwitchedRefused(records: map<nat, Job>, statuses: seq<Status>, h: History, r: nat)
    requires Switched(records, statuses, h) && Kept(records, h) && r in records && !At(h.place, r, Pending)
    ensures Switched(records - {r}, statuses, h.(place := h.place - {r}, refused := h.refused + {r}))
  {
  }

  lemma SwitchedStarted(records: map<nat, Job>, statuses: seq<Status>, h: History, r: nat)
    requires Switched(records, statuses, h) && r in records
    ensures Switched(records[r := TakenUp(records[r])], statuses, h)
  {
  }

  lemma SwitchedDone(records: map<nat, Job>, statuses: seq<Status>, h: History, r: nat, w: nat, status: Status, op: Op,
                     ran: bool)
    requires Switched(records, statuses, h) && Kept(records, h) && r in records && At(h.place, r, Held(w))
    requires |h.owners| == |statuses| && forall i | 0 <= i < |h.owners| :: At(h.place, h.owners[i], Pending)
    requires if ran then records[r].jstate == InProgress
             else op == Work ==> records[r].jstate == Disabled && status.status == STATUS_NOTDONE
    ensures Switched(records, statuses + [status],
                     h.(place := h.place[r := Pending], owners := h.owners + [r],
                        runs := if ran then h.runs + [r] else h.runs,
                        results := h.results[r := Result(op, status.status)]))
  {
  }

  lemma SwitchedDelivered(records: map<nat, Job>, statuses: seq<Status>, h: History, r: nat, called: bool)
    requires Switched(records, statuses, h) && r in records && h.owners != [] && statuses != []
    ensures Switched(records - {r}, statuses[1..],
                     h.(place := h.place - {r}, owners := h.owners[1..], finished := h.finished + {r},
                        calls := if called then h.calls + [r] else h.calls))
    ensures h.owners[0] in h.results ==> statuses[0].status == h.results[h.owners[0]].status
  {
  }

  lemma SwitchedMarked(records: map<nat, Job>, statuses: seq<Status>, h: History, r: nat, job: Job)
    requires Switched(records, statuses, h) && Kept(records, h) && r in records
    requires job.jstate == records[r].jstate || (records[r].jstate == Enabled && job.jstate == Disabled)
    ensures Switched(records[r := job], statuses,
                     h.(disabled := if job.jstate == Disabled then h.disabled + {r} else h.disabled))
  {
  }

  /** When all threads have come to rest and all statuses have been taken, every job that was
      made has been refused or has had its status delivered. */
  lemma NothingLost(s: State, h: History)
    requires Good(s, h)
    requires s.submitting == map[] && s.queue == [] && s.statuses == []
    requires forall w | w in s.threads :: !Holds(s.threads[w])
    ensures s.records == map[] && forall r: nat :: r < h.made <==> r in h.refused || r in h.finished
  {
    assert forall r :: Carriers(s.threads, r) == {};
    forall r | r in s.records ensures false {
      Conservation(s, h.place, h.owners, r);
    }
  }

  lemma MadeNew(s: State, h: History, job: Job, sub: Submission)
    requires |s.hash| == JHASHSIZE && Good(s, h) && forall q | q in s.records :: s.records[q].jobid != job.jobid
    requires job.jstate == Enabled && sub.task.ref == h.made && sub.task.jobid == job.jobid
    ensures h.made !in s.records
    ensures Good(Created(s, h.made, job, sub), h.(place := h.place[h.made := Submitting], made := h.made + 1))
  {
    hide Consistent, Switched;
    SwitchedNew(s.records, s.statuses, h, job);
    CreatedOk(s, h.place, h.owners, h.made, job, sub);
  }

  lemma KeptMoved(records: map<nat, Job>, h: History, r: nat, p: Place)
    requires Kept(records, h) && r in records && !At(h.place, r, Pending)
    ensures Kept(records, h.(place := h.place[r := p])) && r !in h.runs
  {
  }

  lemma Enqueued(s: State, h: History, r: nat)
    requires Good(s, h) && r in s.submitting
    ensures Good(s.(submitting := s.submitting - {r}, queue := s.queue + [s.submitting[r].task]),
                 h.(place := h.place[r := Queued]))
  {
    hide Consistent, Kept, Switched;
    SubmittingRecord(s, h.place, h.owners, r);
    EnqueuedOk(s, h.place, h.owners, r);
    KeptMoved(s.records, h, r, Queued);
    SwitchedMoved(s.records, s.statuses, h, r, Queued);
  }

  lemma Reported(s: State, h: History, r: nat, status: nat)
    requires Good(s, h) && r in s.submitting
    ensures Good(s.(submitting := s.submitting - {r},
                    statuses := s.statuses + [Status(s.submitting[r].task.jobid, status)]),
                 h.(place := h.place[r := Pending], owners := h.owners + [r]))
  {
    hide Consistent, Kept, Switched;
    SubmittingRecord(s, h.place, h.owners, r);
    ReportedOk(s, h.place, h.owners, r, status);
    KeptMoved(s.records, h, r, Pending);
    KeptOwners(s.records, h.(place := h.place[r := Pending]), h.owners + [r]);
    OwnersMatch(s, h);
    SwitchedReported(s.records, s.statuses, h, r, Status(s.submitting[r].task.jobid, status));
  }

  lemma KeptOwners(records: map<nat, Job>, h: History, owners: seq<nat>)
    requires Kept(records, h)
    ensures Kept(records, h.(owners := owners))
  {
  }

  lemma Refused(s: State, h: History, r: nat, b: nat, i: nat)
    requires Good(s, h) && r in s.submitting && b < JHASHSIZE && b < |s.hash| && i < |s.hash[b]| && s.hash[b][i] == r
    ensures r in s.records
    ensures Good(s.(records := s.records - {r}, hash := s.hash[b := s.hash[b][..i] + s.hash[b][i + 1..]],
                    submitting := s.submitting - {r}),
                 h.(place := h.place - {r}, refused := h.refused + {r}))
  {
    hide Consistent, Switched;
    SubmittingRecord(s, h.place, h.owners, r);
    SwitchedRefused(s.records, s.statuses, h, r);
    RemovedOk(s, h.place, h.owners, r, b, i);
    KeptMoved(s.records, h, r, Queued);
  }

  lemma Taken(s: State, h: History, w: nat)
    requires Good(s, h) && w in s.threads && !Holds(s.threads[w]) && s.queue != []
    ensures Good(s.(queue := s.queue[1..], threads := s.threads[w := Got(s.queue[0])]),
                 h.(place := h.place[s.queue[0].ref := Held(w)]))
  {
    hide Consistent, Kept, Switched;
    TakenOk(s, h.place, h.owners, w);
    KeptMoved(s.records, h, s.queue[0].ref, Held(w));
    SwitchedMoved(s.records, s.statuses, h, s.queue[0].ref, Held(w));
  }

  function TakenUp(job: Job): Job {
    if job.jstate == Enabled then job.(jstate := InProgress) else job
  }

  lemma Started(s: State, h: History, w: nat)
    requires Good(s, h) && w in s.threads && s.threads[w].Got?
    ensures var task := s.threads[w].task;
      task.ref in s.records && s.records[task.ref].jstate != InProgress && s.records[task.ref].jobid == task.jobid &&
      Good(s.(records := s.records[task.ref := TakenUp(s.records[task.ref])],
              threads := s.threads[w := Running(task, s.records[task.ref].jstate)]), h)
  {
    hide Consistent, Kept, Switched;
    HolderRecord(s, h.place, h.owners, w);
    StartedOk(s, h.place, h.owners, w);
    KeptStarted(s.records, h, s.threads[w].task.ref, w);
    SwitchedStarted(s.records, s.statuses, h, s.threads[w].task.ref);
  }

  lemma KeptStarted(records: map<nat, Job>, h: History, r: nat, w: nat)
    requires Kept(records, h) && r in records && At(h.place, r, Held(w))
    ensures Kept(records[r := TakenUp(records[r])], h)
  {
  }

  lemma HolderRecord(s: State, place: Places, owners: seq<nat>, w: nat)
    requires Consistent(s, place, owners) && w in s.threads && Holds(s.threads[w])
    ensures var task := s.threads[w].task;
      task.ref in s.records && At(place, task.ref, Held(w)) && s.records[task.ref].jobid == task.jobid
    ensures s.threads[w].Running? ==>
      if s.threads[w].jstate == Enabled then s.records[s.threads[w].task.ref].jstate == InProgress
      else s.threads[w].jstate == Disabled && s.records[s.threads[w].task.ref].jstate == Disabled
  {
    HoldersGive(IdsOf(s.records), place, s.threads, w, Pending);
  }

  lemma Idling(s: State, h: History, w: nat, state: Worker)
    requires Good(s, h) && !Holds(state) && (w in s.threads ==> !Holds(s.threads[w]))
    ensures Good(s.(threads := s.threads[w := state]), h)
    ensures w in s.threads ==> Good(s.(threads := s.threads - {w}), h)
  {
    IdlingOk(s, h.place, h.owners, w, state);
  }

  /** A job is carried out if the worker found it enabled and its operation is a real one. */
  lemma Done(s: State, h: History, w: nat, status: nat, ran: bool)
    requires Good(s, h) && w in s.threads && s.threads[w].Running?
    requires ran <==> s.threads[w].task.op == Work && s.threads[w].jstate == Enabled
    requires s.threads[w].task.op == Work && !ran ==> status == STATUS_NOTDONE
    ensures var task := s.threads[w].task;
      task.ref in s.records &&
      Good(s.(threads := s.threads[w := Sent], statuses := s.statuses + [Status(task.jobid, status)]),
           h.(place := h.place[task.ref := Pending], owners := h.owners + [task.ref],
              runs := if ran then h.runs + [task.ref] else h.runs,
              results := h.results[task.ref := Result(task.op, status)]))
  {
    hide Consistent, Kept, Switched;
    HolderRecord(s, h.place, h.owners, w);
    DoneOk(s, h.place, h.owners, w, status);
    KeptDone(s.records, h, s.threads[w].task.ref, w, ran, Result(s.threads[w].task.op, status));
    OwnersMatch(s, h);
    SwitchedDone(s.records, s.statuses, h, s.threads[w].task.ref, w, Status(s.threads[w].task.jobid, status),
                 s.threads[w].task.op, ran);
  }

  lemma KeptDone(records: map<nat, Job>, h: History, r: nat, w: nat, ran: bool, result: Result)
    requires Kept(records, h) && r in records && At(h.place, r, Held(w)) && (ran ==> records[r].jstate == InProgress)
    ensures Kept(records,
                 h.(place := h.place[r := Pending], owners := h.owners + [r],
                    runs := if ran then h.runs + [r] else h.runs, results := h.results[r := result]))
  {
  }

  lemma Delivered(s: State, h: History, b: nat, i: nat, called: bool)
    requires Good(s, h) && s.statuses != []
    requires b < JHASHSIZE && b < |s.hash| && i < |s.hash[b]| && h.owners != [] && s.hash[b][i] == h.owners[0]
    ensures var r := h.owners[0];
      r in s.records && s.records[r].jobid == s.statuses[0].jobid &&
      Good(s.(records := s.records - {r}, hash := s.hash[b := s.hash[b][..i] + s.hash[b][i + 1..]],
              statuses := s.statuses[1..]),
           h.(place := h.place - {r}, owners := h.owners[1..], finished := h.finished + {r},
              calls := if called then h.calls + [r] else h.calls)) &&
      (r in h.results ==> s.statuses[0].status == h.results[r].status)
  {
    hide Consistent, Kept, Switched;
    FirstOwner(s, h.place, h.owners);
    DeliveredOk(s, h.place, h.owners, b, i);
    KeptDelivered(s.records, h, h.owners[0], called);
    SwitchedDelivered(s.records, s.statuses, h, h.owners[0], called);
  }

  lemma KeptDelivered(records: map<nat, Job>, h: History, r: nat, called: bool)
    requires Kept(records, h) && r in records && h.owners != []
    ensures Kept(records - {r}, h.(place := h.place - {r}, owners := h.owners[1..], finished := h.finished + {r},
                                   calls := if called then h.calls + [r] else h.calls))
  {
  }

  lemma GoodOwner(s: State, h: History)
    requires Good(s, h) && s.statuses != []
    ensures h.owners != [] && h.owners[0] in s.records && s.records[h.owners[0]].jobid == s.statuses[0].jobid
    ensures h.owners[0] !in h.finished && h.owners[0] !in h.calls && Unused(s.threads, h.owners[0])
  {
    FirstOwner(s, h.place, h.owners);
    NotHeld(s, h, h.owners[0]);
  }

  /** No worker uses the record, so it can be freed. */
  ghost predicate Unused(threads: map<nat, Worker>, r: nat) {
    forall w | w in threads && Holds(threads[w]) :: threads[w].task.ref != r
  }

  lemma NotHeld(s: State, h: History, r: nat)
    requires Good(s, h) && r in h.place && !h.place[r].Held?
    ensures Unused(s.threads, r)
  {
    forall w | w in s.threads && Holds(s.threads[w]) ensures s.threads[w].task.ref != r {
      HolderRecord(s, h.place, h.owners, w);
    }
  }

  /** Changing a record that no worker has taken up, but for its id */
  lemma Marked(s: State, h: History, r: nat, job: Job)
    requires Good(s, h) && r in s.records && job.jobid == s.records[r].jobid
    requires job.jstate == s.records[r].jstate || (s.records[r].jstate == Enabled && job.jstate == Disabled)
    ensures Good(s.(records := s.records[r := job]),
                 h.(disabled := if job.jstate == Disabled then h.disabled + {r} else h.disabled))
  {
    MarkedIds(s.records, r, job);
    hide Hashed, Submitters, Queues, Holders, Reports, IdsOf, Kept, Stages, Switched;
    SwitchedMarked(s.records, s.statuses, h, r, job);
    StagesMarked(s.records, h.place, s.threads, r, job);
    KeptMarked(s.records, h, r, job);
  }

  lemma MarkedIds(records: map<nat, Job>, r: nat, job: Job)
    requires r in records && job.jobid == records[r].jobid
    ensures IdsOf(records[r := job]) == IdsOf(records) && records[r := job].Keys == records.Keys
  {
  }

  lemma StagesMarked(records: map<nat, Job>, place: Places, threads: map<nat, Worker>, r: nat, job: Job)
    requires Stages(records, place, threads) && r in records
    requires job.jstate == records[r].jstate || (records[r].jstate == Enabled && job.jstate == Disabled)
    ensures Stages(records[r := job], place, threads)
  {
  }

  lemma KeptMarked(records: map<nat, Job>, h: History, r: nat, job: Job)
    requires Kept(records, h) && r in records
    requires job.jstate == records[r].jstate || (records[r].jstate == Enabled && job.jstate == Disabled)
    ensures Kept(records[r := job],
                 h.(disabled := if job.jstate == Disabled then h.disabled + {r} else h.disabled))
  {
  }

  lemma NoJobs(hash: seq<seq<nat>>)
    requires |hash| == JHASHSIZE && forall b | 0 <= b < JHASHSIZE :: hash[b] == []
    ensures Good(State(map[], hash, map[], [], map[], []), NOTHING)
  {
  }

  lemma FirstWorker(hash: seq<seq<nat>>, created: bool)
    requires |hash| == JHASHSIZE && forall b | 0 <= b < JHASHSIZE :: hash[b] == []
    ensures Good(State(map[], hash, map[], [], if created then map[0 := Idle] else map[], []), NOTHING)
  {
    hide Good;
    NoJobs(hash);
    Idling(State(map[], hash, map[], [], map[], []), NOTHING, 0, Idle);
    assert map[][0 := Idle] == map[0 := Idle];
  }

  // ---------- the workers ----------

  ghost predicate Staffed(threads: map<nat, Worker>, avail: int, total: int, max: nat, idle: nat, started: bool,
                          lacking: bool) {
    Counted(threads, avail, total) && total <= (if max == 0 then 1 else max) &&
    (started && idle >= 1 ==> total >= 1) &&
    (started && idle >= 1 && !lacking ==> avail >= 1 || total >= max)
  }

  lemma StaffedBusy(threads: map<nat, Worker>, avail: int, total: int, max: nat, idle: nat, started: bool,
                    lacking: bool)
    requires Staffed(threads, avail, total, max, idle, started, lacking)
    ensures 0 <= avail <= total && total - avail == |Working(threads)|
  {
    FreeAreWorkers(threads);
    assert threads.Keys == Free(threads) + Working(threads);
  }

  /** The workers that carry out a job or have just reported one */
  function Working(threads: map<nat, Worker>): set<nat> {
    set w | w in threads && !IsFree(threads[w])
  }

  lemma StaffedSame(threads: map<nat, Worker>, avail: int, total: int, max: nat, idle: nat, started: bool,
                    lacking: bool, w: nat, state: Worker)
    requires Staffed(threads, avail, total, max, idle, started, lacking) && w in threads
    requires IsFree(state) == IsFree(threads[w])
    ensures Staffed(threads[w := state], avail, total, max, idle, started, lacking)
  {
    FreeChanges(threads, w, state);
  }

  /** A worker takes up a job; if it was the last free one and there may be more, another is spawned. */
  lemma StaffedStart(threads: map<nat, Worker>, avail: int, total: int, max: nat, idle: nat, started: bool,
                     lacking: bool, w: nat, state: Worker, v: nat, created: bool)
    requires Staffed(threads, avail, total, max, idle, started, lacking) && w in threads && IsFree(threads[w])
    requires !IsFree(state)
    requires v !in threads
    ensures avail - 1 == 0 && total < max ==>
      Staffed(if created then threads[w := state][v := Idle] else threads[w := state],
              avail - 1 + (if created then 1 else 0), total + (if created then 1 else 0), max, idle, started,
                lacking || !created)
    ensures !(avail - 1 == 0 && total < max) ==>
      Staffed(threads[w := state], avail - 1, total, max, idle, started, lacking)
  {
    FreeChanges(threads, w, state);
    FreeChanges(threads[w := state], v, Idle);
    FreeAreWorkers(threads[w := state]);
  }

  /** A worker that is done waits for the next job, or leaves if enough others are waiting. */
  lemma StaffedRest(threads: map<nat, Worker>, avail: int, total: int, max: nat, idle: nat, started: bool,
                    lacking: bool, w: nat)
    requires Staffed(threads, avail, total, max, idle, started, lacking) && w in threads && !IsFree(threads[w])
    ensures avail + 1 <= idle ==> Staffed(threads[w := Idle], avail + 1, total, max, idle, started, lacking)
    ensures avail + 1 > idle ==> Staffed(threads - {w}, avail, total - 1, max, idle, started, lacking)
  {
    FreeChanges(threads, w, Idle);
    FreeLeaves(threads, w);
    FreeAreWorkers(threads);
    FreeAreWorkers(threads - {w});
  }

  lemma StaffedFirst(max: nat, idle: nat, created: bool)
    ensures Staffed(if created then map[0 := Idle] else map[], if created then 1 else 0, if created then 1 else 0, max,
                    idle, created, !created)
  {
    FreeChanges(map[], 0, Idle);
    assert Free(map[]) == {};
    assert map[][0 := Idle] == map[0 := Idle];
  }

  // ---------- the pool ----------

  class Pool {
    const workersMax: nat
    const workersMaxIdle: nat
    var records: map<nat, Job>       // what is malloced, by address
    var jobhash: seq<seq<nat>>
    var jobqueue: seq<Task>
    var statusqueue: seq<Status>
    var pipe: nat                    // bytes in the pipe
    var avail: int
    var total: int
    var nextjobid: nat
    var threads: map<nat, Worker>
    var submitting: map<nat, Submission>
    var checking: bool               // `job_pool_check_jobs` holds the lock of the jobs

    ghost var h: History
    ghost var started: bool          // the first worker could be created
    ghost var lacking: bool          // some worker could not be created

    ghost function Now(): State
      reads this`records, this`jobhash, this`submitting, this`jobqueue, this`threads, this`statusqueue
    {
      State(records, jobhash, submitting, jobqueue, threads, statusqueue)
    }

    ghost predicate Valid()
      reads this
    {
      Good(Now(), h) && Staffing() && Signalled() && 0 < nextjobid < WORD
    }

    ghost predicate Staffing()
      reads this`threads, this`avail, this`total, this`started, this`lacking
    {
      Staffed(threads, avail, total, workersMax, workersMaxIdle, started, lacking)
    }

    /** The pipe holds one byte exactly when a status is waiting. */
    ghost predicate Signalled()
      reads this`pipe, this`statusqueue, this`checking
    {
      pipe == (if statusqueue == [] then 0 else 1) && (checking ==> statusqueue != [])
    }

    /** `job_pool_new`, with the limits that the configuration sets */
    constructor (workersMax: nat, workersMaxIdle: nat, created: bool)
      ensures Valid() && started == created && records == map[] && !checking
      ensures this.workersMax == workersMax && this.workersMaxIdle == workersMaxIdle
    {
      this.workersMax, this.workersMaxIdle := workersMax, workersMaxIdle;
      records, jobqueue, statusqueue, pipe := map[], [], [], 0;
      jobhash := seq(JHASHSIZE, i => []);
      nextjobid, submitting, checking := 1, map[], false;
      threads := if created then map[0 := Idle] else map[];
      avail, total := if created then 1 else 0, if created then 1 else 0;
      h, started, lacking := NOTHING, created, !created;
      new;
      hide Good, Staffed;
      FirstWorker(jobhash, created);
      StaffedFirst(workersMax, workersMaxIdle, created);
    }

    // ---------- the two queues and the pipe ----------

    /** `job_send_status`: the first status wakes the main thread. */
    method SendStatus(jobid: nat, status: nat)
      requires Signalled()
      modifies this`statusqueue, this`pipe
      ensures Signalled() && statusqueue == old(statusqueue) + [Status(jobid, status)]
    {
      if statusqueue == [] {
        pipe := pipe + 1;
      }
      statusqueue := statusqueue + [Status(jobid, status)];
    }

    /** `job_receive_status`: the last status empties the pipe, which holds a byte to be read. */
    method ReceiveStatus() returns (status: Status, notlast: bool)
      requires Signalled() && checking
      modifies this`statusqueue, this`pipe
      ensures old(statusqueue) == [status] + statusqueue && notlast == (statusqueue != [])
      ensures pipe == (if statusqueue == [] then 0 else 1)
    {
      status := statusqueue[0];
      statusqueue := statusqueue[1..];
      if statusqueue == [] {
        assert pipe > 0;
        pipe := pipe - 1;
        return status, false;
      }
      return status, true;
    }

    /** The walk along the chain that takes the job with an id out of the table and frees it. */
    method Unlink(jobid: nat, ghost r: nat) returns (job: Job, ghost i: nat)
      requires InTable(records, jobhash, r) && records[r].jobid == jobid
      modifies this`records, this`jobhash
      ensures JHashPos(jobid) < |old(jobhash)| && i < |old(jobhash)[JHashPos(jobid)]|
      ensures old(jobhash)[JHashPos(jobid)][i] == r && job == old(records)[r]
      ensures records == old(records) - {r}
      ensures var chain := old(jobhash)[JHashPos(jobid)];
              jobhash == old(jobhash)[JHashPos(jobid) := chain[..i] + chain[i + 1..]]
    {
      hide JHashPos;
      var pos := JHashPos(jobid);
      var chain := jobhash[pos];
      var k := 0;
      while k < |chain| && records[chain[k]].jobid != jobid
        invariant k <= |chain| && forall j | 0 <= j < k :: records[chain[j]].jobid != jobid
      {
        k := k + 1;
      }
      i := k;
      job := records[chain[k]];
      records := records - {chain[k]};
      jobhash := jobhash[pos := chain[..k] + chain[k + 1..]];
    }

    // ---------- job_new ----------

    /** Ids are handed out in turn; 0 is not an id. */
    method NextJobId() returns (jobid: nat)
      requires 0 < nextjobid < WORD
      modifies this`nextjobid
      ensures jobid == old(nextjobid) && 0 < nextjobid < WORD
      ensures nextjobid == if old(nextjobid) + 1 == WORD then 1 else old(nextjobid) + 1
    {
      jobid := nextjobid;
      nextjobid := nextjobid + 1;
      if nextjobid == WORD {
        nextjobid := 1;
      }
    }

    /** The first part of `job_new`: a record with a new id, at the address `ref`, enters the table. */
    method NewJob(op: Op, callback: bool, errstatus: nat, mode: Mode, ref: nat)
      requires Valid() && !checking && ref == h.made && forall r | r in records :: records[r].jobid != nextjobid
      modifies this`records, this`jobhash, this`submitting, this`nextjobid, this`h
      ensures Valid() && records == old(records)[ref := Job(old(nextjobid), callback, Enabled)] && ref !in old(records)
      ensures h == old(h).(place := old(h).place[ref := Submitting], made := ref + 1)
      ensures nextjobid == if old(nextjobid) + 1 == WORD then 1 else old(nextjobid) + 1
      ensures submitting ==
        old(submitting)[ref := Submission(Task(old(nextjobid), op, ref), total - avail, mode, errstatus, Undecided)]
    {
      hide Good, Staffed, Signalled, Staffing;
      var jobid := NextJobId();
      Enter(Job(jobid, callback, Enabled), Submission(Task(jobid, op, ref), total - avail, mode, errstatus, Undecided),
            ref);
    }

    /** The new record goes to the head of its chain. */
    method Enter(job: Job, sub: Submission, ref: nat)
      requires Good(Now(), h) && ref == h.made && forall r | r in records :: records[r].jobid != job.jobid
      requires job.jstate == Enabled && sub.task.ref == ref && sub.task.jobid == job.jobid
      modifies this`records, this`jobhash, this`submitting, this`h
      ensures Good(Now(), h) && ref !in old(records)
      ensures records == old(records)[ref := job] && submitting == old(submitting)[ref := sub]
      ensures h == old(h).(place := old(h).place[ref := Submitting], made := ref + 1)
    {
      hide Good, JHashPos;
      var pos := JHashPos(job.jobid);
      GoodSize(Now(), h);
      MadeNew(Now(), h, job, sub);
      records := records[ref := job];
      jobhash := jobhash[pos := [ref] + jobhash[pos]];
      submitting := submitting[ref := sub];
      h := h.(place := h.place[ref := Submitting], made := h.made + 1);
    }

    /** The unlocked middle of `job_new`: what to do depends on how many jobs there are. */
    method Decide(ref: nat)
      requires Valid() && ref in submitting && submitting[ref].route == Undecided
      modifies this`submitting
      ensures Valid()
      ensures var sub := old(submitting)[ref];
        submitting == old(submitting)[ref := sub.(route :=
          if |jobqueue| + sub.busy > workersMax &&
            sub.mode != AlwaysDo then (if sub.mode == LimitedReturn then Remove else Report)
          else Enqueue)]
    {
      hide Good, Staffed;
      var sub := submitting[ref];
      var route := Enqueue;
      if |jobqueue| + sub.busy > workersMax && sub.mode != AlwaysDo {
        route := if sub.mode == LimitedReturn then Remove else Report;
      }
      Routed(Now(), h, ref, route);
      submitting := submitting[ref := sub.(route := route)];
    }

    /** Too many jobs: `job_new` takes the job back and returns 0. */
    method TakeBack(ref: nat)
      requires Valid() && !checking && ref in submitting && submitting[ref].route == Remove
      modifies this`records, this`jobhash, this`submitting, this`h
      ensures Valid() && records == old(records) - {ref} && submitting == old(submitting) - {ref}
      ensures Unused(threads, ref)
      ensures h == old(h).(place := old(h).place - {ref}, refused := old(h).refused + {ref})
    {
      hide Good, Staffed, JHashPos, Unused, InTable, Staffing;
      ghost var s := Now();
      GoodSubmission(s, h, ref);
      InChain(s, h, ref);
      var jobid := submitting[ref].task.jobid;
      var job, i := Unlink(jobid, ref);
      GoodSize(s, h);
      Refused(s, h, ref, JHashPos(jobid), i);
      submitting := submitting - {ref};
      h := h.(place := h.place - {ref}, refused := h.refused + {ref});
    }

    /** Too many jobs: `job_new` reports the error through the status queue. */
    method ReportError(ref: nat)
      requires Valid() && ref in submitting && submitting[ref].route == Report
      modifies this`statusqueue, this`pipe, this`submitting, this`h
      ensures Valid() && submitting == old(submitting) - {ref}
      ensures statusqueue ==
        old(statusqueue) + [Status(old(submitting)[ref].task.jobid, old(submitting)[ref].errstatus)]
      ensures h == old(h).(place := old(h).place[ref := Pending], owners := old(h).owners + [ref])
    {
      hide Good, Staffed;
      Reported(Now(), h, ref, submitting[ref].errstatus);
      SendStatus(submitting[ref].task.jobid, submitting[ref].errstatus);
      submitting := submitting - {ref};
      h := h.(place := h.place[ref := Pending], owners := h.owners + [ref]);
    }

    method EnqueueJob(ref: nat)
      requires Valid() && ref in submitting && submitting[ref].route == Enqueue
      modifies this`jobqueue, this`submitting, this`h
      ensures Valid() && submitting == old(submitting) - {ref}
      ensures jobqueue == old(jobqueue) + [old(submitting)[ref].task]
      ensures h == old(h).(place := old(h).place[ref := Queued])
    {
      hide Good, Staffed;
      Enqueued(Now(), h, ref);
      jobqueue := jobqueue + [submitting[ref].task];
      submitting := submitting - {ref};
      h := h.(place := h.place[ref := Queued]);
    }

    // ---------- job_worker ----------

    method GetTask(w: nat)
      requires Valid() && w in threads && threads[w] == Idle && jobqueue != []
      modifies this`jobqueue, this`threads, this`h
      ensures Valid() && jobqueue == old(jobqueue)[1..] && threads == old(threads)[w := Got(old(jobqueue)[0])]
      ensures h == old(h).(place := old(h).place[old(jobqueue)[0].ref := Held(w)])
    {
      hide Good, Staffed;
      Taken(Now(), h, w);
      StaffedSame(threads, avail, total, workersMax, workersMaxIdle, started, lacking, w, Got(jobqueue[0]));
      h := h.(place := h.place[jobqueue[0].ref := Held(w)]);
      threads := threads[w := Got(jobqueue[0])];
      jobqueue := jobqueue[1..];
    }

    /** `job_spawn_worker`; `v` is the new thread, if it can be created. */
    method SpawnWorker(v: nat, created: bool)
      requires Good(Now(), h) && v !in threads
      modifies this`threads, this`avail, this`total, this`lacking
      ensures Good(Now(), h) && threads == if created then old(threads)[v := Idle] else old(threads)
      ensures avail == old(avail) + (if created then 1 else 0) && total == old(total) + if created then 1 else 0
      ensures lacking == (old(lacking) || !created)
    {
      hide Good;
      if !created {
        lacking := true;
        return;
      }
      Idling(Now(), h, v, Idle);
      avail := avail + 1;
      total := total + 1;
      threads := threads[v := Idle];
    }

    /** The worker marks its job, and the last free worker spawns another, `v`, if it may and can. */
    method TakeUp(w: nat, v: nat, created: bool)
      requires Valid() && !checking && w in threads && threads[w].Got? && v !in threads
      modifies this`records, this`threads, this`avail, this`total, this`lacking
      ensures Valid()
      ensures var task := old(threads)[w].task;
        && task.ref in old(records) && old(records)[task.ref].jstate != InProgress
        && records == (if old(records)[task.ref].jstate == Disabled then old(records)
                       else old(records)[task.ref := old(records)[task.ref].(jstate := InProgress)])
        && w in threads && threads[w] == Running(task, old(records)[task.ref].jstate)
        && threads == (if old(avail) == 1 && old(total) < workersMax && created
                       then old(threads)[w := threads[w]][v := Idle] else old(threads)[w := threads[w]])
      ensures lacking == (old(lacking) || (old(avail) == 1 && old(total) < workersMax && !created))
    {
      hide Good, Staffed, Signalled;
      ghost var s := Now();
      Started(s, h, w);
      var task := threads[w].task;
      var jstate := records[task.ref].jstate;
      StaffedStart(threads, avail, total, workersMax, workersMaxIdle, started, lacking, w, Running(task, jstate), v,
                   created);
      avail := avail - 1;
      threads := threads[w := Running(task, jstate)];
      if jstate == Enabled {
        records := records[task.ref := records[task.ref].(jstate := InProgress)];
      }
      assert records == old(records)[task.ref := TakenUp(s.records[task.ref])];
      if avail == 0 && total < workersMax {
        SpawnWorker(v, created);
      }
    }

    /** The worker carries the job out, unless it was disabled, and sends the status. `result` is what
        the operation returns. */
    method Finish(w: nat, result: nat)
      requires Valid() && w in threads && threads[w].Running?
      modifies this`statusqueue, this`pipe, this`threads, this`h
      ensures Valid() && threads == old(threads)[w := Sent]
      ensures var task, enabled := old(threads)[w].task, old(threads)[w].jstate != Disabled;
        && statusqueue == old(statusqueue) +
             [Status(task.jobid, if task.op == Inval then STATUS_EINVAL else if enabled then result
                     else STATUS_NOTDONE)]
        && h == old(h).(place := old(h).place[task.ref := Pending], owners := old(h).owners + [task.ref],
                        runs := if task.op == Work && enabled then old(h).runs + [task.ref] else old(h).runs,
                        results := old(h).results[task.ref :=
                          Result(task.op, statusqueue[|statusqueue| - 1].status)])
    {
      hide Good, Staffed;
      var task, jstate := threads[w].task, threads[w].jstate;
      GoodRunning(Now(), h, w);
      var status;
      if task.op == Inval {
        status := STATUS_EINVAL;
      } else if jstate == Disabled {
        status := STATUS_NOTDONE;
      } else {
        status := result;
      }
      ghost var ran := task.op == Work && jstate != Disabled;
      Done(Now(), h, w, status, ran);
      StaffedSame(threads, avail, total, workersMax, workersMaxIdle, started, lacking, w, Sent);
      SendStatus(task.jobid, status);
      threads := threads[w := Sent];
      h := h.(place := h.place[task.ref := Pending], owners := h.owners + [task.ref],
              runs := if ran then h.runs + [task.ref] else h.runs,
              results := h.results[task.ref := Result(task.op, status)]);
    }

    /** The worker waits for the next job, or ends if enough others are waiting. */
    method Rest(w: nat)
      requires Valid() && !checking && w in threads && threads[w] == Sent
      modifies this`threads, this`avail, this`total
      ensures Valid()
      ensures threads == if old(avail) + 1 > workersMaxIdle then old(threads) - {w} else old(threads)[w := Idle]
    {
      hide Good, Staffed;
      StaffedRest(threads, avail, total, workersMax, workersMaxIdle, started, lacking, w);
      Idling(Now(), h, w, Idle);
      avail := avail + 1;
      if avail > workersMaxIdle {
        avail := avail - 1;
        total := total - 1;
        threads := threads - {w};
        return;
      }
      threads := threads[w := Idle];
    }

    // ---------- the main thread ----------

    /** `job_pool_disable_job` and `job_pool_change_callback`: the walk along the chain for one job. */
    method Mark(jobid: nat, disable: bool, callback: Option<bool>)
      requires Valid() && !checking
      modifies this`records, this`h
      ensures Valid() && records.Keys == old(records).Keys
      ensures forall r | r in records && old(records)[r].jobid != jobid :: records[r] == old(records)[r]
      ensures forall r | r in records && old(records)[r].jobid == jobid ::
        && records[r].jobid == jobid
        && records[r].jstate == (if disable && old(records)[r].jstate == Enabled then Disabled
                                 else old(records)[r].jstate)
        && records[r].callback == if callback.Some? then callback.value else old(records)[r].callback
      ensures h == old(h).(disabled := h.disabled)
      ensures forall r :: r in h.disabled <==>
        r in old(h).disabled ||
        (disable && r in old(records) && old(records)[r].jobid == jobid && old(records)[r].jstate == Enabled)
    {
      hide Good, Staffed, Staffing, JHashPos, Marking, Signalled, MarkedUpTo, Chained, InOrder;
      var pos, k := JHashPos(jobid), 0;
      InChains(Now(), h);
      GoodSize(Now(), h);
      ghost var was, chain, g := records, jobhash[pos], h;
      ChainAt(records, jobhash, pos);
      MarkStarts(records, h, chain, jobid, disable, callback);
      while k < |jobhash[pos]|
        invariant k <= |chain| && Good(Now(), h) && MarkedUpTo(was, g, records, h, chain, k, jobid, disable, callback)
      {
        var r := jobhash[pos][k];
        MarkNext(was, g, records, h, chain, k, jobid, disable, callback);
        if records[r].jobid == jobid {
          MarkRecord(r, disable, callback);
        }
        k := k + 1;
      }
      MarkEnds(was, g, records, h, chain, jobid, disable, callback);
    }

    /** The change of one record */
    method MarkRecord(r: nat, disable: bool, callback: Option<bool>)
      requires Good(Now(), h) && r in records
      modifies this`records, this`h
      ensures Good(Now(), h) && records == old(records)[r := Marking(old(records)[r], disable, callback)]
      ensures h == MarkedHistory(old(h), r, old(records)[r], disable)
    {
      hide Good;
      MarkingKeeps(records[r], disable, callback);
      Marked(Now(), h, r, Marking(records[r], disable, callback));
      DisabledAre(Now(), h);
      assert records[r].jstate == Disabled ==> h.disabled + {r} == h.disabled;
      records := records[r := Marking(records[r], disable, callback)];
      h := MarkedHistory(h, r, old(records)[r], disable);
    }

    /** `job_pool_check_jobs` starts when the pipe can be read. */
    method BeginCheck()
      requires Valid() && !checking && pipe > 0
      modifies this`checking
      ensures Valid() && checking
    {
      hide Good, Staffed;
      checking := true;
    }

    /** One turn of its loop: a status is delivered and its job freed. */
    method CheckOne(cb: bool) returns (status: Status, ghost r: nat)
      requires Valid() && checking
      modifies this`records, this`jobhash, this`statusqueue, this`pipe, this`checking, this`h
      ensures Valid() && old(statusqueue) == [status] + statusqueue && checking == (statusqueue != [])
      ensures r in old(records) && old(records)[r].jobid == status.jobid && records == old(records) - {r}
      ensures Unused(threads, r)
      ensures r !in old(h).finished && r !in old(h).calls && h.finished == old(h).finished + {r}
      ensures h.runs == old(h).runs && h.disabled == old(h).disabled && h.results == old(h).results
      ensures r in h.results ==> status.status == h.results[r].status
      ensures h.calls == if old(records)[r].callback && cb then old(h).calls + [r] else old(h).calls
    {
      hide Good, Staffed, Unused, Staffing;
      ghost var s := Now();
      var notlast;
      status, notlast := ReceiveStatus();
      assert [status] + statusqueue == s.statuses;
      r := Settle(status, cb);
      checking := notlast;
    }

    /** The job of a status leaves the table, after its callback. */
    method Settle(status: Status, cb: bool) returns (ghost r: nat)
      requires Good(Now().(statuses := [status] + statusqueue), h)
      modifies this`records, this`jobhash, this`h
      ensures Good(Now(), h) && r in old(records) && old(records)[r].jobid == status.jobid
      ensures records == old(records) - {r}
      ensures Unused(threads, r) && r !in old(h).finished && r !in old(h).calls
      ensures h.finished == old(h).finished + {r} && h.runs == old(h).runs
      ensures h.disabled == old(h).disabled && h.results == old(h).results
      ensures r in h.results ==> status.status == h.results[r].status
      ensures h.calls == if old(records)[r].callback && cb then old(h).calls + [r] else old(h).calls
    {
      hide Good, JHashPos, Unused, InTable;
      ghost var s := Now().(statuses := [status] + statusqueue);
      assert s.statuses[1..] == statusqueue;
      GoodOwner(s, h);
      GoodSize(s, h);
      r := h.owners[0];
      InChain(s, h, r);
      ghost var i;
      var job;
      job, i := Unlink(status.jobid, r);
      Delivered(s, h, JHashPos(status.jobid), i, job.callback && cb);
      h := h.(place := h.place - {r}, owners := h.owners[1..], finished := h.finished + {r},
              calls := if job.callback && cb then h.calls + [r] else h.calls);
    }
  }

  function Marking(job: Job, disable: bool, callback: Option<bool>): Job {
    job.(jstate := if disable && job.jstate == Enabled then Disabled else job.jstate,
         callback := callback.GetOr(job.callback))
  }

  function MarkedHistory(h: History, r: nat, job: Job, disable: bool): History {
    if disable && job.jstate == Enabled then h.(disabled := h.disabled + {r}) else h
  }

  lemma MarkingKeeps(job: Job, disable: bool, callback: Option<bool>)
    ensures var job' := Marking(job, disable, callback);
      && job'.jobid == job.jobid
      && (job'.jstate == job.jstate || (job.jstate == Enabled && job'.jstate == Disabled))
      && (job'.jstate == Disabled <==> job.jstate == Disabled || (disable && job.jstate == Enabled))
  {
  }

  lemma DisabledAre(s: State, h: History)
    requires Good(s, h)
    ensures forall r | r in s.records :: s.records[r].jstate == Disabled <==> r in h.disabled
  {
  }

  /** The walk of `job_pool_disable_job` after k records of the chain */
  ghost predicate MarkedUpTo(was: map<nat, Job>, g: History, records: map<nat, Job>, h: History, chain: seq<nat>,
                             k: nat, jobid: nat, disable: bool, callback: Option<bool>) {
    k <= |chain| && records.Keys == was.Keys && h == g.(disabled := h.disabled) &&
    (forall r | r in was ::
      records[r] == if r in chain[..k] && was[r].jobid == jobid then Marking(was[r], disable, callback) else was[r]) &&
    forall r :: r in h.disabled <==> (
      r in g.disabled ||
      (disable && r in was && r in chain[..k] && was[r].jobid == jobid && was[r].jstate == Enabled))
  }

  lemma MarkStarts(was: map<nat, Job>, g: History, chain: seq<nat>, jobid: nat, disable: bool, callback: Option<bool>)
    ensures MarkedUpTo(was, g, was, g, chain, 0, jobid, disable, callback)
  {
  }

  lemma MarkNext(was: map<nat, Job>, g: History, records: map<nat, Job>, h: History, chain: seq<nat>, k: nat,
                 jobid: nat, disable: bool, callback: Option<bool>)
    requires MarkedUpTo(was, g, records, h, chain, k, jobid, disable, callback) && k < |chain| && InOrder(was, chain)
    ensures chain[k] in was && chain[k] in records && records[chain[k]] == was[chain[k]]
    ensures var r, job := chain[k], was[chain[k]];
      if job.jobid == jobid then
        MarkedUpTo(was, g, records[r := Marking(job, disable, callback)], MarkedHistory(h, r, job, disable), chain,
                   k + 1, jobid, disable, callback)
      else MarkedUpTo(was, g, records, h, chain, k + 1, jobid, disable, callback)
  {
    hide Marking, InOrder;
    Prefix(was, chain, k);
  }

  lemma Prefix(was: map<nat, Job>, chain: seq<nat>, k: nat)
    requires k < |chain| && InOrder(was, chain)
    ensures chain[k] in was && chain[k] !in chain[..k]
    ensures forall r :: r in chain[..k + 1] <==> r in chain[..k] || r == chain[k]
  {
    assert chain[..k + 1] == chain[..k] + [chain[k]];
  }

  lemma MarkEnds(was: map<nat, Job>, g: History, records: map<nat, Job>, h: History, chain: seq<nat>, jobid: nat,
                 disable: bool, callback: Option<bool>)
    requires MarkedUpTo(was, g, records, h, chain, |chain|, jobid, disable, callback)
    requires forall r | r in was && JHashPos(was[r].jobid) == JHashPos(jobid) :: r in chain
    ensures records.Keys == was.Keys && h == g.(disabled := h.disabled)
    ensures forall r | r in records && was[r].jobid != jobid :: records[r] == was[r]
    ensures forall r | r in records && was[r].jobid == jobid ::
      && records[r].jobid == jobid
      && records[r].jstate == (if disable && was[r].jstate == Enabled then Disabled else was[r].jstate)
      && records[r].callback == if callback.Some? then callback.value else was[r].callback
    ensures forall r :: r in h.disabled <==>
      r in g.disabled || (disable && r in was && was[r].jobid == jobid && was[r].jstate == Enabled)
  {
    assert chain[..|chain|] == chain;
  }

  lemma Routed(s: State, h: History, r: nat, route: Route)
    requires Good(s, h) && r in s.submitting
    ensures Good(s.(submitting := s.submitting[r := s.submitting[r].(route := route)]), h)
  {
    RoutedOk(s, h.place, h.owners, r, route);
  }

  lemma GoodSize(s: State, h: History)
    requires Good(s, h)
    ensures |s.hash| == JHASHSIZE && h.made !in s.records
  {
  }

  lemma GoodSubmission(s: State, h: History, r: nat)
    requires Good(s, h) && r in s.submitting
    ensures r in s.records && s.records[r].jobid == s.submitting[r].task.jobid && s.submitting[r].task.ref == r
    ensures Unused(s.threads, r)
  {
    SubmittingRecord(s, h.place, h.owners, r);
    NotHeld(s, h, r);
  }

  lemma GoodRunning(s: State, h: History, w: nat)
    requires Good(s, h) && w in s.threads && s.threads[w].Running?
    ensures s.threads[w].jstate != InProgress
  {
    HolderRecord(s, h.place, h.owners, w);
  }

  /** The chain of an id has just one record with that id. */
  ghost predicate InTable(records: map<nat, Job>, hash: seq<seq<nat>>, r: nat) {
    r in records &&
    var pos := JHashPos(records[r].jobid);
    pos < |hash| && r in hash[pos] && (forall i | 0 <= i < |hash[pos]| :: hash[pos][i] in records) &&
    forall i | 0 <= i < |hash[pos]| :: records[hash[pos][i]].jobid == records[r].jobid ==> hash[pos][i] == r
  }

  lemma InChain(s: State, h: History, r: nat)
    requires Good(s, h) && r in s.records
    ensures InTable(s.records, s.hash, r)
  {
    var ids := IdsOf(s.records);
    assert forall q | q in s.records :: ids[q] == s.records[q].jobid;
  }

  /** Every record is in the chain of its id, and the chains hold records, each once. */
  ghost predicate Chained(records: map<nat, Job>, hash: seq<seq<nat>>) {
    (forall r | r in records :: JHashPos(records[r].jobid) < |hash| && r in hash[JHashPos(records[r].jobid)]) &&
    (forall b, i | 0 <= b < |hash| && 0 <= i < |hash[b]| :: hash[b][i] in records) &&
    forall b, i, j | 0 <= b < |hash| && 0 <= i < j < |hash[b]| :: hash[b][i] != hash[b][j]
  }

  lemma InChains(s: State, h: History)
    requires Good(s, h)
    ensures Chained(s.records, s.hash)
  {
    var ids := IdsOf(s.records);
    assert forall q | q in s.records :: ids[q] == s.records[q].jobid;
  }

  lemma ChainAt(records: map<nat, Job>, hash: seq<seq<nat>>, pos: nat)
    requires Chained(records, hash) && pos < |hash|
    ensures InOrder(records, hash[pos])
    ensures forall r | r in records && JHashPos(records[r].jobid) == pos :: r in hash[pos]
  {
  }

  ghost predicate InOrder(records: map<nat, Job>, chain: seq<nat>) {
    (forall i | 0 <= i < |chain| :: chain[i] in records) && forall i, j | 0 <= i < j < |chain| :: chain[i] != chain[j]
  }
}
