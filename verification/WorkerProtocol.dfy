/** The worker protocol as a state machine: N worker loops, their shared semaphore, the FIFO list,
    the sleeping requeues and shutdown. One event is the code between two await points. */
module WorkerProtocol {
  import opened Options
  import opened Totals
  import opened TaskQueues

  /** How a handler call ended; NoHandler is a name the registry does not know. */
  datatype Verdict = Success | NotDone | Raised | NoHandler

  datatype Worker =
    | Ready
    | Polling
    | Executing(msg: Message)
    | Reporting(msg: Message, verdict: Verdict)
    | Backoff
    | Stopped

  datatype Outcome = Completed | FinallyFailed | UnknownTask | DroppedAtShutdown | LostToStore

  /** The history of one submitted job: the attempt numbers its handler was called with, whether a
      call succeeded, and how the job ended. */
  datatype Job = Job(name: string, first: int, runs: seq<int>, succeeded: bool, outcome: Option<Outcome>)

  datatype State = State(
    running: bool,
    permits: int,
    workers: seq<Worker>,
    queue: seq<Message>,
    sleepers: seq<Task>,
    status: map<nat, Status>,
    nextId: nat,
    jobs: map<nat, Job>)

  /** Registered task names and their `max_attempts`. */
  type Registry = map<string, int>

  datatype Event =
    | Submit(name: string, payload: Payload)
    | Acquire(w: nat)
    | Stop(w: nat)
    | PollEmpty(w: nat)
    | PopLost(w: nat)
    | Take(w: nat)
    | Finish(w: nat, verdict: Verdict)
    | Report(w: nat, luck: Luck)
    | WakeUp(w: nat)
    | Requeue(k: nat, luck: Luck)
    | Shutdown
    | Exit
    | Restart(concurrency: nat)

  /** A process that starts on whatever list, statuses and job history are already there. */
  function StartOn(concurrency: nat, queue: seq<Message>, status: map<nat, Status>, nextId: nat,
                   jobs: map<nat, Job>): State {
    State(true, concurrency, seq(concurrency, i => Ready), queue, [], status, nextId, jobs)
  }

  function Init(concurrency: nat): State {
    StartOn(concurrency, [], map[], 0, map[])
  }

  predicate Enabled(s: State, e: Event) {
    match e
    case Submit(_, p) => p.job !in s.jobs
    case Acquire(w) => w < |s.workers| && s.workers[w].Ready? && s.running && s.permits > 0
    case Stop(w) => w < |s.workers| && s.workers[w].Ready? && !s.running
    case PollEmpty(w) => w < |s.workers| && s.workers[w].Polling?
    case PopLost(w) => w < |s.workers| && s.workers[w].Polling? && s.queue != []
    case Take(w) => w < |s.workers| && s.workers[w].Polling? && s.queue != []
    case Finish(w, v) => w < |s.workers| && s.workers[w].Executing? && !v.NoHandler?
    case Report(w, _) => w < |s.workers| && s.workers[w].Reporting?
    case WakeUp(w) => w < |s.workers| && s.workers[w].Backoff?
    case Requeue(k, _) => k < |s.sleepers|
    case Shutdown => true
    case Exit => !s.running && forall i :: 0 <= i < |s.workers| ==> s.workers[i].Stopped?
    case Restart(_) => !s.running && s.sleepers == [] && forall i :: 0 <= i < |s.workers| ==> s.workers[i].Stopped?
  }

  function JobOf(t: Task): nat { t.payload.job }

  function Retry(t: Task): Task {
    Task(t.name, t.payload.(attempt := Some(AttemptOf(t.payload) + 1)))
  }

  /** `getattr(task, "max_attempts", 1)`; an unregistered name is never retried. */
  function MaxAttempts(reg: Registry, name: string): int {
    if name in reg then reg[name] else 1
  }

  function End(jobs: map<nat, Job>, j: nat, o: Outcome): map<nat, Job> {
    if j in jobs then jobs[j := jobs[j].(outcome := Some(o))] else jobs
  }

  function NoteRun(jobs: map<nat, Job>, t: Task): map<nat, Job> {
    var j := JobOf(t);
    if j in jobs then jobs[j := jobs[j].(runs := jobs[j].runs + [AttemptOf(t.payload)])] else jobs
  }

  function NoteSuccess(jobs: map<nat, Job>, j: nat): map<nat, Job> {
    if j in jobs then jobs[j := jobs[j].(succeeded := true)] else jobs
  }

  function DropAll(jobs: map<nat, Job>, ts: seq<Task>): map<nat, Job> {
    map j | j in jobs ::
      if exists k :: 0 <= k < |ts| && JobOf(ts[k]) == j then jobs[j].(outcome := Some(DroppedAtShutdown)) else jobs[j]
  }

  /** What settling a report does to the loop that reports: its next place, the status it wrote if
      any, whether a retry was put to sleep, and how the job ended if it did. */
  datatype Effect = Effect(next: Worker, mark: Option<Status>, retry: bool, outcome: Option<Outcome>)

  /** After a failure: sleep before another attempt, or give up. */
  function FailureEffect(reg: Registry, t: Task): Effect {
    var again := AttemptOf(t.payload) < MaxAttempts(reg, t.name);
    Effect(Ready, Some(StatusFailed), again, if again then None else Some(FinallyFailed))
  }

  /** The status that stands after a write: it was carried out, answered or not. */
  function Mark(status: Status, luck: Luck): Option<Status> { if luck.Refused? then None else Some(status) }

  /** The status write and what follows it. A write that is not answered raises: inside the handler's
      `try` that is one more failure to report, outside it the outer handler backs the loop off. */
  function ReportEffect(reg: Registry, m: Message, v: Verdict, luck: Luck): Effect {
    match v
    case Success =>
      if luck.Done? then Effect(Ready, Some(StatusCompleted), false, Some(Completed))
      else Effect(Reporting(m, Raised), Mark(StatusCompleted, luck), false, None)
    case NotDone =>
      if luck.Done? then FailureEffect(reg, m.task)
      else Effect(Reporting(m, Raised), Mark(StatusFailed, luck), false, None)
    case Raised =>
      if luck.Done? then FailureEffect(reg, m.task)
      else Effect(Backoff, Mark(StatusFailed, luck), false, Some(LostToStore))
    case NoHandler =>
      Effect(if luck.Done? then Ready else Backoff, Mark(StatusFailed, luck), false, Some(UnknownTask))
  }

  /** Leaving the `async with` gives the permit back. */
  function ApplyEffect(s: State, w: nat, m: Message, f: Effect): State
    requires w < |s.workers|
  {
    State(s.running,
          if f.next.Reporting? then s.permits else s.permits + 1,
          s.workers[w := f.next],
          s.queue,
          if f.retry then s.sleepers + [Retry(m.task)] else s.sleepers,
          if f.mark.Some? then s.status[m.taskId := f.mark.value] else s.status,
          s.nextId,
          if f.outcome.Some? then End(s.jobs, JobOf(m.task), f.outcome.value) else s.jobs)
  }

  function ApplyReport(reg: Registry, s: State, w: nat, luck: Luck): State
    requires w < |s.workers| && s.workers[w].Reporting?
  {
    var m := s.workers[w].msg;
    ApplyEffect(s, w, m, ReportEffect(reg, m, s.workers[w].verdict, luck))
  }

  function ApplyTake(reg: Registry, s: State, w: nat): State
    requires w < |s.workers| && s.queue != []
  {
    var m := s.queue[0];
    if m.task.name in reg then
      s.(queue := s.queue[1..], workers := s.workers[w := Executing(m)], jobs := NoteRun(s.jobs, m.task))
    else s.(queue := s.queue[1..], workers := s.workers[w := Reporting(m, NoHandler)])
  }

  /** The head is popped and never arrives: the loop sees an empty poll and the job has no copy left. */
  function ApplyPopLost(s: State, w: nat): State
    requires w < |s.workers| && s.queue != []
  {
    s.(queue := s.queue[1..], workers := s.workers[w := Ready], permits := s.permits + 1,
       jobs := End(s.jobs, JobOf(s.queue[0].task), LostToStore))
  }

  function ApplyFinish(s: State, w: nat, v: Verdict): State
    requires w < |s.workers| && s.workers[w].Executing?
  {
    var m := s.workers[w].msg;
    s.(workers := s.workers[w := Reporting(m, v)],
       jobs := if v.Success? then NoteSuccess(s.jobs, JobOf(m.task)) else s.jobs)
  }

  function ApplySubmit(s: State, name: string, p: Payload): State {
    s.(queue := s.queue + [Message(s.nextId, Task(name, p))], nextId := s.nextId + 1,
       jobs := s.jobs[p.job := Job(name, AttemptOf(p), [], false, None)])
  }

  /** A push that is carried out puts the message on the list, answered or not: an error is only logged. */
  function ApplyRequeue(s: State, k: nat, luck: Luck): State
    requires k < |s.sleepers|
  {
    var t := s.sleepers[k];
    var s1 := s.(sleepers := s.sleepers[..k] + s.sleepers[k + 1..]);
    if !s.running then s1.(jobs := End(s.jobs, JobOf(t), DroppedAtShutdown))
    else if !luck.Refused? then s1.(queue := s.queue + [Message(s.nextId, t)], nextId := s.nextId + 1)
    else s1.(jobs := End(s.jobs, JobOf(t), LostToStore))
  }

  function Apply(reg: Registry, s: State, e: Event): State
    requires Enabled(s, e)
  {
    match e
    case Submit(name, p) => ApplySubmit(s, name, p)
    case Acquire(w) => s.(workers := s.workers[w := Polling], permits := s.permits - 1)
    case Stop(w) => s.(workers := s.workers[w := Stopped])
    case PollEmpty(w) => s.(workers := s.workers[w := Ready], permits := s.permits + 1)
    case PopLost(w) => ApplyPopLost(s, w)
    case Take(w) => ApplyTake(reg, s, w)
    case Finish(w, v) => ApplyFinish(s, w, v)
    case Report(w, luck) => ApplyReport(reg, s, w, luck)
    case WakeUp(w) => s.(workers := s.workers[w := Ready])
    case Requeue(k, luck) => ApplyRequeue(s, k, luck)
    case Shutdown => s.(running := false)
    case Exit => s.(sleepers := [], jobs := DropAll(s.jobs, s.sleepers))
    case Restart(n) => StartOn(n, s.queue, s.status, s.nextId, s.jobs)
  }

  ghost predicate Legal(reg: Registry, s: State, es: seq<Event>)
    decreases |es|
  {
    es != [] ==> Enabled(s, es[0]) && Legal(reg, Apply(reg, s, es[0]), es[1..])
  }

  ghost function Run(reg: Registry, s: State, es: seq<Event>): State
    requires Legal(reg, s, es)
    decreases |es|
  {
    if es == [] then s else Run(reg, Apply(reg, s, es[0]), es[1..])
  }

  // ----- Weights: anything that is summed over queued, held and sleeping copies -----

  datatype Weights = Weights(onMessage: Message -> nat, onWorker: Worker -> nat, onTask: Task -> nat)

  ghost function Sum(s: State, u: Weights): nat {
    Total(s.queue, u.onMessage) + Total(s.workers, u.onWorker) + Total(s.sleepers, u.onTask)
  }

  // What each event adds to a sum.

  /** One worker changes and at most one sleeper is added. */
  lemma SumWithWorker(s: State, s': State, w: nat, extra: seq<Task>, u: Weights)
    requires w < |s.workers| && |s'.workers| == |s.workers|
    requires s'.workers == s.workers[w := s'.workers[w]]
    requires s'.queue == s.queue && s'.sleepers == s.sleepers + extra
    ensures Sum(s', u) == Sum(s, u) + u.onWorker(s'.workers[w]) - u.onWorker(s.workers[w]) + Total(extra, u.onTask)
  {
    TotalUpdate(s.workers, w, s'.workers[w], u.onWorker);
    TotalConcat(s.sleepers, extra, u.onTask);
  }

  lemma SumEffect(s: State, w: nat, m: Message, f: Effect, u: Weights)
    requires w < |s.workers|
    ensures Sum(ApplyEffect(s, w, m, f), u) ==
            Sum(s, u) + u.onWorker(f.next) - u.onWorker(s.workers[w]) + (if f.retry then u.onTask(Retry(m.task)) else 0)
  {
    SumWithWorker(s, ApplyEffect(s, w, m, f), w, if f.retry then [Retry(m.task)] else [], u);
    TotalOne(Retry(m.task), u.onTask);
  }

  lemma SumTake(reg: Registry, s: State, w: nat, u: Weights)
    requires w < |s.workers| && s.queue != []
    ensures var s' := ApplyTake(reg, s, w);
            Sum(s', u) == Sum(s, u) + u.onWorker(s'.workers[w]) - u.onWorker(s.workers[w]) - u.onMessage(s.queue[0])
  {
    TotalUpdate(s.workers, w, ApplyTake(reg, s, w).workers[w], u.onWorker);
  }

  lemma SumPopLost(s: State, w: nat, u: Weights)
    requires w < |s.workers| && s.queue != []
    ensures Sum(ApplyPopLost(s, w), u) ==
            Sum(s, u) + u.onWorker(Ready) - u.onWorker(s.workers[w]) - u.onMessage(s.queue[0])
  {
    TotalUpdate(s.workers, w, Ready, u.onWorker);
  }

  lemma SumFinish(s: State, w: nat, v: Verdict, u: Weights)
    requires w < |s.workers| && s.workers[w].Executing?
    ensures Sum(ApplyFinish(s, w, v), u) ==
            Sum(s, u) + u.onWorker(Reporting(s.workers[w].msg, v)) - u.onWorker(s.workers[w])
  {
    TotalUpdate(s.workers, w, Reporting(s.workers[w].msg, v), u.onWorker);
  }

  lemma SumSubmit(s: State, name: string, p: Payload, u: Weights)
    ensures Sum(ApplySubmit(s, name, p), u) == Sum(s, u) + u.onMessage(Message(s.nextId, Task(name, p)))
  {
    TotalAppend(s.queue, Message(s.nextId, Task(name, p)), u.onMessage);
  }

  lemma SumRequeue(s: State, k: nat, luck: Luck, u: Weights)
    requires k < |s.sleepers|
    ensures Sum(ApplyRequeue(s, k, luck), u) == Sum(s, u) - u.onTask(s.sleepers[k]) +
            (if s.running && !luck.Refused? then u.onMessage(Message(s.nextId, s.sleepers[k])) else 0)
  {
    TotalRemove(s.sleepers, k, u.onTask);
    TotalAppend(s.queue, Message(s.nextId, s.sleepers[k]), u.onMessage);
  }

  predicate Carries(w: Worker) { w.Executing? || w.Reporting? }

  /** 1 for each live copy of job j. */
  function CopiesOf(j: nat): Weights {
    Weights((m: Message) => if JobOf(m.task) == j then 1 else 0,
            (w: Worker) => if Carries(w) && JobOf(w.msg.task) == j then 1 else 0,
            (t: Task) => if JobOf(t) == j then 1 else 0)
  }

  /** 1 for each worker inside the semaphore. */
  function Holders(): Weights {
    Weights((m: Message) => 0, (w: Worker) => if Carries(w) || w.Polling? then 1 else 0, (t: Task) => 0)
  }

  /** Handler calls still possible for a copy. */
  function Left(reg: Registry, t: Task): nat {
    var more := MaxAttempts(reg, t.name) - AttemptOf(t.payload) + 1;
    if more < 1 then 1 else more
  }

  /** Remaining work: five units per handler call still possible, less the stage reached. */
  function WorkOf(reg: Registry): Weights {
    Weights((m: Message) => 5 * Left(reg, m.task),
            (w: Worker) => if w.Executing? then 5 * Left(reg, w.msg.task) - 1
                           else if w.Reporting? && (w.verdict.Success? || w.verdict.NotDone?) then
                               5 * Left(reg, w.msg.task) - 2
                           else if w.Reporting? then 5 * Left(reg, w.msg.task) - 3 else 0,
            (t: Task) => 5 * Left(reg, t) + 1)
  }

  // ----- The invariant -----

  /** `max(1, max_attempts - first + 1)`, the most handler calls a job can get. */
  function Budget(reg: Registry, job: Job): nat {
    var more := MaxAttempts(reg, job.name) - job.first + 1;
    if more < 1 then 1 else more
  }

  /** The number after `a`: `a + 1`, except that a stored 0 reads as 1. */
  function Succ(a: int): int { if a == -1 then 1 else a + 1 }

  function NextRun(job: Job): int {
    if job.runs == [] then job.first else Succ(job.runs[|job.runs| - 1])
  }

  /** A copy that waits for its handler call. */
  ghost predicate Waiting(reg: Registry, jobs: map<nat, Job>, t: Task) {
    && JobOf(t) in jobs
    && var job := jobs[JobOf(t)];
    && job.name == t.name
    && job.outcome.None?
    && NextRun(job) == AttemptOf(t.payload)
    && |job.runs| + Left(reg, t) <= Budget(reg, job)
  }

  /** A copy whose handler was called and that is not settled yet. */
  ghost predicate Started(reg: Registry, jobs: map<nat, Job>, t: Task) {
    && JobOf(t) in jobs
    && var job := jobs[JobOf(t)];
    && job.name == t.name
    && job.outcome.None?
    && job.runs != []
    && job.runs[|job.runs| - 1] == AttemptOf(t.payload)
    && |job.runs| - 1 + Left(reg, t) <= Budget(reg, job)
  }

  ghost predicate Numbered(job: Job) {
    && (job.runs != [] ==> job.runs[0] == job.first)
    && forall i :: 0 < i < |job.runs| ==> job.runs[i] == Succ(job.runs[i - 1])
  }

  ghost predicate GoodWorker(reg: Registry, jobs: map<nat, Job>, w: Worker) {
    match w
    case Executing(m) => Started(reg, jobs, m.task)
    case Reporting(m, v) => if v.NoHandler? then Waiting(reg, jobs, m.task) else Started(reg, jobs, m.task)
    case _ => true
  }

  ghost predicate GoodCopies(reg: Registry, s: State) {
    && (forall i :: 0 <= i < |s.queue| ==> Waiting(reg, s.jobs, s.queue[i].task))
    && (forall i :: 0 <= i < |s.workers| ==> GoodWorker(reg, s.jobs, s.workers[i]))
    && (forall i :: 0 <= i < |s.sleepers| ==> Waiting(reg, s.jobs, s.sleepers[i]))
  }

  ghost predicate GoodJobs(reg: Registry, jobs: map<nat, Job>) {
    forall j :: j in jobs ==> Numbered(jobs[j]) && |jobs[j].runs| <= Budget(reg, jobs[j])
  }

  function Open(s: State, j: nat): nat {
    if j in s.jobs && s.jobs[j].outcome.None? then 1 else 0
  }

  ghost predicate Conserved(s: State) {
    forall j: nat :: Sum(s, CopiesOf(j)) == Open(s, j)
  }

  ghost predicate Inv(reg: Registry, s: State) {
    && s.permits + Sum(s, Holders()) == |s.workers|
    && (s.running ==> forall i :: 0 <= i < |s.workers| ==> !s.workers[i].Stopped?)
    && Conserved(s)
    && GoodCopies(reg, s)
    && GoodJobs(reg, s.jobs)
  }
}
