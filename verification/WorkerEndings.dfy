/** What the endings of a job mean over whole runs, and how the loops go on and stop. */
module WorkerEndings {
  import opened Options
  import opened Totals
  import opened TaskQueues
  import opened WorkerProtocol
  import opened WorkerTheorems

  // ----- Every ending means something -----

  predicate LastRunAtLeast(job: Job, n: int) { job.runs != [] && job.runs[|job.runs| - 1] >= n }

  predicate LastRunBelow(job: Job, n: int) { job.runs != [] && job.runs[|job.runs| - 1] < n }

  /** Completed: the handler succeeded. FinallyFailed: the attempts are used up. UnknownTask: nobody knows the
      name, and no handler was called. DroppedAtShutdown: the job slept, with attempts left. */
  predicate Sound(reg: Registry, job: Job) {
    && (job.runs != [] ==> job.name in reg)
    && (job.succeeded ==> job.runs != [])
    && match job.outcome
       case Some(Completed) => job.succeeded
       case Some(FinallyFailed) => LastRunAtLeast(job, MaxAttempts(reg, job.name))
       case Some(UnknownTask) => job.name !in reg
       case Some(DroppedAtShutdown) => LastRunBelow(job, MaxAttempts(reg, job.name))
       case _ => true
  }

  /** What a worker that is about to report knows of its job. */
  ghost predicate Knows(reg: Registry, jobs: map<nat, Job>, w: Worker) {
    w.Reporting? ==>
      && JobOf(w.msg.task) in jobs
      && (w.verdict.NoHandler? ==> jobs[JobOf(w.msg.task)].name !in reg)
      && (w.verdict.Success? ==> jobs[JobOf(w.msg.task)].succeeded)
  }

  /** Only jobs with attempts left sleep. */
  ghost predicate Sleeps(reg: Registry, jobs: map<nat, Job>, t: Task) {
    JobOf(t) in jobs && LastRunBelow(jobs[JobOf(t)], MaxAttempts(reg, t.name)) && jobs[JobOf(t)].name == t.name
  }

  ghost predicate AllSound(reg: Registry, s: State) {
    && (forall j :: j in s.jobs ==> Sound(reg, s.jobs[j]))
    && (forall i :: 0 <= i < |s.workers| ==> Knows(reg, s.jobs, s.workers[i]))
    && (forall i :: 0 <= i < |s.sleepers| ==> Sleeps(reg, s.jobs, s.sleepers[i]))
  }

  /** What an ending by a report needs. */
  ghost predicate FitsJob(reg: Registry, job: Job, f: Effect) {
    && (f.next.Reporting? ==> f.next.verdict.Raised?)
    && (f.retry ==> LastRunBelow(job, MaxAttempts(reg, job.name)))
    && (f.outcome.Some? ==> Sound(reg, job.(outcome := f.outcome)))
  }

  lemma EffectFitsJob(reg: Registry, s: State, w: nat, luck: Luck)
    requires Inv(reg, s) && AllSound(reg, s) && Enabled(s, Report(w, luck))
    ensures var m := s.workers[w].msg;
            && JobOf(m.task) in s.jobs
            && FitsJob(reg, s.jobs[JobOf(m.task)], ReportEffect(reg, m, s.workers[w].verdict, luck))
    ensures s.jobs[JobOf(s.workers[w].msg.task)].name == s.workers[w].msg.task.name
  {
    assert GoodWorker(reg, s.jobs, s.workers[w]) && Knows(reg, s.jobs, s.workers[w]);
    assert Sound(reg, s.jobs[JobOf(s.workers[w].msg.task)]);
  }

  lemma SoundApplied(reg: Registry, s: State, w: nat, m: Message, f: Effect)
    requires AllSound(reg, s) && w < |s.workers| && s.workers[w].Reporting? && s.workers[w].msg == m && Conserved(s)
    requires JobOf(m.task) in s.jobs && FitsJob(reg, s.jobs[JobOf(m.task)], f) &&
             s.jobs[JobOf(m.task)].name == m.task.name
    requires f.next.Reporting? ==> f.next.msg == m
    ensures AllSound(reg, ApplyEffect(s, w, m, f))
  {
    SoleWorker(s, w);
    var s' := ApplyEffect(s, w, m, f);
    forall i | 0 <= i < |s'.workers| ensures Knows(reg, s'.jobs, s'.workers[i]) {
      assert Knows(reg, s.jobs, s.workers[i]);
    }
    forall i | 0 <= i < |s'.sleepers| ensures Sleeps(reg, s'.jobs, s'.sleepers[i]) {
      if i < |s.sleepers| {
        assert Sleeps(reg, s.jobs, s.sleepers[i]);
      }
    }
  }

  lemma SoundEffect(reg: Registry, s: State, w: nat, luck: Luck)
    requires Inv(reg, s) && AllSound(reg, s) && Enabled(s, Report(w, luck))
    ensures AllSound(reg, ApplyReport(reg, s, w, luck))
  {
    var m := s.workers[w].msg;
    EffectFitsJob(reg, s, w, luck);
    SoundApplied(reg, s, w, m, ReportEffect(reg, m, s.workers[w].verdict, luck));
  }

  lemma SoundTake(reg: Registry, s: State, w: nat)
    requires Inv(reg, s) && AllSound(reg, s) && Enabled(s, Take(w))
    ensures AllSound(reg, ApplyTake(reg, s, w))
  {
    assert Waiting(reg, s.jobs, s.queue[0].task);
    SoleMessage(s, 0);
    var s' := ApplyTake(reg, s, w);
    forall i | 0 <= i < |s'.workers| ensures Knows(reg, s'.jobs, s'.workers[i]) {
      assert Knows(reg, s.jobs, s.workers[i]);
    }
    forall i | 0 <= i < |s'.sleepers| ensures Sleeps(reg, s'.jobs, s'.sleepers[i]) {
      assert Sleeps(reg, s.jobs, s.sleepers[i]);
    }
  }

  lemma SoundFinish(reg: Registry, s: State, w: nat, v: Verdict)
    requires Inv(reg, s) && AllSound(reg, s) && Enabled(s, Finish(w, v))
    ensures AllSound(reg, ApplyFinish(s, w, v))
  {
    assert GoodWorker(reg, s.jobs, s.workers[w]);
    SuccessIsSound(reg, s, JobOf(s.workers[w].msg.task));
    var s' := ApplyFinish(s, w, v);
    forall i | 0 <= i < |s'.workers| ensures Knows(reg, s'.jobs, s'.workers[i]) {
      assert Knows(reg, s.jobs, s.workers[i]);
    }
  }

  /** A success of a job that is open and was called leaves all sound, and all sleepers asleep. */
  lemma SuccessIsSound(reg: Registry, s: State, j: nat)
    requires AllSound(reg, s) && j in s.jobs && s.jobs[j].outcome.None? && s.jobs[j].runs != []
    ensures forall x :: x in NoteSuccess(s.jobs, j) ==> Sound(reg, NoteSuccess(s.jobs, j)[x])
    ensures forall i :: 0 <= i < |s.sleepers| ==> Sleeps(reg, NoteSuccess(s.jobs, j), s.sleepers[i])
  {
    forall i | 0 <= i < |s.sleepers| ensures Sleeps(reg, NoteSuccess(s.jobs, j), s.sleepers[i]) {
      assert Sleeps(reg, s.jobs, s.sleepers[i]);
    }
  }

  /** Ending a job that slept, as dropped or as lost, leaves all others as they are. */
  lemma SoundEnd(reg: Registry, jobs: map<nat, Job>, t: Task, o: Outcome)
    requires (forall j :: j in jobs ==> Sound(reg, jobs[j])) && Sleeps(reg, jobs, t)
    requires o == DroppedAtShutdown || o == LostToStore
    ensures forall j :: j in End(jobs, JobOf(t), o) ==> Sound(reg, End(jobs, JobOf(t), o)[j])
  {
  }

  lemma SoundRequeue(reg: Registry, s: State, k: nat, luck: Luck)
    requires Inv(reg, s) && AllSound(reg, s) && Enabled(s, Requeue(k, luck))
    ensures AllSound(reg, ApplyRequeue(s, k, luck))
  {
    assert Sleeps(reg, s.jobs, s.sleepers[k]);
    SoundEnd(reg, s.jobs, s.sleepers[k], DroppedAtShutdown);
    SoundEnd(reg, s.jobs, s.sleepers[k], LostToStore);
    var s' := ApplyRequeue(s, k, luck);
    forall i | 0 <= i < |s'.workers| ensures Knows(reg, s'.jobs, s'.workers[i]) {
      assert Knows(reg, s.jobs, s.workers[i]);
    }
    SleepersLess(reg, s, k, s'.jobs);
  }

  lemma SleepersLess(reg: Registry, s: State, k: nat, jobs: map<nat, Job>)
    requires AllSound(reg, s) && k < |s.sleepers|
    requires forall j :: j in s.jobs ==> j in jobs && jobs[j].runs == s.jobs[j].runs && jobs[j].name == s.jobs[j].name
    ensures var rest := s.sleepers[..k] + s.sleepers[k + 1..];
            forall i :: 0 <= i < |rest| ==> Sleeps(reg, jobs, rest[i])
  {
    var rest := s.sleepers[..k] + s.sleepers[k + 1..];
    forall i | 0 <= i < |rest| ensures Sleeps(reg, jobs, rest[i]) {
      var was := if i < k then i else i + 1;
      assert rest[i] == s.sleepers[was] && Sleeps(reg, s.jobs, s.sleepers[was]);
    }
  }

  lemma SoundExit(reg: Registry, s: State)
    requires AllSound(reg, s) && Enabled(s, Exit)
    ensures AllSound(reg, Apply(reg, s, Exit))
  {
    var s' := Apply(reg, s, Exit);
    forall j | j in s'.jobs ensures Sound(reg, s'.jobs[j]) {
      if k :| 0 <= k < |s.sleepers| && JobOf(s.sleepers[k]) == j {
        assert Sleeps(reg, s.jobs, s.sleepers[k]);
      }
    }
  }

  lemma SoundOther(reg: Registry, s: State, e: Event)
    requires AllSound(reg, s) && Enabled(s, e)
    requires e.Submit? || e.Acquire? || e.Stop? || e.PollEmpty? || e.PopLost? || e.WakeUp? || e.Shutdown? || e.Restart?
    ensures AllSound(reg, Apply(reg, s, e))
  {
    var s' := Apply(reg, s, e);
    forall i | 0 <= i < |s'.workers| ensures Knows(reg, s'.jobs, s'.workers[i]) {
      if !e.Restart? {
        assert Knows(reg, s.jobs, s.workers[i]);
      }
    }
    forall i | 0 <= i < |s'.sleepers| ensures Sleeps(reg, s'.jobs, s'.sleepers[i]) {
      assert Sleeps(reg, s.jobs, s.sleepers[i]);
    }
  }

  lemma SoundStep(reg: Registry, s: State, e: Event)
    requires Inv(reg, s) && AllSound(reg, s) && Enabled(s, e)
    ensures AllSound(reg, Apply(reg, s, e))
  {
    match e
    case Take(w) => SoundTake(reg, s, w);
    case Finish(w, v) => SoundFinish(reg, s, w, v);
    case Report(w, luck) => SoundEffect(reg, s, w, luck);
    case Requeue(k, luck) => SoundRequeue(reg, s, k, luck);
    case Exit => SoundExit(reg, s);
    case _ => SoundOther(reg, s, e);
  }

  lemma {:induction false} SoundRun(reg: Registry, s: State, es: seq<Event>)
    requires Inv(reg, s) && AllSound(reg, s) && Legal(reg, s, es)
    ensures AllSound(reg, Run(reg, s, es))
    decreases |es|
  {
    if es != [] {
      SoundStep(reg, s, es[0]);
      InvStep(reg, s, es[0]);
      SoundRun(reg, Apply(reg, s, es[0]), es[1..]);
    }
  }

  // ----- Dropped means that somebody shut down -----

  ghost predicate NoneDropped(s: State) {
    s.running && forall j :: j in s.jobs ==> s.jobs[j].outcome != Some(DroppedAtShutdown)
  }

  lemma NoneDroppedStep(reg: Registry, s: State, e: Event)
    requires NoneDropped(s) && Enabled(s, e) && !e.Shutdown?
    ensures NoneDropped(Apply(reg, s, e))
  {
  }

  lemma {:induction false} NoneDroppedRun(reg: Registry, s: State, es: seq<Event>)
    requires NoneDropped(s) && Legal(reg, s, es)
    requires forall i :: 0 <= i < |es| ==> !es[i].Shutdown?
    ensures NoneDropped(Run(reg, s, es))
    decreases |es|
  {
    if es != [] {
      NoneDroppedStep(reg, s, es[0]);
      NoneDroppedRun(reg, Apply(reg, s, es[0]), es[1..]);
    }
  }

  lemma StartsSound(reg: Registry, concurrency: nat)
    ensures AllSound(reg, Init(concurrency)) && NoneDropped(Init(concurrency))
  {
  }

  lemma SoundFromStart(reg: Registry, concurrency: nat, es: seq<Event>, j: nat)
    requires Legal(reg, Init(concurrency), es)
    requires j in Run(reg, Init(concurrency), es).jobs
    ensures Sound(reg, Run(reg, Init(concurrency), es).jobs[j])
  {
    InvInit(reg, concurrency);
    StartsSound(reg, concurrency);
    SoundRun(reg, Init(concurrency), es);
  }

  lemma DropNeedsShutdown(reg: Registry, concurrency: nat, es: seq<Event>, j: nat)
    requires Legal(reg, Init(concurrency), es)
    requires j in Run(reg, Init(concurrency), es).jobs
    ensures Run(reg, Init(concurrency), es).jobs[j].outcome == Some(DroppedAtShutdown) ==>
              exists i :: 0 <= i < |es| && es[i].Shutdown?
  {
    if forall i :: 0 <= i < |es| ==> !es[i].Shutdown? {
      StartsSound(reg, concurrency);
      NoneDroppedRun(reg, Init(concurrency), es);
    }
  }

  /** In every run, whatever the store does: a completed job succeeded, an unknown one has no handler and had
      no call, and a dropped one was waiting for another attempt after somebody shut down. */
  lemma EndingsMean(reg: Registry, concurrency: nat, es: seq<Event>, j: nat)
    requires Legal(reg, Init(concurrency), es)
    requires j in Run(reg, Init(concurrency), es).jobs
    ensures var job := Run(reg, Init(concurrency), es).jobs[j];
            var calls := |job.runs|;
            && (job.outcome == Some(Completed) ==> job.succeeded)
            && (job.outcome == Some(UnknownTask) ==> job.name !in reg && calls == 0)
            && (job.outcome == Some(DroppedAtShutdown) ==>
                  && calls > 0 && job.name in reg && job.runs[calls - 1] < reg[job.name]
                  && exists i :: 0 <= i < |es| && es[i].Shutdown?)
            && (calls > 0 || job.succeeded || job.outcome == Some(FinallyFailed) ==> job.name in reg && calls > 0)
  {
    SoundFromStart(reg, concurrency, es, j);
    DropNeedsShutdown(reg, concurrency, es, j);
  }

  /** And a job that failed for good had every attempt it was due: max(1, max_attempts) calls, or those that
      were left when it was submitted with a later number. */
  lemma AllAttemptsMade(reg: Registry, concurrency: nat, es: seq<Event>, name: string, p: Payload, a: int)
    requires Legal(reg, Init(concurrency), es) && Submit(name, p) in es && AsksFor(p, a)
    ensures var jobs := Run(reg, Init(concurrency), es).jobs;
            p.job in jobs && (jobs[p.job].outcome == Some(FinallyFailed) ==>
              name in reg && |jobs[p.job].runs| == if reg[name] >= a then reg[name] - a + 1 else 1)
  {
    BoundedRuns(reg, concurrency, es, name, p, a);
    SoundFromStart(reg, concurrency, es, p.job);
  }

  // ----- Exactly how a job is lost -----

  /** The three ways in which the store can lose a job: a pop that is carried out and not answered, a status
      write that is not answered after a failure, and a push of a retry that is not carried out. */
  predicate Loses(s: State, e: Event, j: nat) {
    match e
    case PopLost(_) => s.queue != [] && JobOf(s.queue[0].task) == j
    case Report(w, luck) =>
      w < |s.workers| && s.workers[w].Reporting? && s.workers[w].verdict.Raised? && !luck.Done? &&
          JobOf(s.workers[w].msg.task) == j
    case Requeue(k, luck) => k < |s.sleepers| && s.running && luck.Refused? && JobOf(s.sleepers[k]) == j
    case _ => false
  }

  /** Only these events end a job, and a job is open when it comes in. */
  predicate MayEnd(e: Event) { e.PopLost? || e.Report? || e.Requeue? || e.Exit? }

  lemma OutcomeStays(reg: Registry, s: State, e: Event, j: nat)
    requires Enabled(s, e) && !MayEnd(e)
    ensures j in s.jobs ==> j in Apply(reg, s, e).jobs && Apply(reg, s, e).jobs[j].outcome == s.jobs[j].outcome
    ensures j !in s.jobs && j in Apply(reg, s, e).jobs ==> Apply(reg, s, e).jobs[j].outcome.None?
  {
  }

  lemma LostByReport(reg: Registry, s: State, e: Event, j: nat)
    requires Inv(reg, s) && Enabled(s, e) && e.Report? && j in s.jobs && s.jobs[j].outcome.None?
    ensures j in Apply(reg, s, e).jobs
    ensures Apply(reg, s, e).jobs[j].outcome == Some(LostToStore) <==> Loses(s, e, j)
  {
    assert GoodWorker(reg, s.jobs, s.workers[e.w]);
  }

  lemma LostByPop(reg: Registry, s: State, e: Event, j: nat)
    requires Inv(reg, s) && Enabled(s, e) && e.PopLost? && j in s.jobs && s.jobs[j].outcome.None?
    ensures j in Apply(reg, s, e).jobs
    ensures Apply(reg, s, e).jobs[j].outcome == Some(LostToStore) <==> Loses(s, e, j)
  {
    assert Waiting(reg, s.jobs, s.queue[0].task);
  }

  lemma LostByRequeue(reg: Registry, s: State, e: Event, j: nat)
    requires Inv(reg, s) && Enabled(s, e) && e.Requeue? && j in s.jobs && s.jobs[j].outcome.None?
    ensures j in Apply(reg, s, e).jobs
    ensures Apply(reg, s, e).jobs[j].outcome == Some(LostToStore) <==> Loses(s, e, j)
  {
    assert Waiting(reg, s.jobs, s.sleepers[e.k]);
  }

  lemma LostOtherwise(reg: Registry, s: State, e: Event, j: nat)
    requires Inv(reg, s) && Enabled(s, e) && !e.Report? && !e.PopLost? && !e.Requeue? && j in s.jobs &&
             s.jobs[j].outcome.None?
    ensures j in Apply(reg, s, e).jobs
    ensures Apply(reg, s, e).jobs[j].outcome == Some(LostToStore) <==> Loses(s, e, j)
  {
    if !e.Exit? {
      OutcomeStays(reg, s, e, j);
    }
  }

  /** A job that is open is lost by exactly these events. */
  lemma LostExactly(reg: Registry, s: State, e: Event, j: nat)
    requires Inv(reg, s) && Enabled(s, e) && j in s.jobs && s.jobs[j].outcome.None?
    ensures j in Apply(reg, s, e).jobs
    ensures Apply(reg, s, e).jobs[j].outcome == Some(LostToStore) <==> Loses(s, e, j)
  {
    if e.PopLost? {
      LostByPop(reg, s, e, j);
    } else if e.Report? {
      LostByReport(reg, s, e, j);
    } else if e.Requeue? {
      LostByRequeue(reg, s, e, j);
    } else {
      LostOtherwise(reg, s, e, j);
    }
  }

  function LosesJob(j: nat): (State, Event) -> bool { (s: State, e: Event) => Loses(s, e, j) }

  /** Only an open job can be lost. */
  lemma LosesOpen(reg: Registry, s: State, e: Event, j: nat)
    requires Inv(reg, s) && Enabled(s, e) && Loses(s, e, j)
    ensures j in s.jobs && s.jobs[j].outcome.None?
  {
    match e
    case PopLost(_) => assert Waiting(reg, s.jobs, s.queue[0].task);
    case Report(w, _) => assert GoodWorker(reg, s.jobs, s.workers[w]);
    case Requeue(k, _) => assert Waiting(reg, s.jobs, s.sleepers[k]);
    case _ =>
  }

  ghost predicate HasEnded(s: State, j: nat, o: Outcome) { j in s.jobs && s.jobs[j].outcome == Some(o) }

  /** Job j ends in the way o by exactly the events of a kind. */
  ghost predicate EndsBy(reg: Registry, j: nat, o: Outcome, ends: (State, Event) -> bool) {
    forall s, e :: Inv(reg, s) && Enabled(s, e) ==>
      (HasEnded(Apply(reg, s, e), j, o) <==> HasEnded(s, j, o) || ends(s, e))
  }

  lemma LostStep(reg: Registry, s: State, e: Event, j: nat)
    requires Inv(reg, s) && Enabled(s, e)
    ensures HasEnded(Apply(reg, s, e), j, LostToStore) <==> HasEnded(s, j, LostToStore) || Loses(s, e, j)
  {
    if Loses(s, e, j) {
      LosesOpen(reg, s, e, j);
    }
    if j in s.jobs {
      if s.jobs[j].outcome.None? {
        LostExactly(reg, s, e, j);
      } else {
        SettledStep(reg, s, e, j);
      }
    }
  }

  /** A job has ended in a way after a run exactly if it had before, or an event of the run ended it so. */
  lemma {:induction false} EndedByRun(reg: Registry, s: State, es: seq<Event>, j: nat, o: Outcome,
                                         ends: (State, Event) -> bool)
    requires Inv(reg, s) && Legal(reg, s, es) && EndsBy(reg, j, o, ends)
    ensures HasEnded(Run(reg, s, es), j, o) <==> HasEnded(s, j, o) || Ever(reg, s, es, ends)
    decreases |es|
  {
    if es != [] {
      InvStep(reg, s, es[0]);
      assert HasEnded(Apply(reg, s, es[0]), j, o) <==> HasEnded(s, j, o) || ends(s, es[0]);
      EndedByRun(reg, Apply(reg, s, es[0]), es[1..], j, o, ends);
    }
  }

  /** In every run a job is lost to the store exactly if one of these events happened to it. */
  lemma LostInRun(reg: Registry, concurrency: nat, es: seq<Event>, j: nat)
    requires Legal(reg, Init(concurrency), es)
    ensures HasEnded(Run(reg, Init(concurrency), es), j, LostToStore) <==> Ever(reg, Init(concurrency), es, LosesJob(j))
  {
    InvInit(reg, concurrency);
    forall s, e | Inv(reg, s) && Enabled(s, e)
      ensures HasEnded(Apply(reg, s, e), j, LostToStore) <==> HasEnded(s, j, LostToStore) || LosesJob(j)(s, e)
    {
      LostStep(reg, s, e, j);
    }
    EndedByRun(reg, Init(concurrency), es, j, LostToStore, LosesJob(j));
  }

  // ----- Exactly how a job is completed -----

  /** The write of a success, answered. */
  predicate Completes(s: State, e: Event, j: nat) {
    && e.Report? && e.luck.Done?
    && e.w < |s.workers| && s.workers[e.w].Reporting? && s.workers[e.w].verdict.Success? &&
       JobOf(s.workers[e.w].msg.task) == j
  }

  function CompletesJob(j: nat): (State, Event) -> bool { (s: State, e: Event) => Completes(s, e, j) }

  lemma CompletedByReport(reg: Registry, s: State, e: Event, j: nat)
    requires Inv(reg, s) && Enabled(s, e) && e.Report?
    ensures HasEnded(Apply(reg, s, e), j, Completed) <==> HasEnded(s, j, Completed) || Completes(s, e, j)
  {
    assert GoodWorker(reg, s.jobs, s.workers[e.w]);
  }

  lemma NotCompletedByLoss(reg: Registry, s: State, e: Event, j: nat)
    requires Inv(reg, s) && Enabled(s, e) && (e.PopLost? || e.Requeue?)
    ensures HasEnded(Apply(reg, s, e), j, Completed) <==> HasEnded(s, j, Completed) || Completes(s, e, j)
  {
    assert Waiting(reg, s.jobs, if e.PopLost? then s.queue[0].task else s.sleepers[e.k]);
  }

  lemma NotCompletedAtExit(reg: Registry, s: State, e: Event, j: nat)
    requires Inv(reg, s) && Enabled(s, e) && e.Exit?
    ensures HasEnded(Apply(reg, s, e), j, Completed) <==> HasEnded(s, j, Completed) || Completes(s, e, j)
  {
    if j in s.jobs && s.jobs[j].outcome.Some? {
      SettledStep(reg, s, Exit, j);
    }
  }

  lemma CompletedStep(reg: Registry, s: State, e: Event, j: nat)
    requires Inv(reg, s) && Enabled(s, e)
    ensures HasEnded(Apply(reg, s, e), j, Completed) <==> HasEnded(s, j, Completed) || Completes(s, e, j)
  {
    if e.Report? {
      CompletedByReport(reg, s, e, j);
    } else if e.PopLost? || e.Requeue? {
      NotCompletedByLoss(reg, s, e, j);
    } else if e.Exit? {
      NotCompletedAtExit(reg, s, e, j);
    } else {
      OutcomeStays(reg, s, e, j);
    }
  }

  /** In every run a job is completed exactly if the write of a success of its handler was answered. */
  lemma CompletedInRun(reg: Registry, concurrency: nat, es: seq<Event>, j: nat)
    requires Legal(reg, Init(concurrency), es)
    ensures HasEnded(Run(reg, Init(concurrency), es), j, Completed) <==>
            Ever(reg, Init(concurrency), es, CompletesJob(j))
  {
    InvInit(reg, concurrency);
    forall s, e | Inv(reg, s) && Enabled(s, e)
      ensures HasEnded(Apply(reg, s, e), j, Completed) <==> HasEnded(s, j, Completed) || CompletesJob(j)(s, e)
    {
      CompletedStep(reg, s, e, j);
    }
    EndedByRun(reg, Init(concurrency), es, j, Completed, CompletesJob(j));
  }

  /** A success is written down, or about to be. */
  ghost predicate Kept(s: State, j: nat) {
    j in s.jobs && s.jobs[j].succeeded ==>
      s.jobs[j].outcome == Some(Completed) || (s.jobs[j].outcome.None? && SuccessHeld(s, j))
  }

  lemma KeptOpen(reg: Registry, s: State, e: Event, j: nat)
    requires Inv(reg, s) && Enabled(s, e) && !Unanswered(s, e, j) && j in s.jobs && s.jobs[j].outcome.None?
    requires SuccessHeld(s, j)
    ensures Kept(Apply(reg, s, e), j)
  {
    var w: nat :| Succeeding(s, w, j);
    SoleWorker(s, w);
    SuccessStep(reg, s, e, j);
    match e
    case PopLost(_) => assert Waiting(reg, s.jobs, s.queue[0].task);
    case Requeue(k, _) => assert Waiting(reg, s.jobs, s.sleepers[k]);
    case Report(x, luck) => assert GoodWorker(reg, s.jobs, s.workers[x]);
    case _ =>
  }

  lemma FreshSuccess(reg: Registry, s: State, e: Event, j: nat)
    requires Inv(reg, s) && Enabled(s, e) && j in s.jobs && s.jobs[j].outcome.None?
    requires e.Finish? && e.verdict.Success? && JobOf(s.workers[e.w].msg.task) == j
    ensures SuccessHeld(Apply(reg, s, e), j) && Apply(reg, s, e).jobs[j].outcome.None?
  {
    assert GoodWorker(reg, s.jobs, s.workers[e.w]);
    assert Succeeding(Apply(reg, s, e), e.w, j);
  }

  lemma NoSuccess(reg: Registry, s: State, e: Event, j: nat)
    requires Enabled(s, e) && j in s.jobs && !s.jobs[j].succeeded
    requires !(e.Finish? && e.verdict.Success? && JobOf(s.workers[e.w].msg.task) == j)
    ensures j in Apply(reg, s, e).jobs && !Apply(reg, s, e).jobs[j].succeeded
  {
  }

  lemma KeptFresh(reg: Registry, s: State, e: Event, j: nat)
    requires Inv(reg, s) && Enabled(s, e) && j in s.jobs && s.jobs[j].outcome.None? && !s.jobs[j].succeeded
    ensures Kept(Apply(reg, s, e), j)
  {
    if e.Finish? && e.verdict.Success? && JobOf(s.workers[e.w].msg.task) == j {
      FreshSuccess(reg, s, e, j);
    } else {
      NoSuccess(reg, s, e, j);
    }
  }

  lemma KeptStep(reg: Registry, s: State, e: Event, j: nat)
    requires Inv(reg, s) && Enabled(s, e) && !Unanswered(s, e, j) && Kept(s, j)
    ensures Kept(Apply(reg, s, e), j)
  {
    if j in s.jobs {
      if s.jobs[j].outcome.Some? {
        SettledStep(reg, s, e, j);
      } else if s.jobs[j].succeeded {
        KeptOpen(reg, s, e, j);
      } else {
        KeptFresh(reg, s, e, j);
      }
    }
  }

  lemma {:induction false} KeptRun(reg: Registry, s: State, es: seq<Event>, j: nat)
    requires Inv(reg, s) && Kept(s, j) && Legal(reg, s, es) && !Ever(reg, s, es, UnansweredFor(j))
    ensures Kept(Run(reg, s, es), j)
    decreases |es|
  {
    if es != [] {
      assert !UnansweredFor(j)(s, es[0]);
      KeptStep(reg, s, es[0], j);
      InvStep(reg, s, es[0]);
      KeptRun(reg, Apply(reg, s, es[0]), es[1..], j);
    }
  }

  /** If every status write of a job is answered, and whatever the store does to the others: once it has ended
      it is completed exactly if its handler succeeded. */
  lemma CompletedExactly(reg: Registry, concurrency: nat, es: seq<Event>, j: nat)
    requires Legal(reg, Init(concurrency), es) && !Ever(reg, Init(concurrency), es, UnansweredFor(j))
    requires j in Run(reg, Init(concurrency), es).jobs
    ensures var job := Run(reg, Init(concurrency), es).jobs[j];
            job.outcome.Some? ==> (job.succeeded <==> job.outcome == Some(Completed))
  {
    InvInit(reg, concurrency);
    KeptRun(reg, Init(concurrency), es, j);
    EndingsMean(reg, concurrency, es, j);
  }

  // ----- Going on -----

  /** Steps of the loops and sleepers of a process that goes on: nothing new comes in and nobody stops it. */
  predicate Ordinary(e: Event) { !e.Submit? && !e.Shutdown? && !e.Exit? && !e.Restart? }

  ghost predicate AllOrdinary(es: seq<Event>) { forall i :: 0 <= i < |es| ==> Ordinary(es[i]) }

  /** A way to the next move, in at most three steps. */
  ghost predicate LeadsToMove(reg: Registry, s: State, path: seq<Event>) {
    0 < |path| <= 3 && AllOrdinary(path) && Legal(reg, s, path) && Moves(path[|path| - 1])
  }

  lemma OneStepMoves(reg: Registry, s: State, e: Event)
    requires Enabled(s, e) && Moves(e)
    ensures LeadsToMove(reg, s, [e])
  {
    assert [e][1..] == [] && Legal(reg, s, [e]);
  }

  lemma OpenCanMove(reg: Registry, s: State, j: nat) returns (path: seq<Event>)
    requires Inv(reg, s) && s.running && s.workers != [] && j in s.jobs && s.jobs[j].outcome.None?
    ensures LeadsToMove(reg, s, path)
  {
    if s.sleepers != [] {
      path := [Requeue(0, Done)];
      OneStepMoves(reg, s, Requeue(0, Done));
    } else if s.queue != [] {
      path := Path(s, 0);
      WorkerCanMove(reg, s, 0);
    } else {
      var w := HeldBySomebody(s, j);
      var e := if s.workers[w].Executing? then Finish(w, NotDone) else Report(w, Done);
      path := [e];
      OneStepMoves(reg, s, e);
    }
  }

  lemma HeldBySomebody(s: State, j: nat) returns (w: nat)
    requires Conserved(s) && s.queue == [] && s.sleepers == [] && j in s.jobs && s.jobs[j].outcome.None?
    ensures w < |s.workers| && Carries(s.workers[w])
  {
    assert Sum(s, CopiesOf(j)) == 1;
    if forall i :: 0 <= i < |s.workers| ==> CopiesOf(j).onWorker(s.workers[i]) == 0 {
      TotalAllZero(s.workers, CopiesOf(j).onWorker);
    }
    w :| 0 <= w < |s.workers| && CopiesOf(j).onWorker(s.workers[w]) != 0;
  }

  lemma {:induction false} OrdinaryRun(reg: Registry, s: State, es: seq<Event>)
    requires Legal(reg, s, es) && AllOrdinary(es)
    ensures Run(reg, s, es).running == s.running && |Run(reg, s, es).workers| == |s.workers|
    decreases |es|
  {
    if es != [] {
      assert Ordinary(es[0]);
      OrdinaryRun(reg, Apply(reg, s, es[0]), es[1..]);
    }
  }

  lemma {:induction false} LastMoveCounts(es: seq<Event>)
    requires es != [] && Moves(es[|es| - 1])
    ensures CountMoves(es) > 0
  {
    if |es| > 1 {
      LastMoveCounts(es[1..]);
    }
  }

  lemma {:induction false} RunOn(reg: Registry, s: State, es: seq<Event>, fs: seq<Event>)
    requires Legal(reg, s, es) && Legal(reg, Run(reg, s, es), fs)
    ensures Legal(reg, s, es + fs) && Run(reg, s, es + fs) == Run(reg, Run(reg, s, es), fs)
    decreases |es|
  {
    if es == [] {
      assert [] + fs == fs;
    } else {
      RunOn(reg, Apply(reg, s, es[0]), es[1..], fs);
      assert (es + fs)[1..] == es[1..] + fs;
    }
  }

  /** From a good state with the loops running, ordinary steps alone can end every job. */
  lemma {:induction false} CanFinish(reg: Registry, s: State) returns (es: seq<Event>)
    requires Inv(reg, s) && s.running && s.workers != []
    ensures AllOrdinary(es) && Legal(reg, s, es) && AllEnded(Run(reg, s, es))
    ensures |es| <= 3 * Sum(s, WorkOf(reg))
    decreases Sum(s, WorkOf(reg))
  {
    QuietIffEnded(reg, s);
    if AllEnded(s) {
      es := [];
    } else {
      var j :| j in s.jobs && s.jobs[j].outcome.None?;
      var path := OpenCanMove(reg, s, j);
      var s' := Run(reg, s, path);
      LastMoveCounts(path);
      MovesAreBounded(reg, s, path);
      InvRun(reg, s, path);
      OrdinaryRun(reg, s, path);
      var rest := CanFinish(reg, s');
      RunOn(reg, s, path, rest);
      es := path + rest;
    }
  }

  /** In every run, as long as some job is open and the loops run, a move is at most three steps away, without
      anything new coming in. */
  lemma NeverStuck(reg: Registry, concurrency: nat, es: seq<Event>, j: nat)
    requires Legal(reg, Init(concurrency), es) && concurrency > 0
    requires forall i :: 0 <= i < |es| && es[i].Restart? ==> es[i].concurrency > 0
    ensures var s := Run(reg, Init(concurrency), es);
            s.running && j in s.jobs && s.jobs[j].outcome.None? ==> exists path :: LeadsToMove(reg, s, path)
  {
    InvInit(reg, concurrency);
    InvRun(reg, Init(concurrency), es);
    SomeWorker(reg, Init(concurrency), es);
    var s := Run(reg, Init(concurrency), es);
    if s.running && j in s.jobs && s.jobs[j].outcome.None? {
      var path := OpenCanMove(reg, s, j);
    }
  }

  /** So after every run the process can still end all its jobs, by ordinary steps and within a bound; and it
      comes to rest, with no move in reach, only when they have all ended. */
  lemma EveryJobCanEnd(reg: Registry, concurrency: nat, es: seq<Event>)
    requires Legal(reg, Init(concurrency), es) && concurrency > 0
    requires forall i :: 0 <= i < |es| && es[i].Restart? ==> es[i].concurrency > 0
    requires Run(reg, Init(concurrency), es).running
    ensures var s := Run(reg, Init(concurrency), es);
            && (exists more :: && AllOrdinary(more) && Legal(reg, s, more) && |more| <= 3 * Sum(s, WorkOf(reg))
                               && AllEnded(Run(reg, s, more)))
            && (AllEnded(s) <==> !exists path :: LeadsToMove(reg, s, path))
  {
    InvInit(reg, concurrency);
    InvRun(reg, Init(concurrency), es);
    SomeWorker(reg, Init(concurrency), es);
    var s := Run(reg, Init(concurrency), es);
    var more := CanFinish(reg, s);
    QuietIffEnded(reg, s);
    if AllEnded(s) {
      forall path ensures !LeadsToMove(reg, s, path) {
        if LeadsToMove(reg, s, path) {
          LastMoveCounts(path);
          MovesAreBounded(reg, s, path);
        }
      }
    } else {
      var j :| j in s.jobs && s.jobs[j].outcome.None?;
      var path := OpenCanMove(reg, s, j);
    }
  }

  lemma {:induction false} SomeWorker(reg: Registry, s: State, es: seq<Event>)
    requires Legal(reg, s, es) && s.workers != []
    requires forall i :: 0 <= i < |es| && es[i].Restart? ==> es[i].concurrency > 0
    ensures Run(reg, s, es).workers != []
    decreases |es|
  {
    if es != [] {
      var s' := Apply(reg, s, es[0]);
      assert s'.workers != [] by {
        if es[0].Restart? {
          assert es[0].concurrency > 0;
        }
      }
      SomeWorker(reg, s', es[1..]);
    }
  }

  // ----- Stopping -----

  /** Steps of its own that a loop still takes once the flag is down. */
  function StepsToStop(w: Worker): nat {
    match w
    case Stopped => 0
    case Ready => 1
    case Backoff => 2
    case Reporting(_, v) => if v.Success? || v.NotDone? then 4 else 3
    case Executing(_) => 5
    case Polling => 6
  }

  function ToStop(): Worker -> nat { w => StepsToStop(w) }

  ghost function StopWork(s: State): nat { Total(s.workers, ToStop()) }

  predicate OfLoop(e: Event) { !e.Submit? && !e.Requeue? && !e.Shutdown? && !e.Exit? && !e.Restart? }

  lemma LoopStep(reg: Registry, s: State, e: Event)
    requires !s.running && Enabled(s, e) && OfLoop(e)
    ensures e.w < |s.workers| && StepsToStop(Apply(reg, s, e).workers[e.w]) < StepsToStop(s.workers[e.w])
    ensures Apply(reg, s, e).workers == s.workers[e.w := Apply(reg, s, e).workers[e.w]]
  {
  }

  lemma StopStep(reg: Registry, s: State, e: Event)
    requires !s.running && Enabled(s, e) && !e.Restart?
    ensures !Apply(reg, s, e).running
    ensures StopWork(Apply(reg, s, e)) + (if OfLoop(e) then 1 else 0) <= StopWork(s)
  {
    if OfLoop(e) {
      LoopStep(reg, s, e);
      TotalUpdate(s.workers, e.w, Apply(reg, s, e).workers[e.w], ToStop());
    }
  }

  ghost function LoopSteps(es: seq<Event>): nat {
    if es == [] then 0 else (if OfLoop(es[0]) then 1 else 0) + LoopSteps(es[1..])
  }

  /** After a shutdown the loops take only so many more steps, at most six each, whatever else happens. */
  lemma {:induction false} StepsAfterShutdown(reg: Registry, s: State, es: seq<Event>)
    requires !s.running && Legal(reg, s, es) && forall i :: 0 <= i < |es| ==> !es[i].Restart?
    ensures LoopSteps(es) + StopWork(Run(reg, s, es)) <= StopWork(s) <= 6 * |s.workers|
    decreases |es|
  {
    AtMostSix(s.workers);
    if es != [] {
      StopStep(reg, s, es[0]);
      StepsAfterShutdown(reg, Apply(reg, s, es[0]), es[1..]);
    }
  }

  lemma {:induction false} AtMostSix(ws: seq<Worker>)
    ensures Total(ws, ToStop()) <= 6 * |ws|
  {
    if ws != [] {
      AtMostSix(ws[1..]);
    }
  }

  function LastStep(s: State, w: nat): Event
    requires w < |s.workers|
  {
    match s.workers[w]
    case Polling => PollEmpty(w)
    case Executing(_) => Finish(w, NotDone)
    case Reporting(_, _) => Report(w, Done)
    case Backoff => WakeUp(w)
    case _ => Stop(w)
  }

  /** And until all of them have stopped, each that has not can take its next step. */
  lemma LoopsStop(s: State)
    requires !s.running
    ensures StopWork(s) == 0 <==> forall w :: 0 <= w < |s.workers| ==> s.workers[w].Stopped?
    ensures forall w :: 0 <= w < |s.workers| && !s.workers[w].Stopped? ==>
              OfLoop(LastStep(s, w)) && LastStep(s, w).w == w && Enabled(s, LastStep(s, w))
  {
    if forall w :: 0 <= w < |s.workers| ==> s.workers[w].Stopped? {
      TotalAllZero(s.workers, ToStop());
    }
    forall w | 0 <= w < |s.workers| && !s.workers[w].Stopped? ensures StopWork(s) > 0 {
      TotalAtLeast(s.workers, w, ToStop());
    }
  }

  /** From the moment of a shutdown, and until a new process starts, the flag stays down and the loops take at most
      six steps each. */
  lemma ShutdownEndsTheLoops(reg: Registry, s: State, es: seq<Event>)
    requires Legal(reg, Apply(reg, s, Shutdown), es) && forall i :: 0 <= i < |es| ==> !es[i].Restart?
    ensures !Run(reg, Apply(reg, s, Shutdown), es).running
    ensures LoopSteps(es) <= 6 * |s.workers|
  {
    StepsAfterShutdown(reg, Apply(reg, s, Shutdown), es);
    StaysDown(reg, Apply(reg, s, Shutdown), es);
  }

  lemma {:induction false} StaysDown(reg: Registry, s: State, es: seq<Event>)
    requires !s.running && Legal(reg, s, es) && forall i :: 0 <= i < |es| ==> !es[i].Restart?
    ensures !Run(reg, s, es).running
    decreases |es|
  {
    if es != [] {
      StopStep(reg, s, es[0]);
      StaysDown(reg, Apply(reg, s, es[0]), es[1..]);
    }
  }

  /** When the process closes, nothing sleeps any more: exactly the jobs that slept are dropped. */
  lemma ExitDropsTheSleepers(reg: Registry, s: State, j: nat)
    requires Inv(reg, s) && Enabled(s, Exit) && j in s.jobs
    ensures var s' := Apply(reg, s, Exit);
            && s'.sleepers == [] && s'.queue == s.queue && j in s'.jobs
            && (s'.jobs[j] == if exists k :: 0 <= k < |s.sleepers| && s.sleepers[k].payload.job == j
                              then s.jobs[j].(outcome := Some(DroppedAtShutdown)) else s.jobs[j])
  {
  }
}
