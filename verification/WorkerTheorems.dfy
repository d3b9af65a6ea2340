/** What every run of the worker protocol keeps, and why it winds down. */
module WorkerTheorems {
  import opened Options
  import opened Totals
  import opened TaskQueues
  import opened WorkerProtocol

  // ----- One copy per open job: nobody else carries the job of a given copy -----

  lemma SoleWorker(s: State, w: nat)
    requires Conserved(s) && w < |s.workers| && Carries(s.workers[w])
    ensures var j := JobOf(s.workers[w].msg.task);
            && (forall i :: 0 <= i < |s.queue| ==> JobOf(s.queue[i].task) != j)
            && (forall i :: 0 <= i < |s.sleepers| ==> JobOf(s.sleepers[i]) != j)
            && (forall i :: 0 <= i < |s.workers| && i != w && Carries(s.workers[i]) ==>
               JobOf(s.workers[i].msg.task) != j)
  {
    var j := JobOf(s.workers[w].msg.task);
    var u := CopiesOf(j);
    assert Sum(s, u) <= 1;
    TotalAtLeast(s.workers, w, u.onWorker);
    forall i | 0 <= i < |s.queue| ensures JobOf(s.queue[i].task) != j {
      TotalAtLeast(s.queue, i, u.onMessage);
    }
    forall i | 0 <= i < |s.sleepers| ensures JobOf(s.sleepers[i]) != j {
      TotalAtLeast(s.sleepers, i, u.onTask);
    }
    forall i | 0 <= i < |s.workers| && i != w && Carries(s.workers[i])
      ensures JobOf(s.workers[i].msg.task) != j
    {
      TotalAtLeastTwo(s.workers, i, w, u.onWorker);
    }
  }

  lemma SoleMessage(s: State, q: nat)
    requires Conserved(s) && q < |s.queue|
    ensures var j := JobOf(s.queue[q].task);
            && (forall i :: 0 <= i < |s.queue| && i != q ==> JobOf(s.queue[i].task) != j)
            && (forall i :: 0 <= i < |s.sleepers| ==> JobOf(s.sleepers[i]) != j)
            && (forall i :: 0 <= i < |s.workers| && Carries(s.workers[i]) ==> JobOf(s.workers[i].msg.task) != j)
  {
    var j := JobOf(s.queue[q].task);
    var u := CopiesOf(j);
    assert Sum(s, u) <= 1;
    TotalAtLeast(s.queue, q, u.onMessage);
    forall i | 0 <= i < |s.queue| && i != q ensures JobOf(s.queue[i].task) != j {
      TotalAtLeastTwo(s.queue, i, q, u.onMessage);
    }
    forall i | 0 <= i < |s.sleepers| ensures JobOf(s.sleepers[i]) != j {
      TotalAtLeast(s.sleepers, i, u.onTask);
    }
    forall i | 0 <= i < |s.workers| && Carries(s.workers[i]) ensures JobOf(s.workers[i].msg.task) != j {
      TotalAtLeast(s.workers, i, u.onWorker);
    }
  }

  lemma SoleSleeper(s: State, k: nat)
    requires Conserved(s) && k < |s.sleepers|
    ensures var j := JobOf(s.sleepers[k]);
            && (forall i :: 0 <= i < |s.queue| ==> JobOf(s.queue[i].task) != j)
            && (forall i :: 0 <= i < |s.sleepers| && i != k ==> JobOf(s.sleepers[i]) != j)
            && (forall i :: 0 <= i < |s.workers| && Carries(s.workers[i]) ==> JobOf(s.workers[i].msg.task) != j)
  {
    var j := JobOf(s.sleepers[k]);
    var u := CopiesOf(j);
    assert Sum(s, u) <= 1;
    TotalAtLeast(s.sleepers, k, u.onTask);
    forall i | 0 <= i < |s.queue| ensures JobOf(s.queue[i].task) != j {
      TotalAtLeast(s.queue, i, u.onMessage);
    }
    forall i | 0 <= i < |s.sleepers| && i != k ensures JobOf(s.sleepers[i]) != j {
      TotalAtLeastTwo(s.sleepers, i, k, u.onTask);
    }
    forall i | 0 <= i < |s.workers| && Carries(s.workers[i]) ensures JobOf(s.workers[i].msg.task) != j {
      TotalAtLeast(s.workers, i, u.onWorker);
    }
  }

  // ----- The semaphore and the conservation of copies, event by event -----

  ghost predicate PermitsBalance(s: State) { s.permits + Sum(s, Holders()) == |s.workers| }

  lemma BalanceEffect(s: State, w: nat, m: Message, f: Effect)
    requires PermitsBalance(s) && w < |s.workers| && s.workers[w] .Reporting?
    requires !f.next.Executing? && !f.next.Polling?
    ensures PermitsBalance(ApplyEffect(s, w, m, f))
  {
    SumEffect(s, w, m, f, Holders());
  }

  lemma BalanceTake(reg: Registry, s: State, w: nat)
    requires PermitsBalance(s) && Enabled(s, Take(w))
    ensures PermitsBalance(ApplyTake(reg, s, w))
  {
    SumTake(reg, s, w, Holders());
  }

  lemma BalancePopLost(s: State, w: nat)
    requires PermitsBalance(s) && w < |s.workers| && s.workers[w].Polling? && s.queue != []
    ensures PermitsBalance(ApplyPopLost(s, w))
  {
    SumPopLost(s, w, Holders());
  }

  lemma BalanceFinish(s: State, w: nat, v: Verdict)
    requires PermitsBalance(s) && Enabled(s, Finish(w, v))
    ensures PermitsBalance(ApplyFinish(s, w, v))
  {
    SumFinish(s, w, v, Holders());
  }

  lemma BalanceIdle(reg: Registry, s: State, e: Event)
    requires PermitsBalance(s) && Enabled(s, e) &&
             (e.Acquire? || e.Stop? || e.PollEmpty? || e.WakeUp? || e.Shutdown? || e.Exit?)
    ensures PermitsBalance(Apply(reg, s, e))
  {
    var s' := Apply(reg, s, e);
    if !e.Shutdown? && !e.Exit? {
      SumWithWorker(s, s', e.w, [], Holders());
    }
    TotalAllZero(s.sleepers, Holders().onTask);
  }

  lemma ConservedEffect(s: State, w: nat, m: Message, f: Effect, j: nat)
    requires Sum(s, CopiesOf(j)) == Open(s, j)
    requires w < |s.workers| && s.workers[w].Reporting? && s.workers[w].msg == m
    requires JobOf(m.task) in s.jobs && s.jobs[JobOf(m.task)].outcome.None?
    requires if f.next.Reporting? then f.next.msg == m && !f.retry && f.outcome.None?
             else !f.next.Executing? && (f.retry <==> f.outcome.None?)
    ensures Sum(ApplyEffect(s, w, m, f), CopiesOf(j)) == Open(ApplyEffect(s, w, m, f), j)
  {
    SumEffect(s, w, m, f, CopiesOf(j));
  }

  lemma ConservedTake(reg: Registry, s: State, w: nat, j: nat)
    requires Sum(s, CopiesOf(j)) == Open(s, j) && Enabled(s, Take(w))
    ensures Sum(ApplyTake(reg, s, w), CopiesOf(j)) == Open(ApplyTake(reg, s, w), j)
  {
    SumTake(reg, s, w, CopiesOf(j));
  }

  lemma ConservedPopLost(s: State, w: nat, j: nat)
    requires Sum(s, CopiesOf(j)) == Open(s, j) && w < |s.workers| && s.workers[w].Polling? && s.queue != []
    requires JobOf(s.queue[0].task) in s.jobs && s.jobs[JobOf(s.queue[0].task)].outcome.None?
    ensures Sum(ApplyPopLost(s, w), CopiesOf(j)) == Open(ApplyPopLost(s, w), j)
  {
    SumPopLost(s, w, CopiesOf(j));
  }

  lemma ConservedFinish(s: State, w: nat, v: Verdict, j: nat)
    requires Sum(s, CopiesOf(j)) == Open(s, j) && Enabled(s, Finish(w, v))
    ensures Sum(ApplyFinish(s, w, v), CopiesOf(j)) == Open(ApplyFinish(s, w, v), j)
  {
    SumFinish(s, w, v, CopiesOf(j));
  }

  lemma ConservedSubmit(s: State, name: string, p: Payload, j: nat)
    requires Sum(s, CopiesOf(j)) == Open(s, j) && Enabled(s, Submit(name, p))
    ensures Sum(ApplySubmit(s, name, p), CopiesOf(j)) == Open(ApplySubmit(s, name, p), j)
  {
    SumSubmit(s, name, p, CopiesOf(j));
  }

  lemma ConservedRequeue(s: State, k: nat, luck: Luck, j: nat)
    requires Sum(s, CopiesOf(j)) == Open(s, j) && Enabled(s, Requeue(k, luck))
    requires JobOf(s.sleepers[k]) in s.jobs && s.jobs[JobOf(s.sleepers[k])].outcome.None?
    ensures Sum(ApplyRequeue(s, k, luck), CopiesOf(j)) == Open(ApplyRequeue(s, k, luck), j)
  {
    SumRequeue(s, k, luck, CopiesOf(j));
  }

  lemma ConservedExit(reg: Registry, s: State, j: nat)
    requires Sum(s, CopiesOf(j)) == Open(s, j) && Enabled(s, Exit)
    ensures Sum(Apply(reg, s, Exit), CopiesOf(j)) == Open(Apply(reg, s, Exit), j)
  {
    var u := CopiesOf(j);
    if k :| 0 <= k < |s.sleepers| && JobOf(s.sleepers[k]) == j {
      TotalAtLeast(s.sleepers, k, u.onTask);
    } else {
      TotalAllZero(s.sleepers, u.onTask);
    }
  }

  lemma ConservedIdle(reg: Registry, s: State, e: Event, j: nat)
    requires Sum(s, CopiesOf(j)) == Open(s, j)
    requires Enabled(s, e) && (e.Acquire? || e.Stop? || e.PollEmpty? || e.WakeUp? || e.Shutdown?)
    ensures Sum(Apply(reg, s, e), CopiesOf(j)) == Open(Apply(reg, s, e), j)
  {
    if !e.Shutdown? {
      SumWithWorker(s, Apply(reg, s, e), e.w, [], CopiesOf(j));
    }
  }

  // ----- Every copy knows its place in the numbering -----

  lemma RetryWaits(reg: Registry, jobs: map<nat, Job>, t: Task)
    requires Started(reg, jobs, t) && AttemptOf(t.payload) < MaxAttempts(reg, t.name)
    ensures Waiting(reg, jobs, Retry(t)) && Left(reg, Retry(t)) < Left(reg, t) && JobOf(Retry(t)) == JobOf(t)
  {
  }

  /** What the invariant says of a report's effect. */
  ghost predicate FitEffect(reg: Registry, s: State, w: nat, m: Message, f: Effect) {
    && (if f.next.Reporting? then
          f.next.msg == m && !f.retry && f.outcome.None? && Started(reg, s.jobs, m.task) && !f.next.verdict.NoHandler?
        else !f.next.Executing? && !f.next.Polling? && !f.next.Stopped? && (f.retry <==> f.outcome.None?))
    && (f.retry ==> Waiting(reg, s.jobs, Retry(m.task)))
  }

  lemma EffectFits(reg: Registry, s: State, w: nat, luck: Luck)
    requires w < |s.workers| && s.workers[w].Reporting? && GoodWorker(reg, s.jobs, s.workers[w])
    ensures FitEffect(reg, s, w, s.workers[w].msg, ReportEffect(reg, s.workers[w].msg, s.workers[w].verdict, luck))
  {
    var t := s.workers[w].msg.task;
    if Started(reg, s.jobs, t) && AttemptOf(t.payload) < MaxAttempts(reg, t.name) {
      RetryWaits(reg, s.jobs, t);
    }
  }

  lemma CopiesAfterEffect(reg: Registry, s: State, w: nat, f: Effect)
    requires Conserved(s) && GoodCopies(reg, s) && w < |s.workers| && s.workers[w].Reporting?
    requires FitEffect(reg, s, w, s.workers[w].msg, f)
    ensures GoodCopies(reg, ApplyEffect(s, w, s.workers[w].msg, f))
  {
    SoleWorker(s, w);
    var s' := ApplyEffect(s, w, s.workers[w].msg, f);
    forall i | 0 <= i < |s'.queue| ensures Waiting(reg, s'.jobs, s'.queue[i].task) {
      assert Waiting(reg, s.jobs, s.queue[i].task);
    }
    forall i | 0 <= i < |s'.workers| ensures GoodWorker(reg, s'.jobs, s'.workers[i]) {
      assert GoodWorker(reg, s.jobs, s.workers[i]);
    }
    forall i | 0 <= i < |s'.sleepers| ensures Waiting(reg, s'.jobs, s'.sleepers[i]) {
      if i < |s.sleepers| {
        assert Waiting(reg, s.jobs, s.sleepers[i]);
      }
    }
  }

  lemma CopiesAfterTake(reg: Registry, s: State, w: nat)
    requires Conserved(s) && GoodCopies(reg, s) && Enabled(s, Take(w))
    ensures GoodCopies(reg, ApplyTake(reg, s, w))
  {
    SoleMessage(s, 0);
    assert Waiting(reg, s.jobs, s.queue[0].task);
    var s' := ApplyTake(reg, s, w);
    forall i | 0 <= i < |s'.queue| ensures Waiting(reg, s'.jobs, s'.queue[i].task) {
      assert s'.queue[i] == s.queue[i + 1];
      assert Waiting(reg, s.jobs, s.queue[i + 1].task);
    }
    forall i | 0 <= i < |s'.workers| ensures GoodWorker(reg, s'.jobs, s'.workers[i]) {
      assert GoodWorker(reg, s.jobs, s.workers[i]);
    }
    forall i | 0 <= i < |s'.sleepers| ensures Waiting(reg, s'.jobs, s'.sleepers[i]) {
      assert Waiting(reg, s.jobs, s.sleepers[i]);
    }
  }

  lemma CopiesAfterPopLost(reg: Registry, s: State, w: nat)
    requires Conserved(s) && GoodCopies(reg, s) && w < |s.workers| && s.queue != []
    ensures GoodCopies(reg, ApplyPopLost(s, w))
  {
    SoleMessage(s, 0);
    var s' := ApplyPopLost(s, w);
    forall i | 0 <= i < |s'.queue| ensures Waiting(reg, s'.jobs, s'.queue[i].task) {
      assert s'.queue[i] == s.queue[i + 1];
      assert Waiting(reg, s.jobs, s.queue[i + 1].task);
    }
    forall i | 0 <= i < |s'.workers| ensures GoodWorker(reg, s'.jobs, s'.workers[i]) {
      assert GoodWorker(reg, s.jobs, s.workers[i]);
    }
    forall i | 0 <= i < |s'.sleepers| ensures Waiting(reg, s'.jobs, s'.sleepers[i]) {
      assert Waiting(reg, s.jobs, s.sleepers[i]);
    }
  }

  lemma CopiesAfterRequeue(reg: Registry, s: State, k: nat, luck: Luck)
    requires Conserved(s) && GoodCopies(reg, s) && Enabled(s, Requeue(k, luck))
    ensures GoodCopies(reg, ApplyRequeue(s, k, luck))
  {
    SoleSleeper(s, k);
    assert Waiting(reg, s.jobs, s.sleepers[k]);
    var s' := ApplyRequeue(s, k, luck);
    forall i | 0 <= i < |s'.queue| ensures Waiting(reg, s'.jobs, s'.queue[i].task) {
      if i < |s.queue| { assert Waiting(reg, s.jobs, s.queue[i].task); }
    }
    forall i | 0 <= i < |s'.workers| ensures GoodWorker(reg, s'.jobs, s'.workers[i]) {
      assert GoodWorker(reg, s.jobs, s.workers[i]);
    }
    forall i | 0 <= i < |s'.sleepers| ensures Waiting(reg, s'.jobs, s'.sleepers[i]) {
      var was := if i < k then i else i + 1;
      assert s'.sleepers[i] == s.sleepers[was];
      assert Waiting(reg, s.jobs, s.sleepers[was]);
    }
  }

  /** Noting a success changes nothing that the copies rely on. */
  lemma NotesKeepCopies(reg: Registry, jobs: map<nat, Job>, j: nat, v: Verdict)
    requires j in jobs
    ensures var jobs' := if v.Success? then NoteSuccess(jobs, j) else jobs;
            && (forall t :: Waiting(reg, jobs, t) ==> Waiting(reg, jobs', t))
            && (forall t :: Started(reg, jobs, t) ==> Started(reg, jobs', t))
  {
  }

  lemma CopiesAfterFinish(reg: Registry, s: State, w: nat, v: Verdict)
    requires Conserved(s) && GoodCopies(reg, s) && Enabled(s, Finish(w, v))
    ensures GoodCopies(reg, ApplyFinish(s, w, v))
  {
    assert GoodWorker(reg, s.jobs, s.workers[w]);
    var s' := ApplyFinish(s, w, v);
    NotesKeepCopies(reg, s.jobs, JobOf(s.workers[w].msg.task), v);
    forall i | 0 <= i < |s'.queue| ensures Waiting(reg, s'.jobs, s'.queue[i].task) {
      assert Waiting(reg, s.jobs, s.queue[i].task);
    }
    forall i | 0 <= i < |s'.workers| ensures GoodWorker(reg, s'.jobs, s'.workers[i]) {
      assert GoodWorker(reg, s.jobs, s.workers[i]);
    }
    forall i | 0 <= i < |s'.sleepers| ensures Waiting(reg, s'.jobs, s'.sleepers[i]) {
      assert Waiting(reg, s.jobs, s.sleepers[i]);
    }
  }

  lemma CopiesAfterSubmit(reg: Registry, s: State, name: string, p: Payload)
    requires GoodCopies(reg, s) && Enabled(s, Submit(name, p))
    ensures GoodCopies(reg, ApplySubmit(s, name, p))
  {
    var s' := ApplySubmit(s, name, p);
    forall i | 0 <= i < |s'.queue| ensures Waiting(reg, s'.jobs, s'.queue[i].task) {
      if i < |s.queue| { assert Waiting(reg, s.jobs, s.queue[i].task); }
    }
    forall i | 0 <= i < |s'.workers| ensures GoodWorker(reg, s'.jobs, s'.workers[i]) {
      assert GoodWorker(reg, s.jobs, s.workers[i]);
    }
    forall i | 0 <= i < |s'.sleepers| ensures Waiting(reg, s'.jobs, s'.sleepers[i]) {
      assert Waiting(reg, s.jobs, s.sleepers[i]);
    }
  }

  lemma CopiesAfterExit(reg: Registry, s: State)
    requires Conserved(s) && GoodCopies(reg, s) && Enabled(s, Exit)
    ensures GoodCopies(reg, Apply(reg, s, Exit))
  {
    var s' := Apply(reg, s, Exit);
    forall i | 0 <= i < |s'.queue| ensures Waiting(reg, s'.jobs, s'.queue[i].task) {
      assert Waiting(reg, s.jobs, s.queue[i].task);
      SoleMessage(s, i);
    }
  }

  // ----- The invariant, event by event -----

  lemma InvEffect(reg: Registry, s: State, w: nat, f: Effect)
    requires Inv(reg, s) && w < |s.workers| && s.workers[w].Reporting? && FitEffect(reg, s, w, s.workers[w].msg, f)
    ensures Inv(reg, ApplyEffect(s, w, s.workers[w].msg, f))
  {
    var m := s.workers[w].msg;
    assert GoodWorker(reg, s.jobs, s.workers[w]);
    BalanceEffect(s, w, m, f);
    forall j: nat ensures Sum(ApplyEffect(s, w, m, f), CopiesOf(j)) == Open(ApplyEffect(s, w, m, f), j) {
      ConservedEffect(s, w, m, f, j);
    }
    CopiesAfterEffect(reg, s, w, f);
  }

  lemma InvReport(reg: Registry, s: State, w: nat, luck: Luck)
    requires Inv(reg, s) && Enabled(s, Report(w, luck))
    ensures Inv(reg, ApplyReport(reg, s, w, luck))
  {
    assert GoodWorker(reg, s.jobs, s.workers[w]);
    EffectFits(reg, s, w, luck);
    InvEffect(reg, s, w, ReportEffect(reg, s.workers[w].msg, s.workers[w].verdict, luck));
  }

  lemma InvTake(reg: Registry, s: State, w: nat)
    requires Inv(reg, s) && Enabled(s, Take(w))
    ensures Inv(reg, ApplyTake(reg, s, w))
  {
    BalanceTake(reg, s, w);
    forall j: nat ensures Sum(ApplyTake(reg, s, w), CopiesOf(j)) == Open(ApplyTake(reg, s, w), j) {
      ConservedTake(reg, s, w, j);
    }
    CopiesAfterTake(reg, s, w);
    assert Waiting(reg, s.jobs, s.queue[0].task);
  }

  lemma InvPopLost(reg: Registry, s: State, w: nat)
    requires Inv(reg, s) && Enabled(s, PopLost(w))
    ensures Inv(reg, ApplyPopLost(s, w))
  {
    BalancePopLost(s, w);
    assert Waiting(reg, s.jobs, s.queue[0].task);
    forall j: nat ensures Sum(ApplyPopLost(s, w), CopiesOf(j)) == Open(ApplyPopLost(s, w), j) {
      ConservedPopLost(s, w, j);
    }
    CopiesAfterPopLost(reg, s, w);
  }

  lemma InvFinish(reg: Registry, s: State, w: nat, v: Verdict)
    requires Inv(reg, s) && Enabled(s, Finish(w, v))
    ensures Inv(reg, ApplyFinish(s, w, v))
  {
    BalanceFinish(s, w, v);
    forall j: nat ensures Sum(ApplyFinish(s, w, v), CopiesOf(j)) == Open(ApplyFinish(s, w, v), j) {
      ConservedFinish(s, w, v, j);
    }
    CopiesAfterFinish(reg, s, w, v);
  }

  lemma InvSubmit(reg: Registry, s: State, name: string, p: Payload)
    requires Inv(reg, s) && Enabled(s, Submit(name, p))
    ensures Inv(reg, ApplySubmit(s, name, p))
  {
    SumSubmit(s, name, p, Holders());
    forall j: nat ensures Sum(ApplySubmit(s, name, p), CopiesOf(j)) == Open(ApplySubmit(s, name, p), j) {
      ConservedSubmit(s, name, p, j);
    }
    CopiesAfterSubmit(reg, s, name, p);
  }

  lemma InvRequeue(reg: Registry, s: State, k: nat, luck: Luck)
    requires Inv(reg, s) && Enabled(s, Requeue(k, luck))
    ensures Inv(reg, ApplyRequeue(s, k, luck))
  {
    SumRequeue(s, k, luck, Holders());
    assert Waiting(reg, s.jobs, s.sleepers[k]);
    forall j: nat ensures Sum(ApplyRequeue(s, k, luck), CopiesOf(j)) == Open(ApplyRequeue(s, k, luck), j) {
      ConservedRequeue(s, k, luck, j);
    }
    CopiesAfterRequeue(reg, s, k, luck);
  }

  lemma InvExit(reg: Registry, s: State)
    requires Inv(reg, s) && Enabled(s, Exit)
    ensures Inv(reg, Apply(reg, s, Exit))
  {
    BalanceIdle(reg, s, Exit);
    forall j: nat ensures Sum(Apply(reg, s, Exit), CopiesOf(j)) == Open(Apply(reg, s, Exit), j) {
      ConservedExit(reg, s, j);
    }
    CopiesAfterExit(reg, s);
  }

  /** Messages left in the list survive the process: the next one starts in a good state. */
  lemma InvRestart(reg: Registry, s: State, n: nat)
    requires Inv(reg, s) && Enabled(s, Restart(n))
    ensures Inv(reg, Apply(reg, s, Restart(n)))
    ensures forall u: Weights :: (forall w :: !Carries(w) ==> u.onWorker(w) == 0) ==>
              Sum(Apply(reg, s, Restart(n)), u) == Sum(s, u)
  {
    var s' := Apply(reg, s, Restart(n));
    forall u: Weights | forall w :: !Carries(w) ==> u.onWorker(w) == 0
      ensures Sum(s', u) == Sum(s, u)
    {
      TotalAllZero(s.workers, u.onWorker);
      TotalAllZero(s'.workers, u.onWorker);
    }
    TotalAllZero(s.workers, Holders().onWorker);
    TotalAllZero(s'.workers, Holders().onWorker);
    TotalAllZero(s.queue, Holders().onMessage);
    forall j: nat ensures Sum(s', CopiesOf(j)) == Open(s', j) {
      assert Sum(s, CopiesOf(j)) == Open(s, j);
    }
  }

  lemma InvIdle(reg: Registry, s: State, e: Event)
    requires Inv(reg, s)
    requires Enabled(s, e) && (e.Acquire? || e.Stop? || e.PollEmpty? || e.WakeUp? || e.Shutdown?)
    ensures Inv(reg, Apply(reg, s, e))
  {
    BalanceIdle(reg, s, e);
    forall j: nat ensures Sum(Apply(reg, s, e), CopiesOf(j)) == Open(Apply(reg, s, e), j) {
      ConservedIdle(reg, s, e, j);
    }
  }

  lemma InvStep(reg: Registry, s: State, e: Event)
    requires Inv(reg, s) && Enabled(s, e)
    ensures Inv(reg, Apply(reg, s, e))
  {
    match e
    case Submit(name, p) => InvSubmit(reg, s, name, p);
    case PopLost(w) => InvPopLost(reg, s, w);
    case Take(w) => InvTake(reg, s, w);
    case Finish(w, v) => InvFinish(reg, s, w, v);
    case Report(w, luck) => InvReport(reg, s, w, luck);
    case Requeue(k, luck) => InvRequeue(reg, s, k, luck);
    case Exit => InvExit(reg, s);
    case Restart(n) => InvRestart(reg, s, n);
    case _ => InvIdle(reg, s, e);
  }

  lemma InvFresh(reg: Registry, s: State)
    requires s.queue == [] && s.sleepers == [] && s.jobs == map[] && s.permits == |s.workers|
    requires forall i :: 0 <= i < |s.workers| ==> s.workers[i].Ready?
    ensures Inv(reg, s)
  {
    NothingToSum(s, Holders());
    forall j: nat ensures Sum(s, CopiesOf(j)) == Open(s, j) {
      NothingToSum(s, CopiesOf(j));
    }
  }

  lemma InvInit(reg: Registry, concurrency: nat)
    ensures Inv(reg, Init(concurrency))
  {
    InvFresh(reg, Init(concurrency));
  }

  lemma NothingToSum(s: State, u: Weights)
    requires s.queue == [] && s.sleepers == [] && forall i :: 0 <= i < |s.workers| ==> u.onWorker(s.workers[i]) == 0
    ensures Sum(s, u) == 0
  {
    TotalAllZero(s.workers, u.onWorker);
  }

  lemma {:induction false} InvRun(reg: Registry, s: State, es: seq<Event>)
    requires Inv(reg, s) && Legal(reg, s, es)
    ensures Inv(reg, Run(reg, s, es))
    decreases |es|
  {
    if es != [] {
      InvStep(reg, s, es[0]);
      InvRun(reg, Apply(reg, s, es[0]), es[1..]);
    }
  }

  // ----- Main results over all runs -----

  /** Conservation: in every reachable state a submitted job is either settled or has exactly one
      live copy (queued, carried by a worker, or asleep), and nothing else has a copy. */
  lemma OneLiveCopy(reg: Registry, concurrency: nat, es: seq<Event>, j: nat)
    requires Legal(reg, Init(concurrency), es)
    ensures var s := Run(reg, Init(concurrency), es);
            Sum(s, CopiesOf(j)) == if j in s.jobs && s.jobs[j].outcome.None? then 1 else 0
  {
    InvInit(reg, concurrency);
    InvRun(reg, Init(concurrency), es);
  }

  /** What a submission fixes of its job for good. */
  ghost predicate Records(jobs: map<nat, Job>, name: string, p: Payload) {
    p.job in jobs && jobs[p.job].name == name && jobs[p.job].first == AttemptOf(p)
  }

  lemma RecordsStep(reg: Registry, s: State, e: Event, name: string, p: Payload)
    requires Records(s.jobs, name, p) && Enabled(s, e)
    ensures Records(Apply(reg, s, e).jobs, name, p)
  {
  }

  lemma {:induction false} RecordsRun(reg: Registry, s: State, es: seq<Event>, name: string, p: Payload)
    requires Legal(reg, s, es) && (Records(s.jobs, name, p) || Submit(name, p) in es)
    ensures Records(Run(reg, s, es).jobs, name, p)
    decreases |es|
  {
    if es != [] {
      var s' := Apply(reg, s, es[0]);
      if Records(s.jobs, name, p) {
        RecordsStep(reg, s, es[0], name, p);
      } else {
        assert es[0] == Submit(name, p) || Submit(name, p) in es[1..];
      }
      RecordsRun(reg, s', es[1..], name, p);
    }
  }

  lemma {:induction false} CountsUp(job: Job, i: nat)
    requires Numbered(job) && job.first >= 1 && i < |job.runs|
    ensures job.runs[i] == job.first + i
  {
    if i > 0 {
      CountsUp(job, i - 1);
    }
  }

  /** The payload asks for attempt number `a`: a missing number and 0 ask for the first. */
  predicate AsksFor(p: Payload, a: int) {
    a >= 1 && (p.attempt == Some(a) || (a == 1 && (p.attempt == None || p.attempt == Some(0))))
  }

  /** A job submitted without an attempt number is handled at most max(1, max_attempts) times, and its calls are
      numbered 1, 2, 3, ...; one submitted with attempt number a goes on from there. */
  lemma BoundedRuns(reg: Registry, concurrency: nat, es: seq<Event>, name: string, p: Payload, a: int)
    requires Legal(reg, Init(concurrency), es) && Submit(name, p) in es && AsksFor(p, a)
    ensures var jobs := Run(reg, Init(concurrency), es).jobs;
            && p.job in jobs && jobs[p.job].name == name
            && var runs := jobs[p.job].runs;
            && (forall i :: 0 <= i < |runs| ==> runs[i] == a + i)
            && |runs| <= (if name in reg && reg[name] >= a then reg[name] - a + 1 else 1)
  {
    InvInit(reg, concurrency);
    InvRun(reg, Init(concurrency), es);
    RecordsRun(reg, Init(concurrency), es, name, p);
    var job := Run(reg, Init(concurrency), es).jobs[p.job];
    forall i | 0 <= i < |job.runs| ensures job.runs[i] == a + i {
      CountsUp(job, i);
    }
  }

  /** No loop ever waits for the semaphore: a worker outside it always finds a free permit. */
  lemma NeverBlocked(reg: Registry, concurrency: nat, es: seq<Event>, w: nat)
    requires Legal(reg, Init(concurrency), es)
    ensures var s := Run(reg, Init(concurrency), es);
            w < |s.workers| && s.workers[w].Ready? ==> 0 < s.permits <= |s.workers|
  {
    InvInit(reg, concurrency);
    InvRun(reg, Init(concurrency), es);
    var s := Run(reg, Init(concurrency), es);
    if w < |s.workers| && s.workers[w].Ready? {
      SomePermit(s, w);
    }
  }

  lemma {:induction false} AtMostOneEach(ws: seq<Worker>)
    ensures Total(ws, Holders().onWorker) <= |ws|
  {
    if ws != [] {
      AtMostOneEach(ws[1..]);
    }
  }

  lemma SomePermit(s: State, w: nat)
    requires PermitsBalance(s) && w < |s.workers| && (s.workers[w].Ready? || s.workers[w].Backoff?)
    ensures 0 < s.permits <= |s.workers|
  {
    TotalRemove(s.workers, w, Holders().onWorker);
    AtMostOneEach(s.workers[..w] + s.workers[w + 1..]);
    TotalAllZero(s.queue, Holders().onMessage);
    TotalAllZero(s.sleepers, Holders().onTask);
  }

  lemma OthersKept(s: State, w: nat, m: Message, f: Effect, j: nat)
    requires w < |s.workers| && j in s.jobs && JobOf(m.task) in s.jobs && JobOf(m.task) != j
    ensures var s' := ApplyEffect(s, w, m, f); j in s'.jobs && s'.jobs[j] == s.jobs[j]
  {
  }

  lemma SettledAtPop(reg: Registry, s: State, e: Event, j: nat)
    requires Inv(reg, s) && Enabled(s, e) && (e.PopLost? || e.Take?) && j in s.jobs && s.jobs[j].outcome.Some?
    ensures j in Apply(reg, s, e).jobs && Apply(reg, s, e).jobs[j] == s.jobs[j]
  {
    assert Waiting(reg, s.jobs, s.queue[0].task);
  }

  lemma SettledAtWorker(reg: Registry, s: State, e: Event, j: nat)
    requires Inv(reg, s) && Enabled(s, e) && (e.Finish? || e.Report?) && j in s.jobs && s.jobs[j].outcome.Some?
    ensures j in Apply(reg, s, e).jobs && Apply(reg, s, e).jobs[j] == s.jobs[j]
  {
    var x := s.workers[e.w];
    assert GoodWorker(reg, s.jobs, x);
    if e.Report? {
      OthersKept(s, e.w, x.msg, ReportEffect(reg, x.msg, x.verdict, e.luck), j);
    }
  }

  lemma SettledAtSleeper(reg: Registry, s: State, e: Event, j: nat)
    requires Inv(reg, s) && Enabled(s, e) && (e.Requeue? || e.Exit?) && j in s.jobs && s.jobs[j].outcome.Some?
    ensures j in Apply(reg, s, e).jobs && Apply(reg, s, e).jobs[j] == s.jobs[j]
  {
    forall k | 0 <= k < |s.sleepers| ensures JobOf(s.sleepers[k]) != j {
      assert Waiting(reg, s.jobs, s.sleepers[k]);
    }
  }

  lemma SettledStep(reg: Registry, s: State, e: Event, j: nat)
    requires Inv(reg, s) && Enabled(s, e) && j in s.jobs && s.jobs[j].outcome.Some?
    ensures j in Apply(reg, s, e).jobs && Apply(reg, s, e).jobs[j] == s.jobs[j]
  {
    if e.PopLost? || e.Take? {
      SettledAtPop(reg, s, e, j);
    } else if e.Finish? || e.Report? {
      SettledAtWorker(reg, s, e, j);
    } else if e.Requeue? || e.Exit? {
      SettledAtSleeper(reg, s, e, j);
    }
  }

  /** A job ends once: its outcome and its handler calls never change afterwards. */
  lemma {:induction false} SettledForGood(reg: Registry, s: State, es: seq<Event>, j: nat)
    requires Inv(reg, s) && Legal(reg, s, es) && j in s.jobs && s.jobs[j].outcome.Some?
    ensures j in Run(reg, s, es).jobs && Run(reg, s, es).jobs[j] == s.jobs[j]
    decreases |es|
  {
    if es != [] {
      SettledStep(reg, s, es[0], j);
      InvStep(reg, s, es[0]);
      SettledForGood(reg, Apply(reg, s, es[0]), es[1..], j);
    }
  }

  /** The status of a task changes when a report on it is carried out, answered or not: it then tells whether the
      handler succeeded. Nothing else touches it. */
  lemma StatusTells(reg: Registry, s: State, e: Event)
    requires Enabled(s, e)
    ensures Apply(reg, s, e).status ==
              if e.Report? && !e.luck.Refused? then
                var w := s.workers[e.w];
                s.status[w.msg.taskId := if w.verdict.Success? then StatusCompleted else StatusFailed]
              else s.status
  {
  }

  /** Where a report leaves the loop: an unanswered write inside the handler's `try` is one more failure to report,
      one outside it makes the loop wait, and otherwise it goes on. Only then is the permit given back. */
  lemma WhereTheLoopGoes(reg: Registry, s: State, w: nat, luck: Luck)
    requires Enabled(s, Report(w, luck))
    ensures var s', m, inside := ApplyReport(reg, s, w, luck), s.workers[w].msg,
                                 s.workers[w].verdict.Success? || s.workers[w].verdict.NotDone?;
            && s'.workers == s.workers[w := if luck.Done? then Ready
                                            else if inside then Reporting(m, Raised) else Backoff]
            && s'.permits == (if !luck.Done? && inside then s.permits else s.permits + 1)
            && s'.queue == s.queue && s'.running == s.running
  {
  }

  // ----- Winding down -----

  /** Steps that move a copy, as opposed to polling, waking and stopping. */
  predicate Moves(e: Event) {
    e.PopLost? || e.Take? || e.Finish? || e.Report? || e.Requeue?
  }

  /** What a report leaves to do for its copy is less than what there was. */
  lemma ReportLowers(reg: Registry, jobs: map<nat, Job>, m: Message, v: Verdict, luck: Luck)
    requires GoodWorker(reg, jobs, Reporting(m, v))
    ensures var f, u := ReportEffect(reg, m, v, luck), WorkOf(reg);
            u.onWorker(f.next) + (if f.retry then u.onTask(Retry(m.task)) else 0) < u.onWorker(Reporting(m, v))
  {
    if Started(reg, jobs, m.task) && AttemptOf(m.task.payload) < MaxAttempts(reg, m.task.name) {
      RetryWaits(reg, jobs, m.task);
    }
  }

  lemma WorkAfterReport(reg: Registry, s: State, w: nat, luck: Luck)
    requires Inv(reg, s) && Enabled(s, Report(w, luck))
    ensures Sum(ApplyReport(reg, s, w, luck), WorkOf(reg)) < Sum(s, WorkOf(reg))
  {
    var m, v := s.workers[w].msg, s.workers[w].verdict;
    assert GoodWorker(reg, s.jobs, s.workers[w]);
    ReportLowers(reg, s.jobs, m, v, luck);
    SumEffect(s, w, m, ReportEffect(reg, m, v, luck), WorkOf(reg));
  }

  lemma WorkAfterIdle(reg: Registry, s: State, e: Event)
    requires Enabled(s, e) && (e.Acquire? || e.Stop? || e.PollEmpty? || e.WakeUp?)
    ensures Sum(Apply(reg, s, e), WorkOf(reg)) == Sum(s, WorkOf(reg))
  {
    SumWithWorker(s, Apply(reg, s, e), e.w, [], WorkOf(reg));
  }

  lemma WorkAfterFinish(reg: Registry, s: State, w: nat, v: Verdict)
    requires Enabled(s, Finish(w, v))
    ensures Sum(ApplyFinish(s, w, v), WorkOf(reg)) < Sum(s, WorkOf(reg))
  {
    SumFinish(s, w, v, WorkOf(reg));
  }

  lemma WorkAfterTake(reg: Registry, s: State, w: nat)
    requires Enabled(s, Take(w))
    ensures Sum(ApplyTake(reg, s, w), WorkOf(reg)) < Sum(s, WorkOf(reg))
  {
    SumTake(reg, s, w, WorkOf(reg));
  }

  lemma WorkAfterLossOrRequeue(reg: Registry, s: State, e: Event)
    requires Enabled(s, e) && (e.PopLost? || e.Requeue?)
    ensures Sum(Apply(reg, s, e), WorkOf(reg)) < Sum(s, WorkOf(reg))
  {
    match e
    case PopLost(w) => SumPopLost(s, w, WorkOf(reg));
    case Requeue(k, luck) => SumRequeue(s, k, luck, WorkOf(reg));
    case _ =>
  }

  lemma WorkAfterStop(reg: Registry, s: State, e: Event)
    requires Inv(reg, s) && Enabled(s, e) && (e.Exit? || e.Shutdown? || e.Restart?)
    ensures Sum(Apply(reg, s, e), WorkOf(reg)) <= Sum(s, WorkOf(reg))
  {
    if e.Restart? {
      InvRestart(reg, s, e.concurrency);
    }
  }

  /** Every move strictly lowers the remaining work, and no other step but a submission raises it. */
  lemma WorkFalls(reg: Registry, s: State, e: Event)
    requires Inv(reg, s) && Enabled(s, e) && !e.Submit?
    ensures var s' := Apply(reg, s, e);
            && Sum(s', WorkOf(reg)) <= Sum(s, WorkOf(reg))
            && (Moves(e) ==> Sum(s', WorkOf(reg)) < Sum(s, WorkOf(reg)))
  {
    if e.PopLost? || e.Requeue? {
      WorkAfterLossOrRequeue(reg, s, e);
    } else if e.Take? {
      WorkAfterTake(reg, s, e.w);
    } else if e.Finish? {
      WorkAfterFinish(reg, s, e.w, e.verdict);
    } else if e.Report? {
      WorkAfterReport(reg, s, e.w, e.luck);
    } else if e.Exit? || e.Shutdown? || e.Restart? {
      WorkAfterStop(reg, s, e);
    } else {
      WorkAfterIdle(reg, s, e);
    }
  }

  ghost function CountMoves(es: seq<Event>): nat {
    if es == [] then 0 else (if Moves(es[0]) then 1 else 0) + CountMoves(es[1..])
  }

  /** Without new submissions only so many moves are possible, whatever the interleaving. */
  lemma {:induction false} MovesAreBounded(reg: Registry, s: State, es: seq<Event>)
    requires Inv(reg, s) && Legal(reg, s, es)
    requires forall i :: 0 <= i < |es| ==> !es[i].Submit?
    ensures CountMoves(es) + Sum(Run(reg, s, es), WorkOf(reg)) <= Sum(s, WorkOf(reg))
    decreases |es|
  {
    if es != [] {
      WorkFalls(reg, s, es[0]);
      InvStep(reg, s, es[0]);
      MovesAreBounded(reg, Apply(reg, s, es[0]), es[1..]);
    }
  }

  ghost predicate AllEnded(s: State) { forall j :: j in s.jobs ==> s.jobs[j].outcome.Some? }

  lemma QuietIffEnded(reg: Registry, s: State)
    requires Inv(reg, s)
    ensures Sum(s, WorkOf(reg)) == 0 <==> AllEnded(s)
  {
    if Sum(s, WorkOf(reg)) == 0 {
      forall j | j in s.jobs ensures s.jobs[j].outcome.Some? {
        assert Sum(s, CopiesOf(j)) == Open(s, j);
        NoWorkNoCopy(reg, s, j);
      }
    } else {
      var j := WorkHasCopy(reg, s);
      assert Sum(s, CopiesOf(j)) == Open(s, j);
    }
  }

  /** No work left means every job is settled, and the other way round. */
  lemma QuietIffSettled(reg: Registry, concurrency: nat, es: seq<Event>)
    requires Legal(reg, Init(concurrency), es)
    ensures var s := Run(reg, Init(concurrency), es); Sum(s, WorkOf(reg)) == 0 <==> AllEnded(s)
  {
    InvInit(reg, concurrency);
    InvRun(reg, Init(concurrency), es);
    QuietIffEnded(reg, Run(reg, Init(concurrency), es));
  }

  lemma NoWorkNoCopy(reg: Registry, s: State, j: nat)
    requires Sum(s, WorkOf(reg)) == 0
    ensures Sum(s, CopiesOf(j)) == 0
  {
    var u := WorkOf(reg);
    assert s.queue == [] && s.sleepers == [];
    forall i | 0 <= i < |s.workers| ensures CopiesOf(j).onWorker(s.workers[i]) == 0 {
      TotalAtLeast(s.workers, i, u.onWorker);
    }
    TotalAllZero(s.workers, CopiesOf(j).onWorker);
  }

  lemma WorkHasCopy(reg: Registry, s: State) returns (j: nat)
    requires Sum(s, WorkOf(reg)) > 0
    ensures Sum(s, CopiesOf(j)) > 0
  {
    if s.queue != [] {
      j := JobOf(s.queue[0].task);
      TotalAtLeast(s.queue, 0, CopiesOf(j).onMessage);
    } else if s.sleepers != [] {
      j := JobOf(s.sleepers[0]);
      TotalAtLeast(s.sleepers, 0, CopiesOf(j).onTask);
    } else {
      if forall i :: 0 <= i < |s.workers| ==> !Carries(s.workers[i]) {
        TotalAllZero(s.workers, WorkOf(reg).onWorker);
      }
      var w :| 0 <= w < |s.workers| && Carries(s.workers[w]);
      j := JobOf(s.workers[w].msg.task);
      TotalAtLeast(s.workers, w, CopiesOf(j).onWorker);
    }
  }

  /** The steps worker w takes to reach its next move. */
  function Path(s: State, w: nat): seq<Event>
    requires w < |s.workers|
  {
    match s.workers[w]
    case Ready => [Acquire(w), Take(w)]
    case Polling => [Take(w)]
    case Executing(_) => [Finish(w, NotDone)]
    case Reporting(_, _) => [Report(w, Done)]
    case Backoff => [WakeUp(w), Acquire(w), Take(w)]
    case Stopped => []
  }

  lemma PollerCanMove(reg: Registry, s: State, w: nat)
    requires w < |s.workers| && s.workers[w].Polling? && s.queue != []
    ensures Legal(reg, s, [Take(w)])
  {
    assert Enabled(s, Take(w));
  }

  lemma ReadyCanMove(reg: Registry, s: State, w: nat)
    requires s.running && s.queue != [] && w < |s.workers| && s.workers[w].Ready? && s.permits > 0
    ensures Legal(reg, s, [Acquire(w), Take(w)])
  {
    var s1 := Apply(reg, s, Acquire(w));
    PollerCanMove(reg, s1, w);
    assert [Acquire(w), Take(w)][1..] == [Take(w)];
  }

  lemma BackedOffCanMove(reg: Registry, s: State, w: nat)
    requires s.running && s.queue != [] && w < |s.workers| && s.workers[w].Backoff? && s.permits > 0
    ensures Legal(reg, s, [WakeUp(w), Acquire(w), Take(w)])
  {
    var s1 := Apply(reg, s, WakeUp(w));
    ReadyCanMove(reg, s1, w);
    assert [WakeUp(w), Acquire(w), Take(w)][1..] == [Acquire(w), Take(w)];
  }

  /** While the loops run and a message waits, every worker is at most three of its own steps away
      from moving a copy: nothing is ever stuck. */
  lemma EveryWorkerCanMove(reg: Registry, concurrency: nat, es: seq<Event>, w: nat)
    requires Legal(reg, Init(concurrency), es)
    requires var s := Run(reg, Init(concurrency), es); s.running && s.queue != [] && w < |s.workers|
    ensures var s := Run(reg, Init(concurrency), es);
            var path := Path(s, w);
            0 < |path| <= 3 && Moves(path[|path| - 1]) && Legal(reg, s, path)
  {
    InvInit(reg, concurrency);
    InvRun(reg, Init(concurrency), es);
    WorkerCanMove(reg, Run(reg, Init(concurrency), es), w);
  }

  lemma WorkerCanMove(reg: Registry, s: State, w: nat)
    requires Inv(reg, s) && s.running && s.queue != [] && w < |s.workers|
    ensures var path := Path(s, w);
            0 < |path| <= 3 && Moves(path[|path| - 1]) && Legal(reg, s, path)
  {
    match s.workers[w]
    case Ready =>
      SomePermit(s, w);
      ReadyCanMove(reg, s, w);
    case Backoff =>
      SomePermit(s, w);
      BackedOffCanMove(reg, s, w);
    case Polling => PollerCanMove(reg, s, w);
    case Executing(_) => assert Enabled(s, Finish(w, NotDone));
    case Reporting(_, _) => assert Enabled(s, Report(w, Done));
    case Stopped =>
  }

  // ----- Success is final unless a status write fails -----

  /** Whether some event of a run is of a kind, in the state in which it happens. */
  ghost predicate Ever(reg: Registry, s: State, es: seq<Event>, hits: (State, Event) -> bool)
    requires Legal(reg, s, es)
    decreases |es|
  {
    es != [] && (hits(s, es[0]) || Ever(reg, Apply(reg, s, es[0]), es[1..], hits))
  }

  /** A status write of job j that is not answered. */
  predicate Unanswered(s: State, e: Event, j: nat) {
    && e.Report? && !e.luck.Done?
    && e.w < |s.workers| && s.workers[e.w].Reporting? && JobOf(s.workers[e.w].msg.task) == j
  }

  function UnansweredFor(j: nat): (State, Event) -> bool { (s: State, e: Event) => Unanswered(s, e, j) }

  ghost predicate Succeeding(s: State, w: nat, j: nat) {
    w < |s.workers| && s.workers[w].Reporting? && s.workers[w].verdict.Success? && JobOf(s.workers[w].msg.task) == j
  }

  /** Job j succeeded, and if it is not settled yet then some worker is about to write that down. */
  ghost predicate SuccessHeld(s: State, j: nat) {
    && j in s.jobs && s.jobs[j].succeeded
    && (s.jobs[j].outcome.None? ==> exists w: nat :: Succeeding(s, w, j))
  }

  lemma SuccessAfterReport(reg: Registry, s: State, w: nat, luck: Luck, j: nat)
    requires Inv(reg, s) && Enabled(s, Report(w, luck)) && SuccessHeld(s, j) && !Unanswered(s, Report(w, luck), j)
    ensures SuccessHeld(ApplyReport(reg, s, w, luck), j)
    ensures ApplyReport(reg, s, w, luck).jobs[j].runs == s.jobs[j].runs
  {
    assert GoodWorker(reg, s.jobs, s.workers[w]);
    var m := s.workers[w].msg;
    if JobOf(m.task) != j {
      OthersKept(s, w, m, ReportEffect(reg, m, s.workers[w].verdict, luck), j);
    }
    if s.jobs[j].outcome.None? {
      var x: nat :| Succeeding(s, x, j);
      SoleWorker(s, x);
      if x != w {
        assert Succeeding(ApplyReport(reg, s, w, luck), x, j);
      }
    }
  }

  lemma SuccessAfterPop(reg: Registry, s: State, e: Event, j: nat)
    requires Inv(reg, s) && Enabled(s, e) && (e.PopLost? || e.Take?) && SuccessHeld(s, j)
    ensures SuccessHeld(Apply(reg, s, e), j)
    ensures Apply(reg, s, e).jobs[j].runs == s.jobs[j].runs
  {
    assert Waiting(reg, s.jobs, s.queue[0].task);
    if s.jobs[j].outcome.None? {
      var x: nat :| Succeeding(s, x, j);
      SoleWorker(s, x);
      assert Succeeding(Apply(reg, s, e), x, j);
    }
  }

  lemma SuccessAfterFinish(reg: Registry, s: State, w: nat, v: Verdict, j: nat)
    requires Inv(reg, s) && Enabled(s, Finish(w, v)) && SuccessHeld(s, j)
    ensures SuccessHeld(ApplyFinish(s, w, v), j)
    ensures ApplyFinish(s, w, v).jobs[j].runs == s.jobs[j].runs
  {
    assert GoodWorker(reg, s.jobs, s.workers[w]);
    if s.jobs[j].outcome.None? {
      var x: nat :| Succeeding(s, x, j);
      assert Succeeding(ApplyFinish(s, w, v), x, j);
    }
  }

  lemma SuccessAfterRequeue(reg: Registry, s: State, e: Event, j: nat)
    requires Inv(reg, s) && Enabled(s, e) && e.Requeue? && SuccessHeld(s, j)
    ensures SuccessHeld(Apply(reg, s, e), j)
    ensures Apply(reg, s, e).jobs[j].runs == s.jobs[j].runs
  {
    assert Waiting(reg, s.jobs, s.sleepers[e.k]);
    if s.jobs[j].outcome.None? {
      var x: nat :| Succeeding(s, x, j);
      SoleWorker(s, x);
      assert Succeeding(Apply(reg, s, e), x, j);
    }
  }

  lemma SuccessAfterOther(reg: Registry, s: State, e: Event, j: nat)
    requires Inv(reg, s) && Enabled(s, e) && SuccessHeld(s, j)
    requires e.Submit? || e.Acquire? || e.PollEmpty? || e.Stop? || e.WakeUp? || e.Shutdown?
    ensures SuccessHeld(Apply(reg, s, e), j)
    ensures Apply(reg, s, e).jobs[j].runs == s.jobs[j].runs
  {
    if s.jobs[j].outcome.None? {
      var x: nat :| Succeeding(s, x, j);
      assert Succeeding(Apply(reg, s, e), x, j);
    }
  }

  lemma SuccessStep(reg: Registry, s: State, e: Event, j: nat)
    requires Inv(reg, s) && Enabled(s, e) && !Unanswered(s, e, j) && SuccessHeld(s, j)
    ensures SuccessHeld(Apply(reg, s, e), j)
    ensures Apply(reg, s, e).jobs[j].runs == s.jobs[j].runs
  {
    match e
    case Report(w, luck) => SuccessAfterReport(reg, s, w, luck, j);
    case PopLost(_) => SuccessAfterPop(reg, s, e, j);
    case Take(_) => SuccessAfterPop(reg, s, e, j);
    case Finish(w, v) => SuccessAfterFinish(reg, s, w, v, j);
    case Requeue(_, _) => SuccessAfterRequeue(reg, s, e, j);
    case Exit =>
    case Restart(_) =>
    case _ => SuccessAfterOther(reg, s, e, j);
  }

  lemma {:induction false} SuccessKept(reg: Registry, s: State, es: seq<Event>, j: nat)
    requires Inv(reg, s) && SuccessHeld(s, j) && Legal(reg, s, es) && !Ever(reg, s, es, UnansweredFor(j))
    ensures j in Run(reg, s, es).jobs && Run(reg, s, es).jobs[j].runs == s.jobs[j].runs
    decreases |es|
  {
    if es != [] {
      assert !UnansweredFor(j)(s, es[0]);
      SuccessStep(reg, s, es[0], j);
      InvStep(reg, s, es[0]);
      SuccessKept(reg, Apply(reg, s, es[0]), es[1..], j);
    }
  }

  /** A job whose handler has just succeeded is never handled again, unless a status write of that job is not
      answered; whatever happens to the other jobs. */
  lemma SuccessIsFinal(reg: Registry, s: State, w: nat, es: seq<Event>)
    requires Inv(reg, s) && Enabled(s, Finish(w, Success))
    requires Legal(reg, Apply(reg, s, Finish(w, Success)), es)
    requires !Ever(reg, Apply(reg, s, Finish(w, Success)), es, UnansweredFor(JobOf(s.workers[w].msg.task)))
    ensures var j := JobOf(s.workers[w].msg.task);
            var last := Run(reg, Apply(reg, s, Finish(w, Success)), es);
            j in s.jobs && j in last.jobs && last.jobs[j].runs == s.jobs[j].runs
  {
    var s1, j := Apply(reg, s, Finish(w, Success)), JobOf(s.workers[w].msg.task);
    assert GoodWorker(reg, s.jobs, s.workers[w]);
    InvFinish(reg, s, w, Success);
    assert Succeeding(s1, w, j);
    SuccessKept(reg, s1, es, j);
  }

  /** And the condition is needed: whenever a success cannot be written down and attempts are left,
      the job goes to sleep for one more handler call. */
  lemma UnwrittenSuccessRunsAgain(reg: Registry, s: State, w: nat, luck: Luck)
    requires !luck.Done? && Inv(reg, s) && w < |s.workers| && s.workers[w].Reporting? && s.workers[w].verdict.Success?
    ensures var t := s.workers[w].msg.task;
            var s2 := Apply(reg, Apply(reg, s, Report(w, luck)), Report(w, Done));
            && (AttemptOf(t.payload) < MaxAttempts(reg, t.name) ==>
                  s2.sleepers == s.sleepers + [Retry(t)] && s2.jobs == s.jobs)
            && (AttemptOf(t.payload) >= MaxAttempts(reg, t.name) ==>
                  s2.sleepers == s.sleepers && s2.jobs[JobOf(t)].outcome == Some(FinallyFailed))
  {
    assert GoodWorker(reg, s.jobs, s.workers[w]);
  }
}
