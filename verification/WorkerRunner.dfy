/** The runner itself: the object whose loops, permits and sleeping requeues the protocol abstracts.
    Each method is the code between two await points of one coroutine and is proved to be one event
    of the protocol, so what `WorkerTheorems` proves of runs holds of every interleaving of calls. */
module WorkerRunners {
  import opened Options
  import opened TaskQueues
  import opened WorkerProtocol

  class WorkerRunner {
    const queue: TaskQueue
    const registry: Registry
    var running: bool
    var permits: int
    var places: seq<Worker>  // where each worker loop stands
    var sleepers: seq<Task>  // requeue coroutines inside `asyncio.sleep`
    ghost var jobs: map<nat, Job>

    ghost function View(): State
      reads this, queue
    {
      State(running, permits, places, queue.items, sleepers, queue.status, queue.nextId, jobs)
    }

    /** The list and the statuses outlive the process, and so does the history of the jobs. */
    constructor (registry: Registry, queue: TaskQueue, concurrency: nat, ghost jobs: map<nat, Job>)
      ensures View() == StartOn(concurrency, queue.items, queue.status, queue.nextId, jobs)
      ensures this.registry == registry && this.queue == queue
    {
      this.queue, this.registry := queue, registry;
      running, permits, places, sleepers := true, concurrency, seq(concurrency, i => Ready), [];
      this.jobs := jobs;
    }

    /** Somebody enqueues a job; `Refused` submits nothing. */
    method Submit(name: string, payload: Payload, luck: Luck)
      requires Enabled(View(), WorkerProtocol.Submit(name, payload))
      modifies this, queue
      ensures View() == if luck.Refused? then old(View()) else ApplySubmit(old(View()), name, payload)
    {
      var _ := queue.Enqueue(name, payload, luck);
      if !luck.Refused? {
        jobs := jobs[payload.job := Job(name, AttemptOf(payload), [], false, None)];
      }
    }

    /** `while self._running` and the entry of `async with self._semaphore`. */
    method LoopTop(w: nat)
      requires w < |places| && places[w].Ready? && (running ==> permits > 0)
      modifies this
      ensures View() == Apply(registry, old(View()), if old(running) then Acquire(w) else Stop(w))
    {
      if running {
        permits := permits - 1;
        places := places[w := Polling];
      } else {
        places := places[w := Stopped];
      }
    }

    /** The dequeue comes back: empty-handed (also on a store error), or with the head message. */
    method DequeueReturns(w: nat, luck: Luck)
      requires w < |places| && places[w].Polling?
      modifies this, queue
      ensures View() == Apply(registry, old(View()), if luck.Refused? || old(queue.items) == [] then PollEmpty(w)
                                                     else if luck.Done? then Take(w) else PopLost(w))
    {
      ghost var waiting := queue.items;
      var item := queue.Dequeue(luck);
      match item
      case None =>
        permits := permits + 1;
        places := places[w := Ready];
        if luck.Unheard? && waiting != [] {
          jobs := End(jobs, JobOf(waiting[0].task), LostToStore);
        }
      case Some(m) =>
        if m.task.name in registry {
          places := places[w := Executing(m)];
          jobs := NoteRun(jobs, m.task);
        } else {
          places := places[w := Reporting(m, NoHandler)];
        }
    }

    method HandlerReturns(w: nat, verdict: Verdict)
      requires w < |places| && places[w].Executing? && !verdict.NoHandler?
      modifies this
      ensures View() == ApplyFinish(old(View()), w, verdict)
    {
      var m := places[w].msg;
      places := places[w := Reporting(m, verdict)];
      if verdict.Success? {
        jobs := NoteSuccess(jobs, JobOf(m.task));
      }
    }

    /** `mark_completed` / `mark_failed` and the decision to retry. */
    method StatusWriteReturns(w: nat, luck: Luck)
      requires w < |places| && places[w].Reporting?
      modifies this, queue
      ensures View() == ApplyReport(registry, old(View()), w, luck)
    {
      var m, verdict := places[w].msg, places[w].verdict;
      var ok := queue.Mark(m.taskId, if verdict.Success? then StatusCompleted else StatusFailed, luck);
      if !ok && (verdict.Success? || verdict.NotDone?) {
        places := places[w := Reporting(m, Raised)];
        return;
      }
      permits := permits + 1;
      places := places[w := if ok then Ready else Backoff];
      if verdict.NoHandler? {
        jobs := End(jobs, JobOf(m.task), UnknownTask);
      } else if !ok {
        jobs := End(jobs, JobOf(m.task), LostToStore);
      } else if verdict.Success? {
        jobs := End(jobs, JobOf(m.task), Completed);
      } else if AttemptOf(m.task.payload) < MaxAttempts(registry, m.task.name) {
        sleepers := sleepers + [Retry(m.task)];
      } else {
        jobs := End(jobs, JobOf(m.task), FinallyFailed);
      }
    }

    method BackoffEnds(w: nat)
      requires w < |places| && places[w].Backoff?
      modifies this
      ensures View() == Apply(registry, old(View()), WakeUp(w))
    {
      places := places[w := Ready];
    }

    /** The rest of `_requeue_after` once its sleep is over. */
    method SleepEnds(k: nat, luck: Luck)
      requires k < |sleepers|
      modifies this, queue
      ensures View() == ApplyRequeue(old(View()), k, luck)
    {
      var t := sleepers[k];
      sleepers := sleepers[..k] + sleepers[k + 1..];
      if !running {
        jobs := End(jobs, JobOf(t), DroppedAtShutdown);
        return;
      }
      var _ := queue.Enqueue(t.name, t.payload, luck);
      if luck.Refused? {
        jobs := End(jobs, JobOf(t), LostToStore);
      }
    }

    method Shutdown()
      modifies this
      ensures View() == Apply(registry, old(View()), WorkerProtocol.Shutdown)
    {
      running := false;
    }

    /** All loops have returned and the event loop closes over whatever still sleeps. */
    method LoopCloses()
      requires !running && forall i :: 0 <= i < |places| ==> places[i].Stopped?
      modifies this
      ensures View() == Apply(registry, old(View()), Exit)
    {
      jobs := DropAll(jobs, sleepers);
      sleepers := [];
    }
  }
}
