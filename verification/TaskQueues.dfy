/** The task queue: a FIFO list of messages and a status per task id, both held by a store whose
    commands may fail, before or after they are carried out. */
module TaskQueues {
  import opened Options

  /** The part of a task payload the worker protocol looks at. `job` stands for the rest of the
      payload, which a retry copies unchanged; `attempt` is the optional `_attempt` entry. */
  datatype Payload = Payload(job: nat, attempt: Option<int>)

  datatype Task = Task(name: string, payload: Payload)

  datatype Message = Message(taskId: nat, task: Task)

  /** How a store command ends: carried out and answered, not carried out, or carried out while its
      answer is lost. The caller cannot tell the last two apart. */
  datatype Luck = Done | Refused | Unheard

  datatype Status = StatusCompleted | StatusFailed

  /** A missing `_attempt`, and a stored 0, both read as the first attempt. */
  function AttemptOf(p: Payload): int {
    match p.attempt
    case None => 1
    case Some(a) => if a == 0 then 1 else a
  }

  class TaskQueue {
    var items: seq<Message>
    var status: map<nat, Status>
    var nextId: nat

    constructor ()
      ensures items == [] && status == map[] && nextId == 0
    {
      items, status, nextId := [], map[], 0;
    }

    /** An error is raised (`ok` is false) unless the push is carried out and answered. */
    method Enqueue(name: string, payload: Payload, luck: Luck) returns (ok: bool)
      modifies this
      ensures ok == luck.Done?
      ensures !luck.Refused? ==>
                items == old(items) + [Message(old(nextId), Task(name, payload))] && nextId == old(nextId) + 1
      ensures luck.Refused? ==> items == old(items) && nextId == old(nextId)
      ensures status == old(status)
    {
      if !luck.Refused? {
        var message := Message(nextId, Task(name, payload));
        items := items + [message];
        nextId := nextId + 1;
      }
      ok := luck.Done?;
    }

    /** A store error and an empty list both answer None; a message whose pop was carried out and not
        answered is gone. */
    method Dequeue(luck: Luck) returns (item: Option<Message>)
      modifies this
      ensures item == if luck.Done? && old(items) != [] then Some(old(items)[0]) else None
      ensures items == if !luck.Refused? && old(items) != [] then old(items)[1..] else old(items)
      ensures status == old(status) && nextId == old(nextId)
    {
      item := None;
      if !luck.Refused? && items != [] {
        if luck.Done? {
          item := Some(items[0]);
        }
        items := items[1..];
      }
    }

    method Mark(taskId: nat, value: Status, luck: Luck) returns (ok: bool)
      modifies this
      ensures ok == luck.Done?
      ensures status == if !luck.Refused? then old(status)[taskId := value] else old(status)
      ensures items == old(items) && nextId == old(nextId)
    {
      if !luck.Refused? {
        status := status[taskId := value];
      }
      ok := luck.Done?;
    }
  }
}
