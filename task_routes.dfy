/** The task router: five handlers over the task collection, each scoped to
    the user the token middleware put on the request (`req.user._id`,
    passed here as `userId`). `storeFails` says that the collection's calls
    throw, which every handler turns into 500 'Server error' with nothing
    stored. */
module TaskRoutes {
  import opened Js
  import opened Models
  import opened TaskQuery

  /** The JSON body of a create or update request. */
  datatype TaskFields = TaskFields(
    title: Option<string>,
    startTime: Option<int>,
    endTime: Option<int>,
    priority: Option<int>)

  /** `title && startTime && endTime && priority`, the guard of the create
      and update routes. */
  predicate HasRequiredFields(f: TaskFields) {
    TruthyString(f.title) && TruthyNumber(f.startTime) && TruthyNumber(f.endTime) &&
    TruthyNumber(f.priority)
  }

  /** What a handler sends: a JSON message, plain text (`res.send`), a
      task, a list of tasks, or a message together with a task. */
  datatype Body =
    | Msg(msg: string)
    | Text(text: string)
    | One(task: Task)
    | All(tasks: seq<Task>)
    | MsgAndTask(msg: string, task: Task)

  datatype Reply = Reply(code: int, body: Body)

  const ServerError := Reply(500, Text("Server error"))
  const MissingFields := Reply(400, Msg("Missing required fields"))
  const InvalidStatus := Reply(400, Msg("Invalid status value"))
  const TaskNotFound := Reply(404, Msg("Task not found"))
  const NoTasks := Reply(404, Msg("No tasks found"))

  /** The spelling of a status in a request body and in a stored task. */
  function StatusName(s: Status): string {
    match s
    case Pending => "pending"
    case Finished => "finished"
  }

  /** `status !== 'pending' && status !== 'finished'` rejects exactly the
      values that are not the name of a status; the others name one status. */
  function ParseStatus(status: Option<string>): (r: Option<Status>)
    ensures r.None? <==> status != Some("pending") && status != Some("finished")
    ensures r.Some? ==> status == Some(StatusName(r.value))
  {
    if status == Some("pending") then Some(Pending)
    else if status == Some("finished") then Some(Finished)
    else None
  }

  /** The task collection. */
  class TaskTable {
    var tasks: map<TaskId, Task>
    /** The identifier the collection gives the next task it stores;
        stands for ObjectId generation. */
    var nextId: TaskId

    ghost predicate Valid()
      reads this
    {
      IdsAreKeys(tasks) && forall id :: id in tasks ==> id < nextId
    }

    constructor ()
      ensures Valid() && tasks == map[] && nextId == 0
    {
      tasks := map[];
      nextId := 0;
    }

    /** GET `/`: the user's tasks by ascending start time, or 404 when the
        user has none, whatever other users own. */
    method List(userId: UserId, storeFails: bool) returns (reply: Reply)
      requires Valid()
      ensures storeFails ==> reply == ServerError
      ensures !storeFails && !OwnsAny(tasks, userId) ==> reply == NoTasks
      ensures !storeFails && OwnsAny(tasks, userId) ==>
                reply.code == 200 && reply.body.All? &&
                SortedByStart(reply.body.tasks) && DistinctIds(reply.body.tasks) &&
                forall t :: t in reply.body.tasks <==> Owns(tasks, t.id, userId) && tasks[t.id] == t
    {
      if storeFails {
        return ServerError;
      }
      var found := FindSorted(tasks, userId, nextId);
      assert forall id :: Owns(tasks, id, userId) ==> tasks[id] in found;
      if |found| == 0 {
        return NoTasks;
      }
      assert found[0] in found;
      reply := Reply(200, All(found));
    }

    /** POST `/`: stores a new task of the user with the four fields of the
        request, or rejects a falsy field without touching the collection. */
    method Create(userId: UserId, fields: TaskFields, storeFails: bool) returns (reply: Reply)
      requires Valid()
      modifies this
      ensures Valid()
      ensures !HasRequiredFields(fields) ==>
                reply == MissingFields && tasks == old(tasks) && nextId == old(nextId)
      ensures HasRequiredFields(fields) && storeFails ==>
                reply == ServerError && tasks == old(tasks) && nextId == old(nextId)
      ensures HasRequiredFields(fields) && !storeFails ==>
                var id := old(nextId);
                var task := Task(id, fields.title.value, fields.startTime.value, fields.endTime.value,
                                 fields.priority.value, None, userId);
                id !in old(tasks) && tasks == old(tasks)[id := task] && nextId == id + 1 &&
                reply == Reply(201, One(task))
    {
      if !HasRequiredFields(fields) {
        return MissingFields;
      }
      if storeFails {
        return ServerError;
      }
      var task := Task(nextId, fields.title.value, fields.startTime.value, fields.endTime.value,
                       fields.priority.value, None, userId);
      tasks := tasks[nextId := task];
      nextId := nextId + 1;
      reply := Reply(201, One(task));
    }

    /** PUT `/:id`: replaces the four fields of the user's task in place;
        its status, its owner and every other task stay as they were. */
    method Update(userId: UserId, id: TaskId, fields: TaskFields, storeFails: bool) returns (reply: Reply)
      requires Valid()
      modifies this`tasks
      ensures Valid()
      ensures !HasRequiredFields(fields) ==> reply == MissingFields && tasks == old(tasks)
      ensures HasRequiredFields(fields) && storeFails ==> reply == ServerError && tasks == old(tasks)
      ensures HasRequiredFields(fields) && !storeFails && !Owns(old(tasks), id, userId) ==>
                reply == TaskNotFound && tasks == old(tasks)
      ensures HasRequiredFields(fields) && !storeFails && Owns(old(tasks), id, userId) ==>
                var task := old(tasks)[id].(title := fields.title.value, startTime := fields.startTime.value,
                                            endTime := fields.endTime.value, priority := fields.priority.value);
                tasks == old(tasks)[id := task] &&
                reply == Reply(200, MsgAndTask("Task updated successfully", task))
    {
      if !HasRequiredFields(fields) {
        return MissingFields;
      }
      if storeFails {
        return ServerError;
      }
      if !Owns(tasks, id, userId) {
        return TaskNotFound;
      }
      var task := tasks[id];
      task := task.(title := fields.title.value, startTime := fields.startTime.value);
      task := task.(endTime := fields.endTime.value, priority := fields.priority.value);
      tasks := tasks[id := task];
      reply := Reply(200, MsgAndTask("Task updated successfully", task));
    }

    /** PATCH `/:id/status`: the status value is checked before the task is
        looked up; finishing a task stamps its end time with `now`. */
    method SetStatus(userId: UserId, id: TaskId, status: Option<string>, now: int, storeFails: bool)
      returns (reply: Reply)
      requires Valid()
      modifies this`tasks
      ensures Valid()
      ensures ParseStatus(status).None? ==> reply == InvalidStatus && tasks == old(tasks)
      ensures ParseStatus(status).Some? && storeFails ==> reply == ServerError && tasks == old(tasks)
      ensures ParseStatus(status).Some? && !storeFails && !Owns(old(tasks), id, userId) ==>
                reply == TaskNotFound && tasks == old(tasks)
      ensures ParseStatus(status).Some? && !storeFails && Owns(old(tasks), id, userId) ==>
                var s := ParseStatus(status).value;
                var before := old(tasks)[id];
                var task := before.(status := Some(s),
                                    endTime := if s == Finished then now else before.endTime);
                tasks == old(tasks)[id := task] && reply == Reply(200, One(task))
    {
      var s := ParseStatus(status);
      if s.None? {
        return InvalidStatus;
      }
      if storeFails {
        return ServerError;
      }
      if !Owns(tasks, id, userId) {
        return TaskNotFound;
      }
      var task := tasks[id];
      if s.value == Finished {
        task := task.(endTime := now);
      }
      task := task.(status := s);
      tasks := tasks[id := task];
      reply := Reply(200, One(task));
    }

    /** DELETE `/:id`: removes the user's task and sends it back; nothing
        else is removed. */
    method Delete(userId: UserId, id: TaskId, storeFails: bool) returns (reply: Reply)
      requires Valid()
      modifies this`tasks
      ensures Valid()
      ensures storeFails ==> reply == ServerError && tasks == old(tasks)
      ensures !storeFails && !Owns(old(tasks), id, userId) ==> reply == TaskNotFound && tasks == old(tasks)
      ensures !storeFails && Owns(old(tasks), id, userId) ==>
                tasks == old(tasks) - {id} && id !in tasks &&
                reply == Reply(200, MsgAndTask("Task deleted successfully", old(tasks)[id]))
    {
      if storeFails {
        return ServerError;
      }
      if !Owns(tasks, id, userId) {
        return TaskNotFound;
      }
      var task := tasks[id];
      tasks := tasks - {id};
      reply := Reply(200, MsgAndTask("Task deleted successfully", task));
    }
  }

  /** A task created through POST `/` is among those GET `/` sends back to
      its owner, with the fields of the request. */
  method CreateThenList(table: TaskTable, userId: UserId, fields: TaskFields)
    returns (created: Reply, listed: Reply)
    requires table.Valid() && HasRequiredFields(fields)
    modifies table
    ensures created.code == 201 && created.body.One?
    ensures listed.code == 200 && listed.body.All? && created.body.task in listed.body.tasks
    ensures created.body.task.title == fields.title.value && created.body.task.userId == userId
    ensures created.body.task.startTime == fields.startTime.value &&
            created.body.task.endTime == fields.endTime.value &&
            created.body.task.priority == fields.priority.value
  {
    created := table.Create(userId, fields, false);
    assert Owns(table.tasks, created.body.task.id, userId);
    listed := table.List(userId, false);
  }

  /** Deleting the same id twice: the second delete finds nothing. */
  method DeleteTwice(table: TaskTable, userId: UserId, id: TaskId) returns (first: Reply, second: Reply)
    requires table.Valid()
    modifies table
    ensures second == TaskNotFound
  {
    first := table.Delete(userId, id, false);
    second := table.Delete(userId, id, false);
  }

  /** A task of another user cannot be changed, finished or deleted: each
      route answers as if the id did not exist, and nothing changes. */
  method ForeignTaskIsHidden(table: TaskTable, userId: UserId, id: TaskId, fields: TaskFields, now: int)
    returns (updated: Reply, finished: Reply, deleted: Reply)
    requires table.Valid() && HasRequiredFields(fields)
    requires id in table.tasks && table.tasks[id].userId != userId
    modifies table
    ensures updated == TaskNotFound && finished == TaskNotFound && deleted == TaskNotFound
    ensures table.tasks == old(table.tasks)
  {
    updated := table.Update(userId, id, fields, false);
    finished := table.SetStatus(userId, id, Some("finished"), now, false);
    deleted := table.Delete(userId, id, false);
  }
}
