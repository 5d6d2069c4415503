/** The two stored records. The schema files (backend/model/taskModel.js and
    backend/model/userModel.js) are not part of this model, so no schema
    default, range check or index is assumed here. */
module Models {
  import opened Js

  /** A document's `_id`, standing for a MongoDB ObjectId. */
  type UserId = nat
  type TaskId = nat

  /** A user document: the stored `password` is whatever the hash produced. */
  datatype User = User(id: UserId, name: string, email: string, password: string)

  /** The two status values the status route accepts. */
  datatype Status = Pending | Finished

  /** A task document. Times are integer timestamps. `status` is `None` until
      the status route sets it: the create route never assigns it, and the
      schema default it would receive is not modelled. */
  datatype Task = Task(
    id: TaskId,
    title: string,
    startTime: int,
    endTime: int,
    priority: int,
    status: Option<Status>,
    userId: UserId)
}
