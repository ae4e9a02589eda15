/** The task entity and the request records of the service. */
module Tasks {
  import opened Prelude
  import opened Text

  const MAX_TITLE_LEN := 200
  const MAX_DESCRIPTION_LEN := 2000
  const MAX_ASSIGNEE_LEN := 100

  const PENDING := "pending"
  const IN_PROGRESS := "in_progress"
  const DONE := "done"

  const DEFAULT_LIST_LIMIT := 20
  const MAX_LIST_LIMIT := 50

  datatype Task = Task(id: int, title: string, description: string, status: string, assignee: string)

  predicate ValidStatus(status: string) {
    status == PENDING || status == IN_PROGRESS || status == DONE
  }

  /** The rules the API documents for a stored task. */
  predicate ValidTask(task: Task) {
    && 1 <= RuneCount(task.title) <= MAX_TITLE_LEN
    && RuneCount(task.description) <= MAX_DESCRIPTION_LEN
    && RuneCount(task.assignee) <= MAX_ASSIGNEE_LEN
    && ValidStatus(task.status)
  }

  datatype CreateTaskRequest = CreateTaskRequest(title: string, description: string, status: string, assignee: string)

  datatype ListTasksRequest = ListTasksRequest(status: string, assignee: string, cursor: int, limit: int) {

    function WithClampedLimit(): ListTasksRequest {
      if limit <= 0 then this.(limit := DEFAULT_LIST_LIMIT)
      else if limit > MAX_LIST_LIMIT then this.(limit := MAX_LIST_LIMIT)
      else this
    }
  }

  /** A partial patch: an absent field is left alone. */
  datatype UpdateTaskRequest = UpdateTaskRequest(
    id: int, title: Option<string>, description: Option<string>, status: Option<string>, assignee: Option<string>) {

    predicate IsEmpty() {
      title.None? && description.None? && status.None? && assignee.None?
    }
  }

  function Supplied(field: Option<string>, otherwise: string): string {
    if field.Some? then field.value else otherwise
  }

  /** The meaning of a patch, independent of the statement that carries it out. */
  function Patched(task: Task, req: UpdateTaskRequest): Task {
    Task(task.id, Supplied(req.title, task.title), Supplied(req.description, task.description),
         Supplied(req.status, task.status), Supplied(req.assignee, task.assignee))
  }

  function Either(first: Option<string>, second: Option<string>): Option<string> {
    if second.Some? then second else first
  }

  /** Two patches of one task as a single patch; the later one wins. */
  function Merged(first: UpdateTaskRequest, second: UpdateTaskRequest): UpdateTaskRequest {
    UpdateTaskRequest(second.id, Either(first.title, second.title), Either(first.description, second.description),
                      Either(first.status, second.status), Either(first.assignee, second.assignee))
  }
}
