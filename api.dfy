/** The values exchanged between the task server and its client. */
module Api {
  import opened Wrappers

  /** A to-do record, as the server stores it and sends it as JSON. */
  datatype Task = Task(id: int, task: string, completed: bool, createdAt: string)

  /** The `{success, data?, error?}` envelope every endpoint answers with. */
  datatype Envelope<T> = Envelope(success: bool, data: Option<T>, error: Option<string>)

  /** What a handler sends back: an HTTP status code and an envelope. */
  datatype Reply<T> = Reply(status: nat, body: Envelope<T>)

  /** A successful reply carrying `data`. */
  function Ok<T>(status: nat, data: T): Reply<T> {
    Reply(status, Envelope(true, Some(data), None))
  }

  /** A failed reply carrying the error message `message`. */
  function Fail<T>(status: nat, message: string): Reply<T> {
    Reply(status, Envelope(false, None, Some(message)))
  }
}
