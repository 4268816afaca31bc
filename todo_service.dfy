/**
 * The client side of `/api/todos`: `checkResponse` and the four service
 * calls. The network round trip is abstracted away: each call is a
 * function of the response metadata and the parsed JSON envelope it got.
 */
module TodoService {
  import opened Wrappers
  import opened Api
  import Decimal

  /** The parts of a fetch `Response` that the client reads. */
  datatype HttpResponse = HttpResponse(ok: bool, status: nat, statusText: string)

  /** How an async call settles: its promise resolves with a value or rejects with an Error's message. */
  datatype Settled<T> = Resolved(value: T) | Rejected(message: string)

  /** The message used when the envelope signals failure without a usable `error`. */
  const ApiErrorFallback: string := "Erro na API"

  /** `HTTP ${status}: ${statusText}`. */
  function HttpErrorMessage(response: HttpResponse): string {
    "HTTP " + Decimal.Show(response.status) + ": " + response.statusText
  }

  /** `data.error || 'Erro na API'`: an absent or empty error falls back. */
  function EnvelopeErrorMessage<T>(data: Envelope<T>): string {
    if data.error.Some? && data.error.value != "" then data.error.value else ApiErrorFallback
  }

  /**
   * `checkResponse`: `None` when the call may go on, otherwise the message
   * it throws. A non-OK status decides first, whatever the envelope says;
   * only an OK response consults `success`. The message is never empty.
   */
  function CheckResponse<T>(response: HttpResponse, data: Envelope<T>): (r: Option<string>)
    ensures r.None? <==> response.ok && data.success
    ensures !response.ok ==> r == Some(HttpErrorMessage(response))
    ensures response.ok && !data.success ==> r == Some(EnvelopeErrorMessage(data))
    ensures r.Some? ==> r.value != ""
  {
    if !response.ok then Some(HttpErrorMessage(response))
    else if !data.success then Some(EnvelopeErrorMessage(data))
    else None
  }

  /** The status check takes precedence: with a non-OK status the envelope is never consulted. */
  lemma StatusDecidesFirst<T>(response: HttpResponse, d1: Envelope<T>, d2: Envelope<T>)
    requires !response.ok
    ensures CheckResponse(response, d1) == CheckResponse(response, d2)
  {
  }

  /** The HTTP error message names the status: two non-OK responses with different statuses give different messages. */
  lemma HttpErrorNamesStatus(r1: HttpResponse, r2: HttpResponse)
    requires r1.statusText == r2.statusText && HttpErrorMessage(r1) == HttpErrorMessage(r2)
    ensures r1.status == r2.status
  {
    var p := "HTTP ";
    var s1, s2 := Decimal.Show(r1.status), Decimal.Show(r2.status);
    var tail := ": " + r1.statusText;
    assert HttpErrorMessage(r1) == p + s1 + tail;
    assert HttpErrorMessage(r2) == p + s2 + tail;
    assert |s1| == |s2| by {
      assert |p + s1 + tail| == |p + s2 + tail|;
    }
    assert s1 == (p + s1 + tail)[|p|..|p| + |s1|];
    assert s2 == (p + s2 + tail)[|p|..|p| + |s2|];
    Decimal.ShowInjective(r1.status, r2.status);
  }

  /** Check, then hand back `data.data`; shared by the three calls that return a payload. */
  function Unwrap<T>(response: HttpResponse, data: Envelope<T>): Settled<Option<T>> {
    match CheckResponse(response, data)
    case Some(message) => Rejected(message)
    case None => Resolved(data.data)
  }

  /** `getTasks`: resolves with exactly the envelope's `data` when the check passes, else rejects with the check's message. */
  function GetTasks(response: HttpResponse, data: Envelope<seq<Task>>): (r: Settled<Option<seq<Task>>>)
    ensures r.Resolved? <==> response.ok && data.success
    ensures r.Resolved? ==> r.value == data.data
    ensures r.Rejected? ==> Some(r.message) == CheckResponse(response, data)
  {
    Unwrap(response, data)
  }

  /** `createTask`: resolves with exactly the envelope's `data` when the check passes, else rejects with the check's message. */
  function CreateTask(response: HttpResponse, data: Envelope<Task>): (r: Settled<Option<Task>>)
    ensures r.Resolved? <==> response.ok && data.success
    ensures r.Resolved? ==> r.value == data.data
    ensures r.Rejected? ==> Some(r.message) == CheckResponse(response, data)
  {
    Unwrap(response, data)
  }

  /** `updateTask`: resolves with exactly the envelope's `data` when the check passes, else rejects with the check's message. */
  function UpdateTask(response: HttpResponse, data: Envelope<Task>): (r: Settled<Option<Task>>)
    ensures r.Resolved? <==> response.ok && data.success
    ensures r.Resolved? ==> r.value == data.data
    ensures r.Rejected? ==> Some(r.message) == CheckResponse(response, data)
  {
    Unwrap(response, data)
  }

  /** `deleteTask`: resolves with no payload when the check passes, even though the envelope carries the deleted record. */
  function DeleteTask(response: HttpResponse, data: Envelope<Task>): (r: Settled<()>)
    ensures r.Resolved? <==> response.ok && data.success
    ensures r.Rejected? ==> Some(r.message) == CheckResponse(response, data)
  {
    match CheckResponse(response, data)
    case Some(message) => Rejected(message)
    case None => Resolved(())
  }
}
