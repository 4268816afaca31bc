/**
 * The server's replies as the client sees them: what each service call
 * settles with when the store's handler answered it.
 */
module EndToEnd {
  import opened Wrappers
  import opened Api
  import Store
  import TodoService

  /**
   * The fetch `Response` for a reply: `ok` holds for statuses 200 to 299, as
   * the Fetch standard defines it; the status text is whatever the transport
   * carried (HTTP/2 carries none), so it is a parameter.
   */
  function Received<T>(reply: Reply<T>, statusText: string): (r: TodoService.HttpResponse)
    ensures r.status == reply.status && r.statusText == statusText
    ensures r.ok <==> 200 <= reply.status < 300
  {
    TodoService.HttpResponse(200 <= reply.status < 300, reply.status, statusText)
  }

  /** GET always reaches the client as the stored list. */
  lemma ListReachesClient(s: Store.State, statusText: string)
    ensures var reply := Store.List(s).reply;
      TodoService.GetTasks(Received(reply, statusText), reply.body) == TodoService.Resolved(Some(s.tasks))
  {
  }

  /**
   * A created record reaches the client as the record now last in the list;
   * a refused create reaches it as the HTTP error, so the server's own
   * error text is never what the client reports.
   */
  lemma CreateReachesClient(s: Store.State, text: Option<string>, now: string, statusText: string)
    ensures var o := Store.Create(s, text, now);
      var settled := TodoService.CreateTask(Received(o.reply, statusText), o.reply.body);
      (Store.IsMissing(text) ==> settled == TodoService.Rejected("HTTP 400: " + statusText))
      && (!Store.IsMissing(text) ==> settled == TodoService.Resolved(Some(o.state.tasks[|o.state.tasks| - 1])))
  {
  }

  /** A patched record reaches the client as it is now stored; an unknown id as the HTTP 404 error. */
  lemma UpdateReachesClient(s: Store.State, id: Option<int>, patch: Store.Patch, statusText: string)
    ensures var o := Store.Update(s, id, patch);
      var i := Store.IndexOf(s.tasks, id);
      var settled := TodoService.UpdateTask(Received(o.reply, statusText), o.reply.body);
      (i == -1 ==> settled == TodoService.Rejected("HTTP 404: " + statusText))
      && (i >= 0 ==> settled == TodoService.Resolved(Some(o.state.tasks[i])))
  {
  }

  /** A delete reaches the client as success with no payload; an unknown id as the HTTP 404 error. */
  lemma DeleteReachesClient(s: Store.State, id: Option<int>, statusText: string)
    ensures var o := Store.Delete(s, id);
      var settled := TodoService.DeleteTask(Received(o.reply, statusText), o.reply.body);
      (Store.IndexOf(s.tasks, id) == -1 ==> settled == TodoService.Rejected("HTTP 404: " + statusText))
      && (Store.IndexOf(s.tasks, id) >= 0 ==> settled == TodoService.Resolved(()) && o.reply.body.data.Some?)
  {
  }
}
