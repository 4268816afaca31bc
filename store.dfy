/**
 * The in-memory task store behind the `/api/todos` handlers, as values:
 * each handler is a function from the store's state (the `tasks` list and
 * the `nextId` counter) to its new state and its reply.
 */
module Store {
  import opened Wrappers
  import opened Text
  import opened Api

  /** The error texts the handlers answer with (400 and 404). */
  const RequiredField: string := "Campo obrigatório"
  const TaskNotFound: string := "Tarefa não encontrada"

  /** The module-level state: the ordered task list and the next id to hand out. */
  datatype State = State(tasks: seq<Task>, nextId: int)

  /** The body of a PUT: each field is absent (`None`) or present. */
  datatype Patch = Patch(task: Option<string>, completed: Option<bool>)

  /** A handler's effect: the state it leaves and the reply it sends. */
  datatype Outcome<T> = Outcome(state: State, reply: Reply<T>)

  predicate IdsBelow(tasks: seq<Task>, bound: int) {
    forall i :: 0 <= i < |tasks| ==> tasks[i].id < bound
  }

  predicate IdsIncreasing(tasks: seq<Task>) {
    forall i, j :: 0 <= i < j < |tasks| ==> tasks[i].id < tasks[j].id
  }

  predicate TextsTrimmed(tasks: seq<Task>) {
    forall i :: 0 <= i < |tasks| ==> IsTrimmed(tasks[i].task)
  }

  /**
   * What every reachable state satisfies: ids are below `nextId` (so a new
   * id is fresh), strictly increasing in list order (so distinct, and list
   * order is creation order), and every text is trimmed.
   */
  predicate Valid(s: State) {
    IdsBelow(s.tasks, s.nextId) && IdsIncreasing(s.tasks) && TextsTrimmed(s.tasks)
  }

  /** The state when the server starts: no tasks, `nextId` is 1. */
  function Initial(): (s: State)
    ensures Valid(s) && s.tasks == [] && s.nextId == 1
  {
    State([], 1)
  }

  /** `t.id === parseInt(param)`; `None` stands for NaN, which matches nothing. */
  predicate Matches(t: Task, id: Option<int>) {
    id == Some(t.id)
  }

  /** `tasks.findIndex(...)`: the first matching position, or -1 when none matches. */
  function IndexOf(tasks: seq<Task>, id: Option<int>): (r: int)
    ensures -1 <= r < |tasks|
    ensures r == -1 <==> forall i :: 0 <= i < |tasks| ==> !Matches(tasks[i], id)
    ensures 0 <= r ==> Matches(tasks[r], id) && forall i :: 0 <= i < r ==> !Matches(tasks[i], id)
  {
    if tasks == [] then -1
    else if Matches(tasks[0], id) then 0
    else
      var k := IndexOf(tasks[1..], id);
      if k == -1 then -1 else k + 1
  }

  /** The in-place patch of PUT: a present `task` is trimmed and stored, a present `completed` is stored. */
  function ApplyPatch(t: Task, p: Patch): (u: Task)
    ensures u.id == t.id && u.createdAt == t.createdAt
    ensures u.task == (if p.task.Some? then Trim(p.task.value) else t.task)
    ensures u.completed == p.completed.GetOr(t.completed)
    ensures IsTrimmed(u.task) <== IsTrimmed(t.task)
  {
    var t' := if p.task.Some? then t.(task := Trim(p.task.value)) else t;
    if p.completed.Some? then t'.(completed := p.completed.value) else t'
  }

  /** GET: never fails, answers the list exactly as stored. */
  function List(s: State): (o: Outcome<seq<Task>>)
    ensures o.state == s
    ensures o.reply.status == 200 && o.reply.body == Envelope(true, Some(s.tasks), None)
  {
    Outcome(s, Ok(200, s.tasks))
  }

  /** `!task || !task.trim()`: the text is absent, empty or whitespace only. */
  predicate IsMissing(text: Option<string>) {
    text.None? || IsBlank(text.value)
  }

  /**
   * POST: a missing or blank text is refused with 400 and nothing changes;
   * otherwise one record is appended, with the old `nextId`, the trimmed
   * non-empty text, `completed = false` and the given timestamp, and is
   * returned with 201; `nextId` grows by one.
   */
  function Create(s: State, text: Option<string>, now: string): (o: Outcome<Task>)
    ensures IsMissing(text) ==> o.state == s && o.reply == Fail(400, RequiredField)
    ensures !IsMissing(text) ==>
              o.reply.status == 201 && o.reply.body.success && o.reply.body.data.Some?
              && var t := o.reply.body.data.value;
                 t.id == s.nextId && t.task == Trim(text.value) && t.task != []
                 && !t.completed && t.createdAt == now
                 && o.state.tasks == s.tasks + [t] && o.state.nextId == s.nextId + 1
                 && o.reply == Ok(201, t)
    ensures Valid(s) ==> Valid(o.state)
  {
    if IsMissing(text) then
      Outcome(s, Fail(400, RequiredField))
    else
      var t := Task(s.nextId, Trim(text.value), false, now);
      Outcome(State(s.tasks + [t], s.nextId + 1), Ok(201, t))
  }

  /**
   * PUT: an unknown id is answered with 404 and nothing changes; otherwise
   * the first matching record is patched where it stands and returned with
   * 200, and every other record, the length, the order and `nextId` stay.
   */
  function Update(s: State, id: Option<int>, patch: Patch): (o: Outcome<Task>)
    ensures IndexOf(s.tasks, id) == -1 ==> o.state == s && o.reply == Fail(404, TaskNotFound)
    ensures IndexOf(s.tasks, id) >= 0 ==>
              var i := IndexOf(s.tasks, id);
              o.state.nextId == s.nextId && |o.state.tasks| == |s.tasks|
              && o.state.tasks[i] == ApplyPatch(s.tasks[i], patch)
              && (forall j :: 0 <= j < |s.tasks| && j != i ==> o.state.tasks[j] == s.tasks[j])
              && o.reply == Ok(200, o.state.tasks[i])
    ensures Valid(s) ==> Valid(o.state)
  {
    var i := IndexOf(s.tasks, id);
    if i == -1 then
      Outcome(s, Fail(404, TaskNotFound))
    else
      var t := ApplyPatch(s.tasks[i], patch);
      Outcome(State(s.tasks[i := t], s.nextId), Ok(200, t))
  }

  /**
   * DELETE: an unknown id is answered with 404 and nothing changes;
   * otherwise the first matching record is cut out, the others keep their
   * order, `nextId` is untouched, and the removed record is returned with 200.
   */
  function Delete(s: State, id: Option<int>): (o: Outcome<Task>)
    ensures IndexOf(s.tasks, id) == -1 ==> o.state == s && o.reply == Fail(404, TaskNotFound)
    ensures IndexOf(s.tasks, id) >= 0 ==>
              var i := IndexOf(s.tasks, id);
              o.state == State(s.tasks[..i] + s.tasks[i + 1..], s.nextId)
              && o.reply == Ok(200, s.tasks[i])
    ensures Valid(s) ==> Valid(o.state)
  {
    var i := IndexOf(s.tasks, id);
    if i == -1 then
      Outcome(s, Fail(404, TaskNotFound))
    else
      var rest := s.tasks[..i] + s.tasks[i + 1..];
      RemoveKeepsValid(s, i);
      Outcome(State(rest, s.nextId), Ok(200, s.tasks[i]))
  }

  /** Cutting one record out of a valid list leaves a valid list. */
  lemma RemoveKeepsValid(s: State, i: nat)
    requires i < |s.tasks|
    ensures Valid(s) ==> Valid(State(s.tasks[..i] + s.tasks[i + 1..], s.nextId))
  {
    var rest := s.tasks[..i] + s.tasks[i + 1..];
    assert forall j :: 0 <= j < |rest| ==> rest[j] == s.tasks[if j < i then j else j + 1];
  }

  /** In a valid state at most one record carries a given id, so "first match" is "the" match. */
  lemma OnlyMatch(s: State, id: Option<int>, j: int)
    requires Valid(s) && 0 <= j < |s.tasks| && j != IndexOf(s.tasks, id)
    ensures !Matches(s.tasks[j], id)
  {
  }

  /** Deleting an id that is present succeeds once; deleting it again answers 404. */
  lemma DeleteTwice(s: State, id: Option<int>)
    requires Valid(s) && Delete(s, id).reply.status == 200
    ensures Delete(s, id).reply.body.data.Some?
    ensures Delete(Delete(s, id).state, id).reply == Fail(404, TaskNotFound)
    ensures Delete(Delete(s, id).state, id).state == Delete(s, id).state
  {
  }

  /** A PUT of blank text on a present id is not refused: the text becomes empty. */
  lemma UpdateStoresBlankAsEmpty(s: State, id: Option<int>, text: string, completed: Option<bool>)
    requires IndexOf(s.tasks, id) >= 0 && IsBlank(text)
    ensures var o := Update(s, id, Patch(Some(text), completed));
      o.reply.status == 200 && o.reply.body.data.Some? && o.reply.body.data.value.task == ""
  {
  }

  /** One HTTP request to the store. */
  datatype Request =
    | ListTasks
    | CreateTask(task: Option<string>, now: string)
    | UpdateTask(id: Option<int>, patch: Patch)
    | DeleteTask(id: Option<int>)

  /** The state a request leaves behind. */
  function Step(s: State, req: Request): State {
    match req
    case ListTasks => List(s).state
    case CreateTask(text, now) => Create(s, text, now).state
    case UpdateTask(id, patch) => Update(s, id, patch).state
    case DeleteTask(id) => Delete(s, id).state
  }

  /** The record a request adds: only a successful create adds one. */
  function NewRecord(s: State, req: Request): Option<Task> {
    match req
    case CreateTask(text, now) =>
      var o := Create(s, text, now);
      if o.reply.status == 201 then o.reply.body.data else None
    case _ => None
  }

  /** The state after handling `reqs` one after the other, from `s`; validity is kept throughout. */
  function Run(s: State, reqs: seq<Request>): (r: State)
    ensures Valid(s) ==> Valid(r)
    decreases |reqs|
  {
    if reqs == [] then s else Run(Step(s, reqs[0]), reqs[1..])
  }

  /** The records created while handling `reqs`, in order. */
  function Created(s: State, reqs: seq<Request>): seq<Task>
    decreases |reqs|
  {
    if reqs == [] then []
    else
      var here := match NewRecord(s, reqs[0]) case Some(t) => [t] case None => [];
      here + Created(Step(s, reqs[0]), reqs[1..])
  }

  /**
   * Ids are handed out consecutively from `nextId`, whatever lists, updates
   * and deletes come in between, and `nextId` ends one past the last of them.
   */
  lemma {:induction false} CreatedIdsConsecutive(s: State, reqs: seq<Request>)
    ensures var created := Created(s, reqs);
      Run(s, reqs).nextId == s.nextId + |created|
      && forall k :: 0 <= k < |created| ==> created[k].id == s.nextId + k
    decreases |reqs|
  {
    if reqs != [] {
      var s' := Step(s, reqs[0]);
      CreatedIdsConsecutive(s', reqs[1..]);
      match reqs[0]
      case CreateTask(text, now) =>
        var o := Create(s, text, now);
        if o.reply.status == 201 {
          assert s'.nextId == s.nextId + 1;
        }
      case _ =>
    }
  }

  /**
   * No id is ever handed out twice, nor one a record of a valid starting
   * state already carries, even after that record was deleted.
   */
  lemma IdsNeverReused(s: State, reqs: seq<Request>)
    requires Valid(s)
    ensures var created := Created(s, reqs);
      (forall k, l :: 0 <= k < l < |created| ==> created[k].id < created[l].id)
      && (forall k, j :: 0 <= k < |created| && 0 <= j < |s.tasks| ==> created[k].id != s.tasks[j].id)
  {
    CreatedIdsConsecutive(s, reqs);
  }

  /** A record's identity: its id and creation time, which no handler changes. */
  function Keys(tasks: seq<Task>): set<(int, string)> {
    set t | t in tasks :: (t.id, t.createdAt)
  }

  lemma StepKeys(s: State, req: Request)
    ensures var here := match NewRecord(s, req) case Some(t) => [t] case None => [];
      Keys(Step(s, req).tasks) <= Keys(s.tasks) + Keys(here)
  {
  }

  /**
   * Every record listed after a run of requests is one the starting state
   * held or one the run created, with its id and creation time unchanged.
   */
  lemma {:induction false} SurvivorsAccountedFor(s: State, reqs: seq<Request>)
    ensures Keys(Run(s, reqs).tasks) <= Keys(s.tasks) + Keys(Created(s, reqs))
    decreases |reqs|
  {
    if reqs != [] {
      var s' := Step(s, reqs[0]);
      var here := match NewRecord(s, reqs[0]) case Some(t) => [t] case None => [];
      StepKeys(s, reqs[0]);
      SurvivorsAccountedFor(s', reqs[1..]);
      KeysConcat(here, Created(s', reqs[1..]));
    }
  }

  lemma KeysConcat(a: seq<Task>, b: seq<Task>)
    ensures Keys(a + b) == Keys(a) + Keys(b)
  {
  }

  /** `req` is a PUT or DELETE of the path id `id`. */
  predicate Targets(req: Request, id: int) {
    (req.UpdateTask? && req.id == Some(id)) || (req.DeleteTask? && req.id == Some(id))
  }

  /** A request that neither updates nor deletes a record's id leaves that record listed, unchanged. */
  lemma StepKeeps(s: State, req: Request, t: Task)
    requires t in s.tasks && !Targets(req, t.id)
    ensures t in Step(s, req).tasks
  {
    var j :| 0 <= j < |s.tasks| && s.tasks[j] == t;
    match req
    case ListTasks =>
    case CreateTask(text, now) =>
      assert Step(s, req).tasks == s.tasks || Step(s, req).tasks[j] == t;
    case UpdateTask(id, patch) =>
      var i := IndexOf(s.tasks, id);
      if i >= 0 {
        assert Step(s, req).tasks[j] == t;
      }
    case DeleteTask(id) =>
      var i := IndexOf(s.tasks, id);
      if i >= 0 {
        assert i != j;
        var rest := Step(s, req).tasks;
        assert rest[if j < i then j else j - 1] == t;
      }
  }

  /**
   * A record of the starting state that no request of the run updates or
   * deletes is still listed after the run, exactly as it was.
   */
  lemma {:induction false} HeldRecordsSurvive(s: State, reqs: seq<Request>, t: Task)
    requires t in s.tasks
    requires forall k :: 0 <= k < |reqs| ==> !Targets(reqs[k], t.id)
    ensures t in Run(s, reqs).tasks
    decreases |reqs|
  {
    if reqs != [] {
      StepKeeps(s, reqs[0], t);
      HeldRecordsSurvive(Step(s, reqs[0]), reqs[1..], t);
    }
  }

  /** Handling `a` and then `b` is handling `a + b`. */
  lemma {:induction false} RunConcat(s: State, a: seq<Request>, b: seq<Request>)
    ensures Run(s, a + b) == Run(Run(s, a), b)
    decreases |a|
  {
    if a != [] {
      assert (a + b)[0] == a[0] && (a + b)[1..] == a[1..] + b;
      RunConcat(Step(s, a[0]), a[1..], b);
    } else {
      assert a + b == b;
    }
  }

  /**
   * A record created by a successful POST that no later request updates or
   * deletes is still listed at the end of the run, exactly as created;
   * requests before the POST do not matter.
   */
  lemma CreatedRecordsSurvive(s: State, before: seq<Request>, text: Option<string>, now: string, after: seq<Request>)
    requires !IsMissing(text)
    requires var t := Create(Run(s, before), text, now).reply.body.data.value;
      forall m :: 0 <= m < |after| ==> !Targets(after[m], t.id)
    ensures var t := Create(Run(s, before), text, now).reply.body.data.value;
      t in Run(s, before + [CreateTask(text, now)] + after).tasks
  {
    var mid := Run(s, before);
    var t := Create(mid, text, now).reply.body.data.value;
    RunConcat(s, before + [CreateTask(text, now)], after);
    RunConcat(s, before, [CreateTask(text, now)]);
    assert Run(mid, [CreateTask(text, now)]) == Step(mid, CreateTask(text, now));
    assert t in Step(mid, CreateTask(text, now)).tasks;
    HeldRecordsSurvive(Step(mid, CreateTask(text, now)), after, t);
  }

  /** A request that is not a DELETE of a record's id keeps that record's id and creation time listed. */
  lemma StepKeepsKey(s: State, req: Request, key: (int, string))
    requires key in Keys(s.tasks) && !(req.DeleteTask? && req.id == Some(key.0))
    ensures key in Keys(Step(s, req).tasks)
  {
  }

  /**
   * A record of the starting state whose id no request of the run deletes
   * is still listed after the run, with its id and creation time, however
   * often it was updated.
   */
  lemma {:induction false} NotDeletedKeyListed(s: State, reqs: seq<Request>, key: (int, string))
    requires key in Keys(s.tasks)
    requires forall k :: 0 <= k < |reqs| ==> !(reqs[k].DeleteTask? && reqs[k].id == Some(key.0))
    ensures key in Keys(Run(s, reqs).tasks)
    decreases |reqs|
  {
    if reqs != [] {
      StepKeepsKey(s, reqs[0], key);
      NotDeletedKeyListed(Step(s, reqs[0]), reqs[1..], key);
    }
  }

  /**
   * A record created by a successful POST whose id no later request
   * deletes is still listed at the end of the run, with its id and
   * creation time, however often it was updated.
   */
  lemma CreatedKeyListed(s: State, before: seq<Request>, text: Option<string>, now: string, after: seq<Request>)
    requires !IsMissing(text)
    requires var t := Create(Run(s, before), text, now).reply.body.data.value;
      forall m :: 0 <= m < |after| ==> !(after[m].DeleteTask? && after[m].id == Some(t.id))
    ensures var t := Create(Run(s, before), text, now).reply.body.data.value;
      (t.id, t.createdAt) in Keys(Run(s, before + [CreateTask(text, now)] + after).tasks)
  {
    var mid := Run(s, before);
    var t := Create(mid, text, now).reply.body.data.value;
    RunConcat(s, before + [CreateTask(text, now)], after);
    RunConcat(s, before, [CreateTask(text, now)]);
    assert Run(mid, [CreateTask(text, now)]) == Step(mid, CreateTask(text, now));
    assert t in Step(mid, CreateTask(text, now)).tasks;
    NotDeletedKeyListed(Step(mid, CreateTask(text, now)), after, (t.id, t.createdAt));
  }

  /**
   * A record deleted from a valid state is never listed again, whatever
   * requests follow: its id is gone and is never handed out anew.
   */
  lemma DeletedNeverListedAgain(s: State, x: int, after: seq<Request>)
    requires Valid(s) && Delete(s, Some(x)).reply.status == 200
    ensures forall t :: t in Run(s, [DeleteTask(Some(x))] + after).tasks ==> t.id != x
  {
    var s1 := Delete(s, Some(x)).state;
    var reqs := [DeleteTask(Some(x))] + after;
    assert reqs[0] == DeleteTask(Some(x)) && reqs[1..] == after;
    assert Run(s, reqs) == Run(s1, after);
    DeleteTwice(s, Some(x));
    assert x < s1.nextId by {
      var i := IndexOf(s.tasks, Some(x));
      assert s.tasks[i].id == x;
    }
    SurvivorsAccountedFor(s1, after);
    CreatedIdsConsecutive(s1, after);
    var created := Created(s1, after);
    forall t | t in Run(s1, after).tasks ensures t.id != x {
      assert (t.id, t.createdAt) in Keys(s1.tasks) + Keys(created);
      if (t.id, t.createdAt) in Keys(s1.tasks) {
        var u :| u in s1.tasks && (u.id, u.createdAt) == (t.id, t.createdAt);
        var j :| 0 <= j < |s1.tasks| && s1.tasks[j] == u;
        assert !Matches(s1.tasks[j], Some(x));
      } else {
        var c :| c in created && (c.id, c.createdAt) == (t.id, t.createdAt);
        var k :| 0 <= k < |created| && created[k] == c;
        assert c.id == s1.nextId + k;
      }
    }
  }

  /** `POST {task: "  buy milk  "}` on a fresh server stores and returns record 1, "buy milk", not completed. */
  lemma BuyMilk(now: string)
    ensures Create(Initial(), Some("  buy milk  "), now).reply == Ok(201, Task(1, "buy milk", false, now))
  {
    TrimOfPadded("  ", "buy milk", "  ");
    assert "  " + "buy milk" + "  " == "  buy milk  ";
  }
}
