/**
 * The `tasks` Mongo collection as the master uses it: a sequence of task
 * documents in collection order, the three query filters the master sends,
 * and the `update_one`, `find_one_and_update` and `find` calls. Where Mongo
 * may pick any matching document, the model picks the first in collection
 * order.
 */
module TaskStore {
  import opened Wrappers
  import opened TaskStates

  /** One task document: `taskname`, `sleeptime`, `state` and, once assigned, `host`. */
  datatype Task = Task(name: string, sleepTime: int, state: string, host: Option<string>)

  /** The query filters the master sends. */
  datatype Filter =
    | NameIs(name: string)     // { 'taskname': name }
    | RunningOn(addr: string)  // { '$and': [ { 'host': addr }, { 'state': 'running' } ] }
    | NotSucceeded             // { 'state': { '$ne': 'success' } }

  predicate Matches(d: Task, f: Filter)
  {
    match f
    case NameIs(n) => d.name == n
    case RunningOn(a) => d.host == Some(a) && d.state == Encode(Running)
    case NotSucceeded => d.state != Encode(Success)
  }

  /** The body of a `$set` update: a new state and, when present, a new host. */
  datatype SetFields = SetFields(state: TaskState, host: Option<string>)

  function Apply(d: Task, u: SetFields): Task
  {
    d.(state := Encode(u.state), host := if u.host.Some? then u.host else d.host)
  }

  /** `docs[j]` is the first document called `name`. */
  predicate FirstNamed(docs: seq<Task>, j: int, name: string)
  {
    0 <= j < |docs| && docs[j].name == name && forall k :: 0 <= k < j ==> docs[k].name != name
  }

  /** Position of the first document the filter matches. */
  function FirstMatch(docs: seq<Task>, f: Filter): (r: Option<nat>)
    ensures r.Some? ==> r.value < |docs| && Matches(docs[r.value], f)
    ensures r.Some? ==> forall j :: 0 <= j < r.value ==> !Matches(docs[j], f)
    ensures r.None? ==> forall j :: 0 <= j < |docs| ==> !Matches(docs[j], f)
  {
    if |docs| == 0 then None
    else if Matches(docs[0], f) then Some(0)
    else match FirstMatch(docs[1..], f)
      case None => None
      case Some(k) => Some(k + 1)
  }

  /** `find(filter)`: the matching documents, in collection order. */
  function Find(docs: seq<Task>, f: Filter): (r: seq<Task>)
    ensures |r| <= |docs|
    ensures forall d :: d in r ==> Matches(d, f)
    ensures forall j :: 0 <= j < |docs| && Matches(docs[j], f) ==> docs[j] in r
  {
    if |docs| == 0 then []
    else (if Matches(docs[0], f) then [docs[0]] else []) + Find(docs[1..], f)
  }

  /** `update_one(filter, {'$set': u})`: the first match gets the fields; without a match nothing changes. */
  function UpdateOne(docs: seq<Task>, f: Filter, u: SetFields): (r: seq<Task>)
    ensures |r| == |docs|
  {
    match FirstMatch(docs, f)
    case None => docs
    case Some(i) => docs[i := Apply(docs[i], u)]
  }

  /**
   * `find_one_and_update(filter, {'$set': u})`: the update of `UpdateOne`, and the
   * matched document as it was BEFORE the update (pymongo's default), if any.
   */
  function FindOneAndUpdate(docs: seq<Task>, f: Filter, u: SetFields): (seq<Task>, Option<Task>)
  {
    (UpdateOne(docs, f, u),
     match FirstMatch(docs, f)
     case None => None
     case Some(i) => Some(docs[i]))
  }

  /**
   * `update_one` touches at most one document, the first match, and gives it
   * exactly the `$set` fields; a filter that matches something always changes
   * that document's fields to the requested ones.
   */
  lemma UpdateOneTouchesFirstMatchOnly(docs: seq<Task>, f: Filter, u: SetFields)
    ensures var r := UpdateOne(docs, f, u);
      && |r| == |docs|
      && (forall j :: 0 <= j < |docs| && r[j] != docs[j] ==>
            Matches(docs[j], f) && r[j] == Apply(docs[j], u) &&
            (forall k :: 0 <= k < j ==> !Matches(docs[k], f)))
      && (forall j, k :: 0 <= j < |docs| && 0 <= k < |docs| && j != k && r[j] != docs[j] ==> r[k] == docs[k])
      && (forall j :: 0 <= j < |docs| && Matches(docs[j], f) ==>
            exists i :: 0 <= i <= j && r[i] == Apply(docs[i], u) && Matches(docs[i], f))
  {
    var r := UpdateOne(docs, f, u);
    match FirstMatch(docs, f)
    case None =>
    case Some(i) =>
      forall j | 0 <= j < |docs| && Matches(docs[j], f)
        ensures exists i' :: 0 <= i' <= j && r[i'] == Apply(docs[i'], u) && Matches(docs[i'], f)
      {
        assert r[i] == Apply(docs[i], u);
      }
  }

  /**
   * The document `find_one_and_update` returns is the first match, as it was
   * before the update, and the update left it in the same position.
   */
  lemma FindOneAndUpdatePreImage(docs: seq<Task>, f: Filter, u: SetFields)
    ensures var (r, pre) := FindOneAndUpdate(docs, f, u);
      && (pre.None? <==> forall j :: 0 <= j < |docs| ==> !Matches(docs[j], f))
      && (pre.Some? ==> exists i :: FirstMatch(docs, f) == Some(i) && pre.value == docs[i] && r[i] == Apply(docs[i], u))
      && (pre.None? ==> r == docs)
  {
    match FirstMatch(docs, f)
    case None =>
    case Some(i) =>
      assert UpdateOne(docs, f, u)[i] == Apply(docs[i], u);
  }

  /** `find` returns nothing exactly when no document matches. */
  lemma FindEmpty(docs: seq<Task>, f: Filter)
    ensures |Find(docs, f)| == 0 <==> forall j :: 0 <= j < |docs| ==> !Matches(docs[j], f)
  {
  }
}
