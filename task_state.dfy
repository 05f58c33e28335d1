/**
 * The `TaskState` enum of master/master.py and the strings it writes into
 * the store (`TaskState.<member>.value`).
 */
module TaskStates {
  import opened Wrappers

  datatype TaskState = Created | Running | Killed | Success

  /** The stored `state` string of each enum member. */
  function Encode(s: TaskState): string
  {
    match s
    case Created => "created"
    case Running => "running"
    case Killed => "killed"
    case Success => "success"
  }

  /**
   * Reads a stored `state` string back. A string that no member encodes gives
   * `None`: recovery logs such a task as being in an unknown state and skips it.
   */
  function Decode(raw: string): (r: Option<TaskState>)
    ensures r.Some? ==> Encode(r.value) == raw
    ensures r.None? ==> forall s: TaskState :: Encode(s) != raw
  {
    if raw == "created" then Some(Created)
    else if raw == "running" then Some(Running)
    else if raw == "killed" then Some(Killed)
    else if raw == "success" then Some(Success)
    else None
  }

  /** Every member survives a trip through the store. */
  lemma DecodeEncode(s: TaskState)
    ensures Decode(Encode(s)) == Some(s)
  {
  }

  /** No two members share a stored string, so comparing strings compares states. */
  lemma EncodeInjective(s: TaskState, t: TaskState)
    ensures Encode(s) == Encode(t) <==> s == t
  {
    DecodeEncode(s);
    DecodeEncode(t);
  }
}
