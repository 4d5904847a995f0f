/**
 * What the two cores see of their collaborators (REST, XMPP, the other services).
 * A collaborator is not executed: each call it would answer is given to the model
 * as a scripted reply, and each operation reports how its promise settles.
 */
module Remote {

  datatype Option<+T> = None | Some(value: T)

  /** How a collaborator answers one call; `NoAnswer` is a call that never returns. */
  datatype Reply<+T> = Ok(value: T) | Err(reason: string) | NoAnswer

  /** How the promise an operation returns settles; `Pending` is a promise that never settles. */
  datatype Settled<+T, +E> = Resolved(value: T) | Rejected(error: E) | Pending

  /** The answer to the `k`-th call of a script; calls beyond the script are never answered. */
  function ReplyAt<T>(replies: seq<Reply<T>>, k: nat): Reply<T>
  {
    if k < |replies| then replies[k] else NoAnswer
  }

  // ---------------------------------------------------------------- traces

  /** Appending to a trace in two steps is appending once. */
  lemma AppendTwice<T>(a: seq<T>, b: seq<T>, c: seq<T>)
    ensures (a + b) + c == a + (b + c)
  {
  }

  /** A prefix one longer is the prefix followed by the next element. */
  lemma PrefixGrows<T>(s: seq<T>, k: nat)
    requires k < |s|
    ensures s[..k + 1] == s[..k] + [s[k]]
  {
  }

  /** Extending a prefix and the sequence by the same front keeps it a prefix. */
  lemma PrefixPrepend<T>(a: seq<T>, b: seq<T>, c: seq<T>)
    requires b <= c
    ensures a + b <= a + c
  {
  }
}
