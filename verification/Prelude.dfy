/** Types shared by every component of the model. */
module Prelude {

  datatype Option<+T> = None | Some(value: T)

  /** What a remote service does with one command.  `Raise(effective)` is a client-side
      exception; `effective` says whether the service had already carried the command out. */
  datatype Reply = Ok | No | Raise(effective: bool)

  /** The folder every mail account has. */
  const INBOX := "INBOX"

  /** One element goes over from the rest to what is done. */
  lemma Reassociate<T>(done: seq<T>, x: T, rest: seq<T>)
    ensures (done + [x]) + rest == done + ([x] + rest)
  {
  }
}
