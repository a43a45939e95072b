/** Option and Result, with the faults a workspace operation can end with. */
module Outcomes {

  datatype Option<+T> = None | Some(value: T)

  /** Why a call did not succeed. `Crash` means the process died: nothing runs
      after it until the next call. `PortFailure` is an error reported by a port.
      The other faults are refusals of the operation itself. */
  datatype Fault =
    | Crash
    | PortFailure
    | CorruptHead            // head names a commit that is not stored
    | NoSuchCommit           // the requested commit is not stored
    | StaleCommit            // a journalled commit is older than head
    | MissingObject          // a content object is not stored
    | Rejected(why: Refusal) // the request itself is refused

  datatype Refusal =
    | BadPath
    | NoPaths
    | UnknownAgent
    | EmptyRepository
    | PathsMissing
    | TooLarge
    | ListedTwice
    | NothingListed
    | ChangedOutside
    | Conflicts
    | NothingChanged
    | NotTopLevel
    | HeadMoved
    | HeadRequired
    | LocalUnchanged
    | NoBackup
    | NotAsExpected
    | EmptyMessage
    | NotDeclared
    | NoBuildSection
    | EntriesMissing
    | WrongGuest

  datatype Result<+T> = Ok(value: T) | Err(error: Fault) {
    predicate IsFailure() {
      Err?
    }

    function PropagateFailure<U>(): (r: Result<U>)
      requires Err?
    {
      Err(error)
    }

    function Extract(): T
      requires Ok?
    {
      value
    }

    /** The call died or a port failed: nothing is wrong with the request or the store. */
    predicate Interrupted() {
      Err? && error in {Crash, PortFailure}
    }
  }
}
