/** Failure-compatible wrappers and the error kinds the program raises. */
module Common {

  datatype Option<+T> = None | Some(value: T)

  /** Every exception the modelled code raises, as a value. */
  datatype Error =
    | UnexpectedStatusLine(line: string)   // `statuslines`: a line with an unknown status code
    | UnexpectedBranchLine(line: string)   // `getoutgoing`: a `git branch` line outside the grammar
    | AssertionFailed(what: string)        // a bare `assert` statement of the source
    | OutgoingFailed(output: string)       // `hg outgoing` failed for an unrecognised reason
    | UnencodableKey(key: string)          // `_getcachepath` on a key holding ':'
    | MalformedRecord                      // a cached value that is not shaped as the reader expects
    | NoSpaceInLine(number: nat)           // config: `line.split(' ', 1)` gave one part
    | InvalidFlag(number: nat, flag: string) // config: a flag other than IGNORE=... or SPOTLIGHT
    | InvalidLine(number: nat)             // config: an unknown keyword
    | BadProjectPath(path: string)         // a PROJECT directory with neither .git nor .hg
    | NoProject(arg: string)               // `present_summary` found nothing
    | MissingAttribute(name: string)       // attribute lookup on an object that lacks it
    | FileNotFound(path: string)           // `os.stat` on a file that does not exist
    | NotSerialisable(what: string)        // `json.dumps` of a value JSON cannot hold

  datatype Result<+T> = Ok(value: T) | Err(error: Error) {
    predicate IsFailure() { Err? }
    function PropagateFailure<U>(): Result<U>
      requires Err?
    {
      Err(error)
    }
    function Extract(): T
      requires Ok?
    {
      value
    }
  }
}
