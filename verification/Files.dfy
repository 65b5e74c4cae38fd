/** What the sinks that keep a chain of files have in common. */
module Files {

  datatype Option<T> = None | Some(value: T)

  /** A file as it is on disk, or nothing. */
  function At<T>(files: map<string, T>, name: string): Option<T> {
    if name in files then Some(files[name]) else None
  }

  /** Whether the next open or rename succeeds; past the end of the list all do. */
  predicate Succeeds(outcomes: seq<bool>) {
    outcomes == [] || outcomes[0]
  }

  function After(outcomes: seq<bool>): seq<bool> {
    if outcomes == [] then [] else outcomes[1..]
  }

  predicate AllSucceed(outcomes: seq<bool>) {
    forall k :: 0 <= k < |outcomes| ==> outcomes[k]
  }
}
