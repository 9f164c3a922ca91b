/** The JSON records the status engine stores in its disk cache. */
module Records {
  import opened Common

  /** The "outgoing" field: an integer, or one of the flags "1+", "?" (remote check timed
      out) and "-" (remote unreachable). Values read back from the cache may be any
      integer or string. */
  datatype Outgoing = Num(n: int) | Text(s: string) {
    /** Python truthiness of the stored value. */
    predicate Truthy() {
      match this
      case Num(n) => n != 0
      case Text(s) => s != ""
    }
  }

  const Zero: Outgoing := Num(0)
  const OnePlus: Outgoing := Text("1+")
  const Unknown: Outgoing := Text("?")
  const Unreachable: Outgoing := Text("-")

  /** The dictionary `Repo._getinfo` assembles: branch (None for a detached git head),
      changed and untracked paths, outgoing flag and stash count. */
  datatype RepoInfo = RepoInfo(
    branch: Option<string>,
    changed: seq<string>,
    untracked: seq<string>,
    outgoing: Outgoing,
    stashes: int)

  /** What one cache file holds: a repo record under the repo path, or an outgoing value
      under the repo path followed by "...outgoing". */
  datatype CacheValue = InfoValue(info: RepoInfo) | OutgoingValue(outgoing: Outgoing)
}
