/**
  Whether the combined file can be served as it is: it must exist, and the
  watcher must report no change since the last build.
 */
module Staleness {
  import opened Common

  /** One entry of a change set: a watched file and when it changed. */
  datatype Change = Change(path: Path, time: int)

  /** The watcher's reply to "what changed since": a change set or an error. */
  datatype ChangeAnswer = Changes(changes: seq<Change>) | QueryFailed(message: string)

  /**
    checkIfCombinedFilesAreUpToDate: fileExists is what the file system says about
    the combined file; answer is the watcher's reply to the change query for the
    last build time, consulted only when the file fileExists.
   */
  function CheckIfUpToDate(fileExists: bool, answer: ChangeAnswer): (r: Result<bool>)
    ensures !fileExists ==> r == Ok(false)
    ensures r == Ok(true) <==> fileExists && answer == Changes([])
    ensures r.Err? <==> fileExists && answer.QueryFailed?
  {
    if !fileExists then Ok(false)
    else match answer
      case QueryFailed(message) => Err(ChangeQueryFailed(message))
      case Changes(changes) => Ok(|changes| == 0)
  }

  /**
    A reference change history: the watcher's change set since t is every
    recorded change later than t, in recorded order.
   */
  function ChangesSince(history: seq<Change>, t: int): (r: seq<Change>)
    ensures |r| <= |history|
    ensures forall c | c in r :: c in history && c.time > t
    ensures forall c | c in history && c.time > t :: c in r
  {
    if history == [] then []
    else if history[0].time > t then [history[0]] + ChangesSince(history[1..], t)
    else ChangesSince(history[1..], t)
  }

  /**
    Against such a history, the combined file counts as up to date exactly
    when it fileExists and no watched file changed after the last build time.
   */
  lemma UpToDateIffUnchangedSince(fileExists: bool, history: seq<Change>, t: int)
    ensures CheckIfUpToDate(fileExists, Changes(ChangesSince(history, t))) == Ok(true)
        <==> fileExists && forall c | c in history :: c.time <= t
  {
    var r := ChangesSince(history, t);
    if fileExists && r != [] {
      assert r[0] in r;
    }
  }
}
