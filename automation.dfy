/**
 * The automation backend: `runScript` (macOS, osascript) and `runPS` (Windows,
 * PowerShell). Running a script is an oracle from the query to what the OS
 * process did; everything above it is a function of that oracle.
 */
module Automation {
  import opened Text

  /** Each distinct script the detectors hand to the backend. */
  datatype Query =
    | ProcessListed(app: string)   // macOS: `(name of processes) contains "<app>"`
    | ZoomButtonText               // macOS: "|name~description" of every button of Zoom's window 1
    | ZoomWindowNames              // macOS: the names of all Zoom windows, as one string
    | ChromeActiveTabTitle         // macOS: title of Chrome's active tab in the front window
    | WinZoomProcess               // Windows: `(Get-Process -Name "Zoom" ...) -ne $null`
    | WinZoomButtonNames           // Windows: names of all buttons under Zoom, joined by ","

  /** What one spawned process did. */
  datatype Outcome =
    | ExecFailed               // the callback saw an error: non-zero exit, permission denial, or (PowerShell only) the 3-second timeout
    | Exited(stdout: string)   // the callback saw success with this standard output
    | SpawnThrew               // `exec` itself threw inside the Promise executor

  /** The OS, seen through the automation tool: one outcome per script. */
  type Oracle = Query -> Outcome

  /** A settled JavaScript promise. */
  datatype Settled<T> = Resolved(value: T) | Rejected

  /** A settled promise together with the scripts run, in order, to settle it. */
  datatype Traced<T> = Traced(result: Settled<T>, issued: seq<Query>)

  /**
   * The promise `runScript`/`runPS` returns: `''` on an error, the trimmed
   * standard output otherwise; it rejects only when `exec` throws synchronously.
   */
  function Reply(o: Outcome): (r: Settled<string>)
    ensures r.Rejected? <==> o.SpawnThrew?
    ensures o.ExecFailed? ==> r == Resolved("")
    ensures r.Resolved? ==> Trimmed(r.value)
  {
    match o
    case ExecFailed => Resolved("")
    case Exited(out) => Resolved(Trim(out))
    case SpawnThrew => Rejected
  }

  /** `await runScript(q)`: one script run, logged. */
  function Ask(ask: Oracle, q: Query): (r: Traced<string>)
    ensures r.issued == [q]
  {
    Traced(Reply(ask(q)), [q])
  }

  /** The value `Ask` settles to, when it resolves, is exactly what the process printed, trimmed. */
  lemma ReplyOfPaddedOutput(ask: Oracle, q: Query, p: string, out: string, s: string)
    requires ask(q) == Exited(p + out + s)
    requires AllSpace(p) && AllSpace(s) && Trimmed(out)
    ensures Ask(ask, q).result == Resolved(out)
  {
    TrimOfPadded(p, out, s);
  }
}
