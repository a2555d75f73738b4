/**
 * The detector router (`detector/index.js`): one implementation chosen from the
 * platform string when the module loads, and used for every detection after.
 */
module Router {
  import opened State
  import opened Automation
  import MacDetector
  import WinDetector

  datatype Detector =
    | MacOS       // `require('./macos')`
    | Windows     // `require('./windows')`
    | NoDesktop   // `{ detect: async () => ({ platform: null }) }`

  /** The choice made from `process.platform`. */
  function Select(platform: string): (d: Detector)
    ensures d == MacOS <==> platform == "darwin"
    ensures d == Windows <==> platform == "win32"
    ensures d == NoDesktop <==> platform != "darwin" && platform != "win32"
  {
    if platform == "darwin" then MacOS
    else if platform == "win32" then Windows
    else NoDesktop
  }

  /** `detector.detect()` for the chosen implementation. */
  function Detect(d: Detector, ask: Oracle): (r: Traced<MeetingState>)
    ensures d == NoDesktop ==> r == Traced(Resolved(NoMeeting), [])
    ensures r.result.Resolved? ==> r.result.value != Unset
  {
    match d
    case MacOS => MacDetector.Detect(ask)
    case Windows => WinDetector.Detect(ask)
    case NoDesktop => Traced(Resolved(NoMeeting), [])
  }

  /**
   * On any platform but macOS and Windows, detection never runs a script and
   * always settles to `{platform: null}`, whatever the OS would answer.
   */
  lemma OtherPlatformsReportNoMeeting(platform: string, ask: Oracle, ask': Oracle)
    requires platform != "darwin" && platform != "win32"
    ensures Detect(Select(platform), ask) == Detect(Select(platform), ask')
    ensures Detect(Select(platform), ask).result == Resolved(NoMeeting)
    ensures Detect(Select(platform), ask).issued == []
  {
  }

  /** The Windows detector runs Windows queries only. */
  lemma WindowsQueriesOnly(ask: Oracle)
    ensures forall q :: q in Detect(Windows, ask).issued ==> q == WinZoomProcess || q == WinZoomButtonNames
  {
    var issued := Detect(Windows, ask).issued;
    assert issued == [WinZoomProcess] || issued == [WinZoomProcess, WinZoomButtonNames] by {
      assert issued == WinDetector.GetZoomState(ask).issued;
    }
  }
}
