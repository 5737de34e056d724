/** The decisions of the client-side anti-cheat hooks
    (src/lib/security/anti-cheat.ts).

    Each hook keeps a little state in a closure or a React ref and reports
    violations to a handler.  Here a detector is a class whose fields are that
    state, whose methods are the event callbacks, and whose `reports` field is
    the sequence of violations handed to `onViolation` so far.  Browser facts
    (visibility, stream state, screen geometry, `navigator.onLine`, the clock)
    are parameters of the callbacks; timestamps in the reports are left out. */
module AntiCheat {
  import opened Text
  import Schemas
  import Session

  /** `ViolationType`, the client's list of violations. */
  datatype ViolationType =
    | TabSwitch | ScreenShareStopped | PageRefresh | MultipleMonitors
    | DevtoolsDetected | NetworkFailure | BrowserClosed | CopyPasteDetected

  /** The wire name of each violation. */
  function ViolationName(v: ViolationType): string {
    match v
    case TabSwitch => "tab_switch"
    case ScreenShareStopped => "screen_share_stopped"
    case PageRefresh => "page_refresh"
    case MultipleMonitors => "multiple_monitors"
    case DevtoolsDetected => "devtools_detected"
    case NetworkFailure => "network_failure"
    case BrowserClosed => "browser_closed"
    case CopyPasteDetected => "copy_paste_detected"
  }

  /** The name stored with a violation identifies its kind. */
  lemma ViolationNamesDistinct(v: ViolationType, w: ViolationType)
    ensures ViolationName(v) == ViolationName(w) ==> v == w
  {
    if ViolationName(v) == ViolationName(w) {
      assert ViolationName(v)[0] == ViolationName(w)[0];
    }
  }

  /** The client and the server disagree on one name each: the server's
      violation schema accepts every client name except `copy_paste_detected`,
      and it accepts `timer_exceeded`, which no client violation carries. */
  lemma ClientAndServerViolationTypes()
    ensures forall v :: Schemas.ViolationTypeAccepted(ViolationName(v)) <==> v != CopyPasteDetected
    ensures Schemas.ViolationTypeAccepted("timer_exceeded")
    ensures forall v :: ViolationName(v) != "timer_exceeded"
    ensures forall v, w :: ViolationName(v) == ViolationName(w) ==> v == w
  {
    forall v ensures Schemas.ViolationTypeAccepted(ViolationName(v)) <==> v != CopyPasteDetected {
      if v == CopyPasteDetected {
        assert ViolationName(v)[0] == 'c';
        assert forall i :: 0 <= i < |Schemas.SERVER_VIOLATION_TYPES| ==> Schemas.SERVER_VIOLATION_TYPES[i][0] != 'c';
      } else {
        var k := match v
          case TabSwitch => 0 case ScreenShareStopped => 1 case PageRefresh => 2
          case MultipleMonitors => 3 case DevtoolsDetected => 4 case NetworkFailure => 5
          case BrowserClosed => 6 case CopyPasteDetected => 7;
        assert ViolationName(v) == Schemas.SERVER_VIOLATION_TYPES[k];
      }
    }
    forall v, w | ViolationName(v) == ViolationName(w) ensures v == w {
      assert ViolationName(v)[..3] == ViolationName(w)[..3];
      assert |ViolationName(v)| == |ViolationName(w)|;
    }
  }

  // ---------------------------------------------------------------------------
  // Reports
  // ---------------------------------------------------------------------------

  datatype TrackState = Live | Ended

  /** A media track: its `kind` ("video", "audio") and `readyState`. */
  datatype Track = Track(kind: string, readyState: TrackState)

  /** A `MediaStream`: its `active` flag and its tracks in `getTracks()` order. */
  datatype Stream = Stream(active: bool, tracks: seq<Track>)

  /** What `window.screen` and the window report (CSS pixels). */
  datatype Geometry = Geometry(screenWidth: int, screenHeight: int, availWidth: int, availHeight: int,
                               screenX: int, screenY: int, outerWidth: int, outerHeight: int)

  /** The metadata each hook attaches to its report. */
  datatype Detail =
    | TabSwitchCount(violationCount: int)
    | Unload
    | StreamTracks(tracks: seq<Track>)
    | TrackEnded
    | Screens(geometry: Geometry)
    | Paste(dataLength: nat)
    | Copy
    | Offline(online: bool)

  datatype Violation = Violation(kind: ViolationType, detail: Detail)

  // ---------------------------------------------------------------------------
  // Tab switching
  // ---------------------------------------------------------------------------

  /** The number of events in which the document was hidden. */
  function CountHidden(events: seq<bool>): nat {
    if |events| == 0 then 0 else CountHidden(events[..|events| - 1]) + (if events[|events| - 1] then 1 else 0)
  }

  /** The reports of the tab-switch hook over a series of `visibilitychange`
      events (`true` when the document is hidden): one per hidden event, and the
      `i`-th carries the count `i + 1`. */
  function TabSwitchReports(events: seq<bool>): (r: seq<Violation>)
    ensures |r| == CountHidden(events)
    ensures forall i :: 0 <= i < |r| ==> r[i] == Violation(TabSwitch, TabSwitchCount(i + 1))
  {
    if |events| == 0 then []
    else
      var before := TabSwitchReports(events[..|events| - 1]);
      if events[|events| - 1] then before + [Violation(TabSwitch, TabSwitchCount(|before| + 1))]
      else before
  }

  /** `useTabSwitchDetection`: the closure variable `violationCount`. */
  class TabSwitchDetector {
    var violationCount: int
    var reports: seq<Violation>
    ghost var events: seq<bool>

    ghost predicate Valid()
      reads this
    {
      reports == TabSwitchReports(events) && violationCount == |reports|
    }

    constructor ()
      ensures Valid() && events == [] && reports == []
    {
      violationCount := 0;
      reports := [];
      events := [];
    }

    /** `handleVisibilityChange`, with `hidden` standing for `document.hidden`. */
    method HandleVisibilityChange(hidden: bool)
      requires Valid()
      modifies this
      ensures Valid() && events == old(events) + [hidden]
      ensures hidden ==> reports == old(reports) + [Violation(TabSwitch, TabSwitchCount(old(violationCount) + 1))]
      ensures !hidden ==> reports == old(reports) && violationCount == old(violationCount)
    {
      events := events + [hidden];
      assert events[..|events| - 1] == old(events);
      if hidden {
        violationCount := violationCount + 1;
        reports := reports + [Violation(TabSwitch, TabSwitchCount(violationCount))];
      }
    }
  }

  // ---------------------------------------------------------------------------
  // Page unload
  // ---------------------------------------------------------------------------

  const UNLOAD_MESSAGE := "Are you sure you want to leave? Your test progress will be lost and you will be disqualified."

  datatype UnloadResponse = NotWatched | Confirm(report: Violation, message: string)

  /** `usePageUnloadDetection`: when enabled, every `beforeunload` reports a
      `page_refresh` and asks the browser to confirm with the fixed message. */
  function BeforeUnload(enabled: bool): (r: UnloadResponse)
    ensures r.Confirm? <==> enabled
    ensures r.Confirm? ==> r.report.kind == PageRefresh && r.message == UNLOAD_MESSAGE
  {
    if !enabled then NotWatched else Confirm(Violation(PageRefresh, Unload), UNLOAD_MESSAGE)
  }

  // ---------------------------------------------------------------------------
  // Screen sharing
  // ---------------------------------------------------------------------------

  /** `getVideoTracks().some(track => track.readyState === 'live')`. */
  predicate SomeLiveVideo(tracks: seq<Track>)
    ensures SomeLiveVideo(tracks) <==>
      exists i :: 0 <= i < |tracks| && tracks[i].kind == "video" && tracks[i].readyState == Live
  {
    if |tracks| == 0 then false
    else if tracks[0].kind == "video" && tracks[0].readyState == Live then true
    else
      assert forall i :: 1 <= i < |tracks| ==> tracks[i] == tracks[1..][i - 1];
      SomeLiveVideo(tracks[1..])
  }

  /** The stream counts as active when it is active and one of its video
      tracks is live. */
  predicate StreamActive(s: Stream) {
    s.active && SomeLiveVideo(s.tracks)
  }

  /** One poll: a report only on the edge from active to inactive. */
  function PollReport(previousActive: bool, s: Stream): (r: seq<Violation>)
    ensures |r| <= 1
    ensures |r| == 1 <==> previousActive && !StreamActive(s)
    ensures |r| == 1 ==> r[0] == Violation(ScreenShareStopped, StreamTracks(s.tracks))
  {
    if previousActive && !StreamActive(s) then [Violation(ScreenShareStopped, StreamTracks(s.tracks))] else []
  }

  /** The reports of a series of polls starting from `previousActive`. */
  function PollRun(previousActive: bool, polls: seq<Stream>): seq<Violation>
    decreases |polls|
  {
    if |polls| == 0 then []
    else PollReport(previousActive, polls[0]) + PollRun(StreamActive(polls[0]), polls[1..])
  }

  /** However many inactive polls follow one another, the loss is reported once,
      and only when the stream had been active before them. */
  lemma {:induction false} InactivePollsReportOnce(previousActive: bool, polls: seq<Stream>)
    requires forall i :: 0 <= i < |polls| ==> !StreamActive(polls[i])
    ensures |PollRun(previousActive, polls)| == (if previousActive && |polls| > 0 then 1 else 0)
    decreases |polls|
  {
    if |polls| > 0 {
      InactivePollsReportOnce(false, polls[1..]);
    }
  }

  /** Every poll report is a `screen_share_stopped`, and there are never more
      reports than polls. */
  lemma {:induction false} PollRunReportsStops(previousActive: bool, polls: seq<Stream>)
    ensures |PollRun(previousActive, polls)| <= |polls|
    ensures forall i :: 0 <= i < |PollRun(previousActive, polls)| ==>
      PollRun(previousActive, polls)[i].kind == ScreenShareStopped
    decreases |polls|
  {
    if |polls| > 0 {
      PollRunReportsStops(StreamActive(polls[0]), polls[1..]);
    }
  }

  /** `useScreenShareMonitoring`: the ref `previousActiveRef`, initially true. */
  class ScreenShareMonitor {
    var previousActive: bool
    var reports: seq<Violation>

    constructor ()
      ensures previousActive && reports == []
    {
      previousActive := true;
      reports := [];
    }

    /** `checkStreamActive`, run once at mount and then every two seconds. */
    method CheckStreamActive(s: Stream)
      modifies this
      ensures previousActive == StreamActive(s)
      ensures reports == old(reports) + PollReport(old(previousActive), s)
    {
      var isActive := s.active && SomeLiveVideo(s.tracks);
      if previousActive && !isActive {
        reports := reports + [Violation(ScreenShareStopped, StreamTracks(s.tracks))];
      }
      previousActive := isActive;
    }

    /** `handleTrackEnded`: reports whatever the polls have seen. */
    method HandleTrackEnded()
      modifies this
      ensures previousActive == old(previousActive)
      ensures reports == old(reports) + [Violation(ScreenShareStopped, TrackEnded)]
    {
      reports := reports + [Violation(ScreenShareStopped, TrackEnded)];
    }
  }

  // ---------------------------------------------------------------------------
  // Multiple monitors
  // ---------------------------------------------------------------------------

  /** The extended-desktop test, computed as the source does with the factor 1.5. */
  function HasMultipleMonitors(g: Geometry): (r: bool)
    ensures r <==>
      (2 * g.screenWidth > 3 * g.availWidth || 2 * g.screenHeight > 3 * g.availHeight
       || g.screenX < 0 || g.screenY < 0
       || g.screenX + g.outerWidth > g.availWidth || g.screenY + g.outerHeight > g.availHeight)
  {
    g.screenWidth as real > g.availWidth as real * 1.5
    || g.screenHeight as real > g.availHeight as real * 1.5
    || g.screenX < 0
    || g.screenY < 0
    || g.screenX + g.outerWidth > g.availWidth
    || g.screenY + g.outerHeight > g.availHeight
  }

  /** A window placed inside the available area of an unextended screen is not flagged. */
  lemma SingleScreenIsNotFlagged(g: Geometry)
    requires g.screenWidth == g.availWidth >= 0 && g.screenHeight == g.availHeight >= 0
    requires 0 <= g.screenX && g.screenX + g.outerWidth <= g.availWidth
    requires 0 <= g.screenY && g.screenY + g.outerHeight <= g.availHeight
    ensures !HasMultipleMonitors(g)
  {
  }

  /** `useMultiMonitorDetection`: one check when the grace period has run out
      (`elapsedMs` since mount, the timeout still pending). */
  function MultiMonitorReports(g: Geometry, elapsedMs: int, gracePeriodMs: int): (r: seq<Violation>)
    ensures |r| <= 1
    ensures |r| == 1 <==> elapsedMs >= gracePeriodMs && HasMultipleMonitors(g)
    ensures |r| == 1 ==> r[0] == Violation(MultipleMonitors, Screens(g))
  {
    if elapsedMs >= gracePeriodMs && HasMultipleMonitors(g) then [Violation(MultipleMonitors, Screens(g))] else []
  }

  // ---------------------------------------------------------------------------
  // Developer tools
  // ---------------------------------------------------------------------------

  /** A `keydown` event: `key` and the four modifier flags. */
  datatype KeyEvent = KeyEvent(key: string, ctrlKey: bool, shiftKey: bool, metaKey: bool, altKey: bool)

  datatype DomEvent = ContextMenu | KeyDown(e: KeyEvent)

  /** The shortcut rules of `handleKeyDown`, in the order they are tried. */
  datatype Shortcut = F12 | InspectShortcut | InspectElement | ViewSource | MacInspect

  function MatchShortcut(e: KeyEvent): (r: Option<Shortcut>)
    ensures r == Some(F12) <==> e.key == "F12"
    ensures r.Some? ==> e.key in ["F12", "I", "C", "u", "i"]
    ensures r.None? <==>
      !(e.key == "F12" || (e.ctrlKey && e.shiftKey && (e.key == "I" || e.key == "C"))
        || (e.ctrlKey && e.key == "u") || (e.metaKey && e.altKey && e.key == "i"))
  {
    if e.key == "F12" then Some(F12)
    else if e.ctrlKey && e.shiftKey && e.key == "I" then Some(InspectShortcut)
    else if e.ctrlKey && e.shiftKey && e.key == "C" then Some(InspectElement)
    else if e.ctrlKey && e.key == "u" then Some(ViewSource)
    else if e.metaKey && e.altKey && e.key == "i" then Some(MacInspect)
    else None
  }

  /** `useDisableDevTools`: whether the handler calls `preventDefault`.  The context
      menu is always suppressed; a key only when it is one of the five shortcuts. */
  function PreventsDefault(ev: DomEvent): (blocked: bool)
    ensures ev.ContextMenu? ==> blocked
    ensures ev.KeyDown? ==> (blocked <==> MatchShortcut(ev.e).Some?)
  {
    match ev
    case ContextMenu => true
    case KeyDown(e) => MatchShortcut(e).Some?
  }

  /** Typing without Ctrl or Meta passes through, except F12; the rules are
      case-sensitive, so Ctrl+'U' and Ctrl+Shift+'i' are not blocked. */
  lemma OrdinaryKeysPassThrough(e: KeyEvent)
    ensures !e.ctrlKey && !e.metaKey && e.key != "F12" ==> !PreventsDefault(KeyDown(e))
    ensures e.ctrlKey && !e.metaKey && e.key == "U" ==> !PreventsDefault(KeyDown(e))
    ensures e.ctrlKey && e.shiftKey && !e.metaKey && e.key == "i" ==> !PreventsDefault(KeyDown(e))
  {
  }

  // ---------------------------------------------------------------------------
  // Copy and paste
  // ---------------------------------------------------------------------------

  /** A clipboard event; a paste carries the clipboard text when there is any. */
  datatype ClipboardEvent = PasteEvent(text: Option<string>) | CopyEvent

  /** `useCopyPasteDetection`: a paste always reports, with the text's length
      (0 without clipboard data); a copy reports only when `detectCopy` is set. */
  function ClipboardReports(ev: ClipboardEvent, detectCopy: bool): (r: seq<Violation>)
    ensures |r| <= 1
    ensures ev.PasteEvent? ==>
      r == [Violation(CopyPasteDetected, Paste(if ev.text.Some? then |ev.text.value| else 0))]
    ensures ev.CopyEvent? ==> (|r| == 1 <==> detectCopy)
    ensures forall i :: 0 <= i < |r| ==> r[i].kind == CopyPasteDetected
  {
    match ev
    case PasteEvent(text) =>
      var dataLength := if text.Some? then |text.value| else 0;
      [Violation(CopyPasteDetected, Paste(dataLength))]
    case CopyEvent =>
      if detectCopy then [Violation(CopyPasteDetected, Copy)] else []
  }

  // ---------------------------------------------------------------------------
  // Network
  // ---------------------------------------------------------------------------

  /** A connectivity event, with `navigator.onLine` at the time of an `offline`. */
  datatype NetEvent = WentOnline | WentOffline(onLine: bool)

  /** The number of `offline` events in a series. */
  function CountOffline(events: seq<NetEvent>): nat {
    if |events| == 0 then 0 else CountOffline(events[..|events| - 1]) + (if events[|events| - 1].WentOffline? then 1 else 0)
  }

  /** The reports of the network hook: one for an initially offline browser, then
      one per `offline` event. */
  function NetworkReports(initiallyOnline: bool, events: seq<NetEvent>): (r: seq<Violation>)
    ensures |r| == CountOffline(events) + (if initiallyOnline then 0 else 1)
    ensures forall i :: 0 <= i < |r| ==> r[i].kind == NetworkFailure
  {
    if |events| == 0 then (if initiallyOnline then [] else [Violation(NetworkFailure, Offline(false))])
    else
      var before := NetworkReports(initiallyOnline, events[..|events| - 1]);
      match events[|events| - 1]
      case WentOnline => before
      case WentOffline(onLine) => before + [Violation(NetworkFailure, Offline(onLine))]
  }

  /** The `wasOfflineRef` flag after a series of events. */
  function WasOffline(initiallyOnline: bool, events: seq<NetEvent>): bool {
    if |events| == 0 then !initiallyOnline else events[|events| - 1].WentOffline?
  }

  /** `useNetworkMonitoring`: the ref `wasOfflineRef`. */
  class NetworkMonitor {
    var wasOffline: bool
    var reports: seq<Violation>
    ghost const initiallyOnline: bool
    ghost var events: seq<NetEvent>

    ghost predicate Valid()
      reads this
    {
      reports == NetworkReports(initiallyOnline, events) && wasOffline == WasOffline(initiallyOnline, events)
    }

    /** Mount: the ref starts false, then an offline browser is reported at once. */
    constructor (onLine: bool)
      ensures Valid() && initiallyOnline == onLine && events == []
      ensures wasOffline == !onLine
      ensures reports == if onLine then [] else [Violation(NetworkFailure, Offline(onLine))]
    {
      initiallyOnline := onLine;
      events := [];
      wasOffline := false;
      reports := [];
      if !onLine {
        wasOffline := true;
        reports := reports + [Violation(NetworkFailure, Offline(onLine))];
      }
    }

    /** `handleOnline`: only clears the flag. */
    method HandleOnline()
      requires Valid()
      modifies this
      ensures Valid() && events == old(events) + [WentOnline]
      ensures !wasOffline && reports == old(reports)
    {
      events := events + [WentOnline];
      assert events[..|events| - 1] == old(events);
      if wasOffline {
        wasOffline := false;
      }
    }

    /** `handleOffline`: sets the flag and reports. */
    method HandleOffline(onLine: bool)
      requires Valid()
      modifies this
      ensures Valid() && events == old(events) + [WentOffline(onLine)]
      ensures wasOffline && reports == old(reports) + [Violation(NetworkFailure, Offline(onLine))]
    {
      events := events + [WentOffline(onLine)];
      assert events[..|events| - 1] == old(events);
      wasOffline := true;
      reports := reports + [Violation(NetworkFailure, Offline(onLine))];
    }
  }

  // ---------------------------------------------------------------------------
  // The master hook
  // ---------------------------------------------------------------------------

  /** The options of `useAntiCheat`; `None` stands for a field left undefined. */
  datatype AntiCheatOptions = AntiCheatOptions(
    screenShareStream: Option<Stream>,
    enableTabDetection: Option<bool>,
    enableUnloadDetection: Option<bool>,
    enableMultiMonitor: Option<bool>,
    enableDevToolsBlock: Option<bool>,
    enableCopyPasteDetection: Option<bool>,
    enableNetworkMonitoring: Option<bool>,
    multiMonitorGracePeriod: Option<int>)

  /** The hooks the master hook installs: for each, `None` when it is not
      called, else the arguments it is called with. */
  datatype Installed = Installed(
    tabSwitch: bool,
    pageUnload: Option<bool>,
    screenShare: Option<Stream>,
    multiMonitor: Option<int>,
    devTools: bool,
    copyPaste: Option<bool>,
    network: bool)

  /** `useAntiCheat`: an undefined flag takes its default, and the copy/paste
      hook is always given `detectCopy = false`. */
  function EnabledHooks(o: AntiCheatOptions): (r: Installed)
    ensures r.tabSwitch <==> o.enableTabDetection != Some(false)
    ensures r.pageUnload.Some? <==> o.enableUnloadDetection != Some(false)
    ensures r.pageUnload.Some? ==> r.pageUnload.value
    ensures r.screenShare == o.screenShareStream
    ensures r.multiMonitor.Some? <==> o.enableMultiMonitor != Some(false)
    ensures r.multiMonitor.Some? ==>
      r.multiMonitor.value == (if o.multiMonitorGracePeriod.Some? then o.multiMonitorGracePeriod.value else 10000)
    ensures r.devTools <==> o.enableDevToolsBlock != Some(false)
    ensures r.copyPaste.Some? <==> o.enableCopyPasteDetection == Some(true)
    ensures r.copyPaste.Some? ==> !r.copyPaste.value
    ensures r.network <==> o.enableNetworkMonitoring != Some(false)
  {
    Installed(
      o.enableTabDetection.GetOr(true),
      if o.enableUnloadDetection.GetOr(true) then Some(true) else None,
      o.screenShareStream,
      if o.enableMultiMonitor.GetOr(true) then Some(o.multiMonitorGracePeriod.GetOr(10000)) else None,
      o.enableDevToolsBlock.GetOr(true),
      if o.enableCopyPasteDetection.GetOr(false) then Some(false) else None,
      o.enableNetworkMonitoring.GetOr(true))
  }

  /** With every option left undefined, all detectors run except copy/paste
      detection, and the multi-monitor check waits ten seconds. */
  lemma DefaultHooks()
    ensures EnabledHooks(AntiCheatOptions(None, None, None, None, None, None, None, None))
      == Installed(true, Some(true), None, Some(10000), true, None, true)
  {
  }

  /** Under the master hook a copy is never reported. */
  lemma MasterHookNeverReportsCopy(o: AntiCheatOptions)
    requires EnabledHooks(o).copyPaste.Some?
    ensures ClipboardReports(CopyEvent, EnabledHooks(o).copyPaste.value) == []
  {
  }

  // ---------------------------------------------------------------------------
  // The test timer
  // ---------------------------------------------------------------------------

  /** The seconds left at `now`: whole seconds elapsed are `Math.floor` of the
      millisecond difference over 1000, and the result is never below zero. */
  function RemainingSeconds(durationSeconds: int, startTime: int, now: int): (r: int)
    ensures r >= 0
    ensures now >= startTime ==> r <= Max(0, durationSeconds)
    ensures r == 0 <==> now - startTime >= durationSeconds * 1000
  {
    var elapsed := (now - startTime) / 1000;
    Max(0, durationSeconds - elapsed)
  }

  /** The candidate's countdown for a test of `minutes` minutes reads zero by the
      time the server's `isTestTimeExpired` check refuses the test. */
  lemma ServerExpiryStopsTimer(minutes: int, startTime: int, now: int)
    ensures Session.IsTestTimeExpired(startTime, minutes, now) ==> RemainingSeconds(minutes * 60, startTime, now) == 0
  {
  }

  /** At the very instant the allotted time ends the countdown already reads
      zero, while the server still accepts the test: its check is strict. */
  lemma TimerEndsBeforeServerExpiry(minutes: int, startTime: int)
    ensures RemainingSeconds(minutes * 60, startTime, startTime + minutes * 60000) == 0
    ensures !Session.IsTestTimeExpired(startTime, minutes, startTime + minutes * 60000)
  {
  }

  /** As the clock advances the remaining time never grows. */
  lemma RemainingNeverIncreases(durationSeconds: int, startTime: int, t1: int, t2: int)
    requires t1 <= t2
    ensures RemainingSeconds(durationSeconds, startTime, t2) <= RemainingSeconds(durationSeconds, startTime, t1)
  {
    DivisionIsMonotone(t1 - startTime, t2 - startTime);
  }

  lemma DivisionIsMonotone(a: int, b: int)
    requires a <= b
    ensures a / 1000 <= b / 1000
  {
    var qa, qb := a / 1000, b / 1000;
    assert 1000 * qa + a % 1000 == a;
    assert 1000 * qb + b % 1000 == b;
  }

  /** `useTestTimer`: the refs `startTimeRef`, `remainingRef` and `intervalRef`.
      `running` is whether the one-second interval is still installed, and
      `ticks` and `timeUps` are the calls of `onTick` and `onTimeUp`. */
  class TestTimer {
    const durationSeconds: int
    const hasOnTick: bool
    var startTime: int
    var remaining: int
    var running: bool
    var ticks: seq<int>
    var timeUps: nat

    /** `onTimeUp` fires once, exactly when the interval has been cleared, and
        only after the remaining time reached zero. */
    predicate Valid()
      reads this
    {
      (running && timeUps == 0) || (!running && timeUps == 1 && remaining == 0)
    }

    /** The effect: the clock is read and the interval installed. */
    constructor (durationSeconds: int, hasOnTick: bool, now: int)
      ensures Valid() && running
      ensures this.durationSeconds == durationSeconds && this.hasOnTick == hasOnTick
      ensures startTime == now && remaining == durationSeconds && ticks == [] && timeUps == 0
    {
      this.durationSeconds := durationSeconds;
      this.hasOnTick := hasOnTick;
      startTime := now;
      remaining := durationSeconds;
      running := true;
      ticks := [];
      timeUps := 0;
    }

    /** One firing of the interval, which the browser only delivers while it is
        installed. */
    method Tick(now: int)
      requires Valid() && running
      modifies this
      ensures Valid()
      ensures startTime == old(startTime)
      ensures remaining == RemainingSeconds(durationSeconds, startTime, now)
      ensures ticks == old(ticks) + (if hasOnTick then [remaining] else [])
      ensures running <==> remaining != 0
    {
      var elapsed := (now - startTime) / 1000;
      var r := Max(0, durationSeconds - elapsed);
      remaining := r;
      if hasOnTick {
        ticks := ticks + [r];
      }
      if r == 0 {
        running := false;
        timeUps := timeUps + 1;
      }
    }

    /** `getRemainingTime`. */
    function GetRemainingTime(): (r: int)
      reads this
      ensures Valid() && !running ==> r == 0
    {
      remaining
    }
  }
}
