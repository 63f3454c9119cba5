/** The monitor's state and what one poll tick, one inspection and one
    queued inspection do to it, as functions of the old state and of what
    the outside world reports. Times are integers in milliseconds. */
module MonitorSpec {
  import opened Wrappers
  import opened Browsers
  import opened Tabs

  /** `minimumCheckInterval`, one second. */
  const MinimumCheckInterval: int := 1000

  /** The frontmost application as NSWorkspace reports it: its bundle
      identifier and its localized name, either of which may be missing. */
  datatype FrontApp = FrontApp(bundleId: Option<string>, localizedName: Option<string>)

  datatype MonitorState = MonitorState(
    currentBrowserType: Option<BrowserType>,
    lastTabInfo: Option<TabInfo>,
    lastCheckTime: int,
    lastAppBundleId: Option<string>)

  /** The state after `init()`. */
  const Initial: MonitorState := MonitorState(None, None, 0, None)

  /** What the monitor keeps true between calls: the last tab is nil or
      valid; a recognised browser is the classification of the last
      application seen; and a tab held while a browser is recognised belongs
      to that browser. */
  ghost predicate Consistent(s: MonitorState) {
    && (s.lastTabInfo.Some? ==> s.lastTabInfo.value.IsValid())
    && (s.currentBrowserType.Some? ==>
          s.lastAppBundleId.Some? && Classify(s.lastAppBundleId.value) == s.currentBrowserType)
    && (s.currentBrowserType.Some? && s.lastTabInfo.Some? ==>
          s.lastTabInfo.value.browserType == s.currentBrowserType.value)
  }

  /** A new state and the delegate notifications it sends, in order. */
  datatype Step = Step(state: MonitorState, emitted: seq<Option<TabInfo>>)

  /** A tick's step, and whether it queued an inspection on the background
      queue. */
  datatype TickStep = TickStep(state: MonitorState, emitted: seq<Option<TabInfo>>, queued: bool)

  /** `clearCurrentState()` without its notification. */
  function Cleared(s: MonitorState): (r: MonitorState)
    ensures r.currentBrowserType.None? && r.lastTabInfo.None?
    ensures r.lastCheckTime == s.lastCheckTime && r.lastAppBundleId == s.lastAppBundleId
  {
    s.(currentBrowserType := None, lastTabInfo := None)
  }

  /** `executeAppleScript(for: browser)` given the script's outcome. */
  function Inspect(s: MonitorState, browser: BrowserType, outcome: ScriptOutcome): (r: Step)
    ensures r.state.lastCheckTime == s.lastCheckTime && r.state.lastAppBundleId == s.lastAppBundleId
    ensures r.emitted == [] || r.emitted == [r.state.lastTabInfo]
    ensures r.emitted == [] ==> r.state == s
  {
    match ReadTabInfo(outcome, browser)
    case None => Step(Cleared(s), [None])
    case Some(info) =>
      if HasChanged(s.lastTabInfo, info) then Step(s.(lastTabInfo := Some(info)), [Some(info)])
      else Step(s, [])
  }

  /** The inspection queued at a tick, when it runs: it inspects whatever
      browser is current then, and Edge when none is. */
  function RunQueued(s: MonitorState, outcome: ScriptOutcome): (r: Step)
    ensures s.currentBrowserType.Some? ==> r == Inspect(s, s.currentBrowserType.value, outcome)
    ensures s.currentBrowserType.None? ==> r == Inspect(s, Edge, outcome)
    ensures r.emitted == [] || r.emitted == [r.state.lastTabInfo]
  {
    Inspect(s, s.currentBrowserType.GetOr(Edge), outcome)
  }

  /** `checkCurrentTab()` at time `now`, with `front` the frontmost
      application and `outcome` what an inspection run during this tick
      reports (consulted only on a browser switch). */
  function Tick(s: MonitorState, now: int, front: Option<FrontApp>, outcome: ScriptOutcome): (r: TickStep)
    ensures |r.emitted| <= 1
    ensures r.emitted == [] || r.emitted == [r.state.lastTabInfo]
    ensures r.state.lastCheckTime == s.lastCheckTime || r.state.lastCheckTime == now
  {
    if now - s.lastCheckTime < MinimumCheckInterval then TickStep(s, [], false)
    else if front.None? || front.value.bundleId.None? then
      if s.lastAppBundleId.Some? then TickStep(Cleared(s.(lastAppBundleId := None)), [None], false)
      else TickStep(s, [], false)
    else
      var id := front.value.bundleId.value;
      var queued := Some(id) == s.lastAppBundleId && s.currentBrowserType.Some?;
      var s1 := s.(lastAppBundleId := Some(id));
      match Classify(id)
      case None =>
        if s1.currentBrowserType.Some? then TickStep(Cleared(s1), [None], queued)
        else TickStep(s1, [], queued)
      case Some(browser) =>
        if Some(browser) != s1.currentBrowserType then
          var r := Inspect(s1.(currentBrowserType := Some(browser), lastTabInfo := None), browser, outcome);
          TickStep(r.state.(lastCheckTime := now), r.emitted, queued)
        else TickStep(s1.(lastCheckTime := now), [], queued)
  }
}
