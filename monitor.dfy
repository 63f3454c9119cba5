/** The browser-tab monitor as an object whose fields its methods update in
    place. Each method is proved to do what the matching step function of
    MonitorSpec says; delegate notifications are appended to a ghost log in
    the order the main queue would deliver them. */
module Monitor {
  import opened Wrappers
  import opened SwiftInt
  import opened Browsers
  import opened Tabs
  import opened MonitorSpec
  import opened MonitorProperties

  class BrowserTabMonitor {
    var currentBrowserType: Option<BrowserType>
    var lastTabInfo: Option<TabInfo>
    /** Milliseconds since the epoch of the last recorded check. */
    var lastCheckTime: int
    var lastAppBundleId: Option<string>
    /** `timer != nil`. */
    var timerScheduled: bool
    /** Repeating timers scheduled on the run loop and not yet invalidated.
        startMonitoring replaces `timer` without invalidating the old one,
        so this can exceed one. */
    ghost var liveTimers: nat
    /** Inspections queued on the background queue that have not run yet. */
    ghost var queuedInspections: nat
    /** Every `didUpdateTabInfo` notification sent to the delegate, in order. */
    ghost var notifications: seq<Option<TabInfo>>

    function State(): MonitorState
      reads this
    {
      MonitorState(currentBrowserType, lastTabInfo, lastCheckTime, lastAppBundleId)
    }

    ghost predicate Valid()
      reads this
    {
      Consistent(State()) && (timerScheduled ==> liveTimers > 0)
    }

    /** `init()`, which starts the timer. */
    constructor ()
      ensures Valid() && State() == Initial
      ensures timerScheduled && liveTimers == 1
      ensures queuedInspections == 0 && notifications == []
    {
      currentBrowserType := None;
      lastTabInfo := None;
      lastCheckTime := 0;
      lastAppBundleId := None;
      timerScheduled := true;
      liveTimers := 1;
      queuedInspections := 0;
      notifications := [];
    }

    method StartMonitoring()
      requires Valid()
      modifies this`timerScheduled, this`liveTimers
      ensures Valid()
      ensures timerScheduled && liveTimers == old(liveTimers) + 1
    {
      timerScheduled := true;
      liveTimers := liveTimers + 1;
    }

    method StopMonitoring()
      requires Valid()
      modifies this`timerScheduled, this`liveTimers
      ensures Valid()
      ensures !timerScheduled
      ensures liveTimers == if old(timerScheduled) then old(liveTimers) - 1 else old(liveTimers)
    {
      if timerScheduled {
        liveTimers := liveTimers - 1;
      }
      timerScheduled := false;
    }

    /** `notifyDelegate(with:)`: the main-queue hop becomes an append. */
    method NotifyDelegate(info: Option<TabInfo>)
      modifies this`notifications
      ensures notifications == old(notifications) + [info]
    {
      notifications := notifications + [info];
    }

    method ClearCurrentState()
      modifies this`currentBrowserType, this`lastTabInfo, this`notifications
      ensures State() == Cleared(old(State()))
      ensures notifications == old(notifications) + [None]
    {
      currentBrowserType := None;
      lastTabInfo := None;
      NotifyDelegate(None);
    }

    /** `executeAppleScript(for: browser)`, given what the script returned.
        Its callers inspect the current browser, or any browser when none is
        current. */
    method ExecuteAppleScript(browser: BrowserType, outcome: ScriptOutcome)
      requires Valid()
      requires currentBrowserType.Some? ==> currentBrowserType.value == browser
      modifies this`currentBrowserType, this`lastTabInfo, this`notifications
      ensures Valid()
      ensures State() == Inspect(old(State()), browser, outcome).state
      ensures notifications == old(notifications) + Inspect(old(State()), browser, outcome).emitted
    {
      InspectPreservesConsistent(State(), browser, outcome);
      if outcome.CreateFailed? || outcome.ExecutionError? {
        ClearCurrentState();
        return;
      }
      var items := outcome.items;
      var title := ItemString(items, 1);
      var url := ItemString(items, 2);
      var indexStr := ItemString(items, 3);
      if |items| > 0 && title.Some? && url.Some? && indexStr.Some? && ParseInt(indexStr.value).Some? {
        var tabIndex := ParseInt(indexStr.value).value;
        if title.value == [] || url.value == [] || tabIndex <= 0 {
          ClearCurrentState();
          return;
        }
        var newTabInfo := TabInfo(title.value, url.value, browser, tabIndex);
        // The isValid re-check that follows in the source always passes
        // here, so the clear in its else-branch is never reached.
        assert newTabInfo.IsValid();
        var hasChanged := lastTabInfo.None? || lastTabInfo.value.title != newTabInfo.title
                          || lastTabInfo.value.url != newTabInfo.url
                          || lastTabInfo.value.browserType != newTabInfo.browserType;
        if hasChanged {
          lastTabInfo := Some(newTabInfo);
          NotifyDelegate(Some(newTabInfo));
        }
      } else {
        ClearCurrentState();
      }
    }

    /** The inspection a tick queued on the background queue, when it runs:
        it reads `currentBrowserType` at that moment and falls back to Edge. */
    method RunQueuedInspection(outcome: ScriptOutcome)
      requires Valid() && queuedInspections > 0
      modifies this`currentBrowserType, this`lastTabInfo, this`notifications, this`queuedInspections
      ensures Valid()
      ensures State() == RunQueued(old(State()), outcome).state
      ensures notifications == old(notifications) + RunQueued(old(State()), outcome).emitted
      ensures queuedInspections == old(queuedInspections) - 1
    {
      var browser := currentBrowserType.GetOr(Edge);
      ExecuteAppleScript(browser, outcome);
      queuedInspections := queuedInspections - 1;
    }

    /** `checkCurrentTab()`, fired by a live timer at time `now` with `front`
        the frontmost application; `outcome` is what the inspection run in
        this tick on a browser switch returns. */
    method CheckCurrentTab(now: int, front: Option<FrontApp>, outcome: ScriptOutcome)
      requires Valid() && liveTimers > 0
      modifies this`currentBrowserType, this`lastTabInfo, this`lastCheckTime, this`lastAppBundleId
      modifies this`notifications, this`queuedInspections
      ensures Valid()
      ensures State() == Tick(old(State()), now, front, outcome).state
      ensures notifications == old(notifications) + Tick(old(State()), now, front, outcome).emitted
      ensures queuedInspections ==
        old(queuedInspections) + if Tick(old(State()), now, front, outcome).queued then 1 else 0
    {
      TickPreservesConsistent(State(), now, front, outcome);
      if now - lastCheckTime < MinimumCheckInterval {
        return;
      }
      if front.None? {
        if lastAppBundleId.Some? {
          lastAppBundleId := None;
          ClearCurrentState();
        }
        return;
      }
      if front.value.bundleId.None? {
        if lastAppBundleId.Some? {
          lastAppBundleId := None;
          ClearCurrentState();
        }
        return;
      }
      var bundleId := front.value.bundleId.value;
      if Some(bundleId) == lastAppBundleId {
        if currentBrowserType.Some? {
          queuedInspections := queuedInspections + 1;
        }
      } else {
        lastAppBundleId := Some(bundleId);
      }
      var browserType := Classify(bundleId);
      if browserType.None? {
        if currentBrowserType.Some? {
          ClearCurrentState();
        }
        return;
      }
      var browser := browserType.value;
      if Some(browser) != currentBrowserType {
        currentBrowserType := Some(browser);
        lastTabInfo := None;
        ExecuteAppleScript(browser, outcome);
      }
      lastCheckTime := now;
    }
  }
}
