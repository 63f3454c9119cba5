/** What the poll tick and the inspection promise, stated over the step
    functions of MonitorSpec. */
module MonitorProperties {
  import opened Wrappers
  import opened SwiftInt
  import opened Browsers
  import opened Tabs
  import opened MonitorSpec

  lemma InitialConsistent()
    ensures Consistent(Initial)
  {
  }

  /** An inspection keeps the invariant, provided it inspects the browser
      that is current (or any browser when none is). */
  lemma InspectPreservesConsistent(s: MonitorState, browser: BrowserType, outcome: ScriptOutcome)
    requires Consistent(s)
    requires s.currentBrowserType.Some? ==> s.currentBrowserType.value == browser
    ensures Consistent(Inspect(s, browser, outcome).state)
  {
  }

  /** A queued inspection keeps the invariant whenever it runs. */
  lemma RunQueuedPreservesConsistent(s: MonitorState, outcome: ScriptOutcome)
    requires Consistent(s)
    ensures Consistent(RunQueued(s, outcome).state)
  {
  }

  /** A tick keeps the invariant, and it only queues an inspection while a
      browser is recognised. */
  lemma TickPreservesConsistent(s: MonitorState, now: int, front: Option<FrontApp>, outcome: ScriptOutcome)
    requires Consistent(s)
    ensures Consistent(Tick(s, now, front, outcome).state)
    ensures Tick(s, now, front, outcome).queued ==> Tick(s, now, front, outcome).state.currentBrowserType.Some?
  {
  }

  /** The throttle: a tick less than a second after the last recorded check
      changes nothing, notifies nothing and queues nothing. */
  lemma ThrottledTickIsNoOp(s: MonitorState, now: int, front: Option<FrontApp>, outcome: ScriptOutcome)
    requires now - s.lastCheckTime < MinimumCheckInterval
    ensures Tick(s, now, front, outcome) == TickStep(s, [], false)
  {
  }

  /** The check time is recorded exactly when the tick gets past the
      throttle and finds a recognised browser in front; every other exit
      leaves it as it was. */
  lemma CheckTimeRecordedOnlyForBrowsers(s: MonitorState, now: int, front: Option<FrontApp>, outcome: ScriptOutcome)
    ensures Tick(s, now, front, outcome).state.lastCheckTime ==
      if now - s.lastCheckTime >= MinimumCheckInterval
         && front.Some? && front.value.bundleId.Some? && Classify(front.value.bundleId.value).Some?
      then now else s.lastCheckTime
  {
  }

  /** No frontmost application, or one without a bundle identifier: the
      last application is forgotten, and the state is cleared with one nil
      notification only if an application had been seen. */
  lemma NoFrontmostIdentity(s: MonitorState, now: int, front: Option<FrontApp>, outcome: ScriptOutcome)
    requires now - s.lastCheckTime >= MinimumCheckInterval
    requires front.None? || front.value.bundleId.None?
    ensures var r := Tick(s, now, front, outcome);
      && !r.queued
      && r.state.lastAppBundleId.None?
      && r.state.lastCheckTime == s.lastCheckTime
      && (s.lastAppBundleId.Some? ==> r.state == Cleared(s.(lastAppBundleId := None)) && r.emitted == [None])
      && (s.lastAppBundleId.None? ==> r.state == s && r.emitted == [])
  {
  }

  /** A frontmost application that is no browser: it becomes the last
      application, and the state is cleared with one nil notification only
      if a browser was recognised. */
  lemma LeaveForNonBrowser(s: MonitorState, now: int, id: string, name: Option<string>, outcome: ScriptOutcome)
    requires Consistent(s)
    requires now - s.lastCheckTime >= MinimumCheckInterval
    requires forall b :: id != BundleIdentifier(b)
    ensures var r := Tick(s, now, Some(FrontApp(Some(id), name)), outcome);
      && !r.queued
      && r.state.lastAppBundleId == Some(id)
      && r.state.lastCheckTime == s.lastCheckTime
      && r.state.currentBrowserType.None?
      && (s.currentBrowserType.Some? ==> r.state.lastTabInfo.None? && r.emitted == [None])
      && (s.currentBrowserType.None? ==> r.state.lastTabInfo == s.lastTabInfo && r.emitted == [])
  {
  }

  /** A browser switch (from another browser or from none): the browser
      becomes current, the last tab is dropped, nothing is queued, and the
      inspection runs in the same tick, so exactly one notification goes out, carrying the new
      tab or nil, and the state is cleared if the inspection failed. */
  lemma BrowserSwitch(s: MonitorState, now: int, b: BrowserType, name: Option<string>, outcome: ScriptOutcome)
    requires Consistent(s)
    requires now - s.lastCheckTime >= MinimumCheckInterval
    requires s.currentBrowserType != Some(b)
    ensures var r := Tick(s, now, Some(FrontApp(Some(BundleIdentifier(b)), name)), outcome);
      var read := ReadTabInfo(outcome, b);
      && !r.queued
      && r.emitted == [read]
      && r.state == MonitorState(if read.Some? then Some(b) else None, read, now, Some(BundleIdentifier(b)))
  {
  }

  /** Staying on the same browser: the tick only records the check time and
      queues an inspection for later. */
  lemma SameBrowserQueuesInspection(s: MonitorState, now: int, b: BrowserType, name: Option<string>, outcome: ScriptOutcome)
    requires Consistent(s)
    requires now - s.lastCheckTime >= MinimumCheckInterval
    requires s.currentBrowserType == Some(b)
    ensures Tick(s, now, Some(FrontApp(Some(BundleIdentifier(b)), name)), outcome)
         == TickStep(s.(lastCheckTime := now), [], true)
  {
  }

  /** A failed or invalid inspection clears the browser and the tab and
      sends one nil notification; the last application and the check time
      are left alone. */
  lemma InspectFailureClears(s: MonitorState, browser: BrowserType, outcome: ScriptOutcome)
    requires ReadTabInfo(outcome, browser).None?
    ensures Inspect(s, browser, outcome)
         == Step(MonitorState(None, None, s.lastCheckTime, s.lastAppBundleId), [None])
  {
  }

  /** The dedup: a valid tab with the last tab's title, url and browser
      changes nothing and notifies nothing, whatever its index; any other
      valid tab becomes the last tab and is notified once. */
  lemma InspectDedup(s: MonitorState, browser: BrowserType, outcome: ScriptOutcome)
    requires ReadTabInfo(outcome, browser).Some?
    ensures var info := ReadTabInfo(outcome, browser).value;
      var same := s.lastTabInfo.Some? && s.lastTabInfo.value.title == info.title
                  && s.lastTabInfo.value.url == info.url && s.lastTabInfo.value.browserType == info.browserType;
      Inspect(s, browser, outcome)
      == if same then Step(s, []) else Step(s.(lastTabInfo := Some(info)), [Some(info)])
  {
  }

  /** Two inspections in a row that read the same valid tab notify at most
      once: the second is always dropped. */
  lemma RepeatedInspectionNotifiesOnce(s: MonitorState, browser: BrowserType, outcome: ScriptOutcome)
    requires ReadTabInfo(outcome, browser).Some?
    ensures var first := Inspect(s, browser, outcome);
      Inspect(first.state, browser, outcome) == Step(first.state, [])
  {
  }

  /** Moving to another tab with the same title and url in the same browser
      goes unreported, because the index is not compared. */
  lemma OtherTabSameContentUnreported(s: MonitorState, t: TabInfo, k: int)
    requires s.lastTabInfo == Some(t) && t.IsValid()
    requires 0 < k <= IntMax
    ensures Inspect(s, t.browserType, Descriptor(Report(t.(tabIndex := k)))) == Step(s, [])
  {
    ReadReport(t.(tabIndex := k));
  }

  /** Failures are not deduplicated: while a browser keeps failing its
      inspection, every tick after the throttle counts it as a new switch
      and sends another nil notification, leaving the same state behind. */
  lemma PersistentFailureRenotifies(s: MonitorState, now: int, b: BrowserType, name: Option<string>, outcome: ScriptOutcome)
    requires s.currentBrowserType.None? && s.lastAppBundleId == Some(BundleIdentifier(b))
    requires now - s.lastCheckTime >= MinimumCheckInterval
    requires ReadTabInfo(outcome, b).None?
    ensures Tick(s, now, Some(FrontApp(Some(BundleIdentifier(b)), name)), outcome)
         == TickStep(MonitorState(None, None, now, s.lastAppBundleId), [None], false)
  {
  }

  /** A queued inspection that runs after the state was cleared inspects
      Edge, and a tab it reads is kept although no browser is current. */
  lemma QueuedInspectionAfterClear(s: MonitorState, t: TabInfo)
    requires s.currentBrowserType.None? && s.lastTabInfo.None?
    requires t.browserType == Edge && t.IsValid() && t.tabIndex <= IntMax
    ensures RunQueued(s, Descriptor(Report(t))) == Step(s.(lastTabInfo := Some(t)), [Some(t)])
  {
    ReadReport(t);
  }
}
