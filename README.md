# StatusSyn browser-tab monitor in Dafny

StatusSyn is a macOS status-bar app that watches the frontmost application
and, when it is Safari, Google Chrome or Microsoft Edge, the title and url of
the active tab. This project models its `BrowserTabMonitor`
(`StatusSyn/BrowserTabMonitor.swift`): a one-second poll that classifies the
frontmost application's bundle identifier, inspects the browser's active tab
(synchronously on a browser switch, on a background queue otherwise), drops a
tab whose title, url and browser repeat the last one's, and tells its delegate
of each new title, url or browser, sending nil on every clear.

Layout:

- `wrappers.dfy` — `Option`, for Swift's optionals.
- `swift_int.dfy` — `SwiftInt`: Swift's `Int(String)` on a 64-bit platform
  (optional sign, one or more ASCII digits, nil on overflow), with the decimal
  spelling of integers and the round trip between them.
- `browser_type.dfy` — `Browsers`: the three browsers, their bundle
  identifiers, and classification of a bundle identifier.
- `tab_info.dfy` — `Tabs`: `TabInfo` and `isValid`, the outcome of an
  inspection script, and how that outcome is read into a tab or into a clear.
- `monitor_spec.dfy` — `MonitorSpec`: the four fields of the monitor as a
  value, the monitor's invariant, and one tick, one inspection and one queued
  inspection as functions of the old state and what the outside world reports.
- `monitor_properties.dfy` — `MonitorProperties`: the lemmas about those
  functions (throttle, classification, switch, failure, dedup, invariant).
- `monitor.dfy` — `Monitor`: the class `BrowserTabMonitor` with the source's
  fields and methods, each method proved to move the state exactly as the
  matching function says; delegate notifications are a ghost log.
- `scenarios.dfy` — a client run of the class.

The outside world enters as parameters: the clock as an integer number of
milliseconds, the frontmost application as `Option<FrontApp>` (bundle
identifier and localized name, each optional), and the result of running an
inspection script as `ScriptOutcome` (`CreateFailed`, `ExecutionError`, or a
descriptor's items as optional strings).

Behaviour of the code worth knowing:

- the dedup compares title, url and browser only, not the tab index
  (`OtherTabSameContentUnreported`);
- `lastCheckTime` is recorded only when a recognised browser is in front
  (`CheckTimeRecordedOnlyForBrowsers`);
- a tick does not wait for a queued inspection to finish;
- with no frontmost application (or no bundle identifier) the state is cleared
  whenever an application had been seen before, browser or not
  (`NoFrontmostIdentity`);
- failures are not deduplicated: a browser in front that keeps failing its
  inspection sends a nil on every tick past the throttle
  (`PersistentFailureRenotifies`);
- a queued inspection that runs after a clear falls back to Edge and keeps
  the tab it reads although no browser is current
  (`QueuedInspectionAfterClear`), so the invariant the model keeps is that a
  held tab is valid, and belongs to the current browser while there is one
  (the latter only with inspections run as whole steps; see "## Left out").

## Model

| member | source | states |
|---|---|---|
| SwiftInt.ParseInt | StatusSyn/BrowserTabMonitor.swift:238 | a parsed index lies in the 64-bit range and comes from an optional sign followed only by digits; a negative one starts with `-` |
| SwiftInt.ParseIntString | StatusSyn/BrowserTabMonitor.swift:238 | every 64-bit integer, spelled in decimal, parses back to itself |
| SwiftInt.ParseIntOverflow | StatusSyn/BrowserTabMonitor.swift:238 | a decimal integer outside the 64-bit range parses to nil |
| Browsers.BundleIdentifier | StatusSyn/BrowserTabMonitor.swift:8-14 | every browser has a non-empty bundle identifier; BundleIdentifierInjective and Classify show that each identifies its browser alone |
| Browsers.BundleIdentifierInjective | StatusSyn/BrowserTabMonitor.swift:8-14 | the three browsers have three different bundle identifiers |
| Browsers.Classify | StatusSyn/BrowserTabMonitor.swift:173-187 | a bundle identifier maps to a browser exactly when it equals that browser's identifier, and to none exactly when it equals none of them |
| Tabs.TabInfo.IsValid | StatusSyn/BrowserTabMonitor.swift:96-98 | a tab is valid exactly when its title and url are non-empty and its index is at least 1 |
| Tabs.ItemString | StatusSyn/BrowserTabMonitor.swift:235-237 | every index from 1 to the item count gives the item at that position, and every other index gives nil |
| Tabs.ReadTabInfo | StatusSyn/BrowserTabMonitor.swift:217-251 | a tab read from a script outcome is valid, belongs to the inspected browser, and carries the first two items as title and url and the third, parsed, as index |
| Tabs.ReadReport | StatusSyn/BrowserTabMonitor.swift:96-98 | a tab's own three-string report reads back as that tab exactly when it is valid (non-empty title and url, index above zero), and as a clear otherwise |
| Tabs.ReadTabInfoSuccess | StatusSyn/BrowserTabMonitor.swift:234-251 | a descriptor whose first three items are strings, with non-empty title and url and an index parsing above zero, reads as exactly that tab for the inspected browser, whatever items follow |
| Tabs.ReadTabInfoFailures | StatusSyn/BrowserTabMonitor.swift:217-244 | script creation failure, execution error, fewer than three items, a missing string, a non-integer index, an empty title or url, or an index of zero or less all read as a clear |
| Tabs.NonNumericIndexClears | StatusSyn/BrowserTabMonitor.swift:238 | an index string with any character other than a leading sign and digits reads as a clear |
| Tabs.EdgeReport | StatusSyn/BrowserTabMonitor.swift:70 | for every non-empty title and url, the Edge script's report with index "1" reads as Edge's tab 1 with that title and url |
| Tabs.HasChanged | StatusSyn/BrowserTabMonitor.swift:256-258 | a tab is unchanged exactly when there is a last tab with the same title, url and browser |
| MonitorSpec.Cleared | StatusSyn/BrowserTabMonitor.swift:210-214 | clearing drops the browser and the tab and keeps the check time and the last application |
| MonitorSpec.Inspect | StatusSyn/BrowserTabMonitor.swift:216-273 | an inspection keeps the check time and last application, sends at most one notification, which carries the new last tab, and changes nothing when it sends none |
| MonitorSpec.RunQueued | StatusSyn/BrowserTabMonitor.swift:162-164 | a queued inspection inspects the browser current when it runs, and Edge when none is; any notification it sends carries the new last tab |
| MonitorSpec.Tick | StatusSyn/BrowserTabMonitor.swift:131-202 | a tick sends at most one notification, which carries the new last tab, and leaves the check time as it was or sets it to now |
| MonitorProperties.InitialConsistent | StatusSyn/BrowserTabMonitor.swift:107-112 | the initial state satisfies the monitor's invariant |
| MonitorProperties.InspectPreservesConsistent | StatusSyn/BrowserTabMonitor.swift:241-266 | an inspection of the current browser keeps the last tab nil or valid and of that browser |
| MonitorProperties.RunQueuedPreservesConsistent | StatusSyn/BrowserTabMonitor.swift:162-164 | a queued inspection keeps the invariant whenever it runs |
| MonitorProperties.TickPreservesConsistent | StatusSyn/BrowserTabMonitor.swift:131-202 | a tick keeps the invariant, and queues an inspection only while a browser is current |
| MonitorProperties.ThrottledTickIsNoOp | StatusSyn/BrowserTabMonitor.swift:132-137 | a tick less than one second after the last recorded check changes no field, notifies nothing and queues nothing |
| MonitorProperties.CheckTimeRecordedOnlyForBrowsers | StatusSyn/BrowserTabMonitor.swift:140-201 | the check time becomes now exactly when the tick passes the throttle and a recognised browser is in front; otherwise it is unchanged |
| MonitorProperties.NoFrontmostIdentity | StatusSyn/BrowserTabMonitor.swift:140-156 | with no frontmost application or no bundle identifier, the last application becomes nil, and the state is cleared with one nil notification only if an application had been seen |
| MonitorProperties.LeaveForNonBrowser | StatusSyn/BrowserTabMonitor.swift:174-186 | a non-browser application becomes the last application and queues nothing; the state is cleared with one nil notification only if a browser was current |
| MonitorProperties.BrowserSwitch | StatusSyn/BrowserTabMonitor.swift:194-201 | switching to a browser that is not current queues nothing and inspects it in the same tick: exactly one notification, carrying the new tab or nil, and the browser stays current only if the tab was read |
| MonitorProperties.SameBrowserQueuesInspection | StatusSyn/BrowserTabMonitor.swift:159-165 | a tick on the current browser only records the check time and queues one inspection |
| MonitorProperties.InspectFailureClears | StatusSyn/BrowserTabMonitor.swift:210-244 | a failed or invalid inspection clears browser and tab, keeps the last application and the check time, and sends exactly one nil notification |
| MonitorProperties.InspectDedup | StatusSyn/BrowserTabMonitor.swift:254-266 | a valid tab matching the last one in title, url and browser changes nothing and notifies nothing whatever its index; any other valid tab becomes the last tab and is notified once |
| MonitorProperties.RepeatedInspectionNotifiesOnce | StatusSyn/BrowserTabMonitor.swift:254-266 | two inspections in a row that read the same valid tab notify at most once |
| MonitorProperties.OtherTabSameContentUnreported | StatusSyn/BrowserTabMonitor.swift:256-258 | moving to another tab index with the same title and url is not reported |
| MonitorProperties.PersistentFailureRenotifies | StatusSyn/BrowserTabMonitor.swift:194-199 | while a browser in front keeps failing its inspection, every tick past the throttle sends another nil and returns to the same state |
| MonitorProperties.QueuedInspectionAfterClear | StatusSyn/BrowserTabMonitor.swift:162-164 | a queued inspection running with no current browser inspects Edge and keeps the tab it reads |
| Monitor.BrowserTabMonitor.constructor | StatusSyn/BrowserTabMonitor.swift:114-116 | a new monitor holds the initial state, has one timer scheduled, nothing queued and nothing notified |
| Monitor.BrowserTabMonitor.StartMonitoring | StatusSyn/BrowserTabMonitor.swift:118-124 | starting schedules a timer and adds one live timer, without invalidating a previous one |
| Monitor.BrowserTabMonitor.StopMonitoring | StatusSyn/BrowserTabMonitor.swift:126-129 | stopping clears the timer and invalidates the one it held, if any |
| Monitor.BrowserTabMonitor.NotifyDelegate | StatusSyn/BrowserTabMonitor.swift:204-208 | a notification is appended to the delegate's log |
| Monitor.BrowserTabMonitor.ClearCurrentState | StatusSyn/BrowserTabMonitor.swift:210-214 | the fields become the cleared state and one nil notification is appended |
| Monitor.BrowserTabMonitor.ExecuteAppleScript | StatusSyn/BrowserTabMonitor.swift:216-273 | the fields and the log move exactly as Inspect says, and the invariant is kept |
| Monitor.BrowserTabMonitor.RunQueuedInspection | StatusSyn/BrowserTabMonitor.swift:162-164 | a queued inspection moves fields and log as RunQueued says and leaves one fewer queued |
| Monitor.BrowserTabMonitor.CheckCurrentTab | StatusSyn/BrowserTabMonitor.swift:131-202 | the fields, the log and the queue move exactly as Tick says, and the invariant is kept |

## Left out

- The AppleScript texts and their execution (`NSAppleScript`): a foreign
  engine; only its outcome is modelled, as the `ScriptOutcome` parameter.
- `Timer` scheduling, its tolerance, and firing: a tick is a call of
  `CheckCurrentTab` allowed while a timer is live.
- Concurrency: the queued inspection runs on a background queue and may
  interleave with the rest of the tick that queued it and with later ticks;
  the model runs it as a separate step between ticks.
- MonitorSpec.Consistent: its clause that a held tab belongs to the current
  browser holds only because the model runs a queued inspection as one step.
  In the code a background inspection can read Chrome as current, a tick can
  then switch to Safari and store a Safari tab, and the inspection can still
  store and notify its Chrome tab, leaving Safari current with a Chrome tab.
  InspectPreservesConsistent, RunQueuedPreservesConsistent and
  TickPreservesConsistent carry that clause under the same assumption. The
  clause that a held tab is nil or valid holds regardless.
- Tabs.HasChanged: titles, urls and bundle identifiers are compared code
  point by code point, while Swift's `String ==` treats canonically
  equivalent spellings as equal (a title "Café" with U+00E9 and one with
  `e` followed by U+0301). On such spellings the model reports a change, and
  a bundle-identifier change in CheckCurrentTab, where the code sees none;
  on all other strings the two agree. Classification is unaffected, since no
  identifier has a second canonically equivalent spelling.
- Delegate delivery on the main queue and the weak delegate reference: a
  notification is an append to a ghost log; whether a delegate is attached is
  not modelled.
- `Date().timeIntervalSince1970`: time is an integer number of milliseconds,
  so sub-millisecond differences are not modelled.
- `NSWorkspace.shared.frontmostApplication`: a parameter.
- `print` logging, the `shouldLog` flag, `localizedName` and the browsers' raw
  names: they only feed log messages.
- `deinit`, which only calls `stopMonitoring`.
- The `isValid` re-check after the empty/zero guard of `executeAppleScript`
  always passes, so its else-branch clear is unreachable; the model proves
  that instead of coding the branch.
- `AppDelegate.swift`, `WorkspaceObserver.swift`, `NetworkService.swift` and
  `ConfigWindowController.swift`: status-bar drawing, menus, persistence,
  notification-centre plumbing, the network POST and the configuration
  dialog are outside the monitor and not part of this model. No debounce,
  resend suppression or payload formatting exists in these files, so none
  is modelled.
