/** A client run of the monitor: what a caller can conclude from the method
    contracts alone. */
module Scenarios {
  import opened Wrappers
  import opened SwiftInt
  import opened Browsers
  import opened Tabs
  import opened MonitorSpec
  import opened MonitorProperties
  import opened Monitor

  /** Chrome comes to the front with a tab, a tick inside the throttle does
      nothing, the next tick queues an inspection that reads the same tab
      again, and Finder then comes to the front. The delegate hears the tab
      once and then one nil. */
  method SwitchDedupLeave() {
    var m := new BrowserTabMonitor();
    var chrome := Some(FrontApp(Some("com.google.Chrome"), Some("Google Chrome")));
    var finder := Some(FrontApp(Some("com.apple.finder"), Some("Finder")));
    var tab := TabInfo("Dafny", "https://dafny.org", Chrome, 2);
    var report := Descriptor([Some("Dafny"), Some("https://dafny.org"), Some("2")]);
    assert BundleIdentifier(Chrome) == "com.google.Chrome";
    ReadReport(tab);
    assert IntString(2) == "2";

    m.CheckCurrentTab(1000, chrome, report);
    BrowserSwitch(Initial, 1000, Chrome, Some("Google Chrome"), report);
    assert m.notifications == [Some(tab)];

    m.CheckCurrentTab(1500, chrome, CreateFailed);
    assert m.notifications == [Some(tab)] && m.queuedInspections == 0;

    m.CheckCurrentTab(2000, chrome, CreateFailed);
    assert m.queuedInspections == 1;
    m.RunQueuedInspection(report);
    assert m.notifications == [Some(tab)];

    m.CheckCurrentTab(3000, finder, CreateFailed);
    assert m.notifications == [Some(tab), None];
    assert m.lastTabInfo.None? && m.currentBrowserType.None?;
  }
}
