/** The tab record the monitor reports, and how an inspection's outcome is
    read into one (the guard chain of executeAppleScript). */
module Tabs {
  import opened Wrappers
  import opened SwiftInt
  import opened Browsers

  datatype TabInfo = TabInfo(title: string, url: string, browserType: BrowserType, tabIndex: int) {

    /** `TabInfo.isValid`. */
    predicate IsValid()
      ensures IsValid() <==> |title| > 0 && |url| > 0 && tabIndex >= 1
    {
      title != [] && url != [] && tabIndex > 0
    }
  }

  /** What running a browser's inspection script gives back: the script
      could not be created, it raised an error, or it returned a list
      descriptor whose items are given in order, each as its string value
      (None when an item has none). */
  datatype ScriptOutcome =
    | CreateFailed
    | ExecutionError
    | Descriptor(items: seq<Option<string>>)

  /** `descriptor.atIndex(i)?.stringValue`: items are numbered from 1, and an
      index past the end has no value. */
  function ItemString(items: seq<Option<string>>, i: nat): (r: Option<string>)
    ensures 1 <= i <= |items| ==> r == items[i - 1]
    ensures !(1 <= i <= |items|) ==> r.None?
  {
    if 1 <= i <= |items| then items[i - 1] else None
  }

  /** The guards of executeAppleScript up to building `newTabInfo`: None is
      every path that ends in clearCurrentState. */
  function ReadTabInfo(outcome: ScriptOutcome, browser: BrowserType): (r: Option<TabInfo>)
    ensures r.Some? ==> r.value.IsValid() && r.value.browserType == browser
    ensures r.Some? ==> outcome.Descriptor? && |outcome.items| >= 3
    ensures r.Some? ==> outcome.items[0] == Some(r.value.title) && outcome.items[1] == Some(r.value.url)
    ensures r.Some? ==> outcome.items[2].Some? && ParseInt(outcome.items[2].value) == Some(r.value.tabIndex)
  {
    match outcome
    case CreateFailed => None
    case ExecutionError => None
    case Descriptor(items) =>
      if |items| > 0
         && ItemString(items, 1).Some? && ItemString(items, 2).Some? && ItemString(items, 3).Some?
         && ParseInt(ItemString(items, 3).value).Some?
      then
        var title := ItemString(items, 1).value;
        var url := ItemString(items, 2).value;
        var tabIndex := ParseInt(ItemString(items, 3).value).value;
        if title == [] || url == [] || tabIndex <= 0 then None
        else Some(TabInfo(title, url, browser, tabIndex))
      else None
  }

  /** The three strings a browser's script returns for a tab:
      `{tabTitle, tabURL, tabIndex as string}`. */
  function Report(t: TabInfo): seq<Option<string>> {
    [Some(t.title), Some(t.url), Some(IntString(t.tabIndex))]
  }

  /** Reading a tab's own report gives that tab back exactly when the tab is
      valid: the validity boundary of isValid, seen through the reader. */
  lemma ReadReport(t: TabInfo)
    requires IntMin <= t.tabIndex <= IntMax
    ensures ReadTabInfo(Descriptor(Report(t)), t.browserType) == Some(t) <==> t.IsValid()
    ensures !t.IsValid() ==> ReadTabInfo(Descriptor(Report(t)), t.browserType) == None
  {
    ParseIntString(t.tabIndex);
  }

  /** Every failure path of executeAppleScript reads as None, and so ends in
      a clear: script creation, execution, a short or non-string descriptor,
      an index string that is not an integer, an empty title or url, or an
      index of zero or less. */
  lemma ReadTabInfoFailures(outcome: ScriptOutcome, browser: BrowserType)
    requires || outcome == CreateFailed
             || outcome == ExecutionError
             || (outcome.Descriptor? && |outcome.items| < 3)
             || (outcome.Descriptor? && exists i :: 0 <= i < |outcome.items| && i < 3 && outcome.items[i].None?)
             || (outcome.Descriptor? && |outcome.items| >= 3 && outcome.items[2].Some? && ParseInt(outcome.items[2].value).None?)
             || (outcome.Descriptor? && |outcome.items| >= 2 && (outcome.items[0] == Some([]) || outcome.items[1] == Some([])))
             || (outcome.Descriptor? && |outcome.items| >= 3 && outcome.items[2].Some?
                 && ParseInt(outcome.items[2].value).Some? && ParseInt(outcome.items[2].value).value <= 0)
    ensures ReadTabInfo(outcome, browser) == None
  {
  }

  /** Every other outcome reads as the tab it describes: a descriptor whose
      first three items are strings, with a non-empty title and url and an
      index that parses to a value above zero, gives that tab for the
      inspected browser, whatever items follow. */
  lemma ReadTabInfoSuccess(outcome: ScriptOutcome, browser: BrowserType)
    requires outcome.Descriptor? && |outcome.items| >= 3
    requires outcome.items[0].Some? && outcome.items[1].Some? && outcome.items[2].Some?
    requires outcome.items[0].value != [] && outcome.items[1].value != []
    requires ParseInt(outcome.items[2].value).Some? && ParseInt(outcome.items[2].value).value > 0
    ensures ReadTabInfo(outcome, browser)
         == Some(TabInfo(outcome.items[0].value, outcome.items[1].value, browser, ParseInt(outcome.items[2].value).value))
  {
  }

  /** Every integer string outside "optional sign, then digits" is rejected,
      so such an index always clears. */
  lemma NonNumericIndexClears(title: string, url: string, index: string, browser: BrowserType)
    requires exists i :: 0 <= i < |index| && !IsDigit(index[i]) && !(i == 0 && IsSign(index[i]) && |index| > 1)
    ensures ReadTabInfo(Descriptor([Some(title), Some(url), Some(index)]), browser) == None
  {
  }

  /** The Edge script always reports index "1": whenever its title and url
      are non-empty, the read gives Edge's tab 1 with that title and url. */
  lemma EdgeReport(title: string, url: string)
    requires title != [] && url != []
    ensures ReadTabInfo(Descriptor([Some(title), Some(url), Some("1")]), Edge) == Some(TabInfo(title, url, Edge, 1))
  {
    ParseIntString(1);
    assert IntString(1) == "1";
  }

  /** The dedup test: a new tab counts as a change unless the last one has
      the same title, url and browser. The tab index is not compared. */
  function HasChanged(last: Option<TabInfo>, next: TabInfo): (changed: bool)
    ensures !changed <==> last.Some? && (last.value.title, last.value.url, last.value.browserType) == (next.title, next.url, next.browserType)
  {
    last.None? || last.value.title != next.title || last.value.url != next.url
    || last.value.browserType != next.browserType
  }
}
