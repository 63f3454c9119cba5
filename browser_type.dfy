/** The three browsers the monitor recognises, and how a frontmost
    application's bundle identifier is classified against them. */
module Browsers {
  import opened Wrappers

  datatype BrowserType = Safari | Chrome | Edge

  /** The macOS bundle identifier of each browser. */
  function BundleIdentifier(b: BrowserType): (id: string)
    ensures |id| > 0
  {
    match b
    case Safari => "com.apple.Safari"
    case Chrome => "com.google.Chrome"
    case Edge => "com.microsoft.edgemac"
  }

  /** No two browsers share a bundle identifier, so classification is
      unambiguous. */
  lemma BundleIdentifierInjective(a: BrowserType, b: BrowserType)
    ensures BundleIdentifier(a) == BundleIdentifier(b) <==> a == b
  {
  }

  /** The `switch bundleId` in checkCurrentTab: an exact match against each
      browser's identifier, and none for every other application. */
  function Classify(bundleId: string): (r: Option<BrowserType>)
    ensures forall b :: r == Some(b) <==> bundleId == BundleIdentifier(b)
    ensures r.None? <==> forall b :: bundleId != BundleIdentifier(b)
  {
    BundleIdentifierInjective(Safari, Chrome);
    BundleIdentifierInjective(Safari, Edge);
    BundleIdentifierInjective(Chrome, Edge);
    if bundleId == BundleIdentifier(Safari) then Some(Safari)
    else if bundleId == BundleIdentifier(Chrome) then Some(Chrome)
    else if bundleId == BundleIdentifier(Edge) then Some(Edge)
    else None
  }
}
