/*
 * Device classification for the layout: mobile, tablet or desktop from the
 * width media queries, the screen orientation and the user-agent string,
 * plus touch support.
 */
module DeviceDetection {
  import opened Wrappers
  import opened Text

  /** What the browser reports. `navigatorAgent` is `None` where there is no
    * `navigator`; `orientation` is `None` where the orientation API is absent. */
  datatype Environment = Environment(
    navigatorAgent: Option<string>,
    hasWindow: bool,
    hasOntouchstart: bool,
    maxTouchPoints: int,
    mobileQuery: bool,   // (max-width: 768px)
    tabletQuery: bool,   // (min-width: 769px) and (max-width: 1024px)
    desktopQuery: bool,  // (min-width: 1025px)
    orientation: Option<string>)

  datatype Device = Device(
    userAgent: string,
    isMobile: bool,
    isTablet: bool,
    isDesktop: bool,
    isTouch: bool,
    isLandscape: bool)

  /** Characters a regular expression's `.` does not match. */
  predicate IsLineTerminator(c: char) {
    c == '\n' || c == '\r' || c == '\U{2028}' || c == '\U{2029}'
  }

  predicate LineFree(s: string) {
    forall k :: 0 <= k < |s| ==> !IsLineTerminator(s[k])
  }

  /** The lookahead `(?=.*mobile)` at position `i`: "mobile" starts later on the same line. */
  predicate MobileLater(s: string, i: nat)
    requires i <= |s|
  {
    exists q :: i <= q <= |s| && LineFree(s[i..q]) && StartsWith(s[q..], "mobile")
  }

  /** `android(?!.*mobile)`: some "android" not followed by "mobile" on its line. */
  predicate AndroidWithoutMobile(s: string) {
    exists p :: 0 <= p && p + 7 <= |s| && StartsWith(s[p..], "android") && !MobileLater(s, p + 7)
  }

  /** `/android|iphone|ipod|mobile/i` on the lower-cased agent. */
  predicate PhoneAgent(ua: string) {
    Contains(ua, "android") || Contains(ua, "iphone") || Contains(ua, "ipod") || Contains(ua, "mobile")
  }

  /** `/ipad|tablet|playbook|silk|android(?!.*mobile)/i` on the lower-cased agent. */
  predicate TabletAgent(ua: string) {
    Contains(ua, "ipad") || Contains(ua, "tablet") || Contains(ua, "playbook") || Contains(ua, "silk")
      || AndroidWithoutMobile(ua)
  }

  predicate Landscape(orientation: Option<string>) {
    orientation.Some? && Contains(orientation.value, "landscape")
  }

  /** `useDeviceDetection`: every flag of the composable. */
  function Detect(env: Environment): (d: Device)
    ensures d.userAgent == env.navigatorAgent.GetOr("")
    ensures d.isDesktop <==> env.desktopQuery && !d.isMobile && !d.isTablet
    ensures d.isTouch <==> env.hasWindow && (env.hasOntouchstart || env.maxTouchPoints > 0)
    ensures env.mobileQuery ==> d.isMobile
    ensures d.isMobile <==> env.mobileQuery || (d.isLandscape && PhoneAgent(Lower(d.userAgent)))
    ensures d.isTablet <==> env.tabletQuery || TabletAgent(Lower(d.userAgent))
    ensures d.isLandscape <==> env.orientation.Some? && Contains(env.orientation.value, "landscape")
  {
    var userAgent := env.navigatorAgent.GetOr("");
    var ua := Lower(userAgent);
    var isTouch := env.hasWindow && (env.hasOntouchstart || env.maxTouchPoints > 0);
    var isLandscape := Landscape(env.orientation);
    var isMobile := env.mobileQuery || (isLandscape && PhoneAgent(ua));
    var isTablet := TabletAgent(ua) || env.tabletQuery;
    var isDesktop := env.desktopQuery && !isMobile && !isTablet;
    Device(userAgent, isMobile, isTablet, isDesktop, isTouch, isLandscape)
  }

  /** An agent naming Android but never "mobile" is a tablet agent. */
  lemma AndroidOnlyIsTablet(ua: string)
    requires Contains(ua, "android") && !Contains(ua, "mobile")
    ensures TabletAgent(ua)
  {
    var p :| 0 <= p <= |ua| && StartsWith(ua[p..], "android");
    assert forall q :: 0 <= q <= |ua| ==> !StartsWith(ua[q..], "mobile");
    assert StartsWith(ua[p..], "android") && !MobileLater(ua, p + 7);
  }

  /** Such a device held in landscape counts as both mobile and tablet, and so
    * never as desktop, whatever the width. */
  lemma AndroidTabletInLandscape(env: Environment)
    requires env.navigatorAgent.Some? && Landscape(env.orientation)
    requires Contains(Lower(env.navigatorAgent.value), "android")
    requires !Contains(Lower(env.navigatorAgent.value), "mobile")
    ensures var d := Detect(env); d.isMobile && d.isTablet && !d.isDesktop
  {
    AndroidOnlyIsTablet(Lower(env.navigatorAgent.value));
  }

  /** Whatever the agent says, a desktop classification needs the desktop width. */
  lemma DesktopNeedsWidth(env: Environment)
    requires Detect(env).isDesktop
    ensures env.desktopQuery && !env.mobileQuery && !env.tabletQuery
    ensures !Contains(Lower(Detect(env).userAgent), "ipad")
  {
  }
}
