/**
 * The site Header: the navigation list with its active-item rule, shared by the
 * desktop bar and the mobile menu, and two pieces of state, `isScrolled` (set by
 * the window scroll handler) and `isMobileMenuOpen` (flipped by the menu button,
 * cleared by a click on a mobile link).
 */
module Header {
  import opened Wrappers
  import opened JsBuiltins

  datatype NavItem = NavItem(title: string, href: string)

  /** The navigation entries, in display order. */
  const NavItems: seq<NavItem> := [
    NavItem("Docs", "/docs"),
    NavItem("Crates", "/crates"),
    NavItem("Examples", "/examples"),
    NavItem("Use Cases", "/use-cases"),
    NavItem("Roadmap", "/roadmap")
  ]

  /** The header counts as scrolled once `window.scrollY` exceeds this many pixels. */
  const ScrollThreshold: real := 10.0

  // ---------------------------------------------------------------------------
  // Active navigation item

  /** `isActive(href)`: the root link is active only on the root page; any other
      link is active on every path that starts with its href, as a plain string
      prefix. A missing pathname makes `pathname?.startsWith` undefined: inactive. */
  function IsActive(pathname: Option<string>, href: string): (r: bool)
    ensures href == "/" ==> (r <==> pathname == Some("/"))
    ensures href != "/" ==> (r <==> pathname.Some? && href <= pathname.value)
  {
    if href == "/" then pathname == Some("/")
    else match pathname
      case None => false
      case Some(p) => StartsWith(p, href)
  }

  /** The prefix rule is not segment-aware: `/docsx` and `/docs/getting-started`
      both activate `/docs`; the root path and a missing pathname do not. */
  lemma IsActiveExamples()
    ensures IsActive(Some("/docsx"), "/docs")
    ensures IsActive(Some("/docs/getting-started"), "/docs")
    ensures !IsActive(Some("/"), "/docs")
    ensures !IsActive(None, "/docs")
    ensures IsActive(Some("/"), "/") && !IsActive(Some("/docs"), "/")
  {
  }

  /** Strings that differ at their second character are not prefixes of each other. */
  lemma DifferentSecondCharNotPrefix(a: string, b: string)
    requires |a| >= 2 && |b| >= 2 && a[1] != b[1]
    ensures !(a <= b)
  {
  }

  /** No navigation href is a prefix of another, and none is the root. */
  lemma NavHrefsPrefixFree()
    ensures forall i | 0 <= i < |NavItems| :: NavItems[i].href != "/"
    ensures forall i, j | 0 <= i < |NavItems| && 0 <= j < |NavItems| && i != j ::
      !(NavItems[i].href <= NavItems[j].href)
  {
    forall i, j | 0 <= i < |NavItems| && 0 <= j < |NavItems| && i != j
      ensures !(NavItems[i].href <= NavItems[j].href)
    {
      DifferentSecondCharNotPrefix(NavItems[i].href, NavItems[j].href);
    }
  }

  /** Whatever the pathname, at most one navigation item is active. */
  lemma AtMostOneActive(pathname: Option<string>, i: nat, j: nat)
    requires i < |NavItems| && j < |NavItems| && i != j
    requires IsActive(pathname, NavItems[i].href)
    ensures !IsActive(pathname, NavItems[j].href)
  {
    NavHrefsPrefixFree();
    var a, b := NavItems[i].href, NavItems[j].href;
    if IsActive(pathname, b) {
      var p := pathname.value;
      if |a| <= |b| {
        PrefixesOfSameString(a, b, p);
      } else {
        PrefixesOfSameString(b, a, p);
      }
      assert false;
    }
  }

  // ---------------------------------------------------------------------------
  // Navigation links

  /** A rendered navigation link: its text, its target and its class string. */
  datatype NavLink = NavLink(text: string, href: string, active: bool, className: string)

  const DesktopLinkBase: string := "nav-link px-4 py-2 rounded-md text-sm font-medium transition-colors "
  const MobileLinkBase: string := "block px-4 py-2 rounded-md text-sm font-medium transition-colors "
  const MobileActiveColours: string := "bg-primary/10 text-primary"
  const MobileIdleColours: string := "text-muted-foreground hover:text-foreground hover:bg-muted"

  function DesktopLink(item: NavItem, pathname: Option<string>): NavLink {
    var active := IsActive(pathname, item.href);
    NavLink(item.title, item.href, active,
      DesktopLinkBase + (if active then "active" else ""))
  }

  function MobileLink(item: NavItem, pathname: Option<string>): NavLink {
    var active := IsActive(pathname, item.href);
    NavLink(item.title, item.href, active,
      MobileLinkBase + (if active then MobileActiveColours else MobileIdleColours))
  }

  /** The desktop bar: one link per navigation item, in order. */
  function DesktopNav(pathname: Option<string>): (links: seq<NavLink>)
    ensures |links| == |NavItems|
    ensures forall i | 0 <= i < |links| ::
      links[i].text == NavItems[i].title && links[i].href == NavItems[i].href &&
      links[i].active == IsActive(pathname, NavItems[i].href)
    ensures forall i | 0 <= i < |links| ::
      links[i].className == DesktopLinkBase + (if links[i].active then "active" else "")
  {
    seq(|NavItems|, i requires 0 <= i < |NavItems| => DesktopLink(NavItems[i], pathname))
  }

  /** The mobile menu's list: one link per navigation item, in order. */
  function MobileNav(pathname: Option<string>): (links: seq<NavLink>)
    ensures |links| == |NavItems|
    ensures forall i | 0 <= i < |links| ::
      links[i].text == NavItems[i].title && links[i].href == NavItems[i].href &&
      links[i].active == IsActive(pathname, NavItems[i].href)
    ensures forall i | 0 <= i < |links| ::
      links[i].className ==
        MobileLinkBase + (if links[i].active then MobileActiveColours else MobileIdleColours)
  {
    seq(|NavItems|, i requires 0 <= i < |NavItems| => MobileLink(NavItems[i], pathname))
  }

  /** Desktop and mobile navigation list the same items in the same order and
      mark the same one active; they differ only in styling. */
  lemma DesktopAndMobileAgree(pathname: Option<string>)
    ensures |DesktopNav(pathname)| == |MobileNav(pathname)|
    ensures forall i | 0 <= i < |DesktopNav(pathname)| ::
      DesktopNav(pathname)[i].(className := "") == MobileNav(pathname)[i].(className := "")
  {
  }

  /** At most one link of the desktop bar carries the `active` class. */
  lemma DesktopHasAtMostOneActive(pathname: Option<string>, i: nat, j: nat)
    requires i < |DesktopNav(pathname)| && j < |DesktopNav(pathname)| && i != j
    requires DesktopNav(pathname)[i].active
    ensures !DesktopNav(pathname)[j].active
    ensures DesktopNav(pathname)[j].className == DesktopLinkBase
  {
    AtMostOneActive(pathname, i, j);
    assert DesktopLinkBase + "" == DesktopLinkBase;
  }

  // ---------------------------------------------------------------------------
  // Header state

  datatype HeaderState = HeaderState(isScrolled: bool, isMobileMenuOpen: bool)

  /** Both `useState(false)`. */
  const InitialHeader: HeaderState := HeaderState(false, false)

  /** The events that change the header's state. */
  datatype Event =
    | Scroll(scrollY: real)   // the window scroll listener fires
    | ToggleMenu              // the mobile menu button is clicked
    | NavLinkClick            // a link in the mobile menu is clicked

  /** `handleScroll`: `isScrolled` becomes `scrollY > 10`. */
  function OnScroll(s: HeaderState, scrollY: real): (r: HeaderState)
    ensures r.isScrolled <==> scrollY > ScrollThreshold
    ensures r.isMobileMenuOpen == s.isMobileMenuOpen
  {
    s.(isScrolled := scrollY > ScrollThreshold)
  }

  /** The menu button: `setIsMobileMenuOpen(!isMobileMenuOpen)`. */
  function OnToggle(s: HeaderState): (r: HeaderState)
    ensures r.isMobileMenuOpen != s.isMobileMenuOpen && r.isScrolled == s.isScrolled
  {
    s.(isMobileMenuOpen := !s.isMobileMenuOpen)
  }

  /** A mobile link's `onClick`: `setIsMobileMenuOpen(false)`. */
  function OnNavLinkClick(s: HeaderState): (r: HeaderState)
    ensures !r.isMobileMenuOpen && r.isScrolled == s.isScrolled
  {
    s.(isMobileMenuOpen := false)
  }

  function Step(s: HeaderState, e: Event): HeaderState {
    match e
    case Scroll(y) => OnScroll(s, y)
    case ToggleMenu => OnToggle(s)
    case NavLinkClick => OnNavLinkClick(s)
  }

  /** The state after the events `es`, handled in order. */
  function Run(s: HeaderState, es: seq<Event>): HeaderState
    decreases |es|
  {
    if es == [] then s else Step(Run(s, es[..|es| - 1]), es[|es| - 1])
  }

  /** Two toggles restore the menu state. */
  lemma ToggleTwice(s: HeaderState)
    ensures OnToggle(OnToggle(s)) == s
  {
  }

  /** The scroll position of the latest scroll event in `es`, if any. */
  function LastScroll(es: seq<Event>): Option<real>
    decreases |es|
  {
    if es == [] then None
    else if es[|es| - 1].Scroll? then Some(es[|es| - 1].scrollY)
    else LastScroll(es[..|es| - 1])
  }

  /** After any events, `isScrolled` is `scrollY > 10` for the latest scroll event,
      and unchanged when there was none; menu events never touch it. */
  lemma {:induction false} ScrolledFollowsLastScroll(s: HeaderState, es: seq<Event>)
    ensures Run(s, es).isScrolled == match LastScroll(es)
      case None => s.isScrolled
      case Some(y) => y > ScrollThreshold
    decreases |es|
  {
    if es != [] { ScrolledFollowsLastScroll(s, es[..|es| - 1]); }
  }

  /** Whether `es` holds a click on a mobile link. */
  function HasLinkClick(es: seq<Event>): bool
    decreases |es|
  {
    es != [] && (es[|es| - 1] == NavLinkClick || HasLinkClick(es[..|es| - 1]))
  }

  /** The number of menu toggles after the latest link click (or in all of `es`). */
  function TogglesSinceLinkClick(es: seq<Event>): nat
    decreases |es|
  {
    if es == [] then 0
    else if es[|es| - 1] == NavLinkClick then 0
    else TogglesSinceLinkClick(es[..|es| - 1]) + (if es[|es| - 1] == ToggleMenu then 1 else 0)
  }

  /** After any events, the menu is open iff, starting from closed after the latest
      link click (or from its initial state without one), it was toggled an odd
      number of times; scroll events never touch it. */
  lemma {:induction false} MenuFollowsToggleParity(s: HeaderState, es: seq<Event>)
    ensures Run(s, es).isMobileMenuOpen ==
      ((!HasLinkClick(es) && s.isMobileMenuOpen) != (TogglesSinceLinkClick(es) % 2 == 1))
    decreases |es|
  {
    if es != [] { MenuFollowsToggleParity(s, es[..|es| - 1]); }
  }

  /** A click on a mobile link leaves the menu closed, whatever came before. */
  lemma LinkClickCloses(s: HeaderState, es: seq<Event>)
    ensures !Run(s, es + [NavLinkClick]).isMobileMenuOpen
  {
  }

  // ---------------------------------------------------------------------------
  // Rendering

  datatype MenuIcon = MenuBars | CloseCross

  datatype HeaderView = HeaderView(
    backgroundClass: string,
    desktopNav: seq<NavLink>,
    menuIcon: MenuIcon,
    mobileMenu: Option<seq<NavLink>>)

  /** What the header renders for a state and a pathname. */
  function Render(s: HeaderState, pathname: Option<string>): (v: HeaderView)
    ensures v.backgroundClass == if s.isScrolled
      then "bg-background/80 backdrop-blur-lg border-b shadow-sm" else "bg-transparent"
    ensures v.desktopNav == DesktopNav(pathname)
    ensures v.menuIcon == CloseCross <==> s.isMobileMenuOpen
    ensures v.mobileMenu.Some? <==> s.isMobileMenuOpen
    ensures v.mobileMenu.Some? ==> v.mobileMenu.value == MobileNav(pathname)
  {
    HeaderView(
      if s.isScrolled then "bg-background/80 backdrop-blur-lg border-b shadow-sm" else "bg-transparent",
      DesktopNav(pathname),
      if s.isMobileMenuOpen then CloseCross else MenuBars,
      if s.isMobileMenuOpen then Some(MobileNav(pathname)) else None)
  }

  // ---------------------------------------------------------------------------
  // The component instance

  /** One mounted `<Header>` with its two state variables. */
  class HeaderComponent {
    var isScrolled: bool
    var isMobileMenuOpen: bool

    function State(): HeaderState
      reads this
    {
      HeaderState(isScrolled, isMobileMenuOpen)
    }

    constructor ()
      ensures State() == InitialHeader
    {
      isScrolled := false;
      isMobileMenuOpen := false;
    }

    /** The window scroll listener, with the current `window.scrollY`. */
    method HandleScroll(scrollY: real)
      modifies this
      ensures State() == OnScroll(old(State()), scrollY)
      ensures isScrolled == (scrollY > ScrollThreshold) && isMobileMenuOpen == old(isMobileMenuOpen)
    {
      isScrolled := scrollY > ScrollThreshold;
    }

    /** The mobile menu button. */
    method ToggleMobileMenu()
      modifies this
      ensures State() == OnToggle(old(State()))
      ensures isMobileMenuOpen == !old(isMobileMenuOpen) && isScrolled == old(isScrolled)
    {
      isMobileMenuOpen := !isMobileMenuOpen;
    }

    /** A click on a link in the mobile menu. */
    method CloseMobileMenu()
      modifies this
      ensures State() == OnNavLinkClick(old(State()))
      ensures !isMobileMenuOpen && isScrolled == old(isScrolled)
    {
      isMobileMenuOpen := false;
    }
  }
}
