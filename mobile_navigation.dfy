/** The bottom navigation bar on phones: four links and a locale menu. */
module MobileNavigation {
  import opened Wrappers

  /** The locale shown when none is given. */
  function CurrentLocale(given: Option<string>): string {
    given.GetOr("en")
  }

  function ExploreHref(): string {
    "/"
  }

  function AddHref(isLoggedIn: bool): string {
    if isLoggedIn then "/add" else "/sign-in"
  }

  function UserHref(isLoggedIn: bool): string {
    if isLoggedIn then "/user-profile" else "/sign-in"
  }

  datatype UserLabel = UserProfileLink | SignIn

  function UserLinkLabel(isLoggedIn: bool): UserLabel {
    if isLoggedIn then UserProfileLink else SignIn
  }

  predicate ExploreHighlighted(pathname: string) {
    pathname == "/explore"
  }

  predicate AddHighlighted(pathname: string) {
    pathname == "/add"
  }

  predicate UserHighlighted(pathname: string, isLoggedIn: bool) {
    pathname == UserHref(isLoggedIn)
  }

  /** A locale's menu entry is bold. */
  predicate Bold(locale: string, currentLocale: string) {
    locale == currentLocale
  }

  /**
   * Signed out, both the add and the user link lead to sign-in, and the user
   * link is labelled accordingly; the user link is highlighted exactly on
   * its own target, while the explore link is never highlighted on its own
   * target.
   */
  lemma LinkRules(isLoggedIn: bool, pathname: string)
    ensures !isLoggedIn ==> AddHref(isLoggedIn) == "/sign-in" && UserHref(isLoggedIn) == "/sign-in" && UserLinkLabel(isLoggedIn) == SignIn
    ensures isLoggedIn ==> AddHref(isLoggedIn) == "/add" && UserHref(isLoggedIn) == "/user-profile" && UserLinkLabel(isLoggedIn) == UserProfileLink
    ensures UserHighlighted(pathname, isLoggedIn) <==> pathname == UserHref(isLoggedIn)
    ensures !ExploreHighlighted(ExploreHref())
    ensures AddHighlighted(AddHref(isLoggedIn)) <==> isLoggedIn
  {
  }

  /** In a list of distinct locales, only the current one is bold. */
  lemma OnlyCurrentBold(locales: seq<string>, currentLocale: string, i: int, j: int)
    requires forall a, b :: 0 <= a < b < |locales| ==> locales[a] != locales[b]
    requires 0 <= i < |locales| && 0 <= j < |locales|
    requires Bold(locales[i], currentLocale) && Bold(locales[j], currentLocale)
    ensures i == j
  {
  }

  class LocaleMenu {
    var localeMenuOpen: bool
    /** The paths pushed to the router, in order. */
    var pushed: seq<string>

    constructor ()
      ensures !localeMenuOpen && pushed == []
    {
      localeMenuOpen := false;
      pushed := [];
    }

    /** The locales listed: all of them while the menu is open, none otherwise. */
    function Listed(locales: seq<string>): seq<string>
      reads this
    {
      if localeMenuOpen then locales else []
    }

    /** The globe button. */
    method ToggleMenu()
      modifies this
      ensures localeMenuOpen == !old(localeMenuOpen) && pushed == old(pushed)
    {
      localeMenuOpen := !localeMenuOpen;
    }

    /** `handleLocaleChange`: navigate to the locale's root and close the menu. */
    method ChooseLocale(locale: string)
      modifies this
      ensures pushed == old(pushed) + ["/" + locale]
      ensures !localeMenuOpen
    {
      pushed := pushed + ["/" + locale];
      localeMenuOpen := false;
    }
  }
}
