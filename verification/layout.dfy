/** Layout preferences: the collapsed desktop sidebar, the mobile sidebar, the
    theme and the footer. The operating system's colour-scheme preference and
    the window width are parameters; the `dark` class on the document element
    is the field `darkClass`; storage is a ghost map. */
module Layout {

  datatype Theme = Light | Dark | System

  /** The two themes a page is actually drawn in. */
  datatype Resolved = ResolvedLight | ResolvedDark

  datatype Stored = StoredFlag(flag: bool) | StoredTheme(theme: Theme)

  const SidebarKey := "halolight-sidebar-collapsed"
  const ThemeKey := "halolight-theme"
  const FooterKey := "halolight-show-footer"

  /** The width from which the mobile sidebar is closed on resize. */
  const DesktopWidth := 768

  /** `resolvedTheme`: the system preference for `system`, otherwise the
      theme itself. */
  function ResolveTheme(theme: Theme, systemDark: bool): (r: Resolved)
    ensures theme == Light ==> r == ResolvedLight
    ensures theme == Dark ==> r == ResolvedDark
    ensures theme == System ==> (r == ResolvedDark <==> systemDark)
  {
    match theme
    case Light => ResolvedLight
    case Dark => ResolvedDark
    case System => if systemDark then ResolvedDark else ResolvedLight
  }

  /** `isDark`. */
  predicate IsDark(theme: Theme, systemDark: bool) {
    ResolveTheme(theme, systemDark) == ResolvedDark
  }

  /** The theme `toggleTheme` picks. */
  function NextTheme(theme: Theme, systemDark: bool): Theme {
    if IsDark(theme, systemDark) then Light else Dark
  }

  /** Toggling always leaves an explicit theme and flips whether the page is
      dark, whatever the system preference. */
  lemma ToggleFlipsDarkness(theme: Theme, systemDark: bool)
    ensures NextTheme(theme, systemDark) != System
    ensures IsDark(NextTheme(theme, systemDark), systemDark) <==> !IsDark(theme, systemDark)
    ensures NextTheme(NextTheme(theme, systemDark), systemDark) == (if IsDark(theme, systemDark) then Dark else Light)
  {
  }

  class LayoutStore {
    var sidebarCollapsed: bool
    var mobileSidebarOpen: bool
    var theme: Theme
    var showFooter: bool
    /** Whether the document element carries the `dark` class. */
    var darkClass: bool
    ghost var storage: map<string, Stored>

    /** Module initialisation: the stored preferences, defaulting to an
        expanded sidebar, the system theme and a visible footer. */
    constructor (storedCollapsed: bool, storedTheme: Theme, storedShowFooter: bool)
      ensures sidebarCollapsed == storedCollapsed && theme == storedTheme && showFooter == storedShowFooter
      ensures !mobileSidebarOpen && !darkClass && storage == map[]
    {
      sidebarCollapsed, theme, showFooter := storedCollapsed, storedTheme, storedShowFooter;
      mobileSidebarOpen, darkClass := false, false;
      storage := map[];
    }

    /** `toggleSidebar`: flips and persists the flag, so two calls restore it. */
    method ToggleSidebar()
      modifies this
      ensures sidebarCollapsed == !old(sidebarCollapsed)
      ensures storage == old(storage)[SidebarKey := StoredFlag(sidebarCollapsed)]
      ensures mobileSidebarOpen == old(mobileSidebarOpen) && theme == old(theme) && showFooter == old(showFooter) && darkClass == old(darkClass)
    {
      sidebarCollapsed := !sidebarCollapsed;
      storage := storage[SidebarKey := StoredFlag(sidebarCollapsed)];
    }

    /** `applyTheme`: the `dark` class follows the resolved theme. */
    method ApplyTheme(systemDark: bool)
      modifies this
      ensures darkClass == IsDark(theme, systemDark)
      ensures sidebarCollapsed == old(sidebarCollapsed) && mobileSidebarOpen == old(mobileSidebarOpen)
      ensures theme == old(theme) && showFooter == old(showFooter) && storage == old(storage)
    {
      darkClass := ResolveTheme(theme, systemDark) == ResolvedDark;
    }

    /** `setTheme`: stores exactly the given theme and applies it. */
    method SetTheme(newTheme: Theme, systemDark: bool)
      modifies this
      ensures theme == newTheme && darkClass == IsDark(newTheme, systemDark)
      ensures storage == old(storage)[ThemeKey := StoredTheme(newTheme)]
      ensures sidebarCollapsed == old(sidebarCollapsed) && mobileSidebarOpen == old(mobileSidebarOpen) && showFooter == old(showFooter)
    {
      theme := newTheme;
      storage := storage[ThemeKey := StoredTheme(newTheme)];
      ApplyTheme(systemDark);
    }

    /** `toggleTheme`: light when the page is dark, dark otherwise. */
    method ToggleTheme(systemDark: bool)
      modifies this
      ensures theme == NextTheme(old(theme), systemDark) && theme != System
      ensures IsDark(theme, systemDark) <==> !IsDark(old(theme), systemDark)
      ensures darkClass == IsDark(theme, systemDark)
      ensures storage == old(storage)[ThemeKey := StoredTheme(theme)]
      ensures sidebarCollapsed == old(sidebarCollapsed) && mobileSidebarOpen == old(mobileSidebarOpen) && showFooter == old(showFooter)
    {
      ToggleFlipsDarkness(theme, systemDark);
      var next := if IsDark(theme, systemDark) then Light else Dark;
      SetTheme(next, systemDark);
    }

    /** `setThemeWithTransition`: whether or not the view transition runs,
        the end state is that of `setTheme`. */
    method SetThemeWithTransition(newTheme: Theme, systemDark: bool, transitionsEnabled: bool)
      modifies this
      ensures theme == newTheme && darkClass == IsDark(newTheme, systemDark)
      ensures storage == old(storage)[ThemeKey := StoredTheme(newTheme)]
      ensures sidebarCollapsed == old(sidebarCollapsed) && mobileSidebarOpen == old(mobileSidebarOpen) && showFooter == old(showFooter)
    {
      if !transitionsEnabled {
        SetTheme(newTheme, systemDark);
        return;
      }
      SetTheme(newTheme, systemDark);
    }

    /** `toggleThemeWithTransition`: the theme `toggleTheme` would pick, set
        through the transition. */
    method ToggleThemeWithTransition(systemDark: bool, transitionsEnabled: bool)
      modifies this
      ensures theme == NextTheme(old(theme), systemDark) && theme != System
      ensures IsDark(theme, systemDark) <==> !IsDark(old(theme), systemDark)
      ensures darkClass == IsDark(theme, systemDark)
      ensures storage == old(storage)[ThemeKey := StoredTheme(theme)]
      ensures sidebarCollapsed == old(sidebarCollapsed) && mobileSidebarOpen == old(mobileSidebarOpen) && showFooter == old(showFooter)
    {
      ToggleFlipsDarkness(theme, systemDark);
      var next := if IsDark(theme, systemDark) then Light else Dark;
      SetThemeWithTransition(next, systemDark, transitionsEnabled);
    }

    /** The listener `initTheme` registers: a change of the system preference
        re-applies the theme only while the theme is `system`. */
    method OnSystemPreferenceChange(systemDark: bool)
      modifies this
      ensures theme == System ==> darkClass == systemDark
      ensures theme != System ==> darkClass == old(darkClass)
      ensures sidebarCollapsed == old(sidebarCollapsed) && mobileSidebarOpen == old(mobileSidebarOpen)
      ensures theme == old(theme) && showFooter == old(showFooter) && storage == old(storage)
    {
      if theme == System {
        ApplyTheme(systemDark);
      }
    }

    method ToggleMobileSidebar()
      modifies this
      ensures mobileSidebarOpen == !old(mobileSidebarOpen)
      ensures sidebarCollapsed == old(sidebarCollapsed) && theme == old(theme) && showFooter == old(showFooter)
      ensures darkClass == old(darkClass) && storage == old(storage)
    {
      mobileSidebarOpen := !mobileSidebarOpen;
    }

    method CloseMobileSidebar()
      modifies this
      ensures !mobileSidebarOpen
      ensures sidebarCollapsed == old(sidebarCollapsed) && theme == old(theme) && showFooter == old(showFooter)
      ensures darkClass == old(darkClass) && storage == old(storage)
    {
      mobileSidebarOpen := false;
    }

    /** `toggleFooter`: flips and persists the flag. */
    method ToggleFooter()
      modifies this
      ensures showFooter == !old(showFooter)
      ensures storage == old(storage)[FooterKey := StoredFlag(showFooter)]
      ensures sidebarCollapsed == old(sidebarCollapsed) && mobileSidebarOpen == old(mobileSidebarOpen)
      ensures theme == old(theme) && darkClass == old(darkClass)
    {
      showFooter := !showFooter;
      storage := storage[FooterKey := StoredFlag(showFooter)];
    }

    /** The resize handler of `initLayout`: a desktop-wide window closes the
        mobile sidebar; a narrower one leaves it as it is. */
    method HandleResize(innerWidth: int)
      modifies this
      ensures innerWidth >= DesktopWidth ==> !mobileSidebarOpen
      ensures innerWidth < DesktopWidth ==> mobileSidebarOpen == old(mobileSidebarOpen)
      ensures sidebarCollapsed == old(sidebarCollapsed) && theme == old(theme) && showFooter == old(showFooter)
      ensures darkClass == old(darkClass) && storage == old(storage)
    {
      if innerWidth >= DesktopWidth {
        mobileSidebarOpen := false;
      }
    }

    /** `initLayout`: applies the theme, then runs the resize rule once. */
    method InitLayout(systemDark: bool, innerWidth: int)
      modifies this
      ensures darkClass == IsDark(theme, systemDark)
      ensures innerWidth >= DesktopWidth ==> !mobileSidebarOpen
      ensures innerWidth < DesktopWidth ==> mobileSidebarOpen == old(mobileSidebarOpen)
      ensures sidebarCollapsed == old(sidebarCollapsed) && theme == old(theme) && showFooter == old(showFooter)
      ensures storage == old(storage)
    {
      ApplyTheme(systemDark);
      HandleResize(innerWidth);
    }
  }
}
