/**
 * The colour-scheme context: the scheme state, what mounting reads from
 * storage and the system preference, the effect that writes the scheme
 * back to the document and storage, the setter, the toggle, and the
 * `useTheme` guard.
 */
module Theme {
  import opened Wrappers

  datatype ColorScheme = Light | Dark

  /** The scheme's literal, as stored and as set on the root element. */
  function SchemeName(c: ColorScheme): string {
    match c
    case Light => "light"
    case Dark => "dark"
  }

  /** A stored string is adopted only when it is exactly "dark" or "light". */
  function ParseScheme(s: string): (r: Option<ColorScheme>)
    ensures r.Some? ==> SchemeName(r.value) == s
  {
    if s == "dark" then Some(Dark) else if s == "light" then Some(Light) else None
  }

  /** The storage key the scheme is kept under. */
  const StorageKey: string := "color-scheme"

  /** The provider's state. */
  datatype ThemeState = ThemeState(scheme: ColorScheme, mounted: bool)

  /** Before mounting the scheme is light. */
  const Initial: ThemeState := ThemeState(Light, false)

  /**
   * What the browser offers on mount: the stored string under
   * "color-scheme" (`None` when absent), and whether `matchMedia` exists
   * and reports a dark preference.
   */
  datatype Browser = Browser(stored: Option<string>, prefersDark: bool)

  /** The mount effect; `None` is a server render without a window. */
  function Mount(s: ThemeState, window: Option<Browser>): ThemeState {
    var s' := s.(mounted := true);
    if window.None? then s'
    else
      var w := window.value;
      if w.stored.Some? && ParseScheme(w.stored.value).Some? then s'.(scheme := ParseScheme(w.stored.value).value)
      else if w.prefersDark then s'.(scheme := Dark)
      else s'
  }

  /**
   * A valid stored scheme wins; any other stored string is ignored, and a
   * dark system preference then gives dark; otherwise the scheme stays
   * light. The provider is mounted afterwards in every case.
   */
  lemma MountResolution(window: Option<Browser>)
    ensures Mount(Initial, window).mounted
    ensures window.None? ==> Mount(Initial, window).scheme == Light
    ensures window.Some? && window.value.stored == Some("dark") ==> Mount(Initial, window).scheme == Dark
    ensures window.Some? && window.value.stored == Some("light") ==> Mount(Initial, window).scheme == Light
    ensures window.Some? && (window.value.stored.None? || ParseScheme(window.value.stored.value).None?) ==>
      Mount(Initial, window).scheme == (if window.value.prefersDark then Dark else Light)
  {
  }

  /**
   * The parts of the page the persistence effect writes: the "dark" class
   * on the root element and on the body (absent body: `None`), the
   * root's `data-mantine-color-scheme` attribute, and the stored scheme.
   */
  datatype Page = Page(rootDark: bool, bodyDark: Option<bool>, schemeAttribute: string, stored: Option<string>)

  /** The persistence effect; `None` is a render without a document. */
  function Persist(s: ThemeState, page: Option<Page>): Option<Page> {
    if !s.mounted || page.None? then page
    else
      var p := page.value;
      var dark := s.scheme == Dark;
      Some(Page(dark, if p.bodyDark.Some? then Some(dark) else None, SchemeName(s.scheme), Some(SchemeName(s.scheme))))
  }

  /**
   * Once mounted, the page agrees with the scheme: both classes are set
   * exactly when it is dark, and storage holds its name; before mounting
   * nothing is written.
   */
  lemma PersistMirrorsScheme(s: ThemeState, page: Page)
    ensures !s.mounted ==> Persist(s, Some(page)) == Some(page)
    ensures s.mounted ==>
      var p := Persist(s, Some(page)).value;
      && (p.rootDark <==> s.scheme == Dark)
      && (page.bodyDark.Some? <==> p.bodyDark.Some?)
      && (p.bodyDark.Some? ==> (p.bodyDark.value <==> s.scheme == Dark))
      && p.schemeAttribute == SchemeName(s.scheme)
      && p.stored.Some? && ParseScheme(p.stored.value) == Some(s.scheme)
  {
  }

  /**
   * What was persisted is what the next mount restores, whatever the system
   * preference says.
   */
  lemma PersistThenMountRestores(s: ThemeState, page: Page, prefersDark: bool)
    requires s.mounted
    ensures Mount(Initial, Some(Browser(Persist(s, Some(page)).value.stored, prefersDark))).scheme == s.scheme
  {
  }

  /** `setColorScheme`. */
  function SetColorScheme(s: ThemeState, value: ColorScheme): ThemeState {
    s.(scheme := value)
  }

  /** `toggleColorScheme`. */
  function Toggle(s: ThemeState): ThemeState {
    s.(scheme := if s.scheme == Dark then Light else Dark)
  }

  /**
   * Setting a scheme makes it current and touches nothing else; toggling
   * always changes the scheme, and toggling twice restores it.
   */
  lemma SetAndToggle(s: ThemeState, value: ColorScheme)
    ensures SetColorScheme(s, value).scheme == value
    ensures SetColorScheme(s, value).mounted == s.mounted
    ensures SetColorScheme(SetColorScheme(s, value), value) == SetColorScheme(s, value)
    ensures Toggle(s).scheme != s.scheme && Toggle(s).mounted == s.mounted
    ensures Toggle(Toggle(s)) == s
  {
  }

  /** What `useTheme` hands out: the current scheme (the two callbacks are `SetColorScheme` and `Toggle`). */
  datatype ContextValue = ContextValue(colorScheme: ColorScheme)

  const OutsideProvider: string := "useTheme must be used within a ThemeProvider"

  /** `useTheme`; `None` is a component rendered outside every provider. */
  function UseTheme(context: Option<ContextValue>): Result<ContextValue, string> {
    if context.None? then Failure(OutsideProvider) else Success(context.value)
  }

  /** `useTheme` throws exactly outside a provider, and inside one returns the provider's value. */
  lemma UseThemeGuard(context: Option<ContextValue>)
    ensures UseTheme(context).Failure? <==> context.None?
    ensures UseTheme(context).Failure? ==> UseTheme(context).error == OutsideProvider
    ensures context.Some? ==> UseTheme(context) == Success(context.value)
  {
  }
}
