/**
 * The colour theme of the client (`ThemeProvider`): the initial choice from
 * the stored `theme` entry or the system preference, and the effect that
 * mirrors `isDark` into the document's `dark` class and back into storage.
 * Storage access can throw (private browsing, disabled storage); whether it
 * does is a parameter.
 */
module ThemeContext {
  import opened Wrappers
  import opened BrowserStorage

  const ThemeKey := "theme"
  const OutsideProvider := "useTheme must be used within ThemeProvider"

  /** The outcome of `localStorage.getItem('theme')`: it threw, or it returned a value or `null`. */
  datatype StoredTheme = Unreadable | Read(value: Option<string>)

  /** The stored name of a theme. */
  function ThemeName(isDark: bool): (r: string)
    ensures r == "dark" <==> isDark
    ensures r == "light" <==> !isDark
  {
    if isDark then "dark" else "light"
  }

  /**
   * `getInitialTheme()`: a stored `'dark'` or `'light'` decides; any other
   * value defers to the system preference (`None` when `matchMedia` is
   * unavailable, which counts as light); unreadable storage gives light.
   */
  function GetInitialTheme(saved: StoredTheme, prefersDark: Option<bool>): (isDark: bool)
    ensures saved == Read(Some("dark")) ==> isDark
    ensures saved == Read(Some("light")) ==> !isDark
    ensures saved.Unreadable? ==> !isDark
    ensures saved.Read? && saved.value != Some("dark") && saved.value != Some("light") ==>
              (isDark <==> prefersDark == Some(true))
  {
    match saved
    case Unreadable => false
    case Read(value) =>
      if value == Some("dark") then true
      else if value == Some("light") then false
      else prefersDark == Some(true)
  }

  /** What the effect stores is read back as the same theme, whatever the system preference. */
  lemma ThemeRoundTrip(isDark: bool, prefersDark: Option<bool>)
    ensures GetInitialTheme(Read(Some(ThemeName(isDark))), prefersDark) == isDark
  {
  }

  class ThemeProvider {
    var isDark: bool
    /** The document element's class list holds `dark`. */
    var darkClass: bool
    const store: LocalStorage

    /** The provider's state starts from `getInitialTheme`; the class list is untouched until the effect runs. */
    constructor (store: LocalStorage, storageReadable: bool, prefersDark: Option<bool>, darkClass: bool)
      ensures this.store == store && this.darkClass == darkClass
      ensures isDark == GetInitialTheme(if storageReadable then Read(store.GetItem(ThemeKey)) else Unreadable, prefersDark)
    {
      this.store := store;
      this.darkClass := darkClass;
      isDark := GetInitialTheme(if storageReadable then Read(store.GetItem(ThemeKey)) else Unreadable, prefersDark);
    }

    /**
     * The `isDark` effect: the `dark` class is present exactly when `isDark`,
     * and, when storage accepts writes, the theme's name is stored.
     */
    method ApplyTheme(storageWritable: bool)
      modifies this, store
      ensures isDark == old(isDark) && darkClass == isDark
      ensures storageWritable ==> store.items == old(store.items)[ThemeKey := ThemeName(isDark)]
      ensures !storageWritable ==> store.items == old(store.items)
      ensures storageWritable ==> forall p :: GetInitialTheme(Read(store.GetItem(ThemeKey)), p) == isDark
    {
      darkClass := isDark;
      if storageWritable {
        store.SetItem(ThemeKey, ThemeName(isDark));
      }
    }

    /** `setIsDark(b)` followed by the effect it triggers. */
    method SetIsDark(b: bool, storageWritable: bool)
      modifies this, store
      ensures isDark == b && darkClass == b
      ensures storageWritable ==> store.items == old(store.items)[ThemeKey := ThemeName(b)]
      ensures !storageWritable ==> store.items == old(store.items)
    {
      isDark := b;
      ApplyTheme(storageWritable);
    }
  }

  /** `useTheme()`: the provider's value, or the error raised outside any provider. */
  function UseTheme(context: Option<ThemeProvider>): (r: Result<ThemeProvider, string>)
    ensures context.Some? <==> r.Ok?
    ensures context.Some? ==> r.value == context.value
    ensures context.None? ==> r.error == OutsideProvider
  {
    match context
    case Some(p) => Ok(p)
    case None => Err(OutsideProvider)
  }
}
