/** src/hooks/useTheme.ts: the light/dark theme, its initial choice, and the
    effect that persists it and sets the root element's `dark` class. */
module UseTheme {

  import opened Wrappers
  import opened TaskStorage

  datatype Theme = Light | Dark

  const ThemeStorageKey: string := "task-manager-theme"

  function ThemeName(t: Theme): string {
    match t
    case Light => "light"
    case Dark => "dark"
  }

  /** `prev === 'light' ? 'dark' : 'light'` */
  function Toggled(t: Theme): (r: Theme)
    ensures r != t
  {
    if t == Light then Dark else Light
  }

  /** Toggling twice restores the theme. */
  lemma ToggleTwice(t: Theme)
    ensures Toggled(Toggled(t)) == t
  {
  }

  /** A stored value counts only when it is exactly "light" or "dark". */
  function StoredTheme(items: map<string, Stored>): (r: Option<Theme>)
    ensures r.Some? <==> ThemeStorageKey in items && items[ThemeStorageKey] in {Text("light"), Text("dark")}
    ensures r.Some? ==> items[ThemeStorageKey] == Text(ThemeName(r.value))
  {
    match Get<string, Stored>(items, ThemeStorageKey)
    case Some(Text(s)) => if s == "light" then Some(Light) else if s == "dark" then Some(Dark) else None
    case _ => None
  }

  /** The `useState` initialiser; `prefersDark` is the `prefers-color-scheme: dark`
      media query (false where `matchMedia` is missing). */
  function InitialTheme(items: map<string, Stored>, prefersDark: bool): (t: Theme)
    ensures StoredTheme(items).Some? ==> t == StoredTheme(items).value
    ensures StoredTheme(items).None? ==> (t == Dark <==> prefersDark)
  {
    match StoredTheme(items)
    case Some(t) => t
    case None => if prefersDark then Dark else Light
  }

  /** Without a valid stored theme the initial theme follows the system
      preference, whatever else the store holds under the theme key. */
  lemma InvalidStoredThemeFollowsSystem(items: map<string, Stored>, text: string, prefersDark: bool)
    requires text != "light" && text != "dark"
    ensures InitialTheme(items[ThemeStorageKey := Text(text)], prefersDark) == (if prefersDark then Dark else Light)
    ensures InitialTheme(items - {ThemeStorageKey}, prefersDark) == (if prefersDark then Dark else Light)
  {
  }

  /** The persisted theme is what the next initialisation picks, whatever the system prefers. */
  lemma PersistedIsReloaded(items: map<string, Stored>, t: Theme, prefersDark: bool)
    ensures InitialTheme(items[ThemeStorageKey := Text(ThemeName(t))], prefersDark) == t
  {
  }

  /** The state of one `useTheme()` instance together with the root element's class list. */
  class ThemeState {
    var theme: Theme
    var rootHasDarkClass: bool
    const store: Store

    ghost predicate Valid()
      reads this
    {
      rootHasDarkClass <==> theme == Dark
    }

    /** First render: choose the theme, then the effect runs once. */
    constructor (store: Store, prefersDark: bool)
      modifies store
      ensures Valid() && this.store == store
      ensures theme == InitialTheme(old(store.items), prefersDark)
      ensures store.acceptsWrites == old(store.acceptsWrites)
      ensures store.items == if store.acceptsWrites then old(store.items)[ThemeStorageKey := Text(ThemeName(theme))] else old(store.items)
    {
      this.store := store;
      theme := InitialTheme(store.items, prefersDark);
      rootHasDarkClass := false;
      new;
      ApplyTheme();
    }

    /** The effect on `[theme]`: persist, then add or remove the `dark` class. */
    method ApplyTheme()
      modifies this`rootHasDarkClass, store
      ensures Valid()
      ensures store.acceptsWrites == old(store.acceptsWrites)
      ensures store.items == if store.acceptsWrites then old(store.items)[ThemeStorageKey := Text(ThemeName(theme))] else old(store.items)
    {
      var _ := store.SetItem(ThemeStorageKey, Text(ThemeName(theme)));
      rootHasDarkClass := theme == Dark;
    }

    /** `toggleTheme()` followed by its effect. */
    method ToggleTheme()
      requires Valid()
      modifies this, store
      ensures Valid()
      ensures rootHasDarkClass == !old(rootHasDarkClass)
      ensures theme == Toggled(old(theme))
      ensures store.acceptsWrites == old(store.acceptsWrites)
      ensures store.items == if store.acceptsWrites then old(store.items)[ThemeStorageKey := Text(ThemeName(theme))] else old(store.items)
    {
      theme := Toggled(theme);
      ApplyTheme();
    }
  }
}
