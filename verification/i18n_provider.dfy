/** The locale state of the web client (web/src/i18n/I18nProvider.tsx):
    the initial choice from the persisted value or the browser language,
    `setLocale` with its persistence, and the `t` it hands out. */
module I18nProvider {
  import opened Optional
  import opened I18n

  const LocaleStorageKey: string := "tally-locale"

  /** The browser's `localStorage`, as the strings it maps. */
  type Storage = map<string, string>

  /** The value of `localStorage.getItem(key)`; `None` is `null`. */
  function StoredValue(storage: Storage, key: string): (v: Option<string>)
    ensures v.Some? <==> key in storage
    ensures v.Some? ==> v.value == storage[key]
  {
    if key in storage then Some(storage[key]) else None
  }

  /** The name a locale is stored and compared under. */
  function LocaleName(l: Locale): (name: string)
    ensures name == "zh" <==> l == Zh
    ensures name == "en" <==> l == En
  {
    match l
    case Zh => "zh"
    case En => "en"
  }

  predicate StartsWith(s: string, prefix: string) {
    |prefix| <= |s| && s[..|prefix|] == prefix
  }

  /** `getInitialLocale`, with `browserLanguage` for `navigator.language`
      and `lower` for `String.prototype.toLowerCase`. */
  function InitialLocale(storage: Storage, browserLanguage: string, lower: string -> string): (l: Locale)
    ensures StoredValue(storage, LocaleStorageKey) == Some("zh") ==> l == Zh
    ensures StoredValue(storage, LocaleStorageKey) == Some("en") ==> l == En
    ensures StoredValue(storage, LocaleStorageKey) != Some("zh") && StoredValue(storage, LocaleStorageKey) != Some("en") ==>
              (l == Zh <==> StartsWith(lower(browserLanguage), "zh"))
  {
    var stored := StoredValue(storage, LocaleStorageKey);
    if stored == Some("zh") then Zh
    else if stored == Some("en") then En
    else if StartsWith(lower(browserLanguage), "zh") then Zh
    else En
  }

  /** The provider's state: the current locale and the storage it writes. */
  datatype Provider = Provider(locale: Locale, storage: Storage)

  /** Mounting the provider. */
  function Mount(storage: Storage, browserLanguage: string, lower: string -> string): (p: Provider)
    ensures p.storage == storage
    ensures p.locale == InitialLocale(storage, browserLanguage, lower)
  {
    Provider(InitialLocale(storage, browserLanguage, lower), storage)
  }

  /** `setLocale`: the new locale becomes current and is persisted; no
      other stored entry changes. */
  function SetLocale(p: Provider, l: Locale): (q: Provider)
    ensures q.locale == l
    ensures StoredValue(q.storage, LocaleStorageKey) == Some(LocaleName(l))
    ensures forall k :: k != LocaleStorageKey ==> StoredValue(q.storage, k) == StoredValue(p.storage, k)
  {
    Provider(l, p.storage[LocaleStorageKey := LocaleName(l)])
  }

  /** The `t` of the context: the translator of the current locale. */
  function T(p: Provider, key: string, params: seq<(string, ParamValue)>): string {
    Translate(p.locale, key, params)
  }

  /** A locale that was set is the one a later mount starts with, whatever
      the browser language; and `t` translates into it meanwhile. */
  lemma SetLocalePersists(p: Provider, l: Locale, browserLanguage: string, lower: string -> string,
                          key: string, params: seq<(string, ParamValue)>)
    ensures Mount(SetLocale(p, l).storage, browserLanguage, lower).locale == l
    ensures T(SetLocale(p, l), key, params) == Translate(l, key, params)
  {
    var stored := StoredValue(SetLocale(p, l).storage, LocaleStorageKey);
    assert stored == Some(LocaleName(l));
  }

  /** Without a usable stored value, only a browser language beginning with
      `zh` (in any case `lower` folds) selects Chinese. */
  lemma BrowserLanguageDecides(browserLanguage: string, lower: string -> string)
    ensures InitialLocale(map[], browserLanguage, lower) == Zh <==> StartsWith(lower(browserLanguage), "zh")
    ensures InitialLocale(map[LocaleStorageKey := "fr"], browserLanguage, lower) == InitialLocale(map[], browserLanguage, lower)
  {
    assert StoredValue(map[LocaleStorageKey := "fr"], LocaleStorageKey) == Some("fr");
  }
}
