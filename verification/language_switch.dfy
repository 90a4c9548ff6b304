/** The language button of the header
    (web/src/components/LanguageSwitch.tsx). */
module LanguageSwitch {
  import opened Optional
  import opened I18n
  import opened I18nProvider

  /** The locale a click switches to. */
  function Toggle(l: Locale): (r: Locale)
    ensures r != l
  {
    match l
    case Zh => En
    case En => Zh
  }

  /** The button text names the language a click switches to. */
  function Label(l: Locale): (text: string)
    ensures text == "EN" <==> Toggle(l) == En
    ensures text == "中" <==> Toggle(l) == Zh
  {
    match l
    case Zh => "EN"
    case En => "中"
  }

  /** The tooltip, written in the language a click switches to. */
  function Title(l: Locale): (text: string)
    ensures text == "Switch to English" <==> Toggle(l) == En
    ensures text == "切换到中文" <==> Toggle(l) == Zh
  {
    match l
    case Zh => "Switch to English"
    case En => "切换到中文"
  }

  /** A click: `setLocale` with the other locale. */
  function Click(p: Provider): (q: Provider)
    ensures q.locale != p.locale
    ensures StoredValue(q.storage, LocaleStorageKey) == Some(LocaleName(q.locale))
  {
    SetLocale(p, Toggle(p.locale))
  }

  /** Two clicks bring back the locale, and the stored value then names
      it. */
  lemma TwoClicksRestore(p: Provider)
    ensures Click(Click(p)).locale == p.locale
    ensures StoredValue(Click(Click(p)).storage, LocaleStorageKey) == Some(LocaleName(p.locale))
  {
  }
}
