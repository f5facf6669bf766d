/** The storefront's settings: language, theme and currency, their defaults, the merge
    with what the browser stored, and the three setters. Reading and writing the storage
    is not part of this model; what it held is given as a parameter. */
module Settings {
  import opened Common

  datatype Lang = Ru | En
  datatype Theme = Dark | Light
  datatype Currency = BYN | RUB | USD

  datatype Prefs = Prefs(lang: Lang, theme: Theme, currency: Currency)

  /** `defaultSettings`. */
  const Defaults: Prefs := Prefs(Ru, Light, RUB)

  /** What the storage held: nothing (or an empty text), a text that does not parse, or an
      object with some of the three fields. */
  datatype Stored =
    | Missing
    | Unparseable
    | Fields(lang: Option<Lang>, theme: Option<Theme>, currency: Option<Currency>)

  function OrElse<T>(o: Option<T>, fallback: T): (r: T)
    ensures o.Some? ==> r == o.value
    ensures o.None? ==> r == fallback
  {
    match o
    case Some(v) => v
    case None => fallback
  }

  /** `loadSettings`: the defaults, overridden field by field by what was stored. */
  function Load(stored: Stored): (s: Prefs)
    ensures stored.Missing? || stored.Unparseable? ==> s == Defaults
    ensures stored.Fields? ==>
      && (stored.lang.Some? ==> s.lang == stored.lang.value)
      && (stored.lang.None? ==> s.lang == Defaults.lang)
      && (stored.theme.Some? ==> s.theme == stored.theme.value)
      && (stored.theme.None? ==> s.theme == Defaults.theme)
      && (stored.currency.Some? ==> s.currency == stored.currency.value)
      && (stored.currency.None? ==> s.currency == Defaults.currency)
  {
    match stored
    case Missing => Defaults
    case Unparseable => Defaults
    case Fields(lang, theme, currency) =>
      Prefs(OrElse(lang, Defaults.lang), OrElse(theme, Defaults.theme), OrElse(currency, Defaults.currency))
  }

  /** What `saveSettings` writes: all three fields. */
  function Saved(s: Prefs): Stored
  {
    Fields(Some(s.lang), Some(s.theme), Some(s.currency))
  }

  /** Settings saved and loaded again come back unchanged. */
  lemma SaveLoadRoundTrip(s: Prefs)
    ensures Load(Saved(s)) == s
  {
  }

  /** An empty stored object gives the defaults, like a missing one. */
  lemma EmptyObjectIsDefault()
    ensures Load(Fields(None, None, None)) == Load(Missing)
  {
  }

  function SetLang(s: Prefs, lang: Lang): (r: Prefs)
    ensures r.lang == lang && r.theme == s.theme && r.currency == s.currency
  {
    s.(lang := lang)
  }

  function SetTheme(s: Prefs, theme: Theme): (r: Prefs)
    ensures r.theme == theme && r.lang == s.lang && r.currency == s.currency
  {
    s.(theme := theme)
  }

  function SetCurrency(s: Prefs, currency: Currency): (r: Prefs)
    ensures r.currency == currency && r.lang == s.lang && r.theme == s.theme
  {
    s.(currency := currency)
  }

  /** The setters touch different fields, so their order does not matter, and a second
      call of the same setter overrides the first. */
  lemma SettersIndependent(s: Prefs, lang: Lang, theme: Theme, currency: Currency, lang': Lang)
    ensures SetTheme(SetLang(s, lang), theme) == SetLang(SetTheme(s, theme), lang)
    ensures SetCurrency(SetLang(s, lang), currency) == SetLang(SetCurrency(s, currency), lang)
    ensures SetCurrency(SetTheme(s, theme), currency) == SetTheme(SetCurrency(s, currency), theme)
    ensures SetLang(SetLang(s, lang), lang') == SetLang(s, lang')
  {
  }

  /** The outcome of `useSettings`: the provider's settings, or the error it throws. */
  datatype Context = Provided(settings: Prefs) | Thrown(message: string)

  const OutsideProvider: string := "useSettings must be inside SettingsProvider"

  function UseSettings(provider: Option<Prefs>): (r: Context)
    ensures provider.None? <==> r == Thrown(OutsideProvider)
    ensures provider.Some? ==> r == Provided(provider.value)
  {
    match provider
    case None => Thrown(OutsideProvider)
    case Some(s) => Provided(s)
  }
}
