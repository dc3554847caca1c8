/** The application context every page reads: the translation function `t`
    for the current language, the language code and the chosen currency.

    `t(key)` is the translation of `key` in the current language, and the key
    itself when there is none; the pages test "is this key translated?" by
    comparing the result with the key. `t(key, params)` fills the named
    placeholders of a found translation; how it fills them is part of the
    translation library and stays abstract (`interpolate`). */
module I18n {

  type Params = map<string, string>

  datatype Translator = Translator(entries: map<string, string>, interpolate: (string, Params) -> string)
  {
    /** `t(key)`. */
    function T(key: string): (text: string)
      ensures key !in entries ==> text == key
      ensures key in entries ==> text == entries[key]
    {
      if key in entries then entries[key] else key
    }

    /** `t(key, params)`. */
    function TWith(key: string, params: Params): (text: string)
      ensures key !in entries ==> text == key
      ensures key in entries ==> text == interpolate(entries[key], params)
    {
      if key in entries then interpolate(entries[key], params) else key
    }
  }

  /** What `useAppContext()` hands a page: `t`, `language` and `currency`. */
  datatype AppContext = AppContext(tr: Translator, language: string, currency: string)
}
