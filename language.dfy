/**
 * The language hook (hooks/useLanguage.ts): the current language, the
 * saved choice, and the translation lookup with the key as fallback.
 */
module Language {
  import opened Wrappers

  datatype Lang = De | En | Fr | Es

  /** The code a language is saved under. */
  function Code(l: Lang): string {
    match l
    case De => "de"
    case En => "en"
    case Fr => "fr"
    case Es => "es"
  }

  /** The whitelist of `loadLanguage`: a saved text names a language only
      when it is one of the four codes. */
  function FromCode(s: string): (r: Option<Lang>)
    ensures r.Some? ==> Code(r.value) == s
  {
    if s == "de" then Some(De)
    else if s == "en" then Some(En)
    else if s == "fr" then Some(Fr)
    else if s == "es" then Some(Es)
    else None
  }

  /** Every language is read back from its code, and nothing else is
      accepted. */
  lemma CodeRoundTrip(l: Lang, s: string)
    ensures FromCode(Code(l)) == Some(l)
    ensures FromCode(s).None? <==> s !in {"de", "en", "fr", "es"}
  {
  }

  /** One entry of the translation table: a text per language. */
  datatype Entry = Entry(de: string, en: string, fr: string, es: string)

  function TextIn(e: Entry, l: Lang): string {
    match l
    case De => e.de
    case En => e.en
    case Fr => e.fr
    case Es => e.es
  }

  type Table = map<string, Entry>

  /** `t(key)`: `translations[key]?.[currentLanguage] || key`. */
  function Translate(table: Table, current: Lang, key: string): (r: string)
    ensures key in table && TextIn(table[key], current) != "" ==> r == TextIn(table[key], current)
    ensures key !in table || TextIn(table[key], current) == "" ==> r == key
  {
    if key in table && TextIn(table[key], current) != "" then TextIn(table[key], current) else key
  }

  /** A lookup never yields the empty text for a non-empty key, and it
      yields either the key or one of the key's translations. */
  lemma TranslateNonEmpty(table: Table, current: Lang, key: string)
    requires key != ""
    ensures Translate(table, current, key) != ""
    ensures Translate(table, current, key) == key
      || (key in table && Translate(table, current, key) == TextIn(table[key], current))
  {
  }

  /** A key the table lacks is shown as itself in every language. */
  lemma MissingKeySameEverywhere(table: Table, key: string, a: Lang, b: Lang)
    requires key !in table
    ensures Translate(table, a, key) == Translate(table, b, key)
  {
  }

  /** The hook's state: the current language and what the store holds
      under `app_language`. */
  class LanguageState {
    const table: Table
    var current: Lang
    var saved: Option<string>

    /** The hook starts in German, before the saved choice is read. */
    constructor(table: Table, saved: Option<string>)
      ensures this.table == table && this.saved == saved
      ensures current == De
    {
      this.table := table;
      this.saved := saved;
      current := De;
    }

    /** `loadLanguage`: a saved code on the whitelist becomes the current
        language; otherwise the current language stays. */
    method LoadLanguage()
      modifies this
      ensures saved == old(saved)
      ensures old(saved).Some? && FromCode(old(saved).value).Some? ==> current == FromCode(old(saved).value).value
      ensures old(saved).None? || FromCode(old(saved).value).None? ==> current == old(current)
    {
      if saved.Some? {
        var l := FromCode(saved.value);
        if l.Some? {
          current := l.value;
        }
      }
    }

    /** `changeLanguage`: the choice is saved, and it becomes current only
        once the save succeeds; a failed save (`saveSucceeds` false) leaves
        both as they were and is reported. */
    method ChangeLanguage(l: Lang, saveSucceeds: bool) returns (ok: bool)
      modifies this
      ensures ok == saveSucceeds
      ensures ok ==> current == l && saved == Some(Code(l))
      ensures !ok ==> current == old(current) && saved == old(saved)
    {
      if !saveSucceeds {
        return false;
      }
      saved := Some(Code(l));
      current := l;
      return true;
    }

    /** `t`: the lookup in the current language. */
    function T(key: string): string
      reads this
    {
      Translate(table, current, key)
    }
  }

  /** A language chosen and saved is the one the next start comes up with. */
  method ChangeThenRestart(table: Table, stored: Option<string>, l: Lang) returns (restarted: Lang)
    ensures restarted == l
  {
    var first := new LanguageState(table, stored);
    first.LoadLanguage();
    var ok := first.ChangeLanguage(l, true);
    var next := new LanguageState(table, first.saved);
    next.LoadLanguage();
    CodeRoundTrip(l, Code(l));
    restarted := next.current;
  }
}
