/**
 * The page-wide language state behind `window.i18n`: which language is
 * current, how it is chosen on load, how a key is looked up, and how the
 * language buttons switch it. Only languages with a translation table are
 * ever accepted.
 */
module I18n {
  import opened Wrappers
  import opened Strings

  /** Language code to (key to text). */
  type Tables = map<string, map<string, string>>

  /** The storage key the chosen language is remembered under. */
  const StorageKey: string := "qr-toolkit-lang"
  /** The event announced after every accepted switch. */
  const ChangedEvent: string := "i18n-changed"

  /** A representative part of the English and Chinese tables. */
  const Translations: Tables := map[
    "en" := map[
      "site.title" := "QR Code Toolkit",
      "tabs.generate" := "Generate",
      "batch.meta" := "{count} items · ECC {ecc}",
      "merge.errorNoCodes" := "Please upload at least 2 QR code images."],
    "zh" := map[
      "site.title" := "QR 工具箱",
      "tabs.generate" := "生成",
      "batch.meta" := "{count} 个 · ECC {ecc}",
      "merge.errorNoCodes" := "请至少上传 2 个二维码图片。"]]

  /** `lang.startsWith("zh") ? "zh" : "en"` on the lower-cased tag. */
  function FromTag(tag: string): string {
    if StartsWith(ToLowerAscii(tag), "zh") then "zh" else "en"
  }

  /**
   * `detectLanguage()`: a remembered language wins when it has a table;
   * otherwise the browser's language decides, `"en"` when it reports none.
   * `saved` is `None` when nothing is stored or storage is unavailable.
   */
  function DetectLanguage(saved: Option<string>, browserLang: string): (r: string)
    ensures r in Translations
    ensures saved.Some? && saved.value != "" && saved.value in Translations ==> r == saved.value
    ensures !(saved.Some? && saved.value != "" && saved.value in Translations) ==>
      (r == "zh" <==> StartsWith(ToLowerAscii(if browserLang == "" then "en" else browserLang), "zh"))
  {
    if saved.Some? && saved.value != "" && saved.value in Translations then saved.value
    else FromTag(if browserLang == "" then "en" else browserLang)
  }

  /** `getTranslation(key, lang)`: the table entry when the language and a non-empty entry exist; the key itself otherwise. */
  function GetTranslation(key: string, lang: string): (r: string)
    ensures lang !in Translations ==> r == key
    ensures lang in Translations && (key !in Translations[lang] || Translations[lang][key] == "") ==> r == key
    ensures lang in Translations && key in Translations[lang] && Translations[lang][key] != "" ==> r == Translations[lang][key]
  {
    if lang !in Translations then key
    else if key !in Translations[lang] || Translations[lang][key] == "" then key
    else Translations[lang][key]
  }

  /** The answer is never empty for a non-empty key: a miss shows the key. */
  lemma GetTranslationNonEmpty(key: string, lang: string)
    requires key != ""
    ensures GetTranslation(key, lang) != ""
  {
  }

  /** `document.documentElement.lang` after a switch. */
  function DocumentLang(lang: string): string {
    if lang == "zh" then "zh-CN" else "en"
  }

  /** A `CustomEvent` dispatched on `window`: its name and the language in its detail. */
  datatype Event = Event(name: string, lang: string)

  /** `localStorage.getItem(StorageKey)`: the remembered language, if one was stored. */
  function Saved(storage: map<string, string>): Option<string> {
    if StorageKey in storage then Some(storage[StorageKey]) else None
  }

  /** The language state of one page. */
  class Localizer {
    var currentLang: string
    /** The page's `localStorage`. */
    var storage: map<string, string>
    /** `document.documentElement.lang`. */
    var documentLang: string
    /** The events dispatched on `window`, oldest first. */
    var events: seq<Event>

    predicate Valid()
      reads this
    {
      currentLang in Translations
    }

    /** Page load: `let currentLang = detectLanguage()`, then `init` sets the document language. */
    constructor (storage: map<string, string>, browserLang: string)
      ensures Valid()
      ensures currentLang == DetectLanguage(Saved(storage), browserLang)
      ensures this.storage == storage && documentLang == DocumentLang(currentLang) && events == []
    {
      var detected := DetectLanguage(Saved(storage), browserLang);
      currentLang := detected;
      this.storage := storage;
      documentLang := DocumentLang(detected);
      events := [];
    }

    /** `getTranslation(key)` with the language left out: the current language's entry, or the key itself. */
    function Translate(key: string): (r: string)
      requires Valid()
      reads this
      ensures r == key || r in Translations[currentLang].Values
      ensures key != "" ==> r != ""
    {
      GetTranslation(key, currentLang)
    }

    /**
     * `setLanguage(lang)`: a language without a table changes nothing and
     * announces nothing; a known one becomes current, is remembered under
     * `StorageKey`, is set on the document and is announced once with
     * `ChangedEvent`.
     */
    method SetLanguage(lang: string)
      requires Valid()
      modifies this
      ensures Valid()
      ensures lang !in Translations ==>
        currentLang == old(currentLang) && storage == old(storage) &&
        documentLang == old(documentLang) && events == old(events)
      ensures lang in Translations ==>
        currentLang == lang && storage == old(storage)[StorageKey := lang] &&
        documentLang == DocumentLang(lang) && events == old(events) + [Event(ChangedEvent, lang)]
    {
      if lang !in Translations {
        return;
      }
      currentLang := lang;
      storage := storage[StorageKey := lang];
      documentLang := DocumentLang(lang);
      events := events + [Event(ChangedEvent, lang)];
    }
  }

  /** A language that was switched to is the one the next page load detects, whatever the browser reports. */
  lemma SwitchRemembered(storage: map<string, string>, lang: string, browserLang: string)
    requires lang in Translations
    ensures DetectLanguage(Saved(storage[StorageKey := lang]), browserLang) == lang
  {
    assert "" !in Translations;
  }
}
