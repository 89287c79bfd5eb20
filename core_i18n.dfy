/**
 * The translation helpers the application modules call: `getCurrentLang`
 * reads the language off the document, `t` looks a key up through the
 * runtime tables of `window.i18n` and then a built-in fallback table, and
 * `tf` fills `{name}` placeholders in the text it gets.
 */
module CoreI18n {
  import opened Wrappers
  import opened Strings
  import I18n

  datatype Lang = En | Zh

  function Code(lang: Lang): string {
    match lang
    case En => "en"
    case Zh => "zh"
  }

  /** `getCurrentLang()`: Chinese exactly when the document's language tag starts with `zh`, in any case. */
  function GetCurrentLang(htmlLang: string): (r: Lang)
    ensures r == Zh <==> |htmlLang| >= 2 && (htmlLang[0] == 'z' || htmlLang[0] == 'Z') && (htmlLang[1] == 'h' || htmlLang[1] == 'H')
  {
    var lower := ToLowerAscii(htmlLang);
    if StartsWith(lower, "zh") then Zh else En
  }

  /** After a language switch the document tag reads back as the language that was chosen. */
  lemma DocumentLangReadsBack(lang: string)
    requires lang in I18n.Translations
    ensures Code(GetCurrentLang(I18n.DocumentLang(lang))) == lang
  {
  }

  /** A representative part of the built-in fallback texts. */
  const FallbackEn: map<string, string> := map[
    "merge.errorNoCodes" := "Please upload at least 2 QR code images.",
    "merge.labelFallback" := "QR {index}",
    "batch.meta" := "{count} items · ECC {ecc}",
    "generate.meta" := "{count}×{count} modules · View {dim}×{dim} · ECC {ecc}"]

  const FallbackZh: map<string, string> := map[
    "merge.errorNoCodes" := "请至少上传 2 个二维码图片。",
    "merge.labelFallback" := "二维码 {index}",
    "batch.meta" := "{count} 个 · ECC {ecc}",
    "generate.meta" := "{count}×{count} 模块 · 视图 {dim}×{dim} · ECC {ecc}"]

  function FallbackTable(lang: Lang): map<string, string> {
    match lang
    case En => FallbackEn
    case Zh => FallbackZh
  }

  /** `FALLBACK_TEXT[lang]?.[key] ?? FALLBACK_TEXT.en?.[key]`: English is consulted only when the entry is absent. */
  function FallbackLookup(lang: Lang, key: string): Option<string> {
    if key in FallbackTable(lang) then Some(FallbackTable(lang)[key])
    else if key in FallbackEn then Some(FallbackEn[key])
    else None
  }

  /**
   * The layering of `t` once the runtime has answered: the runtime text when
   * it is neither empty nor the key echoed back, then a non-empty fallback
   * entry, then the caller's fallback.
   */
  function Resolve(runtime: Option<string>, lang: Lang, key: string, fallback: string): (r: string)
    ensures r != "" || fallback == ""
    ensures (runtime.Some? && r == runtime.value) || r == fallback ||
      r in FallbackTable(lang).Values || r in FallbackEn.Values
  {
    if runtime.Some? && runtime.value != "" && runtime.value != key then runtime.value
    else
      match FallbackLookup(lang, key)
      case Some(fb) => if fb != "" then fb else fallback
      case None => fallback
  }

  /** A runtime text that is present, not empty and not the key itself always wins. */
  lemma RuntimeFirst(text: string, lang: Lang, key: string, fallback: string)
    requires text != "" && text != key
    ensures Resolve(Some(text), lang, key, fallback) == text
  {
  }

  /** A runtime that is missing, answers with nothing, or echoes the key is ignored alike. */
  lemma RuntimeMissIgnored(lang: Lang, key: string, fallback: string)
    ensures Resolve(Some(""), lang, key, fallback) == Resolve(None, lang, key, fallback)
    ensures Resolve(Some(key), lang, key, fallback) == Resolve(None, lang, key, fallback)
  {
  }

  /**
   * Without a runtime text: the current language's entry, else the English
   * one, else the caller's fallback.
   */
  lemma FallbackOrder(lang: Lang, key: string, fallback: string)
    ensures key in FallbackTable(lang) && FallbackTable(lang)[key] != "" ==>
      Resolve(None, lang, key, fallback) == FallbackTable(lang)[key]
    ensures key !in FallbackTable(lang) && key in FallbackEn && FallbackEn[key] != "" ==>
      Resolve(None, lang, key, fallback) == FallbackEn[key]
    ensures key !in FallbackTable(lang) && key !in FallbackEn ==> Resolve(None, lang, key, fallback) == fallback
  {
  }

  /**
   * `t(key, fallback)`: `window.i18n` is present when `i18nLoaded`, and is
   * then the language state of `I18n`, asked for the key in the document's
   * language.
   */
  function T(htmlLang: string, i18nLoaded: bool, key: string, fallback: string): (r: string)
    ensures r != "" || fallback == ""
    ensures var lang := GetCurrentLang(htmlLang);
      (i18nLoaded && r == I18n.GetTranslation(key, Code(lang))) || r == fallback ||
      r in FallbackTable(lang).Values || r in FallbackEn.Values
  {
    var lang := GetCurrentLang(htmlLang);
    var runtime := if i18nLoaded then Some(I18n.GetTranslation(key, Code(lang))) else None;
    Resolve(runtime, lang, key, fallback)
  }

  /** `t(key)`: the fallback defaults to the key, so an unknown key shows itself. */
  lemma UnknownKeyShowsItself(htmlLang: string, i18nLoaded: bool, key: string)
    requires key !in FallbackEn && key !in FallbackZh
    requires forall l :: l in I18n.Translations ==> key !in I18n.Translations[l]
    ensures T(htmlLang, i18nLoaded, key, key) == key
  {
    var lang := GetCurrentLang(htmlLang);
    assert Code(lang) in I18n.Translations;
  }

  /** With the runtime loaded, its table is preferred to the built-in one. */
  lemma RuntimeTablePreferred(htmlLang: string, key: string, fallback: string)
    requires var code := Code(GetCurrentLang(htmlLang));
      key in I18n.Translations[code] && I18n.Translations[code][key] != "" && I18n.Translations[code][key] != key
    ensures T(htmlLang, true, key, fallback) == I18n.Translations[Code(GetCurrentLang(htmlLang))][key]
  {
  }

  /** `[A-Za-z0-9_]`. */
  predicate IsWordChar(c: char) {
    'a' <= c <= 'z' || 'A' <= c <= 'Z' || '0' <= c <= '9' || c == '_'
  }

  predicate IsName(name: string) {
    name != [] && forall k :: 0 <= k < |name| ==> IsWordChar(name[k])
  }

  /** The longest prefix made of word characters. */
  function WordRun(s: string): (r: string)
    ensures |r| <= |s| && r == s[..|r|]
    ensures forall k :: 0 <= k < |r| ==> IsWordChar(r[k])
    ensures |r| < |s| ==> !IsWordChar(s[|r|])
  {
    if s == [] || !IsWordChar(s[0]) then [] else [s[0]] + WordRun(s[1..])
  }

  /** The name of the placeholder `{name}` that `s` starts with, if it starts with one. */
  function TokenAt(s: string): (r: Option<string>)
    ensures r.Some? ==> IsName(r.value) && |r.value| + 2 <= |s| && s[..|r.value| + 2] == "{" + r.value + "}"
  {
    if s == [] || s[0] != '{' then None
    else
      var name := WordRun(s[1..]);
      if name != [] && |name| + 1 < |s| && s[|name| + 1] == '}' then Some(name) else None
  }

  /** `String(params[token] ?? "")`. */
  function ParamText(params: map<string, string>, name: string): string {
    if name in params then params[name] else ""
  }

  /**
   * `.replace(/\{([a-zA-Z0-9_]+)\}/g, ...)`: one left-to-right pass; each
   * placeholder is replaced by its parameter and scanning resumes after it.
   */
  function Substitute(s: string, params: map<string, string>): (r: string)
    ensures '{' !in s ==> r == s
    ensures NoToken(s) ==> r == s
    decreases |s|
  {
    PlainHasNoToken(s);
    if s == [] then []
    else
      NoTokenTail(s);
      match TokenAt(s)
      case Some(name) => ParamText(params, name) + Substitute(s[|name| + 2..], params)
      case None =>
        assert s == [s[0]] + s[1..];
        [s[0]] + Substitute(s[1..], params)
  }

  /** No position of `s` starts a placeholder: a stray `{`, `{}` or `{a-b}` may still occur. */
  predicate NoToken(s: string) {
    forall i :: 0 <= i < |s| ==> TokenAt(s[i..]).None?
  }

  /** A text without placeholders does not start with one, and its tail has none either. */
  lemma NoTokenTail(s: string)
    requires s != []
    ensures NoToken(s) ==> TokenAt(s).None? && NoToken(s[1..])
  {
    if NoToken(s) {
      assert s[0..] == s;
      forall i | 0 <= i < |s| - 1 ensures TokenAt(s[1..][i..]).None? {
        assert s[1..][i..] == s[i + 1..];
      }
    }
  }

  /** A text without `{` has no placeholder. */
  lemma PlainHasNoToken(s: string)
    ensures '{' !in s ==> NoToken(s)
  {
    if '{' !in s {
      forall i | 0 <= i < |s| ensures TokenAt(s[i..]).None? {
        assert s[i..][0] == s[i];
      }
    }
  }

  /** Braces that open no placeholder are kept as written. */
  lemma StrayBracesKept(params: map<string, string>)
    ensures Substitute("a{b", params) == "a{b"
    ensures Substitute("{}", params) == "{}"
    ensures Substitute("{a-b}", params) == "{a-b}"
  {
    assert WordRun("b") == "b";
    assert NoToken("a{b") by {
      forall i | 0 <= i < 3 ensures TokenAt("a{b"[i..]).None? {
        assert "a{b"[1..] == "{b";
      }
    }
    assert WordRun("}") == [];
    assert NoToken("{}");
    assert WordRun("a-b}") == "a";
    assert NoToken("{a-b}") by {
      forall i | 0 <= i < 5 ensures TokenAt("{a-b}"[i..]).None? {
        if i == 0 {
          assert "{a-b}"[1..] == "a-b}";
        }
      }
    }
  }

  /** `tf(key, params, fallback)`: the text `t` gives, with its placeholders filled; a text without any is returned as is. */
  function Tf(htmlLang: string, i18nLoaded: bool, key: string, params: map<string, string>, fallback: string): (r: string)
    ensures var text := T(htmlLang, i18nLoaded, key, fallback);
      ('{' !in text ==> r == text) && (NoToken(text) ==> r == text)
  {
    Substitute(T(htmlLang, i18nLoaded, key, fallback), params)
  }

  /** Text without an opening brace passes through unchanged. */
  lemma {:induction false} SubstitutePlain(plain: string, rest: string, params: map<string, string>)
    requires '{' !in plain
    ensures Substitute(plain + rest, params) == plain + Substitute(rest, params)
    decreases |plain|
  {
    if plain == [] {
      assert plain + rest == rest;
    } else {
      var s := plain + rest;
      var tail := plain[1..];
      assert s[0] == plain[0] && TokenAt(s).None?;
      assert s[1..] == tail + rest;
      SubstitutePlain(tail, rest, params);
      assert Substitute(s, params) == [plain[0]] + (tail + Substitute(rest, params));
      AppendAssoc([plain[0]], tail, Substitute(rest, params));
      assert [plain[0]] + tail == plain;
    }
  }

  /** A placeholder is replaced by its parameter's text, which is not scanned again. */
  lemma PlaceholderReplaced(name: string, rest: string, params: map<string, string>)
    requires IsName(name)
    ensures Substitute("{" + name + "}" + rest, params) == ParamText(params, name) + Substitute(rest, params)
  {
    var s := "{" + name + "}" + rest;
    assert s[1..] == name + ("}" + rest);
    WordRunStops(name, "}" + rest);
    assert s[|name| + 1] == '}';
    assert s[|name| + 2..] == rest;
  }

  /** A run of word characters ends where the first other character stands. */
  lemma {:induction false} WordRunStops(name: string, rest: string)
    requires forall k :: 0 <= k < |name| ==> IsWordChar(name[k])
    requires rest == [] || !IsWordChar(rest[0])
    ensures WordRun(name + rest) == name
    decreases |name|
  {
    if name != [] {
      assert (name + rest)[1..] == name[1..] + rest;
      WordRunStops(name[1..], rest);
      assert [name[0]] + name[1..] == name;
    } else {
      assert name + rest == rest;
    }
  }

  /** A template as written: literal text and placeholders. */
  datatype Piece = Literal(text: string) | Placeholder(name: string)

  predicate WellFormed(pieces: seq<Piece>) {
    forall k :: 0 <= k < |pieces| ==>
      match pieces[k]
      case Literal(text) => '{' !in text
      case Placeholder(name) => IsName(name)
  }

  /** The template's text. */
  function Written(pieces: seq<Piece>): string {
    if pieces == [] then []
    else
      (match pieces[0]
       case Literal(text) => text
       case Placeholder(name) => "{" + name + "}") + Written(pieces[1..])
  }

  /** The template filled in: each placeholder by its parameter, an absent one by nothing. */
  function Filled(pieces: seq<Piece>, params: map<string, string>): string {
    if pieces == [] then []
    else
      (match pieces[0]
       case Literal(text) => text
       case Placeholder(name) => ParamText(params, name)) + Filled(pieces[1..], params)
  }

  /** Substitution fills in exactly the placeholders of a well-formed template and keeps the rest. */
  lemma {:induction false} SubstituteFills(pieces: seq<Piece>, params: map<string, string>)
    requires WellFormed(pieces)
    ensures Substitute(Written(pieces), params) == Filled(pieces, params)
  {
    if pieces != [] {
      assert WellFormed(pieces[1..]) by {
        forall k | 0 <= k < |pieces[1..]| ensures pieces[1..][k] == pieces[k + 1] {}
      }
      SubstituteFills(pieces[1..], params);
      var rest := Written(pieces[1..]);
      match pieces[0]
      case Literal(text) =>
        assert '{' !in text by { assert WellFormed(pieces) && pieces[0] == Literal(text); }
        SubstitutePlain(text, rest, params);
      case Placeholder(name) =>
        assert IsName(name) by { assert WellFormed(pieces) && pieces[0] == Placeholder(name); }
        PlaceholderReplaced(name, rest, params);
    }
  }

  /** Single pass: a parameter whose text looks like a placeholder is inserted literally. */
  lemma SinglePass(name: string, params: map<string, string>)
    requires IsName(name)
    ensures Substitute("{" + name + "}", params) == ParamText(params, name)
  {
    PlaceholderReplaced(name, [], params);
    assert "{" + name + "}" + [] == "{" + name + "}";
  }

  /** A template made of a placeholder, plain text and a placeholder comes out as the two parameters around the text. */
  lemma TwoPlaceholders(a: string, text: string, b: string, params: map<string, string>)
    requires IsName(a) && IsName(b) && '{' !in text
    ensures Substitute("{" + a + "}" + text + "{" + b + "}", params) ==
      ParamText(params, a) + text + ParamText(params, b)
  {
    var ta, tb := "{" + a + "}", "{" + b + "}";
    var pa, pb := ParamText(params, a), ParamText(params, b);
    assert "{" + a + "}" + text + "{" + b + "}" == ta + (text + tb);
    PlaceholderReplaced(b, [], params);
    assert tb + [] == tb;
    assert Substitute(tb, params) == pb;
    SubstitutePlain(text, tb, params);
    assert Substitute(text + tb, params) == text + pb;
    PlaceholderReplaced(a, text + tb, params);
    assert Substitute(ta + (text + tb), params) == pa + (text + pb);
    AppendAssoc(pa, text, pb);
  }

  lemma CountAndEccAreNames()
    ensures IsName("count") && IsName("ecc")
  {
    assert IsWordChar('c') && IsWordChar('o') && IsWordChar('u') && IsWordChar('n') && IsWordChar('t') && IsWordChar('e');
  }

  lemma BatchMetaTemplate()
    ensures "batch.meta" in FallbackEn && FallbackEn["batch.meta"] != ""
    ensures FallbackEn["batch.meta"] == "{" + "count" + "}" + " items · ECC " + "{" + "ecc" + "}"
  {
  }

  /** `tf("batch.meta", params)` on an English page without the runtime fills both placeholders of the fallback text. */
  lemma BatchMetaFilled(htmlLang: string, params: map<string, string>)
    requires GetCurrentLang(htmlLang) == En
    ensures Tf(htmlLang, false, "batch.meta", params, "batch.meta") ==
      ParamText(params, "count") + " items · ECC " + ParamText(params, "ecc")
  {
    BatchMetaTemplate();
    var template := FallbackEn["batch.meta"];
    assert FallbackLookup(En, "batch.meta") == Some(template);
    assert T(htmlLang, false, "batch.meta", "batch.meta") == template;
    CountAndEccAreNames();
    TwoPlaceholders("count", " items · ECC ", "ecc", params);
  }
}
