/**
 * The payload encoder of src/app.mjs: `escapeVCardValue` and `buildPayload`,
 * which turn a scheme tag and the form's fields into the exact string put in
 * the QR symbol.
 *
 * The two browser encoders the source calls (`URLSearchParams` for the mailto
 * query and `encodeURIComponent` for the geo query) are opaque parameters.
 */
module Payload {
  import opened Wrappers
  import opened Strings

  /**
   * The field map that the generator form produces: a checkbox contributes a
   * boolean under its name, every other input its text value.
   */
  datatype Fields = Fields(values: map<string, string>, checked: map<string, bool>)

  /** `String(fields[name] ?? fallback)` for a text input. */
  function Field(f: Fields, name: string, fallback: string): string {
    if name in f.values then f.values[name] else fallback
  }

  /** The truthiness of `fields[name]` for a checkbox; an absent one is falsy. */
  predicate Checked(f: Fields, name: string) {
    name in f.checked && f.checked[name]
  }

  /** The encoders the source borrows from the browser. */
  datatype Encoders = Encoders(
    formEncode: string -> string,   // application/x-www-form-urlencoded value encoding (URLSearchParams)
    uriComponent: string -> string  // encodeURIComponent
  )

  // ---------------------------------------------------------------------------
  // Escaping

  /** The Wi-Fi escape: backslash first, then semicolon; nothing else is touched. */
  function EscapeWifi(s: string): string {
    ReplaceChar(ReplaceChar(s, '\\', "\\\\"), ';', "\\;")
  }

  /** The four `replaceAll` calls of `escapeVCardValue`, backslash first. */
  function VCardReplaceChain(s: string): string {
    ReplaceChar(ReplaceChar(ReplaceChar(ReplaceChar(s, '\\', "\\\\"), '\n', "\\n"), ';', "\\;"), ',', "\\,")
  }

  /**
   * `escapeVCardValue`: the chain escapes every character on its own, as the
   * per-character reference does, and unescaping gives the value back.
   */
  function EscapeVCardValue(s: string): (r: string)
    ensures r == VCardEscapeEach(s)
    ensures UnescapeVCardValue(r) == s
  {
    ReplaceChainIsPerChar(s);
    VCardEscapeEachRoundTrip(s);
    VCardReplaceChain(s)
  }

  /** The escape sequence section 4 of RFC 2426 gives each character of a vCard text value. */
  function VCardCharEscape(c: char): string {
    if c == '\\' then "\\\\"
    else if c == '\n' then "\\n"
    else if c == ';' then "\\;"
    else if c == ',' then "\\,"
    else [c]
  }

  /** Reference definition: escape each character independently. */
  function VCardEscapeEach(s: string): string {
    if s == [] then [] else VCardCharEscape(s[0]) + VCardEscapeEach(s[1..])
  }

  function WifiCharEscape(c: char): string {
    if c == '\\' then "\\\\" else if c == ';' then "\\;" else [c]
  }

  function WifiEscapeEach(s: string): string {
    if s == [] then [] else WifiCharEscape(s[0]) + WifiEscapeEach(s[1..])
  }

  /** Reverses the vCard escape: `\n` becomes a newline and `\x` becomes `x`. */
  function UnescapeVCardValue(t: string): string {
    if t == [] then []
    else if t[0] == '\\' && |t| >= 2 then
      (if t[1] == 'n' then "\n" else [t[1]]) + UnescapeVCardValue(t[2..])
    else [t[0]] + UnescapeVCardValue(t[1..])
  }

  /**
   * Reads one Wi-Fi field value up to its unescaped terminating `;`,
   * returning the unescaped value and the text after the terminator.
   */
  function ReadWifiField(t: string): (string, string) {
    if t == [] then ([], [])
    else if t[0] == ';' then ([], t[1..])
    else if t[0] == '\\' && |t| >= 2 then
      var (v, rest) := ReadWifiField(t[2..]); ([t[1]] + v, rest)
    else
      var (v, rest) := ReadWifiField(t[1..]); ([t[0]] + v, rest)
  }

  lemma ReplaceChainOneChar(c: char)
    ensures VCardReplaceChain([c]) == VCardCharEscape(c)
  {
    var s1 := ReplaceChar([c], '\\', "\\\\");
    var s2 := ReplaceChar(s1, '\n', "\\n");
    var s3 := ReplaceChar(s2, ';', "\\;");
    ReplaceCharSingle(c, '\\', "\\\\");
    if c == '\\' {
      ReplaceCharAbsent(s1, '\n', "\\n");
      ReplaceCharAbsent(s2, ';', "\\;");
      ReplaceCharAbsent(s3, ',', "\\,");
    } else {
      if c == '\n' {
        ReplaceCharSingle(c, '\n', "\\n");
        ReplaceCharAbsent(s2, ';', "\\;");
        ReplaceCharAbsent(s3, ',', "\\,");
      } else {
        ReplaceCharAbsent(s1, '\n', "\\n");
        if c == ';' {
          ReplaceCharSingle(c, ';', "\\;");
          ReplaceCharAbsent(s3, ',', "\\,");
        } else {
          ReplaceCharAbsent(s2, ';', "\\;");
          ReplaceCharSingle(c, ',', "\\,");
        }
      }
    }
  }

  /** The chained replaceAll calls escape every character on its own: backslash-first order prevents double escaping. */
  lemma {:induction false} ReplaceChainIsPerChar(s: string)
    ensures VCardReplaceChain(s) == VCardEscapeEach(s)
  {
    if s != [] {
      var a, b := [s[0]], s[1..];
      assert s == a + b;
      var a1, b1 := ReplaceChar(a, '\\', "\\\\"), ReplaceChar(b, '\\', "\\\\");
      ReplaceCharAppend(a, b, '\\', "\\\\");
      var a2, b2 := ReplaceChar(a1, '\n', "\\n"), ReplaceChar(b1, '\n', "\\n");
      ReplaceCharAppend(a1, b1, '\n', "\\n");
      var a3, b3 := ReplaceChar(a2, ';', "\\;"), ReplaceChar(b2, ';', "\\;");
      ReplaceCharAppend(a2, b2, ';', "\\;");
      ReplaceCharAppend(a3, b3, ',', "\\,");
      ReplaceChainOneChar(s[0]);
      ReplaceChainIsPerChar(b);
    }
  }

  lemma {:induction false} EscapeWifiIsPerChar(s: string)
    ensures EscapeWifi(s) == WifiEscapeEach(s)
  {
    if s != [] {
      var a, b := [s[0]], s[1..];
      assert s == a + b;
      var a1, b1 := ReplaceChar(a, '\\', "\\\\"), ReplaceChar(b, '\\', "\\\\");
      ReplaceCharAppend(a, b, '\\', "\\\\");
      ReplaceCharAppend(a1, b1, ';', "\\;");
      assert a1 == (if s[0] == '\\' then "\\\\" else a);
      if s[0] == '\\' {
        ReplaceCharAbsent(a1, ';', "\\;");
      }
      EscapeWifiIsPerChar(b);
    }
  }

  lemma {:induction false} VCardEscapeEachRoundTrip(s: string)
    ensures UnescapeVCardValue(VCardEscapeEach(s)) == s
  {
    if s != [] {
      var e := VCardCharEscape(s[0]);
      var rest := VCardEscapeEach(s[1..]);
      if |e| == 2 {
        assert (e + rest)[2..] == rest;
      } else {
        assert (e + rest)[1..] == rest;
      }
      VCardEscapeEachRoundTrip(s[1..]);
    }
  }

  /** The vCard escape is injective: distinct values never share an escaped form. */
  lemma EscapeVCardInjective(a: string, b: string)
    requires EscapeVCardValue(a) == EscapeVCardValue(b)
    ensures a == b
  {
    assert UnescapeVCardValue(EscapeVCardValue(a)) == a;
  }

  lemma {:induction false} VCardEscapeEachFacts(s: string)
    ensures '\n' !in VCardEscapeEach(s)
    ensures VCardEscapeEach(s) == [] <==> s == []
  {
    if s != [] { VCardEscapeEachFacts(s[1..]); }
  }

  /** An escaped vCard value holds no raw newline, and is empty only when the value is. */
  lemma EscapeVCardFacts(s: string)
    ensures '\n' !in EscapeVCardValue(s)
    ensures EscapeVCardValue(s) == [] <==> s == []
  {
    VCardEscapeEachFacts(s);
  }

  lemma {:induction false} WifiEscapeEachRead(v: string, rest: string)
    ensures ReadWifiField(WifiEscapeEach(v) + ([';'] + rest)) == (v, rest)
  {
    if v == [] {
      assert WifiEscapeEach(v) + ([';'] + rest) == [';'] + rest;
    } else {
      var e := WifiCharEscape(v[0]);
      var tail := WifiEscapeEach(v[1..]) + ([';'] + rest);
      var t := e + tail;
      assert WifiEscapeEach(v) + ([';'] + rest) == t;
      WifiEscapeEachRead(v[1..], rest);
      assert [v[0]] + v[1..] == v;
      if |e| == 2 {
        assert t[0] == '\\' && t[1] == v[0];
        assert t[2..] == tail;
      } else {
        assert t[0] == v[0] && v[0] != ';' && v[0] != '\\';
        assert t[1..] == tail;
      }
    }
  }

  /** Reading back an escaped Wi-Fi field stops at the terminator that follows it and yields the value. */
  lemma EscapeWifiRead(v: string, rest: string)
    ensures ReadWifiField(EscapeWifi(v) + ([';'] + rest)) == (v, rest)
  {
    EscapeWifiIsPerChar(v);
    WifiEscapeEachRead(v, rest);
  }

  lemma {:induction false} WifiEscapeEachPlain(s: string)
    requires '\\' !in s && ';' !in s
    ensures WifiEscapeEach(s) == s
  {
    if s != [] { WifiEscapeEachPlain(s[1..]); }
  }

  /** Commas, newlines and every other character pass through the Wi-Fi escape untouched. */
  lemma EscapeWifiPlain(s: string)
    requires '\\' !in s && ';' !in s
    ensures EscapeWifi(s) == s
  {
    EscapeWifiIsPerChar(s);
    WifiEscapeEachPlain(s);
  }

  // ---------------------------------------------------------------------------
  // The schemes

  /** The Wi-Fi credential string; `nopass` and every other security value pass through unchanged. */
  function WifiOf(security: string, ssid: string, password: string, hidden: bool): string {
    var safeSec := if security == "nopass" then "nopass" else security;
    var h := if hidden then "true" else "false";
    "WIFI:T:" + (safeSec + (";S:" + (EscapeWifi(ssid) + (";P:" + (EscapeWifi(password) + (";H:" + (h + ";;")))))))
  }

  /** The mailto URI; `qs` is what `URLSearchParams.toString()` gives for the non-blank subject and body. */
  function EmailOf(to: string, subject: string, body: string, enc: Encoders): string {
    var params := (if subject != "" then [("subject", subject)] else [])
                + (if body != "" then [("body", body)] else []);
    var qs := FormQuery(params, enc);
    if qs != "" then "mailto:" + (to + ("?" + qs)) else "mailto:" + to
  }

  /** `URLSearchParams.toString()`: `name=value` pairs joined by `&`, values form-encoded. */
  function FormQuery(params: seq<(string, string)>, enc: Encoders): string {
    Join(FormPairs(params, enc), '&')
  }

  function FormPairs(params: seq<(string, string)>, enc: Encoders): (r: seq<string>)
    ensures |r| == |params|
  {
    if params == [] then [] else [FormPair(params[0].0, params[0].1, enc)] + FormPairs(params[1..], enc)
  }

  function FormPair(name: string, value: string, enc: Encoders): string {
    name + "=" + enc.formEncode(value)
  }

  function SmsOf(to: string, body: string): string {
    if body == "" then "SMSTO:" + (to + ":") else "SMSTO:" + (to + (":" + body))
  }

  function GeoOf(lat: string, lng: string, q: string, enc: Encoders): string {
    if q != "" then "geo:" + (lat + ("," + (lng + ("?q=" + enc.uriComponent(q))))) else "geo:" + (lat + ("," + lng))
  }

  /** The vCard properties in output order, each paired with its raw field value. */
  function VCardEntries(f: Fields): seq<(string, string)> {
    [("FN", Field(f, "name", "")), ("ORG", Field(f, "org", "")), ("TITLE", Field(f, "title", "")),
     ("TEL;TYPE=CELL", Field(f, "tel", "")), ("EMAIL", Field(f, "email", "")), ("URL", Field(f, "url", "")),
     ("ADR", Field(f, "adr", "")), ("NOTE", Field(f, "note", ""))]
  }

  /** One candidate line per property: the property line, or "" when its escaped value is empty. */
  function CandidateLines(entries: seq<(string, string)>): (r: seq<string>)
    ensures |r| == |entries|
  {
    if entries == [] then []
    else
      var v := EscapeVCardValue(entries[0].1);
      [if v != "" then entries[0].0 + ":" + v else ""] + CandidateLines(entries[1..])
  }

  function VCardOf(entries: seq<(string, string)>): string {
    Join(NonEmpty(["BEGIN:VCARD", "VERSION:3.0"] + CandidateLines(entries) + ["END:VCARD"]), '\n')
  }

  /** The scheme tags `buildPayload` knows. */
  datatype Scheme = Text | Wifi | Tel | Email | Sms | Geo | VCard

  /** The `case` label of the `switch` that matches `kind`, if any. */
  function SchemeOf(kind: string): (r: Option<Scheme>)
    ensures r == Some(Text) <==> kind == "text"
    ensures r == Some(Wifi) <==> kind == "wifi"
    ensures r == Some(Tel) <==> kind == "tel"
    ensures r == Some(Email) <==> kind == "email"
    ensures r == Some(Sms) <==> kind == "sms"
    ensures r == Some(Geo) <==> kind == "geo"
    ensures r == Some(VCard) <==> kind == "vcard"
  {
    if kind == "text" then Some(Text)
    else if kind == "wifi" then Some(Wifi)
    else if kind == "tel" then Some(Tel)
    else if kind == "email" then Some(Email)
    else if kind == "sms" then Some(Sms)
    else if kind == "geo" then Some(Geo)
    else if kind == "vcard" then Some(VCard)
    else None
  }

  /**
   * `buildPayload(type, fields)`: an unknown tag gives the empty string, a
   * text payload is trimmed, and every other scheme starts with its own
   * prefix.
   */
  function BuildPayload(kind: string, f: Fields, enc: Encoders): (r: string)
    ensures SchemeOf(kind).None? ==> r == ""
    ensures kind == "text" ==> Trim(r) == r
    ensures kind == "wifi" ==> StartsWith(r, "WIFI:T:")
    ensures kind == "tel" ==> StartsWith(r, "tel:")
    ensures kind == "email" ==> StartsWith(r, "mailto:")
    ensures kind == "sms" ==> StartsWith(r, "SMSTO:")
    ensures kind == "geo" ==> StartsWith(r, "geo:")
    ensures kind == "vcard" ==> StartsWith(r, "BEGIN:VCARD\n")
  {
    match SchemeOf(kind)
    case None => ""
    case Some(Text) => TextPayload(f)
    case Some(Wifi) => WifiPayload(f)
    case Some(Tel) => TelPayload(f)
    case Some(Email) => EmailPayload(f, enc)
    case Some(Sms) => SmsPayload(f)
    case Some(Geo) => GeoPayload(f, enc)
    case Some(VCard) => VCardPayload(f)
  }

  function TextPayload(f: Fields): (r: string)
    ensures Trim(r) == r
  {
    if "text" in f.values then
      var text := f.values["text"];
      TrimIdempotent(text);
      Trim(text)
    else ""
  }

  function WifiPayload(f: Fields): (r: string)
    ensures StartsWith(r, "WIFI:T:")
  {
    WifiOf(Field(f, "security", "WPA"), Field(f, "ssid", ""), Field(f, "password", ""), Checked(f, "hidden"))
  }

  function TelPayload(f: Fields): (r: string)
    ensures StartsWith(r, "tel:")
  {
    "tel:" + Trim(Field(f, "tel", ""))
  }

  function EmailPayload(f: Fields, enc: Encoders): (r: string)
    ensures StartsWith(r, "mailto:")
  {
    EmailOf(Trim(Field(f, "to", "")), Trim(Field(f, "subject", "")), Trim(Field(f, "body", "")), enc)
  }

  function SmsPayload(f: Fields): (r: string)
    ensures StartsWith(r, "SMSTO:")
  {
    SmsOf(Trim(Field(f, "to", "")), Trim(Field(f, "body", "")))
  }

  function GeoPayload(f: Fields, enc: Encoders): (r: string)
    ensures StartsWith(r, "geo:")
  {
    GeoOf(Trim(Field(f, "lat", "")), Trim(Field(f, "lng", "")), Trim(Field(f, "q", "")), enc)
  }

  function VCardPayload(f: Fields): (r: string)
    ensures StartsWith(r, "BEGIN:VCARD\n")
  {
    var entries := VCardEntries(f);
    VCardNamesPlain(f);
    VCardOfJoin(entries);
    var rest := ["VERSION:3.0"] + PresentLines(entries) + ["END:VCARD"];
    assert ["BEGIN:VCARD", "VERSION:3.0"] + PresentLines(entries) + ["END:VCARD"] == ["BEGIN:VCARD"] + rest;
    VCardOf(entries)
  }

  // ---------------------------------------------------------------------------
  // Properties of the payloads

  /** The decoded form of a Wi-Fi payload. */
  datatype WifiConfig = WifiConfig(security: string, ssid: string, password: string, hidden: bool)

  /** A reader for `WIFI:T:<sec>;S:<ssid>;P:<password>;H:<true|false>;;` with escaped SSID and password. */
  function ParseWifi(p: string): Option<WifiConfig> {
    match DropPrefix(p, "WIFI:T:")
    case None => None
    case Some(t) =>
      var i := IndexOf(t, ';');
      if i < 0 then None
      else
        match ParseWifiCredentials(t[i + 1..])
        case None => None
        case Some(c) => Some(WifiConfig(t[..i], c.0, c.1, c.2))
  }

  /** Reads `S:<ssid>;P:<password>;H:<true|false>;;`. */
  function ParseWifiCredentials(u: string): Option<(string, string, bool)> {
    match DropPrefix(u, "S:")
    case None => None
    case Some(u1) =>
      var (ssid, u2) := ReadWifiField(u1);
      match DropPrefix(u2, "P:")
      case None => None
      case Some(u3) =>
        var (password, u4) := ReadWifiField(u3);
        match ParseHidden(u4)
        case None => None
        case Some(hidden) => Some((ssid, password, hidden))
  }

  function ParseHidden(v: string): Option<bool> {
    if v == "H:true;;" then Some(true) else if v == "H:false;;" then Some(false) else None
  }

  lemma ParseHiddenOf(hidden: bool)
    ensures ParseHidden("H:" + ((if hidden then "true" else "false") + ";;")) == Some(hidden)
  {
    if hidden {
      assert "H:" + ("true" + ";;") == "H:true;;";
    } else {
      assert "H:" + ("false" + ";;") == "H:false;;";
    }
  }

  lemma WifiCredentialsRoundTrip(ssid: string, password: string, hidden: bool)
    ensures var tail3 := "H:" + ((if hidden then "true" else "false") + ";;");
      ParseWifiCredentials("S:" + (EscapeWifi(ssid) + ([';'] + ("P:" + (EscapeWifi(password) + ([';'] + tail3))))))
        == Some((ssid, password, hidden))
  {
    var tail3 := "H:" + ((if hidden then "true" else "false") + ";;");
    var tail2 := "P:" + (EscapeWifi(password) + ([';'] + tail3));
    DropPrefixAppend("S:", EscapeWifi(ssid) + ([';'] + tail2));
    EscapeWifiRead(ssid, tail2);
    DropPrefixAppend("P:", EscapeWifi(password) + ([';'] + tail3));
    EscapeWifiRead(password, tail3);
    ParseHiddenOf(hidden);
  }

  lemma WifiOfRoundTrip(security: string, ssid: string, password: string, hidden: bool)
    requires ';' !in security
    ensures ParseWifi(WifiOf(security, ssid, password, hidden)) == Some(WifiConfig(security, ssid, password, hidden))
  {
    var h := if hidden then "true" else "false";
    var tail3 := "H:" + (h + ";;");
    var tail2 := "P:" + (EscapeWifi(password) + ([';'] + tail3));
    var tail1 := "S:" + (EscapeWifi(ssid) + ([';'] + tail2));
    var t := security + ([';'] + tail1);
    var p := WifiOf(security, ssid, password, hidden);
    assert p == "WIFI:T:" + t by {
      assert ";H:" + (h + ";;") == [';'] + tail3;
      assert ";P:" + (EscapeWifi(password) + ([';'] + tail3)) == [';'] + tail2;
      assert ";S:" + (EscapeWifi(ssid) + ([';'] + tail2)) == [';'] + tail1;
    }
    DropPrefixAppend("WIFI:T:", t);
    IndexOfAfter(security, ';', tail1);
    WifiCredentialsRoundTrip(ssid, password, hidden);
  }

  /**
   * The Wi-Fi payload carries the security (default `WPA`), the untrimmed SSID
   * and password and the hidden flag so that a reader recovers each exactly,
   * whatever characters the SSID and password hold.
   */
  lemma WifiRoundTrip(f: Fields, enc: Encoders)
    requires ';' !in Field(f, "security", "WPA")
    ensures ParseWifi(BuildPayload("wifi", f, enc)) ==
      Some(WifiConfig(Field(f, "security", "WPA"), Field(f, "ssid", ""), Field(f, "password", ""), Checked(f, "hidden")))
  {
    WifiOfRoundTrip(Field(f, "security", "WPA"), Field(f, "ssid", ""), Field(f, "password", ""), Checked(f, "hidden"));
  }

  /** A reader for one vCard content line `NAME:value`, splitting at the first colon and unescaping. */
  function VCardLineValue(line: string): string {
    var i := IndexOf(line, ':');
    if i < 0 then "" else UnescapeVCardValue(line[i + 1..])
  }

  /** The property lines that should appear: one per property whose raw value is non-empty, in order. */
  function PresentLines(entries: seq<(string, string)>): seq<string> {
    if entries == [] then []
    else
      (if entries[0].1 != "" then [entries[0].0 + ":" + EscapeVCardValue(entries[0].1)] else [])
      + PresentLines(entries[1..])
  }

  /** Number of properties whose raw value is non-empty. */
  function PresentCount(entries: seq<(string, string)>): nat {
    if entries == [] then 0
    else (if entries[0].1 != "" then 1 else 0) + PresentCount(entries[1..])
  }

  lemma {:induction false} CandidatesFiltered(entries: seq<(string, string)>)
    requires forall k :: 0 <= k < |entries| ==> '\n' !in entries[k].0
    ensures NonEmpty(CandidateLines(entries)) == PresentLines(entries)
    ensures |PresentLines(entries)| == PresentCount(entries)
    ensures forall k :: 0 <= k < |PresentLines(entries)| ==> '\n' !in PresentLines(entries)[k]
  {
    if entries != [] {
      var raw := entries[0].1;
      EscapeVCardFacts(raw);
      var line := entries[0].0 + ":" + EscapeVCardValue(raw);
      assert '\n' !in line by {
        assert line == entries[0].0 + [':'] + EscapeVCardValue(raw);
      }
      CandidatesFiltered(entries[1..]);
    }
  }

  /** The lines `VCardOf` joins: the fixed head, the present property lines and the fixed end. */
  lemma {:induction false} VCardOfJoin(entries: seq<(string, string)>)
    requires forall k :: 0 <= k < |entries| ==> '\n' !in entries[k].0
    ensures VCardOf(entries) == Join(["BEGIN:VCARD", "VERSION:3.0"] + PresentLines(entries) + ["END:VCARD"], '\n')
  {
    CandidatesFiltered(entries);
    var head: seq<string> := ["BEGIN:VCARD", "VERSION:3.0"];
    var tail: seq<string> := ["END:VCARD"];
    var cands := CandidateLines(entries);
    NonEmptyAppend(head + cands, tail);
    NonEmptyAppend(head, cands);
    assert NonEmpty(head) == head by {
      assert head[0] != "" && head[1] != "";
      assert head[1..][1..] == [];
    }
    assert NonEmpty(tail) == tail by {
      assert tail[0] != "" && tail[1..] == [];
    }
  }

  lemma VCardOfLines(entries: seq<(string, string)>)
    requires forall k :: 0 <= k < |entries| ==> '\n' !in entries[k].0
    ensures Split(VCardOf(entries), '\n') == ["BEGIN:VCARD", "VERSION:3.0"] + PresentLines(entries) + ["END:VCARD"]
    ensures |PresentLines(entries)| == PresentCount(entries)
  {
    CandidatesFiltered(entries);
    VCardOfJoin(entries);
    var present := PresentLines(entries);
    var lines := ["BEGIN:VCARD", "VERSION:3.0"] + present + ["END:VCARD"];
    forall k | 0 <= k < |lines| ensures '\n' !in lines[k] {
      if 2 <= k < 2 + |present| {
        assert lines[k] == present[k - 2];
      }
    }
    SplitJoin(lines, '\n');
  }

  /** No vCard property name holds a line break. */
  lemma VCardNamesPlain(f: Fields)
    ensures forall k :: 0 <= k < |VCardEntries(f)| ==> '\n' !in VCardEntries(f)[k].0
  {
    var names := ["FN", "ORG", "TITLE", "TEL;TYPE=CELL", "EMAIL", "URL", "ADR", "NOTE"];
    forall k | 0 <= k < 8 ensures VCardEntries(f)[k].0 == names[k] { }
    forall k | 0 <= k < 8 ensures '\n' !in names[k] {
      if k == 3 {
        assert names[3] == "TEL;TYPE=CELL";
      }
    }
  }

  /**
   * The vCard payload, split at its newlines, is exactly `BEGIN:VCARD`,
   * `VERSION:3.0`, one property line per non-empty field in the order FN, ORG,
   * TITLE, TEL;TYPE=CELL, EMAIL, URL, ADR, NOTE, and `END:VCARD`: three lines
   * plus one per non-empty field.
   */
  lemma VCardLines(f: Fields, enc: Encoders)
    ensures Split(BuildPayload("vcard", f, enc), '\n') ==
      ["BEGIN:VCARD", "VERSION:3.0"] + PresentLines(VCardEntries(f)) + ["END:VCARD"]
    ensures |Split(BuildPayload("vcard", f, enc), '\n')| == 3 + PresentCount(VCardEntries(f))
  {
    var entries := VCardEntries(f);
    assert BuildPayload("vcard", f, enc) == VCardOf(entries);
    VCardNamesPlain(f);
    VCardOfLines(entries);
    var lines := ["BEGIN:VCARD", "VERSION:3.0"] + PresentLines(entries) + ["END:VCARD"];
    assert |lines| == 3 + PresentCount(entries);
  }

  /** Each property line of the vCard reads back, through the unescape, to the field value. */
  lemma VCardLineRoundTrip(prop: string, value: string)
    requires ':' !in prop
    ensures VCardLineValue(prop + ":" + EscapeVCardValue(value)) == value
  {
    var e := EscapeVCardValue(value);
    assert prop + ":" + e == prop + ([':'] + e);
    IndexOfAfter(prop, ':', e);
  }

  lemma EmailOfCases(to: string, s: string, b: string, enc: Encoders)
    ensures var r := EmailOf(to, s, b, enc);
      (s == "" && b == "" ==> r == "mailto:" + to) &&
      (s != "" && b == "" ==> r == "mailto:" + (to + ("?" + FormPair("subject", s, enc)))) &&
      (s == "" && b != "" ==> r == "mailto:" + (to + ("?" + FormPair("body", b, enc)))) &&
      (s != "" && b != "" ==> r == "mailto:" + (to + ("?" + (FormPair("subject", s, enc) + "&" + FormPair("body", b, enc)))))
  {
    var params := (if s != "" then [("subject", s)] else []) + (if b != "" then [("body", b)] else []);
    var pairs := FormPairs(params, enc);
    if s != "" && b != "" {
      var p2 := [("body", b)];
      assert FormPairs(p2, enc) == [FormPair("body", b, enc)] by { assert p2[1..] == []; }
      assert params == [("subject", s)] + p2;
      assert params[1..] == p2;
      assert pairs == [FormPair("subject", s, enc), FormPair("body", b, enc)];
      assert pairs[1..] == [FormPair("body", b, enc)];
      assert Join(pairs[1..], '&') == FormPair("body", b, enc);
      assert FormQuery(params, enc) == FormPair("subject", s, enc) + "&" + FormPair("body", b, enc);
    } else if s != "" {
      assert params == [("subject", s)];
    } else if b != "" {
      assert params == [("body", b)];
    } else {
      assert params == [];
      assert FormQuery(params, enc) == "";
    }
  }

  /**
   * The mailto payload: with subject and body both blank after trimming it is
   * exactly `mailto:<to>`; otherwise a `?` query follows in which the subject
   * comes before the body and a blank one is left out.
   */
  lemma EmailCases(f: Fields, enc: Encoders)
    ensures var to, s, b := Trim(Field(f, "to", "")), Trim(Field(f, "subject", "")), Trim(Field(f, "body", ""));
      var r := BuildPayload("email", f, enc);
      (s == "" && b == "" ==> r == "mailto:" + to) &&
      (s != "" && b == "" ==> r == "mailto:" + (to + ("?" + FormPair("subject", s, enc)))) &&
      (s == "" && b != "" ==> r == "mailto:" + (to + ("?" + FormPair("body", b, enc)))) &&
      (s != "" && b != "" ==> r == "mailto:" + (to + ("?" + (FormPair("subject", s, enc) + "&" + FormPair("body", b, enc)))))
  {
    EmailOfCases(Trim(Field(f, "to", "")), Trim(Field(f, "subject", "")), Trim(Field(f, "body", "")), enc);
  }

  lemma SmsOfShape(to: string, b: string)
    ensures SmsOf(to, b) == "SMSTO:" + (to + ([':'] + b))
    ensures ':' !in to ==>
      DropPrefix(SmsOf(to, b), "SMSTO:") == Some(to + ([':'] + b)) && IndexOf(to + ([':'] + b), ':') == |to| &&
      (to + ([':'] + b))[..|to|] == to && (to + ([':'] + b))[|to| + 1..] == b
  {
    if b == "" {
      assert to + ":" == to + ([':'] + b);
    } else {
      assert ":" + b == [':'] + b;
    }
    DropPrefixAppend("SMSTO:", to + ([':'] + b));
    if ':' !in to {
      IndexOfAfter(to, ':', b);
    }
  }

  /**
   * The SMS payload is `SMSTO:<to>:<body>` in every case, so an empty body
   * leaves the trailing colon; when the recipient has no colon, a reader that
   * splits at the first colon after the prefix gets both parts back.
   */
  lemma SmsShape(f: Fields, enc: Encoders)
    ensures var to, b := Trim(Field(f, "to", "")), Trim(Field(f, "body", ""));
      var r := BuildPayload("sms", f, enc);
      r == "SMSTO:" + (to + ([':'] + b)) &&
      (b == "" ==> r[|r| - 1] == ':') &&
      (':' !in to ==>
        (DropPrefix(r, "SMSTO:") == Some(to + ([':'] + b)) && IndexOf(to + ([':'] + b), ':') == |to| &&
         (to + ([':'] + b))[..|to|] == to && (to + ([':'] + b))[|to| + 1..] == b))
  {
    var to, b := Trim(Field(f, "to", "")), Trim(Field(f, "body", ""));
    assert BuildPayload("sms", f, enc) == SmsOf(to, b);
    SmsOfShape(to, b);
  }

  /**
   * `r` is `geo:<lat>,<lng>`, followed by `?q=` and the encoded query exactly
   * when the query is non-empty; with no `?` in the coordinates, `r` holds a
   * `?` if and only if there is a query.
   */
  predicate GeoShaped(r: string, lat: string, lng: string, q: string, enc: Encoders) {
    var base := "geo:" + (lat + ("," + lng));
    (q == "" ==> r == base) &&
    (q != "" ==> DropPrefix(r, base) == Some("?q=" + enc.uriComponent(q))) &&
    ('?' !in lat && '?' !in lng ==> ('?' in r <==> q != ""))
  }

  lemma GeoOfShape(lat: string, lng: string, q: string, enc: Encoders)
    ensures GeoShaped(GeoOf(lat, lng, q, enc), lat, lng, q, enc)
  {
    var base := "geo:" + (lat + ("," + lng));
    if q != "" {
      var tail := "?q=" + enc.uriComponent(q);
      assert GeoOf(lat, lng, q, enc) == base + tail;
      DropPrefixAppend(base, tail);
      assert tail[0] == '?';
      assert (base + tail)[|base|] == '?';
    } else {
      assert '?' !in "geo:" && '?' !in ",";
    }
  }

  /**
   * The geo payload is `geo:<lat>,<lng>`, followed by `?q=` and the encoded
   * query exactly when the trimmed query is non-empty; when the coordinates
   * hold no `?`, a `?` occurs in the payload if and only if a query was given.
   */
  lemma GeoShape(f: Fields, enc: Encoders)
    ensures GeoShaped(BuildPayload("geo", f, enc), Trim(Field(f, "lat", "")), Trim(Field(f, "lng", "")), Trim(Field(f, "q", "")), enc)
  {
    var lat, lng, q := Trim(Field(f, "lat", "")), Trim(Field(f, "lng", "")), Trim(Field(f, "q", ""));
    assert BuildPayload("geo", f, enc) == GeoOf(lat, lng, q, enc);
    GeoOfShape(lat, lng, q, enc);
  }

  /**
   * Only an unknown scheme tag or blank text gives an empty payload; every
   * other scheme starts with its own prefix.
   */
  lemma EmptyPayloadIff(kind: string, f: Fields, enc: Encoders)
    ensures BuildPayload(kind, f, enc) == "" <==>
      SchemeOf(kind) == None || (kind == "text" && ("text" in f.values ==> AllSpace(f.values["text"])))
  {
    match SchemeOf(kind)
    case None =>
    case Some(Text) =>
      if "text" in f.values {
        TrimEmptyIff(f.values["text"]);
      }
    case Some(Wifi) => assert |WifiPayload(f)| >= 7;
    case Some(Tel) => assert |TelPayload(f)| >= 4;
    case Some(Email) => assert |EmailPayload(f, enc)| >= 7;
    case Some(Sms) => assert |SmsPayload(f)| >= 6;
    case Some(Geo) => assert |GeoPayload(f, enc)| >= 4;
    case Some(VCard) =>
      VCardLines(f, enc);
      assert Split("", '\n') == [""];
  }

  /**
   * A text payload is the trimmed input, empty when the field is missing: no
   * white space at either end, and trimming again changes nothing.
   */
  lemma TextTrimmed(f: Fields, enc: Encoders)
    ensures BuildPayload("text", f, enc) == Trim(Field(f, "text", ""))
    ensures var r := BuildPayload("text", f, enc);
      Trim(r) == r && (r == [] || (!IsSpace(r[0]) && !IsSpace(r[|r| - 1])))
  {
    if "text" in f.values {
      TrimIdempotent(f.values["text"]);
      TrimEnds(f.values["text"]);
    }
  }

  /**
   * The tel payload is `tel:` and the trimmed number; it is bare `tel:`
   * exactly when the number is missing or blank.
   */
  lemma TelShape(f: Fields, enc: Encoders)
    ensures var n := Field(f, "tel", ""); var r := BuildPayload("tel", f, enc);
      r == "tel:" + Trim(n) && (r == "tel:" <==> AllSpace(n)) && Trim(r[4..]) == r[4..]
  {
    var n := Field(f, "tel", "");
    TrimEmptyIff(n);
    TrimIdempotent(n);
    assert ("tel:" + Trim(n))[4..] == Trim(n);
  }
}
