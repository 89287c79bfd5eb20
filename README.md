# QR Toolkit: a verified model of its core

QR Toolkit is a browser application. It turns form fields into the payload
string of a QR code. It draws the symbol as SVG or on a canvas, and reads a
batch of codes from a text box. On its merge page you upload several QR
images and combine them into one two-column grid image. All text on the pages
goes through a small translation layer (English and Chinese).

This project is a Dafny model of that core, with proofs about the model:

| file | module | models |
|---|---|---|
| `strings.dfy` | `Wrappers`, `Strings` | the JavaScript string operations the core uses: `trim` with its exact white-space set, `replaceAll` of one character, `split`/`join`, `indexOf`, ASCII `toLowerCase`, decimal printing |
| `payload.dfy` | `Payload` | `escapeVCardValue` and `buildPayload` for the seven payload kinds (`src/app.mjs`) |
| `canvas2d.dfy` | `Canvas2D` | a 2D canvas as a log of drawing operations; setting the width or height clears it |
| `render.dfy` | `Render` | `buildSvgFromQrMatrix` and `renderQrToCanvas` (`src/app.mjs`), both as nested loops over the module matrix |
| `batch.dfy` | `Batch` | `parseBatchLines` (`src/app.mjs`) |
| `merge.dfy` | `Merge` | the merge list of `src/merge.mjs`: add, remove, relabel in place, the button gate, the generate check and the grid image |
| `dom.dfy` | `Dom` | `clampNumber` and `normalizeHex` (`src/core/dom.mjs`; the copies in `src/app.mjs` are identical) |
| `core_i18n.dfy` | `CoreI18n` | `getCurrentLang`, `t` and `tf` (`src/core/i18n.mjs`) |
| `i18n.dfy` | `I18n` | the language state of `src/i18n.js`: `detectLanguage`, `getTranslation`, `setLanguage` |

Some choices in the model:

- Parts that only compute a value are functions and lemmas.
- The two loops in `src/app.mjs` are methods with `while` loops. Each is proved equal to a function that scans the matrix in row-major order.
- The merge list is a class. Its entries are objects whose label is changed in place.
- The page's language state is a class.
- A canvas is an object holding the list of operations drawn on it, so a drawing routine is specified by the exact list it produces.

## Model

| member | source | states |
|---|---|---|
| `Payload.ReplaceChainIsPerChar` | src/app.mjs:153-159 | the four chained `replaceAll` calls escape each character independently (`\` `\n` `;` `,`); backslash first means no escape is doubled |
| `Payload.EscapeVCardValue` | src/app.mjs:153-159 | the escaped value is the per-character escape of the value, and unescaping it gives the value back |
| `Payload.EscapeVCardInjective` | src/app.mjs:153-159 | two values with the same escape are equal |
| `Payload.EscapeVCardFacts` | src/app.mjs:153-159 | an escaped value has no line feed, and is empty iff the value is |
| `Payload.EscapeWifiRead` | src/app.mjs:171 | a Wi-Fi escaped field followed by `;` reads back as the field and the text after the terminator |
| `Payload.EscapeWifiPlain` | src/app.mjs:171 | a field without `\` and `;` is left unchanged |
| `Payload.BuildPayload` | src/app.mjs:161-227 | an unknown type gives the empty string; a text payload is trimmed; every other type starts with its own prefix (`WIFI:T:`, `tel:`, `mailto:`, `SMSTO:`, `geo:`, `BEGIN:VCARD` and a line feed) |
| `Payload.TelPayload` | src/app.mjs:174-175 | the tel payload starts with `tel:` |
| `Payload.TelShape` | src/app.mjs:174-175 | the tel payload is `tel:` and the trimmed number; it is bare `tel:` exactly when the number is missing or blank |
| `Payload.SchemeOf` | src/app.mjs:162-225 | each `case` tag is recognised exactly by its own string |
| `Payload.WifiOfRoundTrip` | src/app.mjs:165-173 | the Wi-Fi payload parses back to its security, SSID, password and hidden flag |
| `Payload.WifiRoundTrip` | src/app.mjs:165-173 | `buildPayload("wifi", …)` parses back to the form's fields, with defaults `WPA`, empty SSID and password |
| `Payload.VCardLines` | src/app.mjs:199-223 | the vCard payload is `BEGIN:VCARD`, `VERSION:3.0`, one line per non-empty field in the fixed order, then `END:VCARD` |
| `Payload.VCardLineRoundTrip` | src/app.mjs:199-223 | each property line gives back its raw field value |
| `Payload.EmailCases` | src/app.mjs:176-185 | the mailto payload adds `?subject=…`, `?body=…` or both joined by `&`, only for non-blank trimmed parts |
| `Payload.SmsShape` | src/app.mjs:186-191 | the SMS payload is `SMSTO:to:body`, ends in `:` when the body is blank, and splits back at the first colon |
| `Payload.GeoShape` | src/app.mjs:192-198 | the geo payload is `geo:lat,lng`, with `?q=` and the encoded query exactly when the query is not blank |
| `Payload.EmptyPayloadIff` | src/app.mjs:161-227 | the payload is empty iff the kind is unknown, or the kind is text and the text is blank or missing |
| `Payload.TextTrimmed` | src/app.mjs:163-164 | the text payload is the trimmed text field, empty when the field is missing, and so has no surrounding white space |
| `Render.DarkCellsExact` | src/app.mjs:234-241 | the scan visits exactly the dark modules, each once, in row-major order |
| `Render.ModulePath` | src/app.mjs:233-241 | the nested loops build the path of the scanned dark modules, each shifted by the quiet zone |
| `Render.BuildSvgFromQrMatrix` | src/app.mjs:229-249 | the document is the fixed SVG frame with view box `count + 2·quietZone`, background `bg` and the module path in `fg` |
| `Render.PathMoves` | src/app.mjs:239 | the path has one `M` command per listed module |
| `Render.SvgModules` | src/app.mjs:229-249 | the SVG path has exactly one square per dark module, and no other squares |
| `Render.RenderQrToCanvas` | src/app.mjs:251-272 | the canvas is sized `count·scale + 2·margin`; without a 2D context nothing is drawn; otherwise the background fill, then one fill per dark module in `fg`, smoothing off |
| `Render.FillModules` | src/app.mjs:265-271 | the nested loops append one `scale`-sized square per dark module at `margin + col·scale`, `margin + row·scale` |
| `Render.RasterLayout` | src/app.mjs:262-271 | every fill lies on the canvas, and the module squares are pairwise disjoint |
| `Batch.ParseBatchLines` | src/app.mjs:831-844 | one item per non-blank trimmed line, in order: item `k` is the parse of line `k` |
| `Batch.LinesShape` | src/app.mjs:832-835 | every kept line is trimmed, not empty and without a line feed |
| `Strings.NonEmptyAppend` | src/app.mjs:835 | `.filter(Boolean)` works string by string: filtering a concatenation is filtering each part |
| `Strings.NonEmptyFacts` | src/app.mjs:835 | every kept string is a non-empty input string, and a list without empty strings is kept whole |
| `Batch.LinesOfRows` | src/app.mjs:832-835 | the lines of rows joined by line feeds are exactly the trimmed rows with the blank ones dropped |
| `Batch.BlankRowSkipped` | src/app.mjs:832-835 | a blank row drops only itself: the rows before and after it are all kept, in order |
| `Batch.TrailingLineFeed` | src/app.mjs:831-844 | a final line feed changes nothing in the parsed items |
| `Batch.CarriageReturnsIgnored` | src/app.mjs:833-835 | rows that each may end in a carriage return (CRLF, LF or a mix) give the same trimmed lines as the rows without it |
| `Batch.ParseLine` | src/app.mjs:837-842 | a line without a comma is an unlabelled value; otherwise the label has no comma and both parts are trimmed |
| `Batch.ParseLineFirstComma` | src/app.mjs:838-842 | a line is cut at its first comma: the label is the trimmed text before it and the value the trimmed text after it, commas included |
| `Batch.BatchRoundTrip` | src/app.mjs:831-844 | items written as `label,value` rows (label without commas, no line feeds, both trimmed) parse back exactly, in order |
| `Merge.MergeList.Add` | src/merge.mjs:79-86 | exactly one new entry is appended, with the given id and data and an empty label; no cap on the count; the controls follow the new length |
| `Merge.MergeList.Remove` | src/merge.mjs:96-100 | the list becomes the filter of entries with another id |
| `Merge.WithoutMembers` | src/merge.mjs:97 | the filter keeps exactly the entries whose id differs |
| `Merge.WithoutAppend` | src/merge.mjs:97 | the filter works entry by entry, so it keeps their order |
| `Merge.WithoutAbsent` | src/merge.mjs:97 | removing an id that no entry has changes nothing |
| `Merge.FindIndex` | src/merge.mjs:125 | `find` gives the first entry with the id, or none when no entry has it |
| `Merge.MergeList.UpdateLabel` | src/merge.mjs:124-129 | only the label of the first entry with the id changes; an unknown id changes nothing; the list itself is unchanged |
| `Merge.MergeList.UpdateButtons` | src/merge.mjs:132-141 | the controls are enabled iff at least two entries are listed |
| `Merge.MergeList.GenerateMergedQr` | src/merge.mjs:157-179 | below two entries only the error is reported; the grid mode draws the grid image; an image is only produced while the controls are enabled |
| `Merge.NeedTwoCodesAlwaysEnglish` | src/merge.mjs:158-161 | the error text is the English sentence, whether or not the language state is loaded |
| `Merge.MergeList.GenerateGridMerged` | src/merge.mjs:182-216 | the canvas is 440 wide and 220·⌈n/2⌉ high; it holds the white background, then an image and a label per entry, in list order |
| `Merge.GridRowsFit` | src/merge.mjs:184-185 | ⌈n/2⌉ rows hold all entries and leave no row empty |
| `Merge.GridLayout` | src/merge.mjs:189-216 | entry i is a 200×200 image at column i%2 and row i/2; every image lies on the canvas; no two overlap |
| `Merge.LabelFallback` | src/merge.mjs:214 | the label is the entry's own, or `QR <i+1>` when that is empty |
| `Merge.LabelBaseline` | src/merge.mjs:215 | a label's baseline lies on the canvas for all rows but the last, where it is 5 pixels below the bottom edge |
| `Dom.ClampNumber` | src/core/dom.mjs:99-103 | a value that is not finite gives the fallback; a finite value lands in `[min, max]` and is unchanged when already inside; crossed bounds give `max` |
| `Dom.ClampIdempotent` | src/core/dom.mjs:99-103 | clamping a finite value twice is the same as once |
| `Dom.ClampNearest` | src/core/dom.mjs:99-103 | with ordered bounds the result is the nearest point of `[min, max]` |
| `Dom.NormalizeHex` | src/core/dom.mjs:105-109 | the result is the trimmed text when it is `#` plus six hex digits, and the fallback otherwise |
| `Dom.NormalizeHexIdempotent` | src/core/dom.mjs:105-109 | normalising an accepted colour again keeps it |
| `Dom.NormalizeHexKeepsCase` | src/core/dom.mjs:105-109 | an accepted colour is returned as written, in its own case |
| `Dom.NormalizeHexLeadingSpace` | src/core/dom.mjs:106 | leading white space does not change the result |
| `CoreI18n.GetCurrentLang` | src/core/i18n.mjs:86-90 | Chinese iff the document language starts with `zh` in any case |
| `CoreI18n.DocumentLangReadsBack` | src/core/i18n.mjs:86-90 | after a language switch, reading the document language gives the chosen language |
| `CoreI18n.Resolve` | src/core/i18n.mjs:92-99 | the result is the runtime text, a fallback-table entry or the caller's fallback, and it is empty only when that fallback is |
| `CoreI18n.RuntimeFirst` | src/core/i18n.mjs:94-95 | a runtime text that is present, non-empty and not the key is returned |
| `CoreI18n.RuntimeMissIgnored` | src/core/i18n.mjs:95 | an empty runtime answer, or one that echoes the key, counts the same as no runtime |
| `CoreI18n.FallbackOrder` | src/core/i18n.mjs:96-98 | otherwise the current language's entry, then the English one, then the caller's fallback |
| `CoreI18n.T` | src/core/i18n.mjs:92-99 | `t` returns the runtime translation, an entry of the current or the English fallback table, or the caller's fallback, and is empty only when that fallback is |
| `CoreI18n.UnknownKeyShowsItself` | src/core/i18n.mjs:92-99 | with the default fallback, a key no table knows shows itself |
| `CoreI18n.RuntimeTablePreferred` | src/core/i18n.mjs:92-95 | with `window.i18n` loaded, its table entry wins over the built-in fallback |
| `CoreI18n.SubstituteFills` | src/core/i18n.mjs:101-104 | on a template of literal text and `{name}` placeholders, `tf` replaces each placeholder by its parameter, or by nothing when it is absent, and keeps the rest |
| `CoreI18n.Substitute` | src/core/i18n.mjs:103 | a template in which no position starts a `{name}` placeholder is returned unchanged, stray braces included |
| `CoreI18n.StrayBracesKept` | src/core/i18n.mjs:103 | `a{b`, `{}` and `{a-b}` match no placeholder and come back as written |
| `CoreI18n.Tf` | src/core/i18n.mjs:101-104 | `tf` is `t`'s text with its placeholders filled; a text with no placeholder, stray braces included, is returned as `t` gave it |
| `CoreI18n.SinglePass` | src/core/i18n.mjs:103 | a parameter's text is inserted as it is, even when it looks like a placeholder |
| `CoreI18n.TwoPlaceholders` | src/core/i18n.mjs:103 | a template of a placeholder, text and a placeholder becomes the first parameter, the text and the second parameter |
| `CoreI18n.BatchMetaFilled` | src/core/i18n.mjs:101-104 | `tf("batch.meta", …)` on an English page without the runtime gives `<count> items · ECC <ecc>` |
| `I18n.DetectLanguage` | src/i18n.js:342-352 | a stored language is used only when it has a table; otherwise `zh` iff the lower-cased browser language starts with `zh`; the result always has a table |
| `I18n.GetTranslation` | src/i18n.js:356-360 | an unknown language, a missing entry and an empty entry all give the key; otherwise the entry |
| `I18n.GetTranslationNonEmpty` | src/i18n.js:356-360 | a non-empty key never translates to the empty string |
| `I18n.Localizer.Translate` | src/i18n.js:356-360 | with the language left out, the answer is the key or an entry of the current language's table, and never empty for a non-empty key |
| `I18n.Localizer.SetLanguage` | src/i18n.js:401-416 | an unknown language changes nothing and announces nothing; a known one becomes current, is stored under `qr-toolkit-lang` with the rest of storage unchanged, is set on the document and is announced once as `i18n-changed` with that language |
| `I18n.SwitchRemembered` | src/i18n.js:343-347 | after a known language is stored under `qr-toolkit-lang`, the next page load detects it, whatever the browser reports |

## Left out

- The QR engine (`src/core/qr-engine.mjs`) is not part of this model. A symbol is only its module count and its `isDark` predicate.
- Loading the QR library, reading uploaded images, and exporting PNG and SVG files are browser I/O and are not modelled. The same goes for `drawLogoOnCanvas`, the camera scanner, and all DOM glue (event listeners, `renderMergeList`, `updatePage`, `updateLanguageButtons`).
- `generateSelectionMerged` is not modelled. `Merge.MergeList.GenerateMergedQr` returns `SelectionPage` for that mode.
- `generateMergedQr` also catches a failure to load the library and shows a generic error. This is not modelled.
- `addQrCode` shows an error for an unreadable image. This is not modelled: only the successful append is.
- `Date.now()` is not modelled. The new entry's id is a parameter.
- `URLSearchParams` and `encodeURIComponent` are opaque: they are fields of `Payload.Encoders`.
- `Number(value)` in `clampNumber` is not modelled. The converted number is the input, as `Dom.Num`.
- Payload text fields are strings. The `?? ""` defaults for missing fields are modelled by `Payload.Field`; non-string inputs are not.
- `Render.RenderQrToCanvas`: `scale` and `quietZone` are natural numbers. The source clamps them from form input and could in principle pass fractions.
- `Render.BuildSvgFromQrMatrix` and `Render.ModulePath`: `quietZone` is a natural number. `clampNumber` (src/app.mjs:567) can pass a fraction such as 2.5, for which the source writes segments like `M2.5 2.5h1v1h-1z` and a view box of side `count + 5`; the model does not cover fractional quiet zones or the decimal formatting they need.
- Fonts and text alignment (`bold 16px sans-serif`, `center`) are not recorded in the canvas operation log. The labels' pixel extents are therefore not modelled; only their anchor points are.
- `CoreI18n.GetCurrentLang` and `I18n.DetectLanguage`: `toLowerCase` is modelled on ASCII letters only. Only ASCII case can affect a `zh` prefix test.
- `I18n.Localizer.SetLanguage` assumes `localStorage.setItem` succeeds. The source ignores a failure; the model then would keep the old stored value.
- The translation tables and the fallback table are represented by a few entries each, not copied in full.
- In `parseBatchLines`, `split(/\r?\n/)` is modelled as a split at line feeds followed by `trim`; the regular expression itself is not modelled. What is proved, by `Batch.CarriageReturnsIgnored`, is the per-row fact that a carriage return at the end of a row trims away with the rest of the white space (`Trim(x + "\r") == Trim(x)`), for any mix of rows with and without one.
- The source's `label` fields are named `caption`, because `label` is a reserved word in Dafny.
- `Merge.MergeList.GenerateGridMerged` treats the list as fixed for the whole run. The source sizes the canvas once (src/merge.mjs:185-190) but re-reads `mergeCodes.length` and `mergeCodes[i]` after each `await` for an image load (src/merge.mjs:196-206). Codes added or removed while a merge is running can make the source draw outside the canvas or skip entries; the model does not capture this interleaving.
- `I18n.DetectLanguage`, `I18n.GetTranslation` and `I18n.Localizer.SetLanguage` treat the translation tables as maps with no inherited keys. The source looks them up as plain objects, so names inherited from `Object.prototype` (such as `constructor` or `toString`) would be accepted as languages there; the model rejects them.
- `CoreI18n.Resolve`, `CoreI18n.T`, `CoreI18n.Substitute` and `CoreI18n.Tf` likewise treat the fallback table and the parameters as maps with no inherited keys. In the source, `t("toString")` finds the inherited function in `FALLBACK_TEXT` (src/core/i18n.mjs:96), and a `{constructor}` placeholder with no such parameter is replaced by the text of the `Object` function (src/core/i18n.mjs:103); the model gives the key and the empty string. No key or placeholder the application uses is such a name.
- The merge page asks the language state for the English entry (`getTranslation(..., 'en')`) even on a Chinese page. The model keeps this behaviour; `Merge.NeedTwoCodesAlwaysEnglish` states it.
