# Portfolio page script: translations, language choice and theme

A Dafny model of the internationalisation and preference layer of the portfolio
page's `script.js`. The model has four parts.

- **Locale documents and lookup (`Translation`).** A locale file is a tree of strings
  under nested objects (`Json`).
  - `Split` is `key.split('.')`, proved to be the inverse of `Join`.
  - `Walk` is the `reduce` of `getNestedTranslation`; a miss stays a miss.
  - `Resolve` sorts the result into three cases: `Missing`, `Found(text)` or `Subtree`.
- **Content application (`Content`).** `Render` says what one `updatePageContent` run
  does to the sequence of tagged elements. Each tagged element is a record of key,
  content and mode. Mode `Markup` stands for an `innerHTML` write and `Text` for a
  `textContent` write.
  - A non-empty string is written, as markup exactly when it contains `<`.
  - A missing key or `""` leaves the element alone.
  - A key that resolves to an object makes `translation.includes` throw. The
    `forEach` stops at that element, and the exception reaches `loadLanguage`'s
    `catch`. `Stop` is the index of that element.
- **Loading (`Loader`).** `Load` is `loadLanguage` stated on the part of the page it
  touches: the translations, the `lang` attribute, the elements and the list of
  requested locale files. Fetching is a given function from the path
  `locales/<lang>.json` to `Option<Json>`, where `None` means the response was not
  ok or not JSON. A failed attempt for a language other than `"tr"` is followed by
  exactly one attempt for `"tr"`.
- **The page (`Site.Page`).** A class whose fields are the script's globals
  (`currentLanguage`, `translations`), the document's `lang` attribute, the two
  `localStorage` entries (`Option<string>`), the body's `data-theme`, the theme icon
  class, the modal's visibility and the body's `overflow`.
  - The tagged elements and the navbar language buttons are arrays fixed for the
    page's lifetime (see "Left out" for what this assumes).
  - Each handler is a method, proved against `Load` and `Render` or against the
    properties the page promises.

The comment at script.js:112 mentions only English, but the test at script.js:113
retries `"tr"` after any other language fails. The model follows the code.

## Model

| member | source | states |
|---|---|---|
| Translation.Split | script.js:137 | `key.split('.')` gives at least one segment, none containing `.`, and they join back to the key |
| Translation.SplitJoin | script.js:137 | splitting a dot-joined list of dot-free segments gives that list back |
| Translation.SplitUnique | script.js:137 | `Split` is the only dot-free segmentation that joins back to the key |
| Translation.WalkAppend | script.js:137 | the `reduce` composes over a concatenation of paths, and a missing intermediate stays missing to the end |
| Translation.MissingSegment | script.js:137 | once an object lacks the next segment, every longer path resolves to nothing |
| Translation.WalkPut | script.js:136-138 | a value placed at a nested path in any document is found again by walking that path |
| Translation.ResolvePut | script.js:136-138 | a dot-path key whose every segment exists resolves to the string at that nested position |
| Translation.PutExisting | script.js:136-138 | placing a value where the document already holds it leaves the document unchanged |
| Translation.ResolveExisting | script.js:136-138 | in any document, a dot-path key whose every segment exists resolves to the string at that nested position |
| Translation.ResolveMissingPrefix | script.js:137 | if some prefix of the key's segments is absent, the key resolves to `Missing` (no error) |
| Translation.Examples | script.js:136-138 | `a.b.c` on `{a:{b:{c:"hi"}}}` is `"hi"`; on `{a:{}}` it is `Missing` |
| Content.Stop | script.js:121-127 | the index of the first element whose key resolves to an object (where `includes` throws), or the element count |
| Content.RenderComplete | script.js:121-133 | the run keeps the element count and completes iff no element's key resolves to an object |
| Content.RenderKeepsKeys | script.js:121-133 | rendering keeps the number of elements and every key |
| Content.RenderWrites | script.js:125-131 | each element reached whose key resolves to a non-empty string holds exactly that string, as markup iff it contains `<` |
| Content.RenderKeeps | script.js:125-133 | elements whose key is missing or `""`, and all elements from the throwing one on, keep their content and mode |
| Content.StopKeys | script.js:121-127 | where the run stops depends only on the elements' keys |
| Content.RenderIdempotent | script.js:119-134 | applying the same translations twice gives the same elements as applying them once |
| Theme.ThemeIcon | script.js:160-167 | the icon is `fas fa-sun` iff the theme is `dark`, `fas fa-moon` otherwise |
| Theme.Toggled | script.js:152-153 | `dark` becomes `light`; anything else, unset included, becomes `dark` |
| Theme.ToggleTwice | script.js:151-158 | toggling twice returns to the start exactly when the start was `dark` or `light` |
| Theme.ToggleIcon | script.js:151-167 | after a toggle the icon is the sun iff the theme was not `dark` before |
| Loader.LocaleUrlInjective | script.js:99 | different language codes fetch different `locales/<lang>.json` files |
| Loader.LoadRequests | script.js:97-117 | one request for `lang`, and a second one for `tr` only when the first attempt failed and `lang` is not `tr` |
| Loader.LoadDefaultOnce | script.js:113-115 | loading `tr` makes exactly one attempt |
| Loader.LoadSuccess | script.js:98-108 | a successful load replaces the translations, applies them to the elements and sets the `lang` attribute |
| Loader.LoadFallback | script.js:110-116 | a failed load of another language is followed by exactly the `tr` attempt |
| Loader.LoadTotalFailure | script.js:97-117 | when every fetched file is unavailable, translations, `lang` attribute and elements are unchanged |
| Loader.LoadDocLang | script.js:105-108 | the `lang` attribute ends as before, as `lang`, or as `tr`; it is `lang` after a successful first attempt |
| Loader.AttemptKeepsKeys | script.js:98-108 | one fetch-and-apply attempt keeps the number of tagged elements and their keys |
| Loader.LoadKeepsKeys | script.js:119-134 | loading keeps the number of tagged elements and their keys |
| Site.Page.constructor | script.js:1-3 | the page starts with current language `tr`, empty translations and nothing fetched |
| Site.Page.ShowLanguageModal | script.js:140-143 | the modal is shown and page scrolling locked; nothing else changes |
| Site.Page.HideLanguageModal | script.js:145-148 | the modal is hidden and page scrolling unlocked; nothing else changes |
| Site.Page.UpdatePageContent | script.js:119-134 | the in-place loop leaves the elements exactly as `Render` of the old elements says, and reports whether it ran to the end |
| Site.Page.LoadLanguage | script.js:97-117 | the page's loading state becomes `Load` of the old one; current language, storage, theme and modal are untouched |
| Site.Page.UpdateLanguageButtons | script.js:85-95 | a button is active iff its language equals the given one; button languages are unchanged |
| Site.Page.SelectLanguage | script.js:77-83 | current and stored language become `lang`, it is loaded, the modal is hidden and exactly its buttons are active |
| Site.Page.UpdateThemeIcon | script.js:160-167 | the icon becomes the one `ThemeIcon` picks; nothing else changes |
| Site.Page.ToggleTheme | script.js:151-158 | body theme and stored theme both become the toggled theme and the icon matches it |
| Site.Page.InitializeApp | script.js:19-39 | a stored theme is applied with its icon; a stored language is adopted, loaded and highlighted and the modal hidden; with none stored the modal is shown and nothing is loaded |
| Site.Page.ModalClick | script.js:67-73 | a click hides the modal only on the backdrop and only when a language is stored |

## Left out

- The real `fetch`, `response.json()` and `localStorage`. Fetch and parse are one given function of the path, with `None` for a failed response. Storage is two option fields.
- Storage errors: none of the `localStorage` calls is guarded. Neither the reads (script.js:21-22, 69) nor the writes (script.js:79, 156) catch an exception, so an unavailable storage would abort the handler. The model treats storage as always available.
- Site.Page.UpdatePageContent: the source re-queries `[data-i18n-key]` on every run (script.js:121), and an `innerHTML`/`textContent` write (script.js:128, 130) replaces an element's children. The model assumes the page has no tagged element nested inside another tagged element. It also assumes no translation's markup carries `data-i18n-key`. So every run finds the same elements, which is what `RenderKeepsKeys`, `LoadKeepsKeys` and `RenderWrites` describe. Elements removed or added by a write are not modelled.
- DOM lookups are assumed to succeed: the language modal (script.js:6), the theme toggle (script.js:7) and its `<i>` icon (script.js:161) are present. Were one missing, `showLanguageModal`, `hideLanguageModal` or `updateThemeIcon` would throw a TypeError. At script.js:27 that would abort `initializeApp` before the language loads.
- Asynchrony: `loadLanguage` runs to completion where it is called. In `selectLanguage` and `initializeApp` the source hides the modal and highlights buttons before the fetch resolves. Those touch fields `loadLanguage` does not, so the final state is the same. Races between overlapping loads are not modelled.
- JSON values other than strings and objects (numbers, booleans, `null`, arrays) are not part of the document model.
- Translation.Walk: a string leaf met with segments still to follow counts as absent. In JavaScript, indexing a string gives a character or a property such as `length`. Inherited properties of `{}` (such as `constructor`) are not modelled either.
- Site.Page.SelectLanguage: the language is a string. The case of a button without a `data-lang` attribute, where `null` is stored as the text `"null"`, is not modelled.
- `console.error` logging in the `catch` of `loadLanguage` is left out: it changes no page state.
- Event-listener wiring, the navbar click handler that calls `selectLanguage` and then `updateLanguageButtons` again, and the `DOMContentLoaded`/`load` handlers are left out. They are plumbing around the modelled calls.
- Scroll animations, smooth scrolling, the navbar scroll effect, the typewriter, `debounce`, particles, injected styles and the email copy widget are left out. They are layout, timers, randomness or clipboard APIs.
