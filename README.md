# Church website scripts, modelled in Dafny

This project models the client-side JavaScript of a church website and
proves properties of that model. It covers the following scripts:

- **The contact form** (`contato.js`): e-mail and required-field validation, inline error markers, the status alert, and the submission guarded by `isSubmitting`.
- **The mobile menu** (`menu.js`): `isOpen` mirrored in `aria-expanded`, the `active` class and the body overflow.
- **The DOM helpers** (`dom.js`):
  - the class helpers;
  - the attribute and child dispatch of `create`;
  - the idempotent `loadScript`;
  - `throttle` and `debounce` as state machines.
- **The lazy loaders**: the Google Maps embed (`mapa.js`) and the Instagram reels grid (`insta-reels.js`).
- **The global glue** (`main.js`): the scroll-to-top threshold, in-page anchor scrolling, the keyboard-navigation marker and the module registry.
- **The stand-alone reels loader** (`instagram.js`).
- **The include loader with its own toggle** (`components.js`).

There is one Dafny module per script, plus three shared ones:

- `Base`: Option, Result, promise settlement and the TypeError value;
- `Strings`: JavaScript white space, `trim`, `includes`, `startsWith`, number formatting;
- `Uri`: `encodeURIComponent` over UTF-8.

Objects whose fields the scripts update in place are classes. Each event handler is a method whose `ensures` gives the whole new state and keeps the module's invariant: at most one error span and one alert, the `isOpen` mirror, or the loaded-flag invariants. The pure parts are functions with lemmas: the e-mail pattern, the path test, URL selection, oEmbed parameters and the `create` dispatch.

Several things in the browser are inputs of the model: network, script and iframe outcomes, timer firings, the viewport width, scroll offset, keys pressed, and the elements a selector finds. A selector that finds nothing is `null` or a `false` flag.

Where the written design of the site and the code disagree, the model follows the code. Where the code is evidently wrong (see Findings), the model gives both the code as written and the corrected behaviour:

- The design asks the map to show its error state when the iframe's `load` event never arrives. The code has no timeout, so the model stays in the loading view until an iframe event arrives.
- The design says a clicked menu link becomes the sole active link. As written, both `.nav-link` lookups throw (see Findings). The model gives both halves:
  - `Menu.MenuModule.OnMenuClickAsWritten` follows the code: it closes the menu, then yields the TypeError, and leaves the links unchanged.
  - `Menu.MenuModule.OnMenuClick` and the constructor use the corrected lookup, which the rest of the model builds on.
- The design says every e-mail-type field is checked on submit. `validateForm` checks two things:
  - every *required* field;
  - the *first* `input[type="email"]`.
  An optional, malformed second e-mail field is therefore accepted. The model follows this.
- The design says the expensive map load happens at most once. In the code, only the button is one-shot. A programmatic `loadMap` after an iframe error appends another iframe, and the model shows this.

## Model

| member | source | states |
|---|---|---|
| Contact.ValidateEmailMatchesPattern | assets/js/modules/contato.js:113-116 | the computed check holds iff the string is `L@D.T` with `L`, `D`, `T` non-empty runs of characters that are neither white space nor `@` (the language of `^[^\s@]+@[^\s@]+\.[^\s@]+$`) |
| Contact.ValidateEmailSound | assets/js/modules/contato.js:113-116 | exactly one `@`, no white space, non-empty local part and an inner `.` in the domain imply a regex match |
| Contact.ValidateEmailComplete | assets/js/modules/contato.js:113-116 | every regex match passes the check |
| Contact.RejectsDotlessDomain | assets/js/modules/contato.js:113-116 | "foo@bar" is rejected |
| Contact.AcceptsDottedDomain | assets/js/modules/contato.js:113-116 | "foo@bar.com" is accepted |
| Strings.TrimEmptyIffBlank | assets/js/modules/contato.js:100 | `value.trim()` is empty iff the value is all JavaScript white space |
| Contact.SetError | assets/js/modules/contato.js:118-139 | adds `is-invalid`, sets `aria-invalid="true"` and `aria-describedby=id-error`, and leaves a field with at most one error span holding exactly the new span `id-error` with the message; nothing else changes |
| Contact.ClearError | assets/js/modules/contato.js:141-150 | removes `is-invalid` and both ARIA attributes, and leaves no error span under a parent that had at most one; nothing else changes |
| Contact.FieldVerdictMeaning | assets/js/modules/contato.js:100-110 | a field passes iff (required ⇒ not blank) and (non-empty e-mail input ⇒ regex match); the required message wins over the e-mail message; an empty optional field passes |
| Contact.ValidatedField | assets/js/modules/contato.js:97-111 | the error state is always cleared first; a pass leaves no `is-invalid`, no `aria-invalid`, no `aria-describedby` and no error span; a failure leaves the marker, both ARIA attributes and one span with the verdict's message; in both cases every other class and attribute, and the value, are kept |
| Contact.ContactModule.ValidateField | assets/js/modules/contato.js:97-111 | returns whether the field passes and updates exactly that field to its validated state |
| Contact.ContactModule.ValidateForm | assets/js/modules/contato.js:75-95 | validates every required field without short-circuiting and then the first e-mail input; returns true iff all required fields pass and that input is empty or valid; the new fields are exactly the validated ones |
| Contact.InvalidFormMarksAField | assets/js/modules/contato.js:49-157 | a rejected form always leaves some field marked `is-invalid` |
| Contact.ValidFormMeaning | assets/js/modules/contato.js:75-95 | an accepted form has no blank required field and a first e-mail input that is empty or matches the regex |
| Contact.FirstInvalid | assets/js/modules/contato.js:152-157 | the first field in document order carrying `is-invalid`, or none |
| Contact.ContactModule.FocusFirstError | assets/js/modules/contato.js:152-157 | focus moves to the first `is-invalid` field when there is one |
| Contact.ContactModule.SetLoadingState | assets/js/modules/contato.js:159-169 | without a button nothing changes; loading disables it with the spinner caption, idle enables it with "Enviar Mensagem" |
| Contact.ContactModule.ShowMessage | assets/js/modules/contato.js:205-225 | the page then holds exactly one alert, the new one |
| Contact.ContactModule.AlertTimerFires | assets/js/modules/contato.js:221-225 | an alert's dismissal timer removes that alert only while it is still shown |
| Contact.ResetField | assets/js/modules/contato.js:231-239 | the value returns to its default; `is-invalid`, `aria-invalid`, `aria-describedby` and the error span are gone; every other class and attribute is kept |
| Contact.ContactModule.ResetForm | assets/js/modules/contato.js:231-239 | every field is reset and cleared, in place |
| Contact.ContactModule.OnBlur | assets/js/modules/contato.js:38 | blur validates that field |
| Contact.ContactModule.OnInput | assets/js/modules/contato.js:39 | input clears that field's error state |
| Contact.ContactModule.HandleSubmit | assets/js/modules/contato.js:43-57 | nothing happens while submitting or without a form; an invalid form focuses the first invalid field and leaves `isSubmitting` and the button alone; a valid form enters the submitting state with the loading button |
| Contact.ContactModule.SubmissionSettles | assets/js/modules/contato.js:59-72 | afterwards `isSubmitting` is false and the button is idle; success shows the success alert and resets every field; failure shows the error alert and keeps the fields |
| Contact.EmptySubmitScenario | assets/js/modules/contato.js:43-54 | submitting an empty required field focuses it, does not submit and shows no alert |
| Contact.SingleEmailFormValid | assets/js/modules/contato.js:75-95 | a form whose only field is a well-formed e-mail input is valid, whether or not the field is required, since a well-formed address is never blank |
| Contact.ValidSubmitScenario | assets/js/modules/contato.js:43-72 | a valid submission shows the loading button and then exactly one alert; the value is reset on success and kept on failure |
| Contact.ContactModule.constructor | assets/js/modules/contato.js:9-26 | without `#contact-form` no field is handled; the module starts idle with no alert |
| Menu.MarkActive | assets/js/modules/menu.js:128-143 | each link gains `active` iff the path test holds for it and loses it otherwise; nothing else changes |
| Menu.HomeLinksActive | assets/js/modules/menu.js:135-137 | equal paths match; on "/" an `index.html` link is active; on an `index.html` page the "/" link is active |
| Menu.OtherPathsInactive | assets/js/modules/menu.js:135-137 | a differing path with neither root rule applying is inactive |
| Menu.ActivateOnly | assets/js/modules/menu.js:117-126 | `active` ends up on the clicked `.nav-link` and on no other link |
| Menu.ClickedLinkSoleActive | assets/js/modules/menu.js:117-126 | after a link click the clicked link is the one active link |
| Menu.ForEachOnFirstMatch | assets/js/modules/menu.js:119-120 | `qs(...).forEach` throws a TypeError for every document |
| Menu.ActiveLinkLookupThrows | assets/js/modules/menu.js:130-132 | for a page whose link matches, the code as written throws while the intended behaviour marks it active |
| Menu.MenuModule.constructor | assets/js/modules/menu.js:17-83 | without toggle or menu nothing is set; otherwise `aria-expanded="false"`, `aria-controls` and the menu id are set, the active links are marked, and ARIA mirrors the closed state |
| Menu.MenuModule.Open | assets/js/modules/menu.js:93-106 | `isOpen`, `active` added, `aria-expanded="true"`, overflow "hidden", first link focused when present; all views mirror `isOpen` |
| Menu.MenuModule.Close | assets/js/modules/menu.js:108-115 | not open, `active` removed, `aria-expanded="false"`, overflow ""; all views mirror `isOpen` |
| Menu.MenuModule.OnToggleClick | assets/js/modules/menu.js:31-91 | a bound toggle flips `isOpen` and every view mirrors it; an unbound one changes nothing |
| Menu.MenuModule.OnKeydown | assets/js/modules/menu.js:37-42 | Escape on an open menu closes it and focuses the toggle; any other key or a closed menu changes nothing |
| Menu.MenuModule.OnDocumentClick | assets/js/modules/menu.js:45-49 | closes only when open and the target is inside neither `.nav` nor `.nav-toggle` |
| Menu.MenuModule.OnResize | assets/js/modules/menu.js:52-56 | closes only when open and the width exceeds 767; 767 itself does not close |
| Menu.MenuModule.OnMenuClick | assets/js/modules/menu.js:59-72 | with menu links bound, an anchor click closes an open menu and makes the clicked link the sole active one; a non-anchor changes nothing |
| Menu.MenuModule.OnMenuClickAsWritten | assets/js/modules/menu.js:59-72 | as written, an anchor click with menu links bound closes an open menu and then throws a TypeError, and no link changes; any other click neither throws nor changes anything |
| Menu.MenuModule.OpenThenClose | assets/js/modules/menu.js:77-115 | open then close restores `aria-expanded` and overflow "" and removes `active` |
| Dom.AddClass | assets/js/utils/dom.js:108-113 | set insertion into the class list, after which `hasClass` reports the class; every other class reads back as before; no-op without a target |
| Dom.RemoveClass | assets/js/utils/dom.js:120-125 | set removal, after which `hasClass` reports false; every other class reads back as before; no-op without a target |
| Dom.ToggleClass | assets/js/utils/dom.js:96-101 | with `force` the class is present iff `force`, without it membership flips; the returned value is what `hasClass` then reports, or undefined without a target; every other class reads back as before |
| Dom.ClassTokens | assets/js/utils/dom.js:66-67 | assigning `className` yields only non-empty names without ASCII white space |
| Dom.SingleClassToken | assets/js/utils/dom.js:66-67 | a single class name is parsed to itself |
| Dom.TwoClassTokens | assets/js/utils/dom.js:66-67 | two space-separated names are parsed to both names |
| Dom.JoinedClassTokens | assets/js/utils/dom.js:66-67 | assigning any list of class names joined by single spaces yields exactly the set of those names |
| Dom.EntriesOutcome | assets/js/utils/dom.js:65-75 | the class list comes from the last `className`/`class` entry; an attribute-routed key holds its last value as an attribute, a property-routed key as a property; nothing else is set |
| Dom.DataKeysAreAttributes | assets/js/utils/dom.js:68-69 | a `data-*` key always goes through `setAttribute` |
| Dom.ChildNodesAppend | assets/js/utils/dom.js:78-85 | children are appended in order |
| Dom.ChildNodesCount | assets/js/utils/dom.js:79-85 | one node per string or element child; other values are ignored |
| Dom.Create | assets/js/utils/dom.js:61-88 | the new element's classes, attributes and properties are the dispatch of all entries, and its children are the in-order nodes of the wrapped child list |
| Dom.ScriptForIsCreated | assets/js/utils/dom.js:152-158 | the element `create('script', {src, async, defer, type})` builds sets no class and sends no entry through `setAttribute`, and its four properties are the `src`, `async` (unless explicitly false), `defer` (only when true) and `type` (`text/javascript` by default) of the script `loadScript` appends |
| Dom.LoadScript | assets/js/utils/dom.js:144-165 | an existing `src` resolves with nothing inserted; otherwise exactly one script is appended to head and the promise resolves on load and rejects on error |
| Dom.LoadScriptTwice | assets/js/utils/dom.js:146-150 | a second load of the same `src` resolves and inserts nothing |
| RateLimit.ThrottleClosedDrops | assets/js/utils/dom.js:213-218 | while `inThrottle`, every call is dropped |
| RateLimit.ThrottleBurst | assets/js/utils/dom.js:213-218 | a burst into a free throttle runs `func` once, with the first call's arguments |
| RateLimit.ThrottleNotQueued | assets/js/utils/dom.js:213-218 | suppressed calls are not queued; after the timer only the next call runs |
| RateLimit.ThrottleRate | assets/js/utils/dom.js:210-219 | invocations are at most one plus the number of timer firings |
| RateLimit.Throttled.Invoke | assets/js/utils/dom.js:214-218 | a call runs `func` iff not throttled, then throttles |
| RateLimit.Throttled.TimerElapsed | assets/js/utils/dom.js:217 | the timer clears `inThrottle` without running `func` |
| RateLimit.DebounceCallsPending | assets/js/utils/dom.js:195-198 | each call replaces the pending timer with one for its own arguments; in trailing mode calls never run `func` |
| RateLimit.DebounceTrailingBurst | assets/js/utils/dom.js:186-202 | trailing mode: a burst then the timer yields exactly one invocation, with the last call's arguments |
| RateLimit.DebounceImmediateBurst | assets/js/utils/dom.js:190-200 | immediate mode: a burst then the timer yields exactly one invocation, with the first call's arguments |
| RateLimit.DebounceImmediatePendingSilent | assets/js/utils/dom.js:195-200 | immediate mode: calls while a timer is pending never run `func` |
| RateLimit.DebounceWhoInvokes | assets/js/utils/dom.js:190-200 | immediate mode: the timer never runs `func`; trailing mode: a call never does; the timer clears `timeout` |
| RateLimit.DebounceTrailingRate | assets/js/utils/dom.js:186-202 | trailing mode: at most one invocation per timer firing |
| RateLimit.Debounced.Invoke | assets/js/utils/dom.js:189-200 | a call schedules a timer for its arguments and runs `func` at once only in immediate mode with no timer pending |
| RateLimit.Debounced.TimerElapsed | assets/js/utils/dom.js:190-193 | the timer clears `timeout` and runs `func` with the scheduling call's arguments in trailing mode only |
| MapEmbed.DirectionsUrl | assets/js/modules/mapa.js:219-223 | the directions URL starts with the fixed prefix and is at least as long as the prefix plus the address |
| MapEmbed.DirectionsUrlOneParameter | assets/js/modules/mapa.js:219-223 | after the prefix no `&`, `=`, `#`, `?`, `+`, space or `/` appears, so the address is the single `destination` value |
| MapEmbed.DirectionsUrlVerbatim | assets/js/modules/mapa.js:219-223 | an address of unreserved characters appears verbatim |
| Uri.EncodeURIComponent | assets/js/modules/mapa.js:221 | the encoding is at least as long as its input and uses only unreserved characters and `%` |
| Uri.EncodeUnreservedIdentity | assets/js/modules/mapa.js:221 | unreserved text is unchanged by encoding |
| Uri.EncodedIsQuerySafe | assets/js/modules/mapa.js:221 | no query-syntax character survives encoding |
| MapEmbed.MapModule.constructor | assets/js/modules/mapa.js:9-32 | with a container the prompt and address section are shown; without one nothing is rendered |
| MapEmbed.MapModule.Render | assets/js/modules/mapa.js:34-86 | the prompt for the current address, no iframe, and the address section |
| MapEmbed.MapModule.LoadMap | assets/js/modules/mapa.js:155-200 | nothing once loaded or without the placeholder; otherwise the loading view replaces the button and exactly one iframe for the current map URL is appended |
| MapEmbed.MapModule.ClickLoadButton | assets/js/modules/mapa.js:71-73 | a click exists only on the prompt and starts the one iframe |
| MapEmbed.MapModule.IframeLoaded | assets/js/modules/mapa.js:179-182 | `mapLoaded` becomes true and the placeholder is removed |
| MapEmbed.MapModule.IframeFailed | assets/js/modules/mapa.js:185-217 | a present placeholder shows the error view with the directions link; `mapLoaded` is untouched |
| MapEmbed.MapModule.UpdateAddress | assets/js/modules/mapa.js:226-236 | both values are always stored; with a container `mapLoaded` is reset and the prompt re-rendered |
| MapEmbed.MapModule.ClickThenLoad | assets/js/modules/mapa.js:71-191 | a click then the load event leave exactly one iframe and the map loaded |
| InstaReels.CardClassNames | assets/js/modules/insta-reels.js:61-62 | `'card reel-card'` yields the classes `card` and `reel-card` |
| InstaReels.RenderedCards | assets/js/modules/insta-reels.js:39-42 | one card per URL |
| InstaReels.RenderedCardsIndexed | assets/js/modules/insta-reels.js:60-90 | card `k` carries URL `k`, decimal index `k` and subtitle `#(k+1)`; indices are distinct |
| InstaReels.Embedded | assets/js/modules/insta-reels.js:123-160 | a replaced card holds one embed placeholder for its own `data-reel-url` and gains `reel-loaded`; its data attributes are kept |
| InstaReels.EmbeddedIdempotent | assets/js/modules/insta-reels.js:123-160 | replacing a card twice is the same as once |
| InstaReels.InstaReelsModule.constructor | assets/js/modules/insta-reels.js:9-31 | the cards and button are rendered only with a container |
| InstaReels.InstaReelsModule.RenderReels | assets/js/modules/insta-reels.js:33-58 | the cards are those of the URL list in order, plus the load button |
| InstaReels.InstaReelsModule.ReplaceCards | assets/js/modules/insta-reels.js:103-108 | every card is replaced in place, in order |
| InstaReels.InstaReelsModule.LoadInstagramEmbeds | assets/js/modules/insta-reels.js:92-175 | nothing once loaded; otherwise the script is requested, and `head` gains one script for the embed URL only when no script with that `src` is present (never a second tag); on resolve the flag is set and every card embedded; on reject one alert is appended and the flag stays false |
| InstaReels.InstaReelsModule.ClickLoadButton | assets/js/modules/insta-reels.js:52-55 | the button is gone after its click, whatever the outcome, and the click has `loadInstagramEmbeds`' effect: nothing once loaded, every card embedded with no new alert when the script resolves, one alert and the flag still false when it rejects; `head` gains the embed script only when no script with that `src` is already present |
| InstaReels.InstaReelsModule.UpdateReels | assets/js/modules/insta-reels.js:178-185 | the URL list is replaced; with a container the flag is reset and the cards re-rendered; without one it throws after storing the list |
| App.ScrollButtonVisible | assets/js/main.js:95-103 | (predicate) visible iff the offset exceeds 300 |
| App.App.OnScroll | assets/js/main.js:95-103 | the button is visible with opacity "1" iff `pageYOffset > 300`; exactly 300 keeps it hidden |
| App.ClosestFragmentAnchor | assets/js/main.js:46 | the nearest element on the path matching `a[href^="#"]`, or none |
| App.ClickDecisionMeaning | assets/js/main.js:45-63 | a click is taken over iff its nearest fragment anchor has an href other than "#" naming an existing element; the target id is the href without `#` and the pushed URL is the href |
| App.BareHashIgnored | assets/js/main.js:48 | a bare "#" link is never taken over |
| App.App.OnClick | assets/js/main.js:45-63 | `preventDefault` and `pushState` happen exactly for a taken-over click |
| App.App.OnKeydown | assets/js/main.js:116-133 | Ctrl/Meta+"/" prevents the default and calls `focus()` on `main` when it exists, which moves focus there only when `main` is focusable (a `<main>` without `tabindex` takes none); Tab adds `keyboard-navigation` |
| App.App.OnMousedown | assets/js/main.js:135-137 | a mouse press removes `keyboard-navigation` |
| App.App.GetModule | assets/js/main.js:176-178 | a module is found iff its name is registered |
| App.App.RegisterModule | assets/js/main.js:171-173 | `getModule(name)` yields the instance and every other name is unaffected |
| Instagram.FilterTruthy | assets/js/instagram.js:11 | `filter(Boolean)` keeps only non-empty strings |
| Instagram.FilterTruthyMembers | assets/js/instagram.js:11 | a string is kept iff some entry holds it |
| Instagram.FilterTruthyAllTruthy | assets/js/instagram.js:11 | without falsy entries the values are kept in order |
| Instagram.SelectUrls | assets/js/instagram.js:11 | at most three URLs are selected |
| Instagram.NoBackfill | assets/js/instagram.js:11 | entries after the third never matter, so a falsy one among the first three is not backfilled |
| Instagram.SelectedMembers | assets/js/instagram.js:11 | selected iff truthy and among the first three entries |
| Instagram.ConfiguredSelection | assets/js/instagram.js:1-11 | the three configured URLs are all selected in order |
| Instagram.OEmbedParams | assets/js/instagram.js:25-26 | `url`, `omit_script=true`, `maxwidth=320`, `hidecaption=true`, and `access_token` iff a token is set |
| Instagram.NoTokenSent | assets/js/instagram.js:6-26 | with the configured null token, no access token is sent |
| Instagram.FetchOEmbedSafe | assets/js/instagram.js:23-33 | never throws; yields the html iff the response is ok, parses, is not null and carries html; otherwise null |
| Instagram.WrapperContent | assets/js/instagram.js:18 | a wrapper is never blank: it shows the returned html whenever that is non-empty, and otherwise "Não foi possível carregar"; it shows nothing else |
| Instagram.EnsureInstagramEmbedScript | assets/js/instagram.js:34-41 | a script with the id is appended to body only when no element has that id; afterwards one exists |
| Instagram.EmbedScriptThenLoad | assets/js/instagram.js:34-41 | once this script is present, a `loadScript` of the same URL resolves and inserts nothing |
| Instagram.LoadInstagramReels | assets/js/instagram.js:7-22 | no container, nothing; no URL, the no-URL message with nothing requested or appended; otherwise one non-blank wrapper per URL in order with its html or the fallback, then the embed script ensured: `body` is unchanged when the id exists, and gains exactly that one script otherwise |
| Components.FollowupsFor | assets/js/components.js:9-10 | `initNav` runs iff the include succeeded and the path contains "header"; `setYear` iff it contains "footer" |
| Components.HeaderFooterPath | assets/js/components.js:9-10 | a path containing both runs both |
| Strings.BoolString | assets/js/components.js:23 | `String(b)` is "true" exactly for true and "false" otherwise |
| Components.ComponentsPage.constructor | assets/js/components.js:1-4 | every `[data-include]` target starts pending |
| Components.ComponentsPage.SettleInclude | assets/js/components.js:4-14 | the target is no longer pending: it holds exactly the fetched text on an ok response and the error notice otherwise; the other targets are unchanged; the new bindings and year text follow `FollowupsFor` |
| Components.ComponentsPage.InitNav | assets/js/components.js:17-28 | nothing is bound without toggle or menu; otherwise one more toggle listener and the link listeners |
| Components.ComponentsPage.SetYear | assets/js/components.js:30-33 | the year is written only when `#year` exists |
| Components.ComponentsPage.ToggleClick | assets/js/components.js:21-24 | each bound listener flips `open`; `aria-expanded` then mirrors the class |
| Components.ComponentsPage.LinkClick | assets/js/components.js:25-28 | a link click removes `open` and writes "false" |

## Left out

- **Scripts not modelled:**
  - `assets/js/maps.js`: a wrapper over the Google Maps API with no logic of its own.
  - `update_index.py`: file output only.
- **Browser side effects:** SVG and HTML markup, inline styles, `scrollIntoView`, `window.scrollTo`, console logging, the performance monitor (`main.js:150-168`), the `<style>` element and `window.IgrejaApp`. Keyboard focus is recorded only as the element last focused.
- **Browser services:** timer durations (2000, 5000 and 100 ms), `Math.random() < 0.1` and real fetch, script and iframe loading. Each is an input or an event.
- **`instgrm.Embeds.process()`:** the call after the reels load is not modelled.
- **`ready`, `on`, `off`, `qs` and `qsa`:** these are thin wrappers. The constructors model the state once the DOM is ready, and handlers exist only where they are bound.
- **Dom.AddClass:** the `DOMTokenList` errors for an empty or white-space class name are not modelled.
- **Dom.RemoveClass:** the same token errors are not modelled.
- **Dom.ToggleClass:** the same token errors are not modelled.
- **Dom.Create:** entry values are taken as strings, so the type coercions of property assignment are not modelled. Entries are taken in `Object.entries` order, which lists integer-like keys first.
- **Dom.Create:** `appendChild` moves an element that is already in a tree. The model appends each element child as given, so two issues are not modelled:
  - an element passed twice appears twice, where the browser keeps one;
  - an element attached elsewhere is not detached from its old parent.
  The scripts' own calls pass fresh, distinct elements.
- **Dom.ChildNodesCount:** "one node per element child" holds for distinct, fresh elements only, for the reason in the Dom.Create line above.
- **Dom.ClassTokens:** its own contract states only that every token is a valid class name. That the tokens are exactly the names is proved for names joined by single spaces (`Dom.JoinedClassTokens`), not for arbitrary runs of white space.
- **Dom.ScriptForIsCreated:** `Dom.Element` keeps properties and content attributes apart, so the reflection of a script's `src`, `async`, `defer` and `type` properties to content attributes is not modelled there; `Dom.Document` records scripts by their `src` directly.
- **Dom.LoadScript:** the `options.attributes` spread is not modelled, since no caller passes it. A `src` with a `"` breaks the selector, and this is not modelled either. The two settlements of one load are a single step, so other events cannot run between insertion and settlement.
- **RateLimit.Throttled.Invoke:** the `this` binding of `func.apply` is not modelled. `func` is taken to return normally. In the source, `func.apply` runs before `inThrottle = true`, so a `func` that throws leaves the throttle open; the model always closes it. `RateLimit.ThrottleStep` makes the same assumption.
- **RateLimit.Debounced.Invoke:** `func` is modelled only by the arguments it receives.
- **Contact.ContactModule.constructor:**
  - the submit button is taken to start enabled with the idle caption;
  - the markup starts with no error spans;
  - the form's parent starts with no `.alert`: `showMessage` removes only the first `.alert` it finds, so extra alerts already in the markup would survive, and the model does not hold them;
  - fields that share a parent element are not modelled, since each field owns the `.form-error` spans of its parent.
- **`getFormData` and `simulateSubmission`:** not modelled. The outcome of the simulated submission is the input of `SubmissionSettles`.
- **Menu.MenuModule.OnMenuClick:** uses the corrected lookup. As the source is written, the listener closes an open menu and then throws, changing no link; `Menu.MenuModule.OnMenuClickAsWritten` models that.
- **Menu.MenuModule.constructor:**
  - the listeners bound before `setActiveLink` throws are modelled as bound, and the corrected active-link marking is applied (see Findings);
  - the `.nav-list a` lookup in the menu's parent and the `a` lookup in the menu are one flag.
- **MapEmbed.MapModule.Render:** content the container held before `init` is not modelled.
- **MapEmbed.MapModule.IframeLoaded:** events from iframes discarded by a re-render are not modelled.
- **InstaReels.InstaReelsModule.LoadInstagramEmbeds:** this requires a container. Its only caller, the load button, exists only with one. A direct call without a container fails, and that case is not modelled.
- **`fetchReelsFromAPI`** (`insta-reels.js:188-200`): a stub for a future server endpoint, built on `fetch`; not modelled.
- **Instagram.OEmbedParams:** the parameters are an ordered list. Their `URLSearchParams` serialisation and the endpoint string are not modelled.
- **Instagram.LoadInstagramReels:**
  - the "Carregando reels..." view is overwritten in the same step;
  - configured entries that are not strings (numbers, objects) are not modelled.
- **Components.ComponentsPage.SettleInclude:** the toggle and menu that `initNav` finds are one pair for the whole page. A later include that replaces that markup resets nothing.
- **Components.ComponentsPage.SetYear:** the year is a parameter instead of `new Date()`.
- **Uri.EncodeURIComponent:** the `URIError` for lone surrogates cannot arise, because Dafny characters are Unicode scalar values.

## Findings

| source | as written | input that shows it | evidently intended | confidence | as-written member | corrected member |
|---|---|---|---|---|---|---|
| assets/js/modules/menu.js:130-132 | `setActiveLink` calls `forEach` on `qs('.nav-link')`, a single element or null, so it always throws a TypeError | any page, e.g. path `/sobre.html` with one `.nav-link` to it | every `.nav-link` (`qsa`) is marked active iff the path test holds | high, not executed | Menu.SetActiveLinkAsWritten, Menu.ActiveLinkLookupThrows | Menu.MarkActive |
| assets/js/modules/menu.js:119-120 | `updateActiveLink` calls `forEach` on `qs('.nav-link')`, so a link click closes the menu and then throws before any link is marked | a click on any `.nav-link` | `active` is taken off every `.nav-link` and put on the clicked one | high, not executed | Menu.UpdateActiveLinkAsWritten, Menu.MenuModule.OnMenuClickAsWritten, Menu.ActiveLinkLookupThrows | Menu.ActivateOnly, Menu.ClickedLinkSoleActive |
