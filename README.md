# Portfolio slideshow and modal controller, with its analytics tracker

This project is a Dafny model of the interactive core of the portfolio
site's `script.js`. It covers two parts.

**The analytics tracker** is an IIFE at the top of the file.
- `sendEvent` builds a payload and hoists `projectId || context || trackId || null` to its top level.
- `trackModalOpen` and `trackImageView` derive a detail and a project id from a context object.
- A delegated click listener classifies every click. It chooses an event type, decides whether to report the click at all, and builds the click details.

These are pure computations and are modelled as functions in the `Tracker` module.

**The slideshow and modal controller** lives inside the `DOMContentLoaded` handler.
- It holds the catalog `slideshowData` and the variables `currentSlide`, `currentProjectData`, `currentPdfBlobUrl` and `currentPdfOriginalPath`.
- It has four overlays: PDF viewer, image slideshow, publications list and project description.
- It has handlers that open, close and navigate them, and that load PDFs into blob URLs.

The model has two layers:
- `ModalState` is a pure page state with one step function per handler. The properties are proved there.
- `ModalController.Controller` is a class with the same fields. Each method performs one handler in place and is proved to end in the state the step function computes.

Calls into the tracker are logged as `TrackerCall` values. `Tracker.Payload` turns a call into the payload `sendEvent` would beacon. Blob URLs that get revoked are logged in `revoked`.

Modules, in dependency order:
- `JsValues` (`js_values.dfy`): JavaScript truthiness of an optional string, and `||`.
- `Text` (`text.dfy`): the string built-ins the script uses. These are `split`, `pop`, `substring`, `replace` with a regex or a single character, `startsWith`/`endsWith`/`includes`, and number-to-string conversion in template literals.
- `Tracker` (`tracker.dfy`): `sendEvent`, `trackModalOpen`, `trackImageView` and the click classification.
- `Catalog` (`catalog.dfy`): `slideshowData`, and the slide arithmetic with JavaScript's truncating `%`. Also image URLs, counter and alt text, rotations, and the project id taken from a prefix.
- `ModalState` (`modal_state.dfy`): the page state, its invariant `Valid`, one step function per handler, and the properties.
- `ModalController` (`controller.dfy`): the controller as a class.

Behaviour the model makes explicit:
- Opening an overlay never closes another one. For example, a description opened over the slideshow leaves the slideshow shown (`OpenKeepsOthers`).
- A PDF fetch is never superseded. A fetch that settles after a newer request still installs its blob URL and opens the viewer (`StaleLoadStillWins`).
- Starting a load revokes the current blob URL but leaves it assigned. If that load then fails and the PDF overlay is closed, the same URL is revoked a second time (`StaleBlobRevokedTwice`).
- For catalog entries whose key differs from their image directory, the two slideshow events report different project ids. For example, `helicopter` has the prefix `./1dof helicopter/`. `modal_open` reports the clicked key, while `image_view` reports the directory name (`OpenSlideshowEvents`).
- The title handler's PDF branch has no caller in the script: `pdfPath` is always `null` because its special cases are commented out. The model makes `pdfPath` a parameter so that the branch is still covered.

## Model

| member | source | states |
|---|---|---|
| JsValues.Or | script.js:218-219 | `a \|\| b` on optional strings: `a` when it is truthy, otherwise `b` |
| JsValues.NumberOrNull | script.js:248-249 | `n \|\| null` on a number: null exactly when `n` is missing or 0 |
| Text.Split | script.js:222 | `split` always returns at least one piece |
| Text.SplitPiecesHaveNoSeparator | script.js:222 | no piece of `split` contains the separator |
| Text.JoinSplit | script.js:222 | joining the pieces of `split` with the separator gives the string back |
| Text.SplitJoin | script.js:222 | splitting a join of separator-free pieces gives the pieces back |
| Text.SplitLast | script.js:222 | the last piece of `split` (`pop()`) is the text after the last separator |
| Text.SplitFirst | script.js:222 | the first piece of `split` (`[0]`) is the text before the first separator |
| Text.SplitSecondToLast | script.js:239-241 | the second-to-last piece lies between the last two separators |
| Text.SplitCount | script.js:239-240 | `split` returns one more piece than there are separators, so more than two pieces exactly when there are at least two |
| Text.IncludesAt | script.js:162-163 | `includes` holds exactly when the text occurs at some position |
| Text.Take | script.js:228 | `substring(0, n)` gives a prefix of at most `n` characters, equal to the string when it is short enough |
| Text.RemoveChars | script.js:439 | `replace(/[.\/]/g, '')` leaves none of the listed characters and keeps every other character as often as it occurred |
| Text.ReplaceChar | script.js:737 | `replace(/ /g, '_')` keeps the length and changes only the spaces |
| Text.IntToString | script.js:502 | the template-literal form of an integer: digits, with a leading `-` only for negatives |
| Text.ParseNatToString | script.js:514 | the decimal text of a natural number reads back as that number |
| Tracker.HoistProjectId | script.js:34 | the first truthy of `projectId`, `context` and `trackId`, otherwise null |
| Tracker.SendEvent | script.js:27-45 | the payload keeps the type and details; its top-level project id is the hoisted `projectId \|\| context \|\| trackId \|\| null`, non-empty and one of the details' keys |
| Tracker.InferIdFromPath | script.js:222 | the inferred id contains no `/` and no `.` |
| Tracker.InferIdFromPathIsStem | script.js:222 | the inferred id is the file name after the last `/`, cut before its first `.` |
| Tracker.ModalDetail | script.js:218 | the detail is `detail`, else `pdfPath`, else `Project: <id>`, else empty; empty exactly when all three are falsy |
| Tracker.ModalProjectId | script.js:219-226 | the given id, else the one inferred from a path-like detail, else a non-empty `context`; null and `""` cases stated both ways |
| Tracker.TrackModalOpen | script.js:216-229 | a `modal_open` event with this modal id, the detail equal to the derived detail when at most 150 characters long and otherwise its first 150 characters, and the derived project id, hoisted when truthy |
| Tracker.ImageProjectId | script.js:232-243 | the given id, else the context, else a path inference that succeeds exactly when the source has at least two `/` |
| Tracker.ImageProjectIdIsParentDirectory | script.js:237-241 | the inferred id is the text between the last two `/` of the image source |
| Tracker.TrackImageView | script.js:230-252 | an `image_view` event with the source kept whole when at most 200 characters long and otherwise cut to its first 200, slide and total as `\|\| null`, and the derived project id, hoisted to the top level when truthy |
| Tracker.Payload | script.js:213-252 | each tracker call produces the event type and details of its API function |
| Tracker.ContextProjectId | script.js:94-109 | the context project: a card's own non-empty id, else its title's id when the title carries one (else the card's empty id); without a card, the tracked element's id or context, else the image's, else the title's |
| Tracker.LinkTypeDetail | script.js:160-165 | the value of the last matching rule: `.pdf`, else `.mp4`, else `buymeacoffee.com`, else `vimeo.com`, else social/contact, else project links; no detail exactly when no rule matches |
| Tracker.ClassifyClick | script.js:113-200 | clicks handled by dedicated listeners are never reported; a click is reported exactly when it is not handled elsewhere and is not the publications anchor; the event type for each case (`anchor_click`, `link_click`, `button_click`, the tracked element's type or `tracked_element_click`, `project_card_area_click`, `generic_click`); `nohref` exactly for a link without `href`; the link's href, type, detail and target; no href on a click without a link, and no link detail or new-tab flag unless the link has an `href` not starting with `#`; the project id and track id recorded |
| Tracker.GenericClickEvent | script.js:205-207 | an event is sent exactly when the classification says so, with its type and the classified details; its top-level id is the context project, else the track id, else null |
| Tracker.DedicatedClicksNotDoubleTracked | script.js:127-151 | clicks on image, title, publication link, toggles, close buttons or the publications anchor produce no generic event |
| Tracker.PdfLinksClassified | script.js:152-165 | a reported link to a `.pdf` is a `link_click` with detail `direct_pdf_link` |
| Catalog.CatalogTotalsPositive | script.js:364-374 | every catalog entry has at least one slide |
| Catalog.JsRemainder | script.js:501 | JavaScript's `%` lies strictly between `-b` and `b` and takes the sign of the dividend |
| Catalog.NatRemIsMod | script.js:501 | the remainder computed by repeated subtraction is the Euclidean remainder |
| Catalog.JsRemainderIsTruncated | script.js:501 | JavaScript's `%` is the Euclidean remainder of the dividend's magnitude, carrying the dividend's sign |
| Catalog.SlideIndex | script.js:501 | the wrapped slide is in `1..n` whenever `k - 1 + n >= 0`, and is `k` itself when `k` is in range |
| Catalog.SlideIndexBelowRange | script.js:501 | with a dividend below zero the formula leaves the range: `showSlide(-n)` computes slide 0 |
| Catalog.NextIndexWraps | script.js:537 | next from the last slide is the first, otherwise the following one |
| Catalog.PrevIndexWraps | script.js:538 | previous from the first slide is the last, otherwise the one before |
| Catalog.NextPrevInverse | script.js:537-538 | next then previous, and previous then next, return to the same slide |
| Catalog.AdvanceByValue | script.js:537 | `m` presses of next from slide `k` land on `(k - 1 + m) mod n + 1` |
| Catalog.FullCycle | script.js:537 | `n` presses of next return to the starting slide |
| Catalog.Rotation | script.js:520 | the slide's rotation from `rotations`, or 0 when it has none |
| Catalog.CounterTextReadsBack | script.js:514 | the counter `k / n` splits on spaces into `k`, `/` and `n`, which read back as the numbers |
| Catalog.ProjectIdFromPrefix | script.js:439 | the id taken from a prefix contains no `.` and no `/` |
| Catalog.PrefixIdIsName | script.js:439 | for a prefix `./name/` the id is `name` |
| Catalog.DirectoryPrefixIds | script.js:237-241 | for an image under `./name/`, `trackImageView` infers `name`, the id the prefix gives |
| Catalog.CatalogPrefixesAreDirectories | script.js:364-374 | every catalog prefix has the form `./name/` and no extension contains `/` |
| Catalog.SlideIdsAgree | script.js:523-532 | for every catalog slide, the id `showSlide` passes equals the one `trackImageView` would infer from the path |
| ModalState.ModalId | script.js:430 | every overlay has a non-empty element id |
| ModalState.Initial | script.js:70 | at load: slide 1, no data, no blob, nothing shown, and one `pageview` event sent |
| ModalState.ValidHasSlides | script.js:375-376 | in a valid state any slideshow data has at least one slide |
| ModalState.TrackerContext | script.js:429-451 | the context `openModal` builds: the caller's project id, else its PDF path as detail; for the slideshow the prefix as detail and the id stripped from it when none is given; for the PDF the original path or viewer source, with an id inferred from the path; the description title; `Publication List` |
| ModalState.OpenEvent | script.js:453 | `openModal` calls `trackModalOpen` with the overlay's id and the context `TrackerContext` builds |
| ModalState.OpenModalStep | script.js:423-462 | the overlay is added to the shown set and scrolling is locked; one event is appended; nothing else changes |
| ModalState.CloseStep | script.js:465-494 | closing a hidden overlay does nothing; otherwise it leaves the shown set and unlocks scrolling. PDF: viewer blank, blob revoked and cleared, path cleared. Slideshow: data cleared, blank image, navigation shown. Description: title, text and image cleared. Every other field is unchanged |
| ModalState.CloseIdempotent | script.js:466 | closing twice is the same as closing once |
| ModalState.ClosePdfRevokesAtMostOnce | script.js:476-480 | closing the PDF overlay revokes at most one URL, the current one, and leaves no blob assigned |
| ModalState.SlideViewContext | script.js:525-531 | the context `showSlide` passes: the prefix with `.` and `/` removed as project id, no context, the slide and the total |
| ModalState.SlideEvent | script.js:524-531 | `showSlide` reports the image URL it displays, with the id stripped from the prefix, the slide number and the total |
| ModalState.SlideDisplay | script.js:502-521 | the image is `prefix k.ext` with alt and rotation; single-slide shows hide the navigation, others show the counter `k / n` |
| ModalState.ShowSlideStep | script.js:498-536 | without data nothing changes; otherwise the slide is the wrapped index, the display matches it, and `image_view` is sent only while the slideshow is shown |
| ModalState.NextStep | script.js:537 | with several slides the slide moves to the next index, otherwise nothing changes |
| ModalState.PrevStep | script.js:538 | with several slides the slide moves to the previous index, otherwise nothing changes |
| ModalState.NextWraps | script.js:537 | next from the last slide shows the first |
| ModalState.PrevWraps | script.js:538 | previous from the first slide shows the last |
| ModalState.NavigateKeepsValid | script.js:537-538 | next and previous keep the controller invariant |
| ModalState.NextThenPrev | script.js:537-538 | previous after next returns to the same slide |
| ModalState.ImageClickEvent | script.js:556-562 | the image click sends `project_click` with element `image`, the id and `open_slideshow` |
| ModalState.OpenSlideshowStep | script.js:551-574 | an empty or unknown id changes nothing; a catalog id installs its data, displays slide 1 in full, shows the slideshow and sends three events; the PDF state and the description are unchanged |
| ModalState.SlideshowOpenEvent | script.js:437-440 | the slideshow's `modal_open` reports the prefix as detail and the clicked id as project |
| ModalState.SlideViewEvent | script.js:523-532 | the `image_view` of a slide of any entry with a `./<name>/` prefix reports the prefix's directory name, which the path inference agrees with |
| ModalState.OpenSlideshowEvents | script.js:566-571 | opening the slideshow sends `modal_open` with the clicked id, then `image_view` with the directory id |
| ModalState.BeginPdfLoad | script.js:609-612 | remember the path, blank the viewer, revoke the current blob URL without clearing it; every other field is unchanged |
| ModalState.SettleLoad | script.js:616-623 | success installs the blob URL and the viewer shows it with toolbar flags; failure shows the original path; every other field is unchanged |
| ModalState.PublicationClickEvent | script.js:722-724 | the publication click sends `publication_click` with title and path |
| ModalState.PublicationClickStep | script.js:717-729 | the path is remembered, the event sent, the viewer blanked, and the current blob revoked but kept; every other field is unchanged |
| ModalState.PublicationId | script.js:737 | the title with every space replaced by `_`, otherwise unchanged |
| ModalState.PublicationSettledStep | script.js:731-743 | the settled publication closes the list and opens the PDF viewer with the outcome installed (the blob with toolbar flags, or the path), sending one `modal_open`; slideshow and description are unchanged |
| ModalState.PublicationOpenReportsPath | script.js:737 | the PDF viewer's `modal_open` reports the publication's path as detail and its underscored title as project |
| ModalState.OpenPublicationsStep | script.js:750-757 | opening the list shows it and sends `openModal`'s own `modal_open` call: detail `Publication List`, project `publications_list` at both levels; the PDF state, slideshow and description are unchanged |
| ModalState.TitleClickEvent | script.js:590-595 | the title click sends `project_click` with element `title` and the id |
| ModalState.DescriptionDisplay | script.js:632-635 | the overlay takes the title text, the image source, its alt (or the title) and the description HTML |
| ModalState.ProjectTitleClickStep | script.js:583-642 | with a PDF path, send `project_click` and begin loading (path, blank viewer, current blob revoked but kept); else, with a description, fill and open the overlay, sending `project_click` and its `modal_open`; else only the event |
| ModalState.TitlePdfSettledStep | script.js:614-624 | the settled title PDF opens the viewer with the outcome installed (the blob with toolbar flags, or the path) and sends its `modal_open`; path, slideshow and description are unchanged |
| ModalState.CloseAll | script.js:654-658 | Escape closes exactly the listed overlays and sends nothing |
| ModalState.CloseAllSnoc | script.js:654-658 | closing one more overlay after a list is one more `closeModal` |
| ModalState.CloseAllTearsDown | script.js:654-658 | each shown overlay in the list is torn down once (PDF blob revoked and cleared, path cleared, viewer blank; slideshow data cleared; description cleared), scrolling unlocked, and everything else kept |
| ModalState.CloseOrderCoversAll | script.js:654 | Escape's list names every overlay |
| ModalState.KeyStep | script.js:652-664 | Escape closes the overlays in the list's order and leaves nothing shown; arrows navigate only while the slideshow is shown; other keys change nothing |
| ModalState.EscapeTearsDown | script.js:652-658 | after Escape nothing is shown, scrolling is unlocked, and each overlay that was shown has released its blob URL, path, slideshow data or description |
| ModalState.FrameKeepsValid | script.js:375-378 | a step that keeps the data, the slide and the slideshow's visibility keeps the invariant |
| ModalState.OpenSlideshowKeepsValid | script.js:551-574 | the image click keeps the invariant |
| ModalState.CloseKeepsValid | script.js:465-494 | closing keeps the invariant |
| ModalState.KeyKeepsValid | script.js:652-664 | the keyboard handler keeps the invariant |
| ModalState.CloseAllKeepsValid | script.js:654-658 | closing any sequence of overlays keeps the invariant |
| ModalState.Apply | script.js:543-760 | every handler keeps the invariant and only appends to the event and revocation logs |
| ModalState.Run | script.js:543-760 | any sequence of handler runs keeps the invariant and only appends to the logs |
| ModalState.RubiksPrevWraps | script.js:367 | in the Rubik's cube slideshow, previous from slide 1 shows slide 16, unrotated |
| ModalState.StaleLoadStillWins | script.js:717-743 | a publication load that settles after a newer request still installs its blob and opens the viewer |
| ModalState.StaleBlobRevokedTwice | script.js:729-740 | after a failed load and a close, the old blob URL is revoked twice |
| ModalState.OpenKeepsOthers | script.js:628-636 | a description opened over the slideshow leaves the slideshow shown |
| ModalController.Controller.constructor | script.js:375-378 | the controller starts in the initial state, which is valid |
| ModalController.Controller.OpenModal | script.js:423-462 | `openModal` ends in the state `OpenModalStep` computes |
| ModalController.Controller.CloseModal | script.js:465-494 | `closeModal` ends in the state `CloseStep` computes |
| ModalController.Controller.ShowSlide | script.js:498-536 | `showSlide` ends in the state `ShowSlideStep` computes |
| ModalController.Controller.NextSlide | script.js:537 | `nextSlide` ends in the state `NextStep` computes |
| ModalController.Controller.PrevSlide | script.js:538 | `prevSlide` ends in the state `PrevStep` computes |
| ModalController.Controller.OnProjectImageClick | script.js:551-574 | the image click ends in `OpenSlideshowStep` and keeps the invariant |
| ModalController.Controller.OpenSlideshow | script.js:555-571 | once the id names a catalog entry: report the click, install the entry, open the slideshow and show slide 1, ending in `OpenEntryStep` |
| ModalController.Controller.BeginPdfLoad | script.js:609-612 | ends in the state `BeginPdfLoad` computes |
| ModalController.Controller.SettleLoad | script.js:616-623 | ends in the state `SettleLoad` computes |
| ModalController.Controller.OnProjectTitleClick | script.js:583-642 | the title click ends in `ProjectTitleClickStep` and keeps the invariant |
| ModalController.Controller.OnTitlePdfSettled | script.js:614-624 | ends in `TitlePdfSettledStep` and keeps the invariant |
| ModalController.Controller.OpenPublicationsModal | script.js:750-757 | ends in `OpenPublicationsStep` and keeps the invariant |
| ModalController.Controller.OnPublicationClick | script.js:717-729 | ends in `PublicationClickStep` and keeps the invariant |
| ModalController.Controller.OnPublicationSettled | script.js:731-743 | ends in `PublicationSettledStep` and keeps the invariant |
| ModalController.Controller.OnClose | script.js:543-547 | a close button or backdrop click ends in `CloseStep` and keeps the invariant |
| ModalController.Controller.CloseShown | script.js:654-658 | the loop closes the shown overlays in order and ends in `CloseAll` |
| ModalController.Controller.OnKeyDown | script.js:652-664 | the handler ends in `KeyStep` and keeps the invariant |

## Left out

- Timers are not modelled. The 300 ms delay in `closeModal` is applied at once, and so are the 50 ms delays before focusing and before opening the PDF viewer after a publication settles. With the real timers, that publication open happens before the list's delayed teardown. The teardown then unlocks page scrolling while the PDF viewer is shown. The synchronous model unlocks first and locks again, so it does not capture this.
- CSS effects are not modelled: the fade (`opacity`, `transform`) and focus handling.
- `fetch` and `URL.createObjectURL` are outside the model. A load's result is an input, `LoadOutcome`: either the blob URL the browser created, or a failure.
- The beacon transport is I/O and is left out: `navigator.sendBeacon`, the `fetch` fallback, and the payload fields read from browser globals (timestamp, page URL, screen size, referrer). The configured-URL guard in `sendEvent` always passes with the URL in the file, so it is not modelled.
- DOM lookups that can be missing (`if (!slideImage …) return`, `if (imageModal)`) are assumed present. The element text the click listener records (`targetElement`, `linkText`, `buttonText`, classes) is not modelled.
- Tracker.SendEvent: the `context` key is always absent, because no call site in the script passes one.
- Tracker.ClassifyClick: `closest` is an input. The DOM tree and selector matching are not part of this model.
- ModalController.Controller.OnClose, NextSlide and PrevSlide (the `Close`, `Next` and `Prev` actions): the capture-phase click listener also reports these clicks. A backdrop click becomes `generic_click` and an arrow button `button_click`. Those events are not appended to the log. The listener's decision for any click is modelled on its own, as `Tracker.ClassifyClick` and `Tracker.GenericClickEvent`. A close button carries `data-close-modal`, so it is never reported.
- Lengths are counted in characters, not UTF-16 code units. `substring(0, n)` therefore differs for text outside the Basic Multilingual Plane.
- Catalog lookups do not follow the prototype chain. In the browser, ids such as `constructor` would pass the `slideshowData[projectId]` guard.
- Image `src` assignment is taken literally. The browser's resolution of relative URLs is not modelled. This also holds for the PDF viewer. When `currentPdfOriginalPath` is empty, `openModal` reads `pdfViewer.src` back as the detail (script.js:441). The browser returns the resolved absolute URL there. `ModalState.TrackerContext` returns the string last assigned, such as `./X.pdf` when a failed load settles after the path was cleared.
- `populatePublications` builds the list's DOM and is not modelled. Its link handler is modelled as `OnPublicationClick` and `OnPublicationSettled`.
- The rest of the script is outside this model: the theme toggle, hamburger menu, mobile navigation, scroll-to-top button, contact and feedback forms, intersection observer, feedback slider, and the context-menu and drag blockers.
