# Alt-text overlay engine

This is a Dafny model of the overlay engine of a browser extension that
shows the alt text of a page's images, and a link for each iframe, as
overlays placed on top of the elements. The engine is two injected
scripts:

- `content.js` defines a viewer object. `init` removes a stale overlay
  container, attaches a fresh one under the id `alt-text-viewer-container`,
  and runs one pass. A pass (`processElements`) clears the container. It
  then appends one overlay per visible image, then one per visible iframe.
  Resize and scroll listeners re-run the pass, and each overlay has a close
  button.
- `hide.js` removes the container with that id, if one is present.

The page is modelled in memory (module `Dom`). It holds a sequence of
images, each with an optional `alt` and a rectangle, and a sequence of
iframes, each with a `src` and a rectangle. It also holds the scroll
offsets and the overlay containers.

Container identity is explicit. Each container node has an id, and the
document lists which containers are attached. Each viewer holds the id of
the container it references, or None before `init`. This matters because
`processElements` recreates a container only when the viewer's reference is
null. A container that was merely detached is still written to. So after
`hide.js`, a later pass fills the detached node and nothing reappears.

The modules follow the program's structure:

- `Annotations`: the three-way classification of an `alt` attribute, and
  its exact message. `ReadAlt` is the inverse of the message function.
- `Overlays`: the visibility filter, overlay placement, the image and iframe
  overlays, and the overlays of one pass. `VisibleIndices` is an
  independent reference definition of "qualifying element".
- `ContentScript`: the viewer, with `init`, `processElements`,
  `removeOverlays` and the close button.
- `HideScript`: `hide.js`.
- `Sessions`: a page over time. Every injection of `content.js` creates a
  new viewer, and its listeners are never removed. The module defines the
  invariant every reachable page keeps, and the lemmas that follow from it.

## Model

| member | source | states |
|---|---|---|
| Annotations.Classify | content.js:72-84 | An absent attribute is missing, `alt=""` is empty, and any non-empty value is present. Each holds in both directions. |
| Annotations.AltMessage | content.js:69-84 | Missing gives exactly `Error: Missing alt text`. Empty gives exactly `Review: Empty alt attribute`. Present gives `Alt text: "`, then the value verbatim, then `"`. |
| Annotations.ReadAltOfMessage | content.js:72-84 | The message of every attribute reads back to that attribute, so the overlay text always determines the attribute. |
| Annotations.MessageOfReadAlt | content.js:78 | Any text `ReadAlt` accepts is exactly the message of the attribute it returns. This is the converse of the round trip. |
| Annotations.AltMessageInjective | content.js:72-84 | Two attributes have the same message if and only if they are equal. |
| Overlays.VisibleIndices | content.js:64-67 | Reference definition of a qualifying element: its index is listed exactly when the element is at least 1 wide and 1 high. The indices are strictly increasing. |
| Overlays.CreateImageOverlay | content.js:61-87 | No overlay if and only if the image's width or height is below 1. Otherwise the overlay is at (scrollY + top, scrollX + left) and shows the image's alt message. |
| Overlays.CreateIframeOverlay | content.js:93-109 | No overlay if and only if the iframe is degenerate. Otherwise the overlay is at the same placement and holds one link: href is the iframe's `src`, target `_blank`, rel `noopener noreferrer`, and the CORS notice as text. |
| Overlays.RenderImages | content.js:48-50 | The image loop gives one overlay per qualifying image, in document order. Overlay k is the overlay of the k-th qualifying image. |
| Overlays.RenderIframes | content.js:52-54 | The iframe loop gives one overlay per qualifying iframe, in document order. |
| Overlays.Render | content.js:45-54 | A pass yields exactly QualifyingCount overlays: the qualifying images' overlays in order, then the qualifying iframes'. It is not interleaved document order. |
| Overlays.PlaceIsScrollInvariant | content.js:120-122 | Placement is in page coordinates. Scrolling by (dx, dy) while the viewport rectangle moves by (-dx, -dy) leaves the overlay where it was. |
| ContentScript.RemoveOverlays | content.js:146-151 | The first attached container with the marker id is detached, if there is one. The page, the nodes and their children are unchanged. |
| ContentScript.ProcessElements | content.js:34-55 | The referenced container ends up holding exactly `Render` of the page, so earlier children are discarded. No other container changes. A non-null reference is kept and nothing is attached. Only a null reference creates and attaches a new container. |
| ContentScript.Init | content.js:18-24 | The first stale container is detached. When at most one was attached, only the fresh one is attached afterwards. The viewer references the fresh container, which holds `Render` of the page. No other container changes. |
| ContentScript.Dismiss | content.js:132-140 | The close button removes only overlay i of an attached container. The other children keep their values and order, and every other container and the page are unchanged. |
| ContentScript.RepassRestoresDismissed | content.js:35-37 | A pass after a dismissal in the viewer's container gives exactly what it would have given without it, so dismissed overlays come back. |
| ContentScript.InitTwiceSingleContainer | content.js:19-22 | From a page with at most one container, which every reachable page has (ReachableSingleContainer), running `init` twice leaves exactly one attached container, different from the first run's. It holds the same overlays as a single run, one per qualifying element. |
| HideScript.Hide | hide.js:6-14 | With at most one container, none is attached afterwards. With none present, it is a no-op. Nothing but the attached list changes. |
| HideScript.HideIdempotent | hide.js:11-13 | From a page with at most one container, which every reachable page has (ReachableSingleContainer), hiding twice equals hiding once. |
| Sessions.InjectContentPreservesInv | content.js:168-169 | A new injection keeps the page invariant: one container, the newest viewer's. |
| Sessions.ListenerPreservesInv | content.js:27-28 | A listener pass of any viewer keeps the page invariant. |
| Sessions.StepPreservesInv | hide.js:8-13 | Every event keeps the invariant: an injection, hide, a listener pass, a close click or a page change. |
| Sessions.RunPreservesInv | content.js:18-29 | The invariant holds after any sequence of events. |
| Sessions.ReachableSingleContainer | content.js:19-22 | On every page reachable from a fresh load, at most one container is attached. |
| Sessions.InjectShowsOnePass | content.js:168-169 | After an injection, exactly one container is attached. The screen shows `Render` of the page: one overlay per qualifying element. |
| Sessions.HideClearsScreen | hide.js:8-13 | After `hide.js`, no container is attached and no overlay is on screen. |
| Sessions.ListenerNeverAttaches | content.js:36-43 | On a reachable page a listener pass never takes the recreate branch. It creates no node and attaches nothing. |
| Sessions.ListenerRefreshesOnlyNewest | content.js:36-37 | The newest viewer's pass refreshes the screen to `Render`. Passes of older viewers write into their detached containers and leave the screen unchanged. |
| Sessions.HiddenStaysHidden | hide.js:11-12 | After hide, no sequence of listener passes, close clicks or page changes attaches a container. Only a new injection does. |
| Sessions.HideThenScrollShowsNothing | content.js:36-37 | Hide followed by a scroll pass of the same viewer leaves no container attached. |
| Sessions.ScenarioImagesRender | content.js:48-50 | On the example page the image loop renders, in order, `Alt text: "cat"`, `Review: Empty alt attribute` and `Error: Missing alt text`, each at (scrollY + top, scrollX + left). |
| Sessions.ThreeImagesScenario | content.js:61-109 | Example page: images with `alt="cat"`, `alt=""` and no alt, plus a 0x0 iframe. An injection shows exactly three overlays with the three messages in order, and none for the iframe. |

## Left out

- `debounce`, timers and listener registration (content.js:27-28, 159-165).
  A listener firing is an event `Sessions.Listener(k)` that may occur at any
  point. Coalescing bursts of events is a timing matter.
- No code removes listeners, so old viewers keep running passes after hide
  (content.js:27-28). The model keeps every viewer's listener.
- `processElements` recreates the container only when the viewer's
  reference is null (content.js:36-43), not when the container has been
  detached. `ListenerNeverAttaches` shows the recreate branch is dead on
  reachable pages.
- The classification that `messageType` records (content.js:76, 79, 83) is
  kept as `Annotations.Classify`. Only the variable itself is left out,
  because nothing reads it.
- The real DOM, CSS classes, `innerHTML`, the close button's markup and the
  `px` string form of positions are abstracted. A position is the `real`
  number before formatting, and rectangles are exact `real`s rather than
  browser doubles.
- `iframe.src` is taken as the already-resolved URL string.
- The page's own elements are assumed never to carry the id
  `alt-text-viewer-container`. Only containers the viewer creates are
  counted as attached.
- A missing `document.body` (when `appendChild` would throw) is not
  modelled.
- `popup.js` and `background.js` are left out. They store the per-tab toggle
  and inject the scripts, which the model represents as the
  `InjectContent` and `InjectHide` events.
