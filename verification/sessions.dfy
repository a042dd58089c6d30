/**
 A whole page over time. The page starts with no container and no viewer.
 Every time the content script is injected (the toggle is switched on, or a
 page load finds it enabled) its top-level function runs again and creates
 a NEW viewer that runs `init`; that viewer's resize and scroll listeners
 stay registered for the life of the page, since nothing ever removes them.
 The hide script only detaches the container. Between these events the page
 itself may change its elements, layout or scroll offsets.
 */
module Sessions {
  import opened Dom
  import opened Overlays
  import ContentScript
  import HideScript
  import Annotations

  datatype World = World(doc: Document, viewers: seq<ContentScript.Viewer>)

  datatype Event =
    | InjectContent                        // the content script runs: a new viewer runs `init`
    | InjectHide                           // the hide script runs
    | Listener(viewer: nat)                // a debounced resize/scroll listener of that viewer runs a pass
    | Close(container: NodeId, index: nat) // the close button of one overlay is clicked
    | PageChanged(images: seq<Image>, iframes: seq<Iframe>, scrollX: real, scrollY: real)

  /** A freshly loaded page: its elements, no overlay container, no viewer. */
  function Start(images: seq<Image>, iframes: seq<Iframe>, scrollX: real, scrollY: real): World
  {
    World(Document(images, iframes, scrollX, scrollY, [], map[], 0), [])
  }

  function Step(w: World, e: Event): World
  {
    match e
    case InjectContent =>
      var (d, v) := ContentScript.Init(w.doc);
      World(d, w.viewers + [v])
    case InjectHide =>
      w.(doc := HideScript.Hide(w.doc))
    case Listener(k) =>
      if k < |w.viewers| then
        var (d, v) := ContentScript.ProcessElements(w.doc, w.viewers[k]);
        World(d, w.viewers[k := v])
      else w
    case Close(c, i) =>
      w.(doc := ContentScript.Dismiss(w.doc, c, i))
    case PageChanged(imgs, fs, x, y) =>
      w.(doc := w.doc.(images := imgs, iframes := fs, scrollX := x, scrollY := y))
  }

  function Run(w: World, es: seq<Event>): World
    decreases |es|
  {
    if es == [] then w else Run(Step(w, es[0]), es[1..])
  }

  /** The overlays the user sees: the children of the attached container, if any. */
  function OnScreen(d: Document): seq<Overlay>
  {
    if d.attached == [] then [] else ChildrenOf(d, d.attached[0])
  }

  /**
   What holds of every reachable page: at most one container is attached;
   every viewer has run `init`, so holds a container reference; the
   viewers' containers are distinct, allocated nodes, in creation order;
   and an attached container is the newest viewer's.
   */
  predicate Inv(w: World)
  {
    && |w.doc.attached| <= 1
    && (forall k :: 0 <= k < |w.viewers| ==>
          w.viewers[k].container.Some? && w.viewers[k].container.value < w.doc.nextId)
    && (forall k, l :: 0 <= k < l < |w.viewers| ==>
          w.viewers[k].container.Some? && w.viewers[l].container.Some? &&
          w.viewers[k].container.value < w.viewers[l].container.value)
    && (w.doc.attached != [] ==>
          |w.viewers| > 0 && w.viewers[|w.viewers| - 1].container == Some(w.doc.attached[0]))
  }

  lemma StartInv(images: seq<Image>, iframes: seq<Iframe>, scrollX: real, scrollY: real)
    ensures Inv(Start(images, iframes, scrollX, scrollY))
  {
  }

  lemma InjectContentPreservesInv(w: World)
    requires Inv(w)
    ensures Inv(Step(w, InjectContent))
  {
    var (d, v) := ContentScript.Init(w.doc);
    var vs := w.viewers + [v];
    assert Step(w, InjectContent) == World(d, vs);
    assert d.attached == [w.doc.nextId] && d.nextId == w.doc.nextId + 1;
    assert v.container == Some(w.doc.nextId);
    assert forall k :: 0 <= k < |w.viewers| ==> vs[k] == w.viewers[k];
    assert vs[|vs| - 1] == v;
  }

  lemma ListenerPreservesInv(w: World, k: nat)
    requires Inv(w)
    ensures Inv(Step(w, Listener(k)))
  {
    if k < |w.viewers| {
      var (d, v) := ContentScript.ProcessElements(w.doc, w.viewers[k]);
      assert v == w.viewers[k];
      assert w.viewers[k := v] == w.viewers;
      assert d.attached == w.doc.attached && d.nextId == w.doc.nextId;
    }
  }

  lemma StepPreservesInv(w: World, e: Event)
    requires Inv(w)
    ensures Inv(Step(w, e))
  {
    match e
    case InjectContent => InjectContentPreservesInv(w);
    case InjectHide =>
    case Listener(k) => ListenerPreservesInv(w, k);
    case Close(c, i) =>
    case PageChanged(imgs, fs, x, y) =>
  }

  /** Every page reached from a fresh load by any sequence of events satisfies `Inv`. */
  lemma {:induction false} RunPreservesInv(w: World, es: seq<Event>)
    requires Inv(w)
    ensures Inv(Run(w, es))
    decreases |es|
  {
    if es != [] {
      StepPreservesInv(w, es[0]);
      RunPreservesInv(Step(w, es[0]), es[1..]);
    }
  }

  /** On any reachable page there is at most one attached container. */
  lemma ReachableSingleContainer(images: seq<Image>, iframes: seq<Iframe>, scrollX: real, scrollY: real, es: seq<Event>)
    ensures |Run(Start(images, iframes, scrollX, scrollY), es).doc.attached| <= 1
  {
    StartInv(images, iframes, scrollX, scrollY);
    RunPreservesInv(Start(images, iframes, scrollX, scrollY), es);
  }

  /**
   Injecting the content script, whatever came before, leaves exactly one
   attached container showing one overlay per qualifying element.
   */
  lemma InjectShowsOnePass(w: World)
    requires Inv(w)
    ensures |Step(w, InjectContent).doc.attached| == 1
    ensures OnScreen(Step(w, InjectContent).doc) == Render(w.doc)
    ensures |OnScreen(Step(w, InjectContent).doc)| == QualifyingCount(w.doc)
  {
  }

  /** After the hide script no container is attached and nothing is on screen. */
  lemma HideClearsScreen(w: World)
    requires Inv(w)
    ensures Step(w, InjectHide).doc.attached == []
    ensures OnScreen(Step(w, InjectHide).doc) == []
  {
  }

  /**
   On a reachable page a listener never takes the recreate branch: its
   viewer always holds a reference, so no node is created and nothing is
   attached, whether or not its container is still on the page.
   */
  lemma ListenerNeverAttaches(w: World, k: nat)
    requires Inv(w)
    ensures Step(w, Listener(k)).doc.attached == w.doc.attached
    ensures Step(w, Listener(k)).doc.nextId == w.doc.nextId
    ensures Step(w, Listener(k)).viewers == w.viewers
  {
  }

  /**
   The listener of the newest viewer refreshes what is on screen (when its
   container is attached); the listeners left behind by earlier injections
   write only into their own detached containers, so the screen is unchanged.
   */
  lemma ListenerRefreshesOnlyNewest(w: World, k: nat)
    requires Inv(w) && k < |w.viewers|
    ensures k == |w.viewers| - 1 && w.doc.attached != [] ==>
              OnScreen(Step(w, Listener(k)).doc) == Render(w.doc)
    ensures k < |w.viewers| - 1 ==> OnScreen(Step(w, Listener(k)).doc) == OnScreen(w.doc)
  {
    if k < |w.viewers| - 1 && w.doc.attached != [] {
      assert w.viewers[k].container.value < w.viewers[|w.viewers| - 1].container.value;
    }
  }

  /**
   Once hidden, the overlays stay hidden: no listener pass, dismissal or
   page change brings a container back; only a new injection of the
   content script does.
   */
  lemma {:induction false} HiddenStaysHidden(w: World, es: seq<Event>)
    requires Inv(w) && w.doc.attached == []
    requires forall i :: 0 <= i < |es| ==> !es[i].InjectContent?
    ensures Run(w, es).doc.attached == []
    ensures OnScreen(Run(w, es).doc) == []
    decreases |es|
  {
    if es != [] {
      StepPreservesInv(w, es[0]);
      ListenerNeverAttaches(w, if es[0].Listener? then es[0].viewer else 0);
      assert Step(w, es[0]).doc.attached == [];
      HiddenStaysHidden(Step(w, es[0]), es[1..]);
    }
  }

  /** Hide, then a scroll-triggered pass of the same viewer: nothing is shown. */
  lemma HideThenScrollShowsNothing(w: World)
    requires Inv(w) && |w.viewers| > 0
    ensures Step(Step(w, InjectHide), Listener(|w.viewers| - 1)).doc.attached == []
  {
    StepPreservesInv(w, InjectHide);
    ListenerNeverAttaches(Step(w, InjectHide), |w.viewers| - 1);
  }

  /** The rectangle shared by the worked page's images. */
  function ScenarioRect(): Rect { Rect(10.0, 20.0, 100.0, 50.0) }

  /** The worked page's overlays as a pass renders them, image by image. */
  lemma ScenarioImagesRender()
    ensures RenderImages([Image(Some("cat"), ScenarioRect()), Image(Some(""), ScenarioRect()), Image(None, ScenarioRect())], 0.0, 5.0)
         == [Overlay(25.0, 10.0, Text("Alt text: \"cat\"")),
             Overlay(25.0, 10.0, Text("Review: Empty alt attribute")),
             Overlay(25.0, 10.0, Text("Error: Missing alt text"))]
  {
    var r := ScenarioRect();
    var i1, i2, i3 := Image(Some("cat"), r), Image(Some(""), r), Image(None, r);
    var o1 := Overlay(25.0, 10.0, Text("Alt text: \"cat\""));
    var o2 := Overlay(25.0, 10.0, Text("Review: Empty alt attribute"));
    var o3 := Overlay(25.0, 10.0, Text("Error: Missing alt text"));
    assert Annotations.AltMessage(Some("cat")) == "Alt text: \"cat\"" by {
      assert Annotations.PresentPrefix + "cat" + Annotations.PresentSuffix == "Alt text: \"cat\"";
    }
    assert CreateImageOverlay(i1, 0.0, 5.0) == Some(o1);
    assert CreateImageOverlay(i2, 0.0, 5.0) == Some(o2);
    assert CreateImageOverlay(i3, 0.0, 5.0) == Some(o3);
    assert [i1][..0] == [];
    assert RenderImages([i1], 0.0, 5.0) == [o1];
    assert [i1, i2][..1] == [i1];
    assert RenderImages([i1, i2], 0.0, 5.0) == [o1, o2];
    assert [i1, i2, i3][..2] == [i1, i2];
  }

  /**
   A worked page: three visible images (alt "cat", alt "", no alt) and an
   iframe of size 0 x 0. Injecting the content script shows exactly three
   overlays, in image order, with the three messages; the iframe gets none.
   */
  lemma ThreeImagesScenario()
    ensures var r := ScenarioRect();
            var page := Start([Image(Some("cat"), r), Image(Some(""), r), Image(None, r)],
                              [Iframe("https://example.org/", Rect(0.0, 0.0, 0.0, 0.0))], 0.0, 5.0);
            OnScreen(Run(page, [InjectContent]).doc)
              == [Overlay(25.0, 10.0, Text("Alt text: \"cat\"")),
                  Overlay(25.0, 10.0, Text("Review: Empty alt attribute")),
                  Overlay(25.0, 10.0, Text("Error: Missing alt text"))]
  {
    var r := ScenarioRect();
    var imgs := [Image(Some("cat"), r), Image(Some(""), r), Image(None, r)];
    var fs := [Iframe("https://example.org/", Rect(0.0, 0.0, 0.0, 0.0))];
    var page := Start(imgs, fs, 0.0, 5.0);
    assert Run(page, [InjectContent]) == Step(page, InjectContent) by {
      assert Run(page, [InjectContent]) == Run(Step(page, InjectContent), []);
    }
    ScenarioImagesRender();
    assert fs[..0] == [];
    assert RenderIframes(fs, 0.0, 5.0) == [];
    StartInv(imgs, fs, 0.0, 5.0);
    InjectShowsOnePass(page);
  }
}
