/**
 The overlay renderer: which elements get an overlay (the visibility
 filter), where it is placed, what it contains, and the overlays one render
 pass produces for a whole page — the qualifying images' overlays, in
 document order, followed by the qualifying iframes' overlays.
 */
module Overlays {
  import opened Dom
  import Annotations

  const FrameNotice: string := "iFrame CORS restriction: Open in new tab to review alt text"
  const NewTab: string := "_blank"
  const NoOpener: string := "noopener noreferrer"

  /** A hidden or degenerate element: less than one pixel wide or high. */
  predicate Degenerate(r: Rect)
  {
    r.width < 1.0 || r.height < 1.0
  }

  function ImageRect(img: Image): Rect { img.rect }

  function IframeRect(f: Iframe): Rect { f.rect }

  /**
   Reference definition of the qualifying elements: the indices of the
   non-degenerate elements of `xs`, strictly increasing.
   */
  function VisibleIndices<T>(xs: seq<T>, rectOf: T -> Rect): (ix: seq<nat>)
    ensures forall k :: 0 <= k < |ix| ==> ix[k] < |xs| && !Degenerate(rectOf(xs[ix[k]]))
    ensures forall i :: 0 <= i < |xs| && !Degenerate(rectOf(xs[i])) ==> i in ix
    ensures forall k, l :: 0 <= k < l < |ix| ==> ix[k] < ix[l]
    decreases |xs|
  {
    if xs == [] then []
    else
      var ix' := VisibleIndices(xs[..|xs| - 1], rectOf);
      if Degenerate(rectOf(xs[|xs| - 1])) then ix' else ix' + [|xs| - 1]
  }

  /**
   The overlay `createOverlay` builds for an element whose viewport rectangle
   is `r`, with the page scrolled by (`scrollX`, `scrollY`).
   */
  function Place(scrollX: real, scrollY: real, r: Rect, content: Content): Overlay
  {
    Overlay(scrollY + r.top, scrollX + r.left, content)
  }

  /** `createImageOverlay`: nothing for a degenerate image, else one overlay with its alt message. */
  function CreateImageOverlay(img: Image, scrollX: real, scrollY: real): (o: Option<Overlay>)
    ensures o.None? <==> Degenerate(img.rect)
    ensures o.Some? ==> o.value.top == scrollY + img.rect.top && o.value.left == scrollX + img.rect.left
    ensures o.Some? ==> o.value.content == Text(Annotations.AltMessage(img.alt))
  {
    if Degenerate(img.rect) then None
    else Some(Place(scrollX, scrollY, img.rect, Text(Annotations.AltMessage(img.alt))))
  }

  /** `createIframeOverlay`: nothing for a degenerate iframe, else one overlay linking to its source in a new tab. */
  function CreateIframeOverlay(f: Iframe, scrollX: real, scrollY: real): (o: Option<Overlay>)
    ensures o.None? <==> Degenerate(f.rect)
    ensures o.Some? ==> o.value.top == scrollY + f.rect.top && o.value.left == scrollX + f.rect.left
    ensures o.Some? ==> o.value.content == Link(f.src, NewTab, NoOpener, FrameNotice)
  {
    if Degenerate(f.rect) then None
    else Some(Place(scrollX, scrollY, f.rect, Link(f.src, NewTab, NoOpener, FrameNotice)))
  }

  /** The overlays of the image loop of one pass: one per qualifying image, in document order. */
  function RenderImages(imgs: seq<Image>, scrollX: real, scrollY: real): (os: seq<Overlay>)
    ensures |os| == |VisibleIndices(imgs, ImageRect)|
    ensures forall k :: 0 <= k < |os| ==>
              CreateImageOverlay(imgs[VisibleIndices(imgs, ImageRect)[k]], scrollX, scrollY) == Some(os[k])
    decreases |imgs|
  {
    if imgs == [] then []
    else
      var os' := RenderImages(imgs[..|imgs| - 1], scrollX, scrollY);
      match CreateImageOverlay(imgs[|imgs| - 1], scrollX, scrollY)
      case None => os'
      case Some(o) => os' + [o]
  }

  /** The overlays of the iframe loop of one pass: one per qualifying iframe, in document order. */
  function RenderIframes(fs: seq<Iframe>, scrollX: real, scrollY: real): (os: seq<Overlay>)
    ensures |os| == |VisibleIndices(fs, IframeRect)|
    ensures forall k :: 0 <= k < |os| ==>
              CreateIframeOverlay(fs[VisibleIndices(fs, IframeRect)[k]], scrollX, scrollY) == Some(os[k])
    decreases |fs|
  {
    if fs == [] then []
    else
      var os' := RenderIframes(fs[..|fs| - 1], scrollX, scrollY);
      match CreateIframeOverlay(fs[|fs| - 1], scrollX, scrollY)
      case None => os'
      case Some(o) => os' + [o]
  }

  /** The number of overlays a pass over `d` produces: its qualifying images and iframes. */
  function QualifyingCount(d: Document): nat
  {
    |VisibleIndices(d.images, ImageRect)| + |VisibleIndices(d.iframes, IframeRect)|
  }

  /**
   All overlays one pass over `d` produces: every qualifying image's overlay
   in document order, then every qualifying iframe's overlay in document order.
   */
  function Render(d: Document): (os: seq<Overlay>)
    ensures |os| == QualifyingCount(d)
    ensures var ix := VisibleIndices(d.images, ImageRect);
            forall k :: 0 <= k < |ix| ==>
              CreateImageOverlay(d.images[ix[k]], d.scrollX, d.scrollY) == Some(os[k])
    ensures var ix := VisibleIndices(d.images, ImageRect);
            var jx := VisibleIndices(d.iframes, IframeRect);
            forall k :: 0 <= k < |jx| ==>
              CreateIframeOverlay(d.iframes[jx[k]], d.scrollX, d.scrollY) == Some(os[|ix| + k])
  {
    RenderImages(d.images, d.scrollX, d.scrollY) + RenderIframes(d.iframes, d.scrollX, d.scrollY)
  }

  /**
   An overlay sits at the element's page position: scrolling by (dx, dy)
   moves the element's viewport rectangle by (-dx, -dy) and leaves the
   overlay where it was.
   */
  lemma PlaceIsScrollInvariant(scrollX: real, scrollY: real, r: Rect, dx: real, dy: real, c: Content)
    ensures Place(scrollX + dx, scrollY + dy, r.(left := r.left - dx, top := r.top - dy), c)
         == Place(scrollX, scrollY, r, c)
  {
  }
}
