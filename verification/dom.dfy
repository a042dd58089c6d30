/**
 An in-memory abstraction of the parts of a web page the alt-text viewer
 touches: the page's images and iframes with their bounding rectangles, the
 scroll offsets, and the overlay containers the viewer creates.

 Container identity is explicit. Every container node ever created has a
 `NodeId`; `children` maps each one (attached or detached) to its overlay
 children, and `attached` lists, in body order, the containers that are
 currently attached under the marker id `alt-text-viewer-container`.
 */
module Dom {

  datatype Option<+T> = None | Some(value: T)

  type NodeId = nat

  /** A viewport-relative bounding rectangle, as reported by the browser. */
  datatype Rect = Rect(left: real, top: real, width: real, height: real)

  /** An `img` element: its `alt` attribute (None when the attribute is absent) and its rectangle. */
  datatype Image = Image(alt: Option<string>, rect: Rect)

  /** An `iframe` element: its resolved `src` URL and its rectangle. */
  datatype Iframe = Iframe(src: string, rect: Rect)

  /** What an overlay displays: a text message, or a single link. */
  datatype Content =
    | Text(text: string)
    | Link(href: string, target: string, rel: string, caption: string)

  /** An overlay node, positioned in page coordinates, with its content. */
  datatype Overlay = Overlay(top: real, left: real, content: Content)

  datatype Document = Document(
    images: seq<Image>,
    iframes: seq<Iframe>,
    scrollX: real,
    scrollY: real,
    attached: seq<NodeId>,
    children: map<NodeId, seq<Overlay>>,
    nextId: NodeId)

  /** The overlay children of container `c` (none for a node never written to). */
  function ChildrenOf(d: Document, c: NodeId): seq<Overlay>
  {
    if c in d.children then d.children[c] else []
  }

  /** Replaces all children of container `c`, attached or not. */
  function SetChildren(d: Document, c: NodeId, os: seq<Overlay>): Document
  {
    d.(children := d.children[c := os])
  }

  /**
   `document.getElementById(marker)` followed by `remove()` when it found
   something: the first attached container, in body order, is detached.
   The node itself and its children survive, detached.
   */
  function RemoveMarked(d: Document): Document
  {
    if d.attached == [] then d else d.(attached := d.attached[1..])
  }

  /**
   `createElement('div')`, set its id to the marker and append it to the
   body: a fresh, empty container is attached after any existing one.
   */
  function AppendContainer(d: Document): (Document, NodeId)
  {
    (d.(attached := d.attached + [d.nextId],
        children := d.children[d.nextId := []],
        nextId := d.nextId + 1),
     d.nextId)
  }

  /** True when the two documents show the same page: elements and scroll offsets. */
  predicate SamePage(d: Document, e: Document)
  {
    && d.images == e.images
    && d.iframes == e.iframes
    && d.scrollX == e.scrollX
    && d.scrollY == e.scrollY
  }
}
