/**
 The viewer object of the content script. Each injection of the script
 creates a fresh viewer whose only state is its reference to an overlay
 container node (None until `init` runs). All operations are pure state
 transitions of the document and the viewer.
 */
module ContentScript {
  import opened Dom
  import opened Overlays

  /** A viewer's container reference; None only before its `init` has run. */
  datatype Viewer = Viewer(container: Option<NodeId>)

  /** `removeOverlays`: detach the first container carrying the marker id, if any. */
  function RemoveOverlays(d: Document): (r: Document)
    ensures SamePage(r, d) && r.children == d.children && r.nextId == d.nextId
    ensures d.attached == [] ==> r.attached == []
    ensures d.attached != [] ==> r.attached == d.attached[1..]
  {
    RemoveMarked(d)
  }

  /**
   `processElements`: clear the viewer's container and fill it with one
   overlay per qualifying element. A new container is created and attached
   only when the viewer's reference is None; a reference to a detached
   container is written through, and nothing is attached.
   */
  function ProcessElements(d: Document, v: Viewer): (r: (Document, Viewer))
    ensures SamePage(r.0, d)
    ensures r.1.container.Some?
    ensures ChildrenOf(r.0, r.1.container.value) == Render(d)
    ensures |ChildrenOf(r.0, r.1.container.value)| == QualifyingCount(d)
    ensures forall c :: c != r.1.container.value ==> ChildrenOf(r.0, c) == ChildrenOf(d, c)
    ensures v.container.Some? ==> r.1 == v && r.0.attached == d.attached && r.0.nextId == d.nextId
    ensures v.container.None? ==>
              && r.1.container.value == d.nextId
              && r.0.attached == d.attached + [d.nextId]
              && r.0.nextId == d.nextId + 1
  {
    var (d1, c) :=
      if v.container.Some? then (d, v.container.value)
      else AppendContainer(d);
    (SetChildren(d1, c, Render(d1)), Viewer(Some(c)))
  }

  /**
   `init`: remove a stale container, attach a fresh one, remember it, and
   run one pass into it. It overwrites the viewer's reference without
   reading it, so the result is the viewer's new state whatever it held.
   */
  function Init(d: Document): (r: (Document, Viewer))
    ensures SamePage(r.0, d)
    ensures r.1.container == Some(d.nextId) && r.0.nextId == d.nextId + 1
    ensures r.0.attached == (if d.attached == [] then [] else d.attached[1..]) + [d.nextId]
    ensures |d.attached| <= 1 ==> r.0.attached == [d.nextId]
    ensures ChildrenOf(r.0, d.nextId) == Render(d)
    ensures forall c :: c != d.nextId ==> ChildrenOf(r.0, c) == ChildrenOf(d, c)
  {
    var d1 := RemoveOverlays(d);
    var (d2, c) := AppendContainer(d1);
    ProcessElements(d2, Viewer(Some(c)))
  }

  /**
   The close button of overlay `i` of container `c`: removes that overlay
   from its container and nothing else. An overlay that is not on screen
   (its container detached, or no such child) cannot be clicked: no change.
   */
  function Dismiss(d: Document, c: NodeId, i: nat): (r: Document)
    ensures SamePage(r, d) && r.attached == d.attached && r.nextId == d.nextId
    ensures forall c' :: c' != c ==> ChildrenOf(r, c') == ChildrenOf(d, c')
    ensures c in d.attached && i < |ChildrenOf(d, c)| ==>
              && |ChildrenOf(r, c)| == |ChildrenOf(d, c)| - 1
              && (forall j :: 0 <= j < i ==> ChildrenOf(r, c)[j] == ChildrenOf(d, c)[j])
              && (forall j :: i <= j < |ChildrenOf(r, c)| ==> ChildrenOf(r, c)[j] == ChildrenOf(d, c)[j + 1])
    ensures !(c in d.attached && i < |ChildrenOf(d, c)|) ==> r == d
  {
    if c in d.attached && i < |ChildrenOf(d, c)| then
      var os := ChildrenOf(d, c);
      SetChildren(d, c, os[..i] + os[i + 1..])
    else d
  }

  /**
   A pass discards every earlier child of the viewer's container: after a
   dismissal in that container, the next pass gives exactly what it would
   have given without the dismissal, so the dismissed overlay is back.
   */
  lemma RepassRestoresDismissed(d: Document, v: Viewer, i: nat)
    requires v.container.Some?
    ensures ProcessElements(Dismiss(d, v.container.value, i), v) == ProcessElements(d, v)
  {
    var c := v.container.value;
    var e := Dismiss(d, c, i);
    var os := Render(d);
    assert Render(e) == os by { assert SamePage(e, d); }
    if c in d.attached && i < |ChildrenOf(d, c)| {
      var x := ChildrenOf(d, c)[..i] + ChildrenOf(d, c)[i + 1..];
      assert e == d.(children := d.children[c := x]);
      assert d.children[c := x][c := os] == d.children[c := os];
    }
  }

  /**
   Running `init` a second time (by the same viewer or by a new one) leaves
   exactly one attached container, holding the same overlays as the first
   run produced; the first run's container is detached.
   */
  lemma InitTwiceSingleContainer(d: Document)
    requires |d.attached| <= 1
    ensures var (d1, v1) := Init(d);
            var (d2, v2) := Init(d1);
            && d2.attached == [v2.container.value]
            && v1.container != v2.container
            && ChildrenOf(d2, v2.container.value) == ChildrenOf(d1, v1.container.value)
            && |ChildrenOf(d2, v2.container.value)| == QualifyingCount(d)
  {
    var (d1, v1) := Init(d);
    assert d1.attached == [d.nextId];
  }
}
