/**
 The hide script: look up the container by its marker id and remove it
 from the page when it is there. It touches nothing else — in particular
 it does not reach any viewer, so viewers keep their (now detached)
 container references.
 */
module HideScript {
  import opened Dom

  function Hide(d: Document): (r: Document)
    ensures |d.attached| <= 1 ==> r.attached == []
    ensures d.attached != [] ==> r.attached == d.attached[1..]
    ensures d.attached == [] ==> r == d
    ensures r == d.(attached := r.attached)
  {
    RemoveMarked(d)
  }

  /** Hiding twice is hiding once: with at most one container on the page, hide is idempotent. */
  lemma HideIdempotent(d: Document)
    requires |d.attached| <= 1
    ensures Hide(Hide(d)) == Hide(d)
  {
  }
}
