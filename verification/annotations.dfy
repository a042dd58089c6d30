/**
 The annotation an image overlay displays: a classification of the image's
 `alt` attribute (absent, empty or present) and the exact message shown for
 each class. `ReadAlt` is the inverse of `AltMessage`: the message determines
 the attribute it was made from.
 */
module Annotations {
  import opened Dom

  datatype Kind = Missing | Empty | Present

  const MissingMessage: string := "Error: Missing alt text"
  const EmptyMessage: string := "Review: Empty alt attribute"
  const PresentPrefix: string := "Alt text: \""
  const PresentSuffix: string := "\""

  /** The classification of an `alt` attribute. */
  function Classify(alt: Option<string>): (k: Kind)
    ensures k == Missing <==> alt.None?
    ensures k == Empty <==> alt == Some("")
    ensures k == Present <==> alt.Some? && |alt.value| > 0
  {
    match alt
    case None => Missing
    case Some(v) => if v == "" then Empty else Present
  }

  /** The message an image overlay shows for the image's `alt` attribute. */
  function AltMessage(alt: Option<string>): (m: string)
    ensures Classify(alt) == Missing ==> m == MissingMessage
    ensures Classify(alt) == Empty ==> m == EmptyMessage
    ensures Classify(alt) == Present ==>
              && |m| == |PresentPrefix| + |alt.value| + |PresentSuffix|
              && m[..|PresentPrefix|] == PresentPrefix
              && m[|PresentPrefix|..|m| - |PresentSuffix|] == alt.value
              && m[|m| - |PresentSuffix|..] == PresentSuffix
  {
    if alt.Some? then
      if alt.value == "" then EmptyMessage
      else PresentPrefix + alt.value + PresentSuffix
    else MissingMessage
  }

  /**
   Recovers the `alt` attribute from a message: `Some(a)` when `m` is the
   message of attribute `a`, `None` when `m` is no image message at all.
   */
  function ReadAlt(m: string): Option<Option<string>>
  {
    if m == MissingMessage then Some(None)
    else if m == EmptyMessage then Some(Some(""))
    else if && |m| > |PresentPrefix| + |PresentSuffix|
            && m[..|PresentPrefix|] == PresentPrefix
            && m[|m| - |PresentSuffix|..] == PresentSuffix
    then Some(Some(m[|PresentPrefix|..|m| - |PresentSuffix|]))
    else None
  }

  /** Every message can be read back to the attribute it came from. */
  lemma ReadAltOfMessage(alt: Option<string>)
    ensures ReadAlt(AltMessage(alt)) == Some(alt)
  {
    if alt.Some? && alt.value != "" {
      var m := AltMessage(alt);
      assert m[0] == 'A';
      assert m != MissingMessage && m != EmptyMessage by {
        assert MissingMessage[0] == 'E' && EmptyMessage[0] == 'R';
      }
    }
  }

  /** Conversely, whatever `ReadAlt` accepts is exactly the message of what it returns. */
  lemma MessageOfReadAlt(m: string, alt: Option<string>)
    requires ReadAlt(m) == Some(alt)
    ensures AltMessage(alt) == m
  {
    if m != MissingMessage && m != EmptyMessage {
      var v := m[|PresentPrefix|..|m| - |PresentSuffix|];
      assert alt == Some(v);
      assert m == m[..|PresentPrefix|] + v + m[|m| - |PresentSuffix|..];
    }
  }

  /** Distinct attributes never share a message, so the overlay reports the attribute faithfully. */
  lemma AltMessageInjective(a: Option<string>, b: Option<string>)
    ensures AltMessage(a) == AltMessage(b) <==> a == b
  {
    ReadAltOfMessage(a);
    ReadAltOfMessage(b);
  }
}
