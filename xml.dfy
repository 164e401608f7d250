/**
 * The already-parsed XML document that the message parser reads.
 *
 * `collection.getElementsByTagName(tag)` walks the descendants of the
 * document element in document order (the document element itself is not
 * among them), so a document is modelled as that sequence of elements.
 * Each element keeps its tag name and the character data of its first
 * child node, or None when it has no child or the first child carries no
 * character data (reading `.childNodes[0].data` would raise).
 */
module Xml {
  import opened Wrappers

  datatype Element = Element(tag: string, firstData: Option<string>)

  datatype Document = Document(elements: seq<Element>)

  /** `i` is the position of the first element of `els` named `tag`. */
  ghost predicate IsFirst(els: seq<Element>, tag: string, i: int)
  {
    0 <= i < |els| && els[i].tag == tag && forall j :: 0 <= j < i ==> els[j].tag != tag
  }

  /** No element of `els` is named `tag`. */
  ghost predicate Absent(els: seq<Element>, tag: string)
  {
    forall j :: 0 <= j < |els| ==> els[j].tag != tag
  }

  /** Index of the first element named `tag`: slot 0 of the NodeList
      that `getElementsByTagName` returns. */
  function FirstIndex(els: seq<Element>, tag: string): (r: Option<nat>)
    ensures r.Some? ==> IsFirst(els, tag, r.value)
    ensures r.None? ==> Absent(els, tag)
  {
    if |els| == 0 then None
    else if els[0].tag == tag then Some(0)
    else
      match FirstIndex(els[1..], tag)
      case None => None
      case Some(i) =>
        assert forall j :: 0 < j <= i ==> els[j] == els[1..][j - 1];
        Some(i + 1)
  }

  /** `getElementsByTagName(tag)[0].childNodes[0].data`, with the
      IndexError or AttributeError it may raise turned into None. */
  function FirstText(doc: Document, tag: string): (r: Option<string>)
    ensures forall i :: IsFirst(doc.elements, tag, i) ==> r == doc.elements[i].firstData
    ensures Absent(doc.elements, tag) ==> r == None
  {
    match FirstIndex(doc.elements, tag)
    case None => None
    case Some(i) => doc.elements[i].firstData
  }

  /** Only the first occurrence of a tag is read: whatever follows it,
      including later elements with the same tag, does not matter. */
  lemma FirstTextIgnoresSuffix(els: seq<Element>, more: seq<Element>, tag: string)
    requires !Absent(els, tag)
    ensures FirstText(Document(els + more), tag) == FirstText(Document(els), tag)
  {
    var i := FirstIndex(els, tag).value;
    assert IsFirst(els + more, tag, i);
  }

  /** A tag that occurs nowhere in either part occurs nowhere in the whole. */
  lemma FirstTextAbsentFromBoth(els: seq<Element>, more: seq<Element>, tag: string)
    requires Absent(els, tag) && Absent(more, tag)
    ensures FirstText(Document(els + more), tag) == None
  {
  }

  /** Inserting an element with another tag, anywhere, leaves the lookup
      of `tag` unchanged. */
  lemma FirstTextIgnoresOtherTag(els: seq<Element>, k: nat, e: Element, tag: string)
    requires k <= |els| && e.tag != tag
    ensures FirstText(Document(els[..k] + [e] + els[k..]), tag) == FirstText(Document(els), tag)
  {
    var ins := els[..k] + [e] + els[k..];
    assert forall j :: 0 <= j < k ==> ins[j] == els[j];
    assert forall j :: k < j < |ins| ==> ins[j] == els[j - 1];
    match FirstIndex(els, tag)
    case None =>
      assert Absent(ins, tag);
    case Some(i) =>
      if i < k {
        assert IsFirst(ins, tag, i);
      } else {
        assert IsFirst(ins, tag, i + 1);
      }
  }
}
