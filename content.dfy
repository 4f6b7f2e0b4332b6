/**
 * Content application (updatePageContent in script.js), as a specification on
 * sequences of tagged elements. The in-place loop that meets it is Site.Page.UpdatePageContent.
 */
module Content {
  import opened Translation

  /** How an element's content was last written: textContent or innerHTML. */
  datatype Mode = Text | Markup

  /** A node carrying a data-i18n-key attribute, with its current content. */
  datatype Element = Element(key: string, content: string, mode: Mode)

  /** A string is written as markup exactly when it contains '<'. */
  function ModeFor(s: string): Mode
  {
    if '<' in s then Markup else Text
  }

  /** The translation is an object: `translation.includes('<')` throws a TypeError there. */
  predicate Throws(doc: Json, e: Element)
  {
    Resolve(doc, e.key).Subtree?
  }

  /** One element after its key is looked up in `doc` (for an element that does not throw). */
  function Applied(doc: Json, e: Element): Element
  {
    match Resolve(doc, e.key)
    case Found(s) => if s != "" then Element(e.key, s, ModeFor(s)) else e
    case _ => e
  }

  /** Index of the first element whose key resolves to an object, or |es| when none does. */
  function Stop(doc: Json, es: seq<Element>): (n: nat)
    ensures n <= |es|
    ensures forall k :: 0 <= k < n ==> !Throws(doc, es[k])
    ensures n < |es| ==> Throws(doc, es[n])
    decreases |es|
  {
    if es == [] then 0
    else if Throws(doc, es[0]) then 0
    else 1 + Stop(doc, es[1..])
  }

  /** The elements after one updatePageContent run, and whether it ran to the end. */
  datatype Rendered = Rendered(elements: seq<Element>, complete: bool)

  /** forEach over the elements in order; a throw leaves that element and all later ones untouched. */
  function Render(doc: Json, es: seq<Element>): Rendered
  {
    var n := Stop(doc, es);
    Rendered(seq(|es|, i requires 0 <= i < |es| => if i < n then Applied(doc, es[i]) else es[i]), n == |es|)
  }

  /** The run completes iff no element's key resolves to an object; the element count stays. */
  lemma RenderComplete(doc: Json, es: seq<Element>)
    ensures |Render(doc, es).elements| == |es|
    ensures Render(doc, es).complete <==> forall k :: 0 <= k < |es| ==> !Throws(doc, es[k])
  {
  }

  /** Rendering keeps every element's key. */
  lemma RenderKeepsKeys(doc: Json, es: seq<Element>)
    ensures |Render(doc, es).elements| == |es|
    ensures forall k :: 0 <= k < |es| ==> Render(doc, es).elements[k].key == es[k].key
  {
  }

  /** Every reached element whose key gives a non-empty string now holds exactly that string. */
  lemma RenderWrites(doc: Json, es: seq<Element>, i: nat, s: string)
    requires i < |es| && i < Stop(doc, es)
    requires Resolve(doc, es[i].key) == Found(s) && s != ""
    ensures Render(doc, es).elements[i] == Element(es[i].key, s, if '<' in s then Markup else Text)
  {
  }

  /** Elements whose key is missing or gives "" keep their content and mode, as do all from Stop on. */
  lemma RenderKeeps(doc: Json, es: seq<Element>, i: nat)
    requires i < |es|
    requires i >= Stop(doc, es) || Resolve(doc, es[i].key) == Missing || Resolve(doc, es[i].key) == Found("")
    ensures Render(doc, es).elements[i] == es[i]
  {
  }

  /** Stop depends only on the keys. */
  lemma {:induction false} StopKeys(doc: Json, a: seq<Element>, b: seq<Element>)
    requires |a| == |b|
    requires forall k :: 0 <= k < |a| ==> a[k].key == b[k].key
    ensures Stop(doc, a) == Stop(doc, b)
  {
    if a != [] {
      assert Throws(doc, a[0]) == Throws(doc, b[0]);
      StopKeys(doc, a[1..], b[1..]);
    }
  }

  /** Running updatePageContent twice gives the same elements as running it once. */
  lemma RenderIdempotent(doc: Json, es: seq<Element>)
    ensures Render(doc, Render(doc, es).elements) == Render(doc, es)
  {
    var r := Render(doc, es).elements;
    StopKeys(doc, es, r);
    var r2 := Render(doc, r).elements;
    assert |r2| == |r|;
    forall i | 0 <= i < |r| ensures r2[i] == r[i] {
      if i < Stop(doc, es) {
        assert r[i] == Applied(doc, es[i]);
      }
    }
  }
}
