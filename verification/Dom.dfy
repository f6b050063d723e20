/** An abstract view of the parsed documents the scraper queries.

    A document is the sequence of its elements in document order. Of each element
    only what the scraper looks at is kept: its class names, its text content and
    the anchor (`<a>`) elements it contains, in document order. An anchor is kept
    as the value of its `href` attribute, which may be missing. */
module Dom {
  import opened Wrappers

  /** An `<a>` element; `href` is what `getAttribute('href')` yields (`None` for null). */
  datatype Anchor = Anchor(href: Option<string>)

  /** An element: its classes, its `textContent` and its descendant anchors in document order. */
  datatype Element = Element(classes: set<string>, text: Option<string>, anchors: seq<Anchor>)

  /** A parsed page: all of its elements in document order. */
  datatype Document = Document(elements: seq<Element>)

  /** JavaScript truthiness of a `string | null` value: present and not empty. */
  predicate Truthy(s: Option<string>)
  {
    s.Some? && s.value != ""
  }

  /** Index `i` holds the first element of `es` that carries class `c`. */
  ghost predicate IsFirstWithClass(es: seq<Element>, i: int, c: string)
  {
    0 <= i < |es| && c in es[i].classes && forall j :: 0 <= j < i ==> c !in es[j].classes
  }

  /** The elements of `es` that carry class `c`, in document order
      (`getElementsByClassName`). */
  function ElementsByClassName(es: seq<Element>, c: string): (r: seq<Element>)
    ensures |r| <= |es|
    ensures forall e :: e in r ==> e in es && c in e.classes
    ensures forall i :: 0 <= i < |es| && c in es[i].classes ==> es[i] in r
  {
    if es == [] then []
    else if c in es[0].classes then [es[0]] + ElementsByClassName(es[1..], c)
    else ElementsByClassName(es[1..], c)
  }

  /** The first item of `ElementsByClassName(es, c)` is the element at the first
      index carrying class `c`, and the list is empty exactly when no element has it. */
  lemma {:induction false} ElementsByClassNameHead(es: seq<Element>, c: string)
    ensures ElementsByClassName(es, c) == [] <==> forall i :: 0 <= i < |es| ==> c !in es[i].classes
    ensures ElementsByClassName(es, c) != [] ==>
              exists i :: IsFirstWithClass(es, i, c) && es[i] == ElementsByClassName(es, c)[0]
  {
    if es == [] {
      return;
    }
    var found := ElementsByClassName(es, c);
    if c in es[0].classes {
      assert found[0] == es[0];
      assert IsFirstWithClass(es, 0, c);
    } else {
      var tail := es[1..];
      assert found == ElementsByClassName(tail, c);
      ElementsByClassNameHead(tail, c);
      if found != [] {
        var i :| IsFirstWithClass(tail, i, c) && tail[i] == found[0];
        assert es[i + 1] == tail[i];
        forall j | 0 < j < i + 1 ensures c !in es[j].classes {
          assert es[j] == tail[j - 1];
        }
        assert IsFirstWithClass(es, i + 1, c);
      } else {
        forall i | 0 < i < |es| ensures c !in es[i].classes {
          assert es[i] == tail[i - 1];
        }
      }
    }
  }

  /** `getElementsByClassName(c)[0]`: the first element of the document carrying
      class `c`, or `None` (JavaScript `undefined`) when there is none. */
  function FirstByClass(d: Document, c: string): (r: Option<Element>)
    ensures r.None? <==> forall i :: 0 <= i < |d.elements| ==> c !in d.elements[i].classes
    ensures r.Some? ==> exists i :: IsFirstWithClass(d.elements, i, c) && d.elements[i] == r.value
    ensures r.Some? ==> forall i :: IsFirstWithClass(d.elements, i, c) ==> d.elements[i] == r.value
  {
    ElementsByClassNameHead(d.elements, c);
    var found := ElementsByClassName(d.elements, c);
    if found == [] then None else Some(found[0])
  }

  /** `getElementsByTagName('a')[0]`: the first anchor inside `e`, if any. */
  function FirstAnchor(e: Element): Option<Anchor>
  {
    if e.anchors == [] then None else Some(e.anchors[0])
  }
}
