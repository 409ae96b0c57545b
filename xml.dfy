/** The parsed pom.xml as a tree of named elements, and the only kind of edit
    the tool ever makes to it: replacing the text of one existing element. */
module Xml {
  import opened Base

  /** One element: its name, its text content and its child elements in document order.
      All elements share the root's namespace, so names are plain strings. */
  datatype Element = Element(name: string, text: string, children: seq<Element>)

  /** The position of an element: the child index taken at each level below the root. */
  type Path = seq<nat>

  /** One text replacement: the element at `path` gets the text `text`. */
  datatype Edit = Edit(path: Path, text: string)

  /** The index of the first child called `name` (JDOM's getChild), if there is one. */
  function FirstNamed(cs: seq<Element>, name: string): (r: Option<nat>)
    ensures r.Some? ==> r.value < |cs| && cs[r.value].name == name
    ensures r.Some? ==> forall k :: 0 <= k < r.value ==> cs[k].name != name
    ensures r.None? ==> forall k :: 0 <= k < |cs| ==> cs[k].name != name
    decreases |cs|
  {
    if |cs| == 0 then None
    else if cs[0].name == name then Some(0)
    else match FirstNamed(cs[1..], name)
      case None => None
      case Some(i) => Some(i + 1)
  }

  /** JDOM's getChild: the first child called `name`. */
  function Child(e: Element, name: string): Option<Element>
  {
    match FirstNamed(e.children, name)
    case None => None
    case Some(i) => Some(e.children[i])
  }

  /** JDOM's getChildText: the text of the first child called `name`, or null without one. */
  function ChildText(e: Element, name: string): Option<string>
  {
    match Child(e, name)
    case None => None
    case Some(c) => Some(c.text)
  }

  /** The text JDOM's setText(v) leaves in an element: setText(null) clears it. */
  function JdomText(v: Option<string>): string
  {
    match v
    case Some(s) => s
    case None => ""
  }

  /** The element at path `p`, if the path exists. */
  function At(e: Element, p: Path): Option<Element>
    decreases |p|
  {
    if p == [] then Some(e)
    else if p[0] < |e.children| then At(e.children[p[0]], p[1..])
    else None
  }

  function NameAt(e: Element, p: Path): Option<string>
  {
    match At(e, p)
    case None => None
    case Some(x) => Some(x.name)
  }

  function TextAt(e: Element, p: Path): Option<string>
  {
    match At(e, p)
    case None => None
    case Some(x) => Some(x.text)
  }

  predicate Fits(e: Element, ed: Edit)
  {
    At(e, ed.path).Some?
  }

  /** Two trees have the same shape when the same paths exist and carry the same names. */
  ghost predicate SameShape(a: Element, b: Element)
  {
    forall q :: NameAt(a, q) == NameAt(b, q)
  }

  /** The tree with the text of the element at `p` replaced by `t` (JDOM's setText). */
  function SetText(e: Element, p: Path, t: string): (r: Element)
    requires At(e, p).Some?
    ensures TextAt(r, p) == Some(t)
    ensures r.name == e.name && |r.children| == |e.children|
    ensures forall k :: 0 <= k < |e.children| ==> r.children[k].name == e.children[k].name
    decreases |p|
  {
    if p == [] then e.(text := t)
    else e.(children := e.children[p[0] := SetText(e.children[p[0]], p[1..], t)])
  }

  /** The path `[i] + q` is the path `q` inside the i-th child. */
  lemma AtCons(e: Element, i: nat, q: Path)
    ensures At(e, [i] + q) == if i < |e.children| then At(e.children[i], q) else None
  {
    assert ([i] + q)[0] == i;
    assert ([i] + q)[1..] == q;
  }

  /** Following `p` and then `q` is following `p + q`. */
  lemma {:induction false} AtAppend(e: Element, p: Path, q: Path)
    ensures At(e, p + q) == match At(e, p) case None => None case Some(x) => At(x, q)
    decreases |p|
  {
    if p == [] {
      assert p + q == q;
    } else {
      assert (p + q)[0] == p[0];
      assert (p + q)[1..] == p[1..] + q;
      if p[0] < |e.children| {
        AtAppend(e.children[p[0]], p[1..], q);
      }
    }
  }

  /** setText changes the text at `p` and nothing else: every path keeps its name,
      and every other path keeps its text. */
  lemma {:induction false} SetTextFrame(e: Element, p: Path, t: string, q: Path)
    requires At(e, p).Some?
    ensures NameAt(SetText(e, p, t), q) == NameAt(e, q)
    ensures TextAt(SetText(e, p, t), q) == if q == p then Some(t) else TextAt(e, q)
    decreases |q|
  {
    var r := SetText(e, p, t);
    if q == [] {
    } else if p == [] {
      assert r.children == e.children;
    } else if q[0] < |e.children| {
      if q[0] == p[0] {
        SetTextFrame(e.children[p[0]], p[1..], t, q[1..]);
        assert q == p <==> q[1..] == p[1..] by {
          if q[1..] == p[1..] {
            assert q == [q[0]] + q[1..] && p == [p[0]] + p[1..];
          }
        }
      } else {
        assert q != p;
        assert r.children[q[0]] == e.children[q[0]];
      }
    }
  }

  lemma SetTextShape(e: Element, p: Path, t: string)
    requires At(e, p).Some?
    ensures SameShape(SetText(e, p, t), e)
  {
    forall q ensures NameAt(SetText(e, p, t), q) == NameAt(e, q) {
      SetTextFrame(e, p, t, q);
    }
  }

  /** Trees that agree on which one-step paths exist have the same number of children. */
  lemma ChildCount(a: Element, b: Element)
    requires forall q :: NameAt(a, q) == NameAt(b, q)
    ensures |a.children| == |b.children|
  {
    var m, n := |a.children|, |b.children|;
    AtCons(a, m, []);
    AtCons(b, m, []);
    AtCons(a, n, []);
    AtCons(b, n, []);
    assert [m] + [] == [m] && [n] + [] == [n];
    assert NameAt(a, [m]) == NameAt(b, [m]);
    assert NameAt(a, [n]) == NameAt(b, [n]);
  }

  /** Names and texts at every path determine the tree: so SetTextFrame leaves nothing out. */
  lemma {:induction false} SameEverywhere(a: Element, b: Element)
    requires forall q :: NameAt(a, q) == NameAt(b, q) && TextAt(a, q) == TextAt(b, q)
    ensures a == b
    decreases a
  {
    assert NameAt(a, []) == NameAt(b, []) && TextAt(a, []) == TextAt(b, []);
    ChildCount(a, b);
    forall i | 0 <= i < |a.children|
      ensures a.children[i] == b.children[i]
    {
      forall q ensures NameAt(a.children[i], q) == NameAt(b.children[i], q)
                    && TextAt(a.children[i], q) == TextAt(b.children[i], q)
      {
        AtCons(a, i, q);
        AtCons(b, i, q);
        assert NameAt(a, [i] + q) == NameAt(b, [i] + q) && TextAt(a, [i] + q) == TextAt(b, [i] + q);
      }
      SameEverywhere(a.children[i], b.children[i]);
    }
    assert a.children == b.children;
  }

  /** The path reached by calling getChild with each of `names` in turn, if every step finds a child. */
  function Resolve(e: Element, names: seq<string>): (r: Option<Path>)
    ensures r.Some? ==> |r.value| == |names| && At(e, r.value).Some?
    ensures r.Some? && |names| > 0 ==> NameAt(e, r.value) == Some(names[|names| - 1])
    decreases |names|
  {
    if names == [] then Some([])
    else match FirstNamed(e.children, names[0])
      case None => None
      case Some(i) =>
        match Resolve(e.children[i], names[1..])
        case None => None
        case Some(p) =>
          AtCons(e, i, p);
          if |names| > 1 then
            assert names[1..][|names[1..]| - 1] == names[|names| - 1];
            Some([i] + p)
          else
            assert p == [];
            Some([i] + p)
  }

  /** The child elements found at `names` (getChildElements), or none when the path is missing. */
  function ChildrenAt(e: Element, names: seq<string>): seq<Element>
  {
    match Resolve(e, names)
    case None => []
    case Some(p) => At(e, p).value.children
  }

  /** getChild finds a child by name only, so trees with equal child names agree on it. */
  lemma FirstNamedByNames(cs: seq<Element>, ds: seq<Element>, name: string)
    requires |cs| == |ds|
    requires forall k :: 0 <= k < |cs| ==> cs[k].name == ds[k].name
    ensures FirstNamed(cs, name) == FirstNamed(ds, name)
  {
  }

  /** The trees below two trees of one shape have one shape too. */
  lemma SameShapeChildren(a: Element, b: Element)
    requires SameShape(a, b)
    ensures a.name == b.name && |a.children| == |b.children|
    ensures forall i :: 0 <= i < |a.children| ==> SameShape(a.children[i], b.children[i])
    ensures forall i :: 0 <= i < |a.children| ==> a.children[i].name == b.children[i].name
  {
    assert NameAt(a, []) == NameAt(b, []);
    ChildCount(a, b);
    forall i | 0 <= i < |a.children|
      ensures SameShape(a.children[i], b.children[i]) && a.children[i].name == b.children[i].name
    {
      forall q ensures NameAt(a.children[i], q) == NameAt(b.children[i], q) {
        AtCons(a, i, q);
        AtCons(b, i, q);
        assert NameAt(a, [i] + q) == NameAt(b, [i] + q);
      }
      assert NameAt(a.children[i], []) == NameAt(b.children[i], []);
    }
  }

  /** Looking elements up by name gives the same path in trees of one shape. */
  lemma {:induction false} ResolveByShape(a: Element, b: Element, names: seq<string>)
    requires SameShape(a, b)
    ensures Resolve(a, names) == Resolve(b, names)
    decreases |names|
  {
    if names != [] {
      SameShapeChildren(a, b);
      FirstNamedByNames(a.children, b.children, names[0]);
      match FirstNamed(a.children, names[0])
      case None =>
      case Some(i) =>
        ResolveByShape(a.children[i], b.children[i], names[1..]);
    }
  }

  /** Looking up one more name extends the path found so far by one getChild step. */
  lemma {:induction false} ResolveSnoc(e: Element, names: seq<string>, n: string)
    ensures Resolve(e, names + [n]) ==
      match Resolve(e, names)
      case None => None
      case Some(p) => match FirstNamed(At(e, p).value.children, n) case None => None case Some(i) => Some(p + [i])
    decreases |names|
  {
    if names == [] {
      assert names + [n] == [n] && [n][1..] == [];
      match FirstNamed(e.children, n)
      case None =>
      case Some(i) => assert [i] + [] == [] + [i];
    } else {
      assert (names + [n])[0] == names[0] && (names + [n])[1..] == names[1..] + [n];
      match FirstNamed(e.children, names[0])
      case None =>
      case Some(i) =>
        ResolveSnoc(e.children[i], names[1..], n);
        match Resolve(e.children[i], names[1..])
        case None =>
        case Some(q) =>
          AtCons(e, i, q);
          assert forall j: nat :: [i] + (q + [j]) == ([i] + q) + [j];
    }
  }

  /** Once a lookup fails, looking further down fails too. */
  lemma {:induction false} ResolvePrefixNone(e: Element, a: seq<string>, b: seq<string>)
    requires Resolve(e, a).None?
    ensures Resolve(e, a + b).None?
    decreases |a|
  {
    if a != [] {
      assert (a + b)[0] == a[0] && (a + b)[1..] == a[1..] + b;
      match FirstNamed(e.children, a[0])
      case None =>
      case Some(i) => ResolvePrefixNone(e.children[i], a[1..], b);
    }
  }
}
