/**
 * The part of an already-parsed XML element tree that the converter reads:
 * an element's tag, its text and its children, and the two ElementTree lookups
 * it uses, `find` with a child path and `findall('.//tag')`.
 * Tags are namespace-qualified names such as "{uri}Trackpoint".
 */
module ElementTree {
  import opened Wrappers

  /** An XML element; `text` is None when the element has no text content. */
  datatype Element = Element(tag: string, text: Option<string>, children: seq<Element>)

  /** The elements of `s` tagged `t`, in their order in `s`. */
  function Tagged(s: seq<Element>, t: string): (r: seq<Element>)
    ensures |r| <= |s|
    ensures forall x :: x in r <==> x in s && x.tag == t
  {
    if s == [] then [] else (if s[0].tag == t then [s[0]] else []) + Tagged(s[1..], t)
  }

  /** One step of a path: the children tagged `t` of each element of `es`, element after element. */
  function Step(es: seq<Element>, t: string): (r: seq<Element>)
    ensures forall x :: x in r <==> exists e :: e in es && x in e.children && x.tag == t
  {
    if es == [] then [] else Tagged(es[0].children, t) + Step(es[1..], t)
  }

  /** Every element reached from `es` by following the child steps of `path`, in document order. */
  function Select(es: seq<Element>, path: seq<string>): (r: seq<Element>)
    ensures path != [] ==> forall x :: x in r ==> x.tag == path[|path| - 1]
    decreases |path|
  {
    if path == [] then es else Select(Step(es, path[0]), path[1..])
  }

  /**
   * `e.find(path)`: the first element the path reaches, or None. The empty path finds `e`
   * itself; otherwise what is found carries the path's last tag.
   */
  function Find(e: Element, path: seq<string>): (r: Option<Element>)
    ensures path == [] ==> r == Some(e)
    ensures path != [] && r.Some? ==> r.value.tag == path[|path| - 1]
  {
    var found := Select([e], path);
    if found == [] then None else Some(found[0])
  }

  /** Some child of `e` is tagged `t`. */
  ghost predicate HasChild(e: Element, t: string)
  {
    exists c :: c in e.children && c.tag == t
  }

  /** Some child of `e` tagged `p` has a child tagged `q`. */
  ghost predicate HasPath(e: Element, p: string, q: string)
  {
    exists c, g :: c in e.children && c.tag == p && g in c.children && g.tag == q
  }

  /** `c` is the first child of `e` tagged `t`. */
  ghost predicate IsFirstChild(e: Element, t: string, c: Element)
  {
    exists i :: (0 <= i < |e.children| && e.children[i] == c && c.tag == t &&
                 forall j :: 0 <= j < i ==> e.children[j].tag != t)
  }

  lemma {:induction false} TaggedHead(s: seq<Element>, t: string)
    requires Tagged(s, t) != []
    ensures exists i :: (0 <= i < |s| && s[i] == Tagged(s, t)[0] && s[i].tag == t &&
                         forall j :: 0 <= j < i ==> s[j].tag != t)
  {
    if s[0].tag != t {
      TaggedHead(s[1..], t);
      var i :| 0 <= i < |s[1..]| && s[1..][i] == Tagged(s[1..], t)[0] && s[1..][i].tag == t &&
        (forall j :: 0 <= j < i ==> s[1..][j].tag != t);
      assert s[i + 1] == Tagged(s, t)[0];
      forall j | 0 <= j < i + 1 ensures s[j].tag != t {
        if j > 0 { assert s[j] == s[1..][j - 1]; }
      }
    }
  }

  /** A one-step `find` yields the first child with that tag, and None exactly when there is none. */
  lemma FindChild(e: Element, t: string)
    ensures Find(e, [t]).None? <==> !HasChild(e, t)
    ensures Find(e, [t]).Some? ==> IsFirstChild(e, t, Find(e, [t]).value)
  {
    assert [t][1..] == [];
    assert Select([e], [t]) == Step([e], t) == Tagged(e.children, t) + Step([], t);
    if Find(e, [t]).Some? {
      TaggedHead(e.children, t);
    }
  }

  /**
   * Position (`i`, `j`) of `s` is the first, in document order, of a grandchild tagged `q`
   * under an element tagged `p`: `s[i]` is the first element tagged `p` that has a child
   * tagged `q`, and `j` is that child's index.
   */
  ghost predicate FirstPathAt(s: seq<Element>, p: string, q: string, i: int, j: int)
  {
    && 0 <= i < |s| && s[i].tag == p
    && 0 <= j < |s[i].children| && s[i].children[j].tag == q
    && (forall k :: 0 <= k < i ==> s[k].tag != p || !HasChild(s[k], q))
    && (forall m :: 0 <= m < j ==> s[i].children[m].tag != q)
  }

  /** `g` is the first grandchild of `e` tagged `q` under a child tagged `p`, in document order. */
  ghost predicate IsFirstPath(e: Element, p: string, q: string, g: Element)
  {
    exists i, j :: FirstPathAt(e.children, p, q, i, j) && e.children[i].children[j] == g
  }

  /** A first position in `s[1..]` is one position later in `s` when `s[0]` does not qualify. */
  lemma FirstPathShift(s: seq<Element>, p: string, q: string, i: int, j: int)
    requires s != [] && FirstPathAt(s[1..], p, q, i, j)
    requires s[0].tag != p || !HasChild(s[0], q)
    ensures FirstPathAt(s, p, q, i + 1, j) && s[i + 1] == s[1..][i]
  {
    forall k | 0 <= k < i + 1 ensures s[k].tag != p || !HasChild(s[k], q) {
      if k > 0 { assert s[k] == s[1..][k - 1]; }
    }
  }

  /** An element has no child tagged `q` exactly when filtering its children by `q` leaves nothing. */
  lemma NoChildTagged(e: Element, q: string)
    ensures !HasChild(e, q) <==> Tagged(e.children, q) == []
  {
    if Tagged(e.children, q) != [] {
      assert Tagged(e.children, q)[0] in Tagged(e.children, q);
    }
  }

  /** When `s[0]` has no grandchild on the path, the path from `s` reaches what it reaches from `s[1..]`. */
  lemma StepTaggedSkip(s: seq<Element>, p: string, q: string)
    requires s != [] && (s[0].tag != p || Tagged(s[0].children, q) == [])
    ensures Step(Tagged(s, p), q) == Step(Tagged(s[1..], p), q)
  {
    if s[0].tag == p {
      var ts := Tagged(s, p);
      assert ts[0] == s[0] && ts[1..] == Tagged(s[1..], p);
    } else {
      assert Tagged(s, p) == Tagged(s[1..], p);
    }
  }

  /** When `s[0]` has a grandchild on the path, the path from `s` reaches the first of them first. */
  lemma StepTaggedFirst(s: seq<Element>, p: string, q: string)
    requires s != [] && s[0].tag == p && Tagged(s[0].children, q) != []
    ensures Step(Tagged(s, p), q) != [] && Step(Tagged(s, p), q)[0] == Tagged(s[0].children, q)[0]
  {
    var ts := Tagged(s, p);
    assert ts[0] == s[0] && ts[1..] == Tagged(s[1..], p);
    assert Step(ts, q) == Tagged(s[0].children, q) + Step(Tagged(s[1..], p), q);
  }

  /** The first grandchild a two-step path reaches from the elements `s`. */
  lemma {:induction false} StepTaggedHead(s: seq<Element>, p: string, q: string)
    requires Step(Tagged(s, p), q) != []
    ensures exists i, j :: FirstPathAt(s, p, q, i, j) && s[i].children[j] == Step(Tagged(s, p), q)[0]
  {
    assert s != [];
    NoChildTagged(s[0], q);
    if s[0].tag == p && Tagged(s[0].children, q) != [] {
      StepTaggedFirst(s, p, q);
      TaggedHead(s[0].children, q);
      var j :| 0 <= j < |s[0].children| && s[0].children[j] == Tagged(s[0].children, q)[0] &&
        s[0].children[j].tag == q && forall m :: 0 <= m < j ==> s[0].children[m].tag != q;
      assert FirstPathAt(s, p, q, 0, j);
    } else {
      var rest := s[1..];
      StepTaggedSkip(s, p, q);
      StepTaggedHead(rest, p, q);
      var i, j :| FirstPathAt(rest, p, q, i, j) && rest[i].children[j] == Step(Tagged(rest, p), q)[0];
      FirstPathShift(s, p, q, i, j);
    }
  }

  /**
   * A two-step `find` yields None exactly when no child tagged `p` has a child tagged `q`;
   * otherwise it yields the first such grandchild in document order.
   */
  lemma FindPath(e: Element, p: string, q: string)
    ensures Find(e, [p, q]).None? <==> !HasPath(e, p, q)
    ensures Find(e, [p, q]).Some? ==> IsFirstPath(e, p, q, Find(e, [p, q]).value)
  {
    var mid := Step([e], p);
    var found := Step(mid, q);
    assert Select([e], [p, q]) == found by {
      assert [p, q][1..] == [q];
      assert [q][1..] == [];
      assert Select([e], [p, q]) == Select(mid, [q]);
      assert Select(mid, [q]) == Select(found, []);
    }
    assert [e][1..] == [];
    assert mid == Tagged(e.children, p) + Step([], p);
    assert mid == Tagged(e.children, p);
    if found != [] {
      assert found[0] in found;
      StepTaggedHead(e.children, p, q);
      var i, j :| FirstPathAt(e.children, p, q, i, j) && e.children[i].children[j] == found[0];
      assert IsFirstPath(e, p, q, found[0]);
    }
  }

  /** The elements of the subtree rooted at `e` tagged `t` (`e` itself included), in pre-order. */
  function Iter(e: Element, t: string): (r: seq<Element>)
    ensures forall x :: x in r ==> x.tag == t
  {
    (if e.tag == t then [e] else []) + IterForest(e.children, t)
  }

  /** `Iter` over each tree of `es` in turn. */
  function IterForest(es: seq<Element>, t: string): (r: seq<Element>)
    ensures forall x :: x in r ==> x.tag == t
  {
    if es == [] then [] else Iter(es[0], t) + IterForest(es[1..], t)
  }

  /** `e.findall('.//t')`: the proper descendants of `e` tagged `t`, in document order. */
  function FindAll(e: Element, t: string): (r: seq<Element>)
    ensures forall x :: x in r ==> x.tag == t
  {
    IterForest(e.children, t)
  }

  /** The descendants search over a single tree. */
  lemma IterForestOne(a: Element, t: string)
    ensures IterForest([a], t) == Iter(a, t)
  {
  }

  /** The descendants search over two trees, the first tree's elements first. */
  lemma IterForestTwo(a: Element, b: Element, t: string)
    ensures IterForest([a, b], t) == Iter(a, t) + Iter(b, t)
  {
    assert [a, b][1..] == [b];
    IterForestOne(b, t);
  }

  /** Every node of the trees `es`, in document (pre-)order: the reference for `FindAll`. */
  function Preorder(es: seq<Element>): seq<Element>
  {
    if es == [] then [] else [es[0]] + Preorder(es[0].children) + Preorder(es[1..])
  }

  /** The proper descendants of `e`, in document order. */
  function Descendants(e: Element): seq<Element>
  {
    Preorder(e.children)
  }

  lemma {:induction false} TaggedAppend(a: seq<Element>, b: seq<Element>, t: string)
    ensures Tagged(a + b, t) == Tagged(a, t) + Tagged(b, t)
  {
    if a == [] {
      assert a + b == b;
    } else {
      assert (a + b)[1..] == a[1..] + b;
      TaggedAppend(a[1..], b, t);
    }
  }

  lemma {:induction false} IterForestIsTaggedPreorder(es: seq<Element>, t: string)
    ensures IterForest(es, t) == Tagged(Preorder(es), t)
  {
    if es != [] {
      IterForestIsTaggedPreorder(es[0].children, t);
      IterForestIsTaggedPreorder(es[1..], t);
      TaggedAppend([es[0]], Preorder(es[0].children), t);
      TaggedAppend([es[0]] + Preorder(es[0].children), Preorder(es[1..]), t);
    }
  }

  /**
   * `findall('.//t')` keeps exactly the descendants tagged `t`, in document order;
   * so it finds every such descendant and nothing else.
   */
  lemma FindAllIsTaggedDescendants(e: Element, t: string)
    ensures FindAll(e, t) == Tagged(Descendants(e), t)
    ensures |FindAll(e, t)| <= |Descendants(e)|
    ensures forall x :: x in FindAll(e, t) <==> x in Descendants(e) && x.tag == t
  {
    IterForestIsTaggedPreorder(e.children, t);
  }

  /** A tag has at most one first child. */
  lemma FirstChildUnique(e: Element, t: string, a: Element, b: Element)
    requires IsFirstChild(e, t, a) && IsFirstChild(e, t, b)
    ensures a == b
  {
  }
}
