/**
 * The part of the `select` crate that the scraper relies on, stated as a model
 * of the parsed document and of the predicates `Name`, `Attr` and `and`.
 *
 * A parsed `Document` is its node list in document (pre-order) order, which is
 * the order in which `Document::find` visits nodes.  The text an element yields
 * through `node.text()` (the concatenation of its descendant text nodes) is
 * carried by the element itself, since the tree that produces it is not part
 * of this model.
 */
module Select {
  import opened Wrappers

  /** One node of a parsed document. Only elements have a tag name and attributes. */
  datatype Node =
    | Element(name: string, attrs: map<string, string>, text: string)
    | TextNode(content: string)
    | Comment(content: string)

  /** A parsed document: its nodes in document order. */
  type Document = seq<Node>

  /** `node.name()`: the tag name of an element, nothing for other nodes. */
  function NameOf(n: Node): Option<string>
  {
    if n.Element? then Some(n.name) else None
  }

  /** `node.attr(name)`: the value of an element's attribute, nothing otherwise. */
  function AttrOf(n: Node, attr: string): Option<string>
  {
    if n.Element? && attr in n.attrs then Some(n.attrs[attr]) else None
  }

  /** `node.text()`: the text of an element or a text node; a comment has none. */
  function TextOf(n: Node): string
  {
    match n
    case Element(_, _, t) => t
    case TextNode(t) => t
    case Comment(_) => ""
  }

  /** The predicates of the `select` crate used here, closed under `and`. */
  datatype Pred =
    | Name(tag: string)
    | Attr(attrName: string, attrValue: string)
    | And(left: Pred, right: Pred)

  /**
   * `Predicate::matches`. `Name(t)` holds of a node whose name is exactly `t`;
   * `Attr(n, v)` of a node whose attribute `n` is exactly `v` (whole-string
   * equality, not class-token matching); `And` is the conjunction.
   */
  predicate Matches(p: Pred, n: Node)
  {
    match p
    case Name(t) => NameOf(n) == Some(t)
    case Attr(a, v) => AttrOf(n, a) == Some(v)
    case And(l, r) => Matches(l, n) && Matches(r, n)
  }

  /**
   * `document.find(p)`: the matching nodes, in document order, with repeats.
   * Every result matches, and came from the document.
   */
  function Find(doc: Document, p: Pred): seq<Node>
  {
    if doc == [] then []
    else if Matches(p, doc[0]) then [doc[0]] + Find(doc[1..], p)
    else Find(doc[1..], p)
  }

  /**
   * `Find` returns no more nodes than the document has; every node it returns
   * matches and comes from the document; and it keeps document order.
   */
  lemma {:induction false} FindSound(doc: Document, p: Pred)
    ensures |Find(doc, p)| <= |doc|
    ensures forall k :: 0 <= k < |Find(doc, p)| ==> Matches(p, Find(doc, p)[k]) && Find(doc, p)[k] in doc
    ensures IsSubsequence(Find(doc, p), doc)
  {
    if doc != [] {
      FindSound(doc[1..], p);
      var r := Find(doc, p);
      if !Matches(p, doc[0]) {
        assert r == Find(doc[1..], p);
        assert r != [] ==> r[0] != doc[0];
      } else {
        assert r[1..] == Find(doc[1..], p);
      }
    }
  }

  /** `s` is obtained from `t` by deleting some elements (order kept). */
  predicate IsSubsequence<T(==)>(s: seq<T>, t: seq<T>)
    decreases |t|
  {
    if s == [] then true
    else if t == [] then false
    else if s[0] == t[0] then IsSubsequence(s[1..], t[1..])
    else IsSubsequence(s, t[1..])
  }

  /** Dropping the head of a subsequence keeps it a subsequence. */
  lemma {:induction false} SubsequenceOfTail<T>(s: seq<T>, t: seq<T>)
    requires s != [] && IsSubsequence(s, t)
    ensures IsSubsequence(s[1..], t)
    decreases |t|, 1
  {
    if s[0] == t[0] {
      SkipHeadKeepsSubsequence(s[1..], t);
    } else {
      SubsequenceOfTail(s, t[1..]);
      SkipHeadKeepsSubsequence(s[1..], t);
    }
  }

  /** A subsequence of the tail of `t` is a subsequence of `t`. */
  lemma {:induction false} SkipHeadKeepsSubsequence<T>(s: seq<T>, t: seq<T>)
    requires t != [] && IsSubsequence(s, t[1..])
    ensures IsSubsequence(s, t)
    decreases |t|, 0
  {
    if s != [] && s[0] == t[0] {
      SubsequenceOfTail(s, t[1..]);
    }
  }

  /** Scanning from the front: traversing a concatenation visits both halves in turn. */
  lemma {:induction false} FindAppend(a: Document, b: Document, p: Pred)
    ensures Find(a + b, p) == Find(a, p) + Find(b, p)
  {
    if a == [] {
      assert a + b == b;
    } else {
      assert (a + b)[0] == a[0];
      assert (a + b)[1..] == a[1..] + b;
      FindAppend(a[1..], b, p);
    }
  }

  /** No result exactly when no node of the document matches. */
  lemma {:induction false} FindEmptyIff(doc: Document, p: Pred)
    ensures Find(doc, p) == [] <==> forall i :: 0 <= i < |doc| ==> !Matches(p, doc[i])
  {
    if doc != [] {
      FindEmptyIff(doc[1..], p);
      forall i | 0 < i < |doc| ensures doc[i] == doc[1..][i - 1] { }
    }
  }

  /**
   * The positions of the matching nodes of `doc` from position `lo` on, in
   * increasing order: an independent description of what `Find` selects.
   */
  function MatchIndices(doc: Document, p: Pred, lo: nat): (r: seq<nat>)
    requires lo <= |doc|
    ensures forall k :: 0 <= k < |r| ==> lo <= r[k] < |doc|
    decreases |doc| - lo
  {
    if lo == |doc| then []
    else if Matches(p, doc[lo]) then [lo] + MatchIndices(doc, p, lo + 1)
    else MatchIndices(doc, p, lo + 1)
  }

  /**
   * The matching positions are strictly increasing, and contain a position
   * exactly when the node there matches.
   */
  lemma {:induction false} MatchIndicesSound(doc: Document, p: Pred, lo: nat)
    requires lo <= |doc|
    ensures forall j, k :: 0 <= j < k < |MatchIndices(doc, p, lo)| ==>
              MatchIndices(doc, p, lo)[j] < MatchIndices(doc, p, lo)[k]
    ensures forall i :: lo <= i < |doc| ==> (i in MatchIndices(doc, p, lo) <==> Matches(p, doc[i]))
    decreases |doc| - lo
  {
    if lo < |doc| {
      MatchIndicesSound(doc, p, lo + 1);
    }
  }

  /**
   * `Find` picks exactly the nodes at the matching positions, in increasing
   * position order: its `k`-th result is the node at the `k`-th matching index.
   */
  lemma {:induction false} FindSelectsMatchIndices(doc: Document, p: Pred, lo: nat)
    requires lo <= |doc|
    ensures |Find(doc[lo..], p)| == |MatchIndices(doc, p, lo)|
    ensures forall k :: 0 <= k < |MatchIndices(doc, p, lo)| ==>
              Find(doc[lo..], p)[k] == doc[MatchIndices(doc, p, lo)[k]]
    decreases |doc| - lo
  {
    if lo < |doc| {
      FindSelectsMatchIndices(doc, p, lo + 1);
      var idx, rest := MatchIndices(doc, p, lo), MatchIndices(doc, p, lo + 1);
      var found, later := Find(doc[lo..], p), Find(doc[lo + 1..], p);
      assert doc[lo..][0] == doc[lo] && doc[lo..][1..] == doc[lo + 1..];
      if Matches(p, doc[lo]) {
        assert idx == [lo] + rest;
        assert found == [doc[lo]] + later;
        forall k | 0 < k < |idx| ensures found[k] == doc[idx[k]] {
          assert found[k] == later[k - 1] && idx[k] == rest[k - 1];
        }
      } else {
        assert idx == rest && found == later;
      }
    }
  }

  /** A predicate that implies another selects a subsequence of what the other selects. */
  lemma {:induction false} FindNarrows(doc: Document, p: Pred, q: Pred)
    requires forall i :: 0 <= i < |doc| ==> Matches(p, doc[i]) ==> Matches(q, doc[i])
    ensures IsSubsequence(Find(doc, p), Find(doc, q))
  {
    if doc != [] {
      forall i | 0 <= i < |doc[1..]| ensures Matches(p, doc[1..][i]) ==> Matches(q, doc[1..][i]) {
        assert doc[1..][i] == doc[i + 1];
      }
      FindNarrows(doc[1..], p, q);
      if Matches(p, doc[0]) {
        assert Find(doc, p) == [doc[0]] + Find(doc[1..], p);
        assert Find(doc, q) == [doc[0]] + Find(doc[1..], q);
      } else if Matches(q, doc[0]) {
        var s := Find(doc, p);
        var t := Find(doc, q);
        assert t == [doc[0]] + Find(doc[1..], q);
        SkipHeadKeepsSubsequence(s, t);
      }
    }
  }
}
