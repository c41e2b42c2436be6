/**
 * The scraper program: the query selection `find_element_by_attr` and the
 * outcome dispatch of `main` that feeds it the fetched page.
 *
 * Printing is modelled by returning the printed lines, in order, as `out`
 * (each line without its trailing newline). The network round trip is an
 * input, `FetchOutcome`, since the HTTP client is not part of this model.
 */
module Scraper {
  import opened Wrappers
  import opened Select

  /** An error of the HTTP client (`reqwest::Error`), kept only as its description. */
  datatype HttpClientError = HttpClientError(description: string)

  /** The numbers a `reqwest::StatusCode` can hold. */
  type StatusNumber = c: int | 100 <= c <= 999 witness 200

  /**
   * A `reqwest::StatusCode`: its number, and the text its `Display` prints
   * (the number and the canonical reason phrase), which is taken as given.
   */
  datatype StatusCode = StatusCode(code: StatusNumber, display: string)

  /** `StatusCode::is_success`: a 2xx status. */
  predicate IsSuccess(s: StatusCode)
  {
    200 <= s.code <= 299
  }

  /** The program's error type `MyError`. */
  datatype MyError =
    | AttrError(message: string)
    | HttpError(status: StatusCode)
    | ReqwestError(cause: HttpClientError)

  /** The predicate chosen from the attribute arguments, `MyPredicate`. */
  datatype MyPredicate =
    | OnlyName(tag: string)
    | WithAttr(attrName: string, attrValue: string)

  /** The message of the error for a half-given attribute. */
  const PartialAttrMessage: string :=
    "Either both or neither of attr_name and attr_value should be provided."

  /** What precedes a matched element's text on its output line. */
  const ElementPrefix: string := "Element: "

  /** What precedes the status on the line printed for a failed request. */
  const ErrorPrefix: string := "Error: "

  /** The query `main` runs on the fetched page. */
  const TargetTag: string := "h1"
  const TargetAttrName: Option<string> := None
  const TargetAttrValue: Option<string> := Some("entry-title")

  /**
   * The validation step: an attribute query needs both its name and its
   * value; a tag-only query needs neither.
   */
  function ChoosePredicate(tagName: string, attrName: Option<string>, attrValue: Option<string>)
    : (r: Result<MyPredicate, MyError>)
    ensures r.Err? <==> attrName.Some? != attrValue.Some?
    ensures r.Err? ==> r.error == AttrError(PartialAttrMessage)
    ensures attrName.None? && attrValue.None? ==> r == Ok(OnlyName(tagName))
    ensures attrName.Some? && attrValue.Some? ==> r == Ok(WithAttr(attrName.value, attrValue.value))
  {
    match (attrName, attrValue)
    case (Some(name), Some(value)) => Ok(WithAttr(name, value))
    case (Some(_), None) => Err(AttrError(PartialAttrMessage))
    case (None, Some(_)) => Err(AttrError(PartialAttrMessage))
    case (None, None) => Ok(OnlyName(tagName))
  }

  /**
   * The predicate the document is searched with: the name predicate itself,
   * or the name predicate of `tagName` and-ed with the attribute predicate.
   */
  function TraversalPredicate(tagName: string, chosen: MyPredicate): (p: Pred)
    ensures chosen.OnlyName? ==>
              forall n: Node :: Matches(p, n) <==> n.Element? && n.name == chosen.tag
    ensures chosen.WithAttr? ==>
              forall n: Node :: Matches(p, n) <==>
                n.Element? && n.name == tagName &&
                chosen.attrName in n.attrs && n.attrs[chosen.attrName] == chosen.attrValue
  {
    match chosen
    case OnlyName(t) => Name(t)
    case WithAttr(a, v) => And(Name(tagName), Attr(a, v))
  }

  /** The lines printed for the given matched nodes, one per node, in order. */
  function Lines(nodes: seq<Node>): (r: seq<string>)
    ensures |r| == |nodes|
    ensures forall k :: 0 <= k < |r| ==> r[k] == ElementPrefix + TextOf(nodes[k])
  {
    if nodes == [] then [] else [ElementPrefix + TextOf(nodes[0])] + Lines(nodes[1..])
  }

  /** The lines one query prints on a document. */
  function QueryLines(doc: Document, p: Pred): seq<string>
  {
    Lines(Find(doc, p))
  }

  /**
   * `find_element_by_attr`: validate the attribute arguments, then walk the
   * document in order, printing one line per node the chosen predicate
   * matches. A half-given attribute is rejected before anything is printed;
   * otherwise the call succeeds, also when nothing matches.
   */
  method FindElementByAttr(tagName: string, attrName: Option<string>, attrValue: Option<string>,
                           document: Document)
    returns (result: Result<(), MyError>, out: seq<string>)
    ensures attrName.Some? != attrValue.Some? ==>
              result == Err(AttrError(PartialAttrMessage)) && out == []
    ensures attrName.None? && attrValue.None? ==>
              result == Ok(()) && out == QueryLines(document, Name(tagName))
    ensures attrName.Some? && attrValue.Some? ==>
              result == Ok(()) &&
              out == QueryLines(document, And(Name(tagName), Attr(attrName.value, attrValue.value)))
  {
    out := [];
    var chosen := ChoosePredicate(tagName, attrName, attrValue);
    if chosen.Err? {
      return Err(chosen.error), out;
    }
    match chosen.value {
      case OnlyName(t) =>
        var namePredicate := TraversalPredicate(tagName, chosen.value);
        for i := 0 to |document|
          invariant out == QueryLines(document[..i], namePredicate)
        {
          EmitStep(document, i, namePredicate);
          if Matches(namePredicate, document[i]) {
            out := out + [ElementPrefix + TextOf(document[i])];
          }
        }
      case WithAttr(a, v) =>
        var customPredicate := TraversalPredicate(tagName, chosen.value);
        for i := 0 to |document|
          invariant out == QueryLines(document[..i], customPredicate)
        {
          EmitStep(document, i, customPredicate);
          if Matches(customPredicate, document[i]) {
            out := out + [ElementPrefix + TextOf(document[i])];
          }
        }
    }
    assert document[..|document|] == document;
    result := Ok(());
  }

  /** Visiting node `i`: the lines so far grow by that node's line if it matches. */
  lemma EmitStep(doc: Document, i: nat, p: Pred)
    requires i < |doc|
    ensures QueryLines(doc[..i + 1], p) ==
              QueryLines(doc[..i], p) + (if Matches(p, doc[i]) then [ElementPrefix + TextOf(doc[i])] else [])
  {
    assert doc[..i + 1] == doc[..i] + [doc[i]];
    FindAppend(doc[..i], [doc[i]], p);
    LinesAppend(Find(doc[..i], p), Find([doc[i]], p));
  }

  /** The lines of two groups of nodes are the lines of the first, then of the second. */
  lemma LinesAppend(a: seq<Node>, b: seq<Node>)
    ensures Lines(a + b) == Lines(a) + Lines(b)
  {
  }

  /** Printing lines keeps a subsequence relation between groups of nodes. */
  lemma {:induction false} LinesKeepSubsequence(s: seq<Node>, t: seq<Node>)
    requires IsSubsequence(s, t)
    ensures IsSubsequence(Lines(s), Lines(t))
    decreases |t|
  {
    if s != [] {
      assert Lines(t)[1..] == Lines(t[1..]);
      assert Lines(s)[1..] == Lines(s[1..]);
      if s[0] == t[0] {
        LinesKeepSubsequence(s[1..], t[1..]);
      } else {
        LinesKeepSubsequence(s, t[1..]);
        SkipHeadKeepsSubsequence(Lines(s), Lines(t));
      }
    }
  }

  /**
   * What a query prints is exactly one line per matching node, in document
   * order: the `k`-th line belongs to the node at the `k`-th matching position.
   * So no more lines than nodes are printed, and every line is the element
   * prefix followed by a matching node's text.
   */
  lemma QueryLinesExactly(doc: Document, p: Pred)
    ensures |QueryLines(doc, p)| == |MatchIndices(doc, p, 0)| <= |doc|
    ensures forall k :: 0 <= k < |QueryLines(doc, p)| ==>
              QueryLines(doc, p)[k] == ElementPrefix + TextOf(doc[MatchIndices(doc, p, 0)[k]])
  {
    assert doc[0..] == doc;
    FindSelectsMatchIndices(doc, p, 0);
    FindSound(doc, p);
  }

  /** A tag-only query prints nothing exactly when no element has that tag. */
  lemma TagQueryEmptyIff(doc: Document, tagName: string)
    ensures QueryLines(doc, Name(tagName)) == [] <==>
              forall i :: 0 <= i < |doc| ==> !(doc[i].Element? && doc[i].name == tagName)
  {
    FindEmptyIff(doc, Name(tagName));
  }

  /**
   * An attribute query prints nothing exactly when no element has that tag
   * together with that attribute value.
   */
  lemma AttrQueryEmptyIff(doc: Document, tagName: string, name: string, value: string)
    ensures QueryLines(doc, And(Name(tagName), Attr(name, value))) == [] <==>
              forall i :: 0 <= i < |doc| ==>
                !(doc[i].Element? && doc[i].name == tagName && name in doc[i].attrs && doc[i].attrs[name] == value)
  {
    FindEmptyIff(doc, And(Name(tagName), Attr(name, value)));
  }

  /**
   * A tag-only query ignores attributes: two documents whose nodes agree on
   * names and texts print the same lines.
   */
  lemma {:induction false} TagQueryIgnoresAttributes(doc: Document, other: Document, tagName: string)
    requires |doc| == |other|
    requires forall i :: 0 <= i < |doc| ==> NameOf(doc[i]) == NameOf(other[i]) && TextOf(doc[i]) == TextOf(other[i])
    ensures QueryLines(doc, Name(tagName)) == QueryLines(other, Name(tagName))
  {
    if doc != [] {
      forall i | 0 <= i < |doc[1..]|
        ensures NameOf(doc[1..][i]) == NameOf(other[1..][i]) && TextOf(doc[1..][i]) == TextOf(other[1..][i])
      {
        assert doc[1..][i] == doc[i + 1] && other[1..][i] == other[i + 1];
      }
      TagQueryIgnoresAttributes(doc[1..], other[1..], tagName);
      assert NameOf(doc[0]) == NameOf(other[0]);
      LinesAppend([doc[0]], Find(doc[1..], Name(tagName)));
      LinesAppend([other[0]], Find(other[1..], Name(tagName)));
    }
  }

  /**
   * The attribute query narrows the tag query: since its predicate is the
   * name predicate and-ed with another, what it prints is a subsequence of
   * what the tag-only query for the same tag prints.
   */
  lemma AttrQueryNarrowsTagQuery(doc: Document, tagName: string, name: string, value: string)
    ensures IsSubsequence(QueryLines(doc, And(Name(tagName), Attr(name, value))),
                          QueryLines(doc, Name(tagName)))
  {
    FindNarrows(doc, And(Name(tagName), Attr(name, value)), Name(tagName));
    LinesKeepSubsequence(Find(doc, And(Name(tagName), Attr(name, value))), Find(doc, Name(tagName)));
  }

  /** The outcome of the HTTP request `main` sends. */
  datatype FetchOutcome =
    | SendFailed(sendError: HttpClientError)
    | Response(status: StatusCode, body: Result<Document, HttpClientError>)

  /**
   * The match on the query's result in `main`: every result is passed on
   * unchanged.
   */
  function ForwardFindResult(r: Result<(), MyError>): (f: Result<(), MyError>)
    ensures f == r
  {
    match r
    case Ok(u) => assert u == (); Ok(())
    case Err(AttrError(msg)) => Err(AttrError(msg))
    case Err(err) => Err(err)
  }

  /**
   * `main` after the request, for a given query: a failed send or body read
   * becomes a client error; a non-success status prints an error line and
   * becomes an HTTP error; a page that arrived is queried, and the query's
   * result is passed on.
   */
  method RunWith(fetch: FetchOutcome, tagName: string, attrName: Option<string>, attrValue: Option<string>)
    returns (result: Result<(), MyError>, out: seq<string>)
    ensures fetch.SendFailed? ==> result == Err(ReqwestError(fetch.sendError)) && out == []
    ensures fetch.Response? && !IsSuccess(fetch.status) ==>
              result == Err(HttpError(fetch.status)) && out == [ErrorPrefix + fetch.status.display]
    ensures fetch.Response? && IsSuccess(fetch.status) && fetch.body.Err? ==>
              result == Err(ReqwestError(fetch.body.error)) && out == []
    ensures fetch.Response? && IsSuccess(fetch.status) && fetch.body.Ok? ==>
              if attrName.Some? != attrValue.Some? then
                result == Err(AttrError(PartialAttrMessage)) && out == []
              else if attrName.None? then
                result == Ok(()) && out == QueryLines(fetch.body.value, Name(tagName))
              else
                result == Ok(()) &&
                out == QueryLines(fetch.body.value, And(Name(tagName), Attr(attrName.value, attrValue.value)))
  {
    match fetch
    case SendFailed(e) =>
      return Err(ReqwestError(e)), [];
    case Response(status, body) =>
      if IsSuccess(status) {
        match body
        case Err(e) =>
          return Err(ReqwestError(e)), [];
        case Ok(document) =>
          var found;
          found, out := FindElementByAttr(tagName, attrName, attrValue, document);
          result := ForwardFindResult(found);
      } else {
        out := [ErrorPrefix + status.display];
        result := Err(HttpError(status));
      }
  }

  /**
   * `main` as written: its fixed query gives the attribute value but no
   * attribute name, so every run fails, and a page that arrived always ends
   * in the attribute error with nothing printed.
   */
  method Run(fetch: FetchOutcome) returns (result: Result<(), MyError>, out: seq<string>)
    ensures result.Err?
    ensures fetch.SendFailed? ==> result == Err(ReqwestError(fetch.sendError)) && out == []
    ensures fetch.Response? && !IsSuccess(fetch.status) ==>
              result == Err(HttpError(fetch.status)) && out == [ErrorPrefix + fetch.status.display]
    ensures fetch.Response? && IsSuccess(fetch.status) && fetch.body.Err? ==>
              result == Err(ReqwestError(fetch.body.error)) && out == []
    ensures fetch.Response? && IsSuccess(fetch.status) && fetch.body.Ok? ==>
              result == Err(AttrError(PartialAttrMessage)) && out == []
  {
    result, out := RunWith(fetch, TargetTag, TargetAttrName, TargetAttrValue);
  }

  /** The attribute name that the fixed query's value `entry-title` belongs to. */
  const IntendedAttrName: Option<string> := Some("class")

  /**
   * `main` with the fixed query completed to `h1` elements whose `class` is
   * `entry-title`: a page that arrived now succeeds and prints one line per
   * such element, in document order; the failure paths are unchanged.
   */
  method RunCorrected(fetch: FetchOutcome) returns (result: Result<(), MyError>, out: seq<string>)
    ensures result.Ok? <==> fetch.Response? && IsSuccess(fetch.status) && fetch.body.Ok?
    ensures fetch.SendFailed? ==> result == Err(ReqwestError(fetch.sendError)) && out == []
    ensures fetch.Response? && !IsSuccess(fetch.status) ==>
              result == Err(HttpError(fetch.status)) && out == [ErrorPrefix + fetch.status.display]
    ensures fetch.Response? && IsSuccess(fetch.status) && fetch.body.Err? ==>
              result == Err(ReqwestError(fetch.body.error)) && out == []
    ensures fetch.Response? && IsSuccess(fetch.status) && fetch.body.Ok? ==>
              out == QueryLines(fetch.body.value, And(Name("h1"), Attr("class", "entry-title")))
  {
    result, out := RunWith(fetch, TargetTag, IntendedAttrName, TargetAttrValue);
  }
}
