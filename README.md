# find_by_attribute, modelled in Dafny

The program is a one-page scraper. It fetches one page over HTTP and parses it
with the `select` crate. It then prints the text of every element with a given
tag, optionally narrowed to elements whose given attribute has a given value.
Its core is `find_element_by_attr` in `src/main.rs`. That function first
validates the attribute arguments: both or neither must be given. It then walks
the document and prints `Element: <text>` for each matching node. This project
models that function and the dispatch in `main` that runs it on the fetched
page.

Files:

- `wrappers.dfy`, module `Wrappers`: Rust's `Option` and `Result`.
- `select.dfy`, module `Select`: the parts of the `select` crate that the
  program uses. A document is its list of nodes in document order. A node is
  an element (tag name, attribute map, text), a text node or a comment.
  `Name`, `Attr` and `and` are a predicate datatype, `Matches` says which
  nodes each predicate accepts, and `Find` is `document.find`, which filters
  nodes in order. The module also has lemmas about `Find`: it selects exactly
  the matching positions, an implied predicate selects a subsequence, and the
  result is empty exactly when nothing matches.
- `scraper.dfy`, module `Scraper`: `MyError` and `MyPredicate`, the validation
  table (`ChoosePredicate`) and the traversal predicate. It has
  `FindElementByAttr`, a method with one `for` loop per predicate variant, as
  in the source. Each loop appends one output line per matching node. The
  module also has the dispatch of `main` over an abstract fetch outcome.

Printing is modelled as the method's output `out`, a sequence of lines. The
HTTP round trip is an input value, `FetchOutcome`. It is a failed send, or a
response with a status and a body that either failed to read or parsed into a
document.

Modelling assumptions about the `select` crate, whose source is not part of
this model:

- `Name(t)` matches a node whose name is exactly `t`. Only elements have names.
- `Attr(n, v)` matches an element whose attribute `n` is present and equal to
  `v` as a whole string. This is not class-token matching.
- `find` visits every node once, in document order.
- An element's `text()` is an opaque string stored on the element.

The reference definitions the contracts below are stated against carry no
contract of their own, so they have no row in the table: `Select.Find`
(`document.find`, src/main.rs:29 and 35), `Select.Matches`
(`Predicate::matches` for `Name`, `Attr` and `and`, src/main.rs:29-35),
`Select.TextOf` (`node.text()`, src/main.rs:30 and 36), `Scraper.QueryLines`
(the lines one query prints, src/main.rs:29-31 and 35-37) and
`Scraper.IsSuccess` (`is_success`, src/main.rs:52). Their properties are
proved in the lemmas the table lists.

Determinism: `FindElementByAttr` takes the document as a value and cannot
change it. Its postconditions fix `result` and `out` as functions of the
arguments. So two calls with the same arguments give the same lines and the
same result.

## Model

| member | source | states |
|---|---|---|
| `Scraper.ChoosePredicate` | src/main.rs:19-25 | the validation table. Exactly one of name and value given is an error, and the error is `AttrError` with the fixed message. Both absent gives `OnlyName(tag)`. Both present gives `WithAttr(name, value)` |
| `Scraper.TraversalPredicate` | src/main.rs:27-35 | the predicate the document is searched with. For `OnlyName(t)` it matches exactly the elements tagged `t`. For `WithAttr(n, v)` it matches exactly the elements tagged with the query's tag whose attribute `n` equals `v` |
| `Scraper.Lines` | src/main.rs:30-36 | one output line per matched node, in order. Line `k` is `"Element: "` followed by the text of node `k` |
| `Scraper.FindElementByAttr` | src/main.rs:18-42 | a half-given attribute returns `AttrError` with the fixed message and prints nothing. Otherwise the result is `Ok(())` and the printed lines are those of the tag query, or those of the tag-and-attribute query, over the whole document. The loop invariant: the lines printed so far are those of the nodes visited so far |
| `Scraper.EmitStep` | src/main.rs:29-37 | visiting one more node adds that node's line exactly when it matches |
| `Scraper.LinesKeepSubsequence` | src/main.rs:30-36 | turning nodes into lines keeps a subsequence relation |
| `Scraper.QueryLinesExactly` | src/main.rs:29-37 | a query prints exactly one line per matching node, in document order. Line `k` is the prefix plus the text of the node at the `k`-th matching position, so there are never more lines than nodes |
| `Scraper.TagQueryEmptyIff` | src/main.rs:28-31 | the tag query prints nothing if and only if no element has that tag |
| `Scraper.AttrQueryEmptyIff` | src/main.rs:33-37 | the attribute query prints nothing if and only if no element has both the tag and the attribute value |
| `Scraper.TagQueryIgnoresAttributes` | src/main.rs:28-31 | two documents whose nodes agree on names and texts give the same output lines for the tag query, whatever their attributes |
| `Scraper.AttrQueryNarrowsTagQuery` | src/main.rs:34 | the attribute query's lines are a subsequence of the tag query's lines for the same tag |
| `Scraper.ForwardFindResult` | src/main.rs:57-63 | the match on the query's result passes every result on unchanged |
| `Scraper.RunWith` | src/main.rs:44-68 | a failed send returns `ReqwestError` and prints nothing. A non-success status prints `"Error: "` plus the status and returns `HttpError(status)`. A failed body read returns `ReqwestError`. A parsed page returns what the query returns and prints what the query prints |
| `Scraper.Run` | src/main.rs:44-68 | `main` as written always fails. On a parsed page it returns `AttrError` with the fixed message and prints nothing, because the fixed query has a value and no name. The other paths behave as for `RunWith` |
| `Scraper.RunCorrected` | src/main.rs:55 | with the attribute name `class` added to the fixed query, the program succeeds exactly when a page arrives. It then prints the lines of the `h1` elements whose `class` is `entry-title` |
| `Select.FindSound` | src/main.rs:29-35 | `document.find` returns no more nodes than the document has. Every node it returns matches and comes from the document, and the result is a subsequence of the document |
| `Select.FindAppend` | src/main.rs:29-35 | searching a concatenation gives the results for the first part followed by those for the second |
| `Select.FindEmptyIff` | src/main.rs:27-41 | the search result is empty if and only if no node matches. An empty result is not an error |
| `Select.MatchIndices` | src/main.rs:29-35 | the positions of the matching nodes, each within the document from the starting position on |
| `Select.MatchIndicesSound` | src/main.rs:29-35 | the matching positions are strictly increasing and include a position if and only if the node there matches |
| `Select.FindSelectsMatchIndices` | src/main.rs:29-35 | result `k` of the search is the node at the `k`-th matching position, and there are as many results as matching positions |
| `Select.FindNarrows` | src/main.rs:34 | if one predicate implies another on every node, its results are a subsequence of the other's |
| `Select.SubsequenceOfTail` | src/main.rs:34 | removing the first element of a subsequence leaves a subsequence |
| `Select.SkipHeadKeepsSubsequence` | src/main.rs:34 | a subsequence of a sequence's tail is a subsequence of the whole sequence |

## Left out

- The HTTP request (src/main.rs:45-51: the URL, the client, the User-Agent header and `send`) is network I/O. Its outcome is the input `FetchOutcome`.
- Reading the body (`response.text()`) and parsing it (`Document::from`) are modelled only by their outcome: a client error, or a parsed document.
- `reqwest::Error` is reduced to a description string. A `reqwest::StatusCode` is its number (100 to 999) and the text its `Display` prints. That text comes from the http crate and is taken as given.
- The `select` crate's tree, its `find` iterator and `node.text()` are not part of this model. The document is a flat node list and each element carries its text.
- The Rust runtime prints the `Err` that `main` returns to standard error and exits with a failure status. The model stops at the value `main` returns.
- A second copy of the program, with one generic error tag, is not part of this model.
- Whitespace handling of element text is not modelled, because the text is opaque.

## Findings

| source | as written | input that shows it | evidently intended | confidence | as-written member | corrected member |
|---|---|---|---|---|---|---|
| src/main.rs:55 | `main` queries with `("h1", None, Some("entry-title"))`: a value without an attribute name. | any fetch whose status is 2xx and whose body reads: the query fails with `AttrError` and nothing is printed | the `h1` elements whose `class` is `entry-title`, with name `Some("class")` | medium (the call at src/main.rs:55 passes a value with no name, exactly the case src/main.rs:21-22 rejects, and `entry-title` reads as a class name); not executed | `Scraper.Run` | `Scraper.RunCorrected` |
