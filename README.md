# Text annotation pipeline of snort's `Text` element, in Dafny

The `Text` component of snort (a Nostr web client) renders the body of a
post. Before anything is drawn, a small pure pipeline annotates the text:

* four passes, run in the fixed order mentions, links, invoices, hashtags.
  Each pass splits every plain string of a fragment sequence with a regular
  expression. It turns the pieces that a classifier accepts into typed
  elements, leaves every non-string fragment alone, and flattens the result
  one level;
* a reference resolver for the mention pass. It finds the leftmost
  `#[digits]` in a piece, reads the digits as an index, takes the *first*
  tag with that index and turns it into a mention (`p`), a note link (`e`)
  or a hashtag (`t`). An unknown key, a missing tag or an absent tag list
  gives an error marker that shows the match followed by `?`;
* the paragraph and list-item renderers. A paragraph keeps its `p` wrapper
  only when the result is all plain strings; a list item always wraps;
* `disableMarkdownLinks`, a markdown-tree visitor. Every link-like node below
  the root (link, linkReference, image, imageReference, definition) that the
  traversal reaches, that is one not inside an already demoted node, becomes
  a `text` node holding its verbatim source slice. A final `)` gets a space
  before it, and the node's children are skipped.

Modules, one per component:

| file | module | contents |
|---|---|---|
| `wrappers.dfy` | `Wrappers` | `Option` for `undefined`-able values |
| `strings.dfy` | `Strings` | `startsWith`, ASCII `toLowerCase`, `substring(0, n)`, `slice`, concatenation |
| `fragments.dfy` | `Fragments` | `Element`, `Frag`, the generic pass (`map` + `flat`) and its laws |
| `references.dfy` | `References` | the `#[digits]` finder, `parseInt`, first-tag lookup, key dispatch |
| `pipeline.dfy` | `Pipeline` | the four passes, `transformText`, the block renderers, the `a` renderer |
| `markdown.dfy` | `Markdown` | the visitor callback as a method on a mutable node, and the tree rewrite |

The four `split` regexes (`UrlRegex`, `MentionRegex`, `InvoiceRegex`,
`HashtagRegex`) are not part of this model. They are fields of type
`string -> seq<string>` of a `Context`. Statements about text round trips
assume `Lossless(split)`, which says the pieces concatenate back to the input.
The foreign helpers `hexToBech32` and `eventLink` are function fields of
`Util`.

The callback of `disableMarkdownLinks` changes the node it is given in place.
It is modelled as `MdastNode.Visit`, a method on a class with the node's
mutable fields, proved against the function `Intercept`. The traversal
(`unist-util-visit`: preorder, `SKIP` stops the descent) is the recursive
rewrite `Demote` over node values, and it calls the same `Intercept`.

Behaviours of the code worth knowing, each stated by a member of the model:

* Running the link demotion twice is not a no-op on the tree. A demoted
  node keeps its `children`, and `visit` descends into the children of any
  node it does not skip, including a `text` node. A second run therefore
  demotes an image nested inside a demoted link
  (`SecondRunReachesRetainedChildren`). Rendering ignores a text node's
  children, so what is shown does not change (`DemoteTreeTwiceRendersSame`).
* The placeholder regex is not anchored. A piece such as `see #[5]` is
  resolved through its leftmost match, and the error marker then shows only
  `#[5]?` (`UnresolvedInsidePiece`).
* The lookup takes the first tag with the index (`FindTag`, `ResolveIndex`).
* Only nodes with a parent and a numeric index are demoted, so the root never
  is (`Intercept`).

## Model

| member | source | states |
|---|---|---|
| Fragments.Pass | src/Element/Text.tsx:36-48 | the `map` over fragments followed by `flat()`; its contract is carried by the lemmas `PassAppend`, `PassKeepsElements`, `PassAroundElement`, `PassOrigin` and `PassPreservesText` below |
| Fragments.PassAppend | src/Element/Text.tsx:35-48 | a pass works fragment by fragment: on `a + b` it returns the pass on `a` followed by the pass on `b` (the one-level flatten of the per-fragment results) |
| Fragments.PassKeepsElements | src/Element/Text.tsx:45-46 | a fragment sequence without strings comes back unchanged |
| Fragments.PassAroundElement | src/Element/Text.tsx:36-48 | in every one of the four passes (the same shape recurs at 52-86, 89-103 and 106-120), a non-string fragment keeps its relative position; only the fragments around it are processed |
| Fragments.PassOrigin | src/Element/Text.tsx:36-48 | in every one of the four passes (the same shape recurs at 52-86, 89-103 and 106-120), every output fragment is either a non-string input fragment or the annotation of a piece of a split input string |
| Fragments.PassPreservesText | src/Element/Text.tsx:36-48 | for any of the four passes (the same shape recurs at 52-86, 89-103 and 106-120), with a lossless splitter and an annotation that remembers its piece, reading elements back as their source spans reproduces the input text |
| Strings.StartsWith | src/Element/Text.tsx:40 | `startsWith(prefix)`, case-sensitive: the prefix fits and the string's first characters are the prefix; its use at lines 40, 94 and 111 is pinned down by `LinkPiece`, `InvoicePiece` and `HashtagPiece` |
| Strings.Lower | src/Element/Text.tsx:94 | `toLowerCase()` for ASCII, keeping the length; its effect on the prefixes the passes test is stated by `InvoiceIgnoresCase` (the first four characters, either case) and `HashtagPiece` (`#` has no case) |
| Strings.Take | src/Element/Text.tsx:66 | `substring(0, 12)` keeps the first min(12, length) characters |
| Strings.Slice | src/Element/Text.tsx:170 | `slice(start, end)` is the substring between the offsets when they are in order and in range, the rest of the string from start when end is past the end, and empty when start is not before end or is past the end of the string |
| References.FindReference | src/Element/Text.tsx:56 | returns the leftmost span matching `#[` digits `]`, and nothing exactly when the piece has no such span |
| References.ParseDigits | src/Element/Text.tsx:58 | `parseInt` on a digit string; stated by `ParseShow` and `ParseLeadingZero` |
| References.ParseShow | src/Element/Text.tsx:58 | `parseInt` of the decimal numeral of n gives n back |
| References.ParseLeadingZero | src/Element/Text.tsx:58 | a leading zero does not change the parsed index |
| References.FindTag | src/Element/Text.tsx:59 | returns the position of the first tag whose index equals n, and nothing exactly when no tag has it |
| References.ResolveTag | src/Element/Text.tsx:61-78 | key `p` gives a mention of the pubkey or `""`; `t` a hashtag of the payload or `""`; `e` a note link whose caption is `#` and the first min(12, length) characters of the encoded id, targeting `eventLink(event or "")`; any other key an error marker showing the match and `?` |
| References.ResolveIndex | src/Element/Text.tsx:59-78 | absent tags or no tag with the index give an error marker showing the match and `?`; otherwise the first tag with that index decides |
| References.ResolvePiece | src/Element/Text.tsx:55-81 | a piece stays the same plain string exactly when it holds no `#[digits]`; otherwise it becomes the element its leftmost match resolves to |
| References.PlaceholderResolves | src/Element/Text.tsx:56-60 | the placeholder `#[n]` on its own resolves through the first tag with index n |
| References.UnresolvedInsidePiece | src/Element/Text.tsx:56-78 | `see #[5]` with an empty tag list becomes the error marker `#[5]?`: the unanchored match, not the whole piece |
| Pipeline.ExtractMentions | src/Element/Text.tsx:51-87 | the pass with the mention splitter and `ResolvePiece`; stated by `MentionsLeaveNoReference` and, through `Pass`, by the `Fragments` lemmas |
| Pipeline.ExtractLinks | src/Element/Text.tsx:35-49 | the pass with the URL splitter and `LinkPiece`; stated by `LinksLeaveNoUrl` and `LaterPassesPreserveText` |
| Pipeline.ExtractInvoices | src/Element/Text.tsx:89-104 | the pass with the invoice splitter and `InvoicePiece`; stated by `InvoicesLeaveNoInvoice` and `LaterPassesPreserveText` |
| Pipeline.ExtractHashtags | src/Element/Text.tsx:106-121 | the pass with the hashtag splitter and `HashtagPiece`; stated by `HashtagsLeaveNoHash` and `LaterPassesPreserveText` |
| Pipeline.TransformText | src/Element/Text.tsx:136-142 | mentions, then links, invoices and hashtags; stated by `TransformTextAppend`, `MentionElementsSurvive`, `TransformTextResolvesAllReferences`, `PlainTextUnchanged` and `ScenarioMentionAndLink` |
| Pipeline.RenderAnchor | src/Element/Text.tsx:147 | the `a` renderer; stated by `AnchorMatchesLinkPass` |
| Pipeline.LinkPiece | src/Element/Text.tsx:39-44 | a piece becomes a hyperlink to itself, with the post's author, exactly when it starts with `http` (case-sensitive); otherwise it is returned verbatim |
| Pipeline.InvoicePiece | src/Element/Text.tsx:93-98 | a piece becomes an invoice exactly when its lower-case form starts with `lnbc`; the invoice keeps the piece as written |
| Pipeline.InvoiceIgnoresCase | src/Element/Text.tsx:94 | the invoice test accepts exactly the pieces whose first four characters are l, n, b, c in either case |
| Pipeline.HashtagPiece | src/Element/Text.tsx:110-115 | a piece becomes a hashtag exactly when its first character is `#`, and the tag is the piece without exactly that character |
| Pipeline.LinksLeaveNoUrl | src/Element/Text.tsx:35-48 | no plain string the link pass returns starts with `http` |
| Pipeline.InvoicesLeaveNoInvoice | src/Element/Text.tsx:89-103 | no plain string the invoice pass returns starts with `lnbc` in any case |
| Pipeline.HashtagsLeaveNoHash | src/Element/Text.tsx:106-120 | no plain string the hashtag pass returns starts with `#` |
| Pipeline.MentionsLeaveNoReference | src/Element/Text.tsx:51-87 | no plain string the mention pass returns still holds a `#[digits]` |
| Pipeline.TransformTextAppend | src/Element/Text.tsx:136-142 | `transformText` over concatenated children is the concatenation of its results |
| Pipeline.LaterPassesKeepElement | src/Element/Text.tsx:137-140 | the link, invoice and hashtag passes keep an element in its place and never split it again |
| Pipeline.MentionElementsSurvive | src/Element/Text.tsx:136-142 | every element the mention pass produces appears unchanged in the output of `transformText`, between the results for what precedes and follows it |
| Pipeline.LaterPassesPreserveText | src/Element/Text.tsx:138-140 | with lossless splitters, the link, invoice and hashtag passes keep the text in order: hyperlinks and invoices read back as themselves, hashtags as `#` and the tag |
| Pipeline.TransformTextResolvesAllReferences | src/Element/Text.tsx:136-142 | with lossless later splitters, no plain string handed to the hashtag pass holds a `#[digits]`, and no plain string in the output of `transformText` does either: every placeholder went through the resolver, none is left for the hashtag pattern |
| Pipeline.PlainTextUnchanged | src/Element/Text.tsx:128-142 | text that no regex splits and no classifier accepts comes out as the same single string, wrapped in `p` |
| Pipeline.TransformParagraph | src/Element/Text.tsx:128-134 | holds the output of `transformText`, and is a `p` exactly when every fragment is a plain string, a bare group otherwise |
| Pipeline.TransformLi | src/Element/Text.tsx:123-126 | always a list item holding the output of `transformText` |
| Pipeline.AnchorMatchesLinkPass | src/Element/Text.tsx:147 | the `a` renderer gives the same hyperlink element as the URL pattern does for an `http` href |
| Pipeline.ScenarioMentionAndLink | src/Element/Text.tsx:51-120 | `hello #[0] check https://example.com` with tag 0 a person becomes text, mention, text, hyperlink and a trailing empty string, in order; the empty string is the last piece of the URL split, as JavaScript `split` returns when a capturing match ends the string |
| Markdown.SpaceTrailingParen | src/Element/Text.tsx:170 | a final `)` gets exactly one space inserted before it; any other string is unchanged |
| Markdown.Intercept | src/Element/Text.tsx:159-172 | the visitor skips exactly the nodes with a parent, a numeric index and a link-like type, which become `text` holding their source slice; every other node is left as it is |
| Markdown.MdastNode.Visit | src/Element/Text.tsx:158-173 | the in-place callback leaves the node with exactly the type, value and position that `Intercept` gives, and returns its action (`SKIP` exactly when the node was demoted) |
| Markdown.Demote | src/Element/Text.tsx:158 | `visit` from one node: the callback, then the children unless it returned `SKIP`; stated by `DemoteTreeRewritesExactly`, `DemoteTreeRendersNoLink` and `DemoteTreeTwiceRendersSame` |
| Markdown.DemoteTree | src/Element/Text.tsx:158-173 | `visit` from the root, which has no parent and no index; stated by the same three lemmas |
| Markdown.DemoteTreeRewritesExactly | src/Element/Text.tsx:158-172 | of the nodes the traversal reaches, exactly those below the root with a link-like type become `text` with their source slice and keep their children untouched; all others keep type, value and position |
| Markdown.DemoteTreeRendersNoLink | src/Element/Text.tsx:162-171 | after the rewrite, no rendered node below the root is a link, image or definition |
| Markdown.DemoteTreeTwiceRendersSame | src/Element/Text.tsx:158-172 | a second run changes nothing that is rendered |
| Markdown.SecondRunReachesRetainedChildren | src/Element/Text.tsx:168-171 | a second run does change the tree when a link contains an image, because demoted nodes keep their children |
| Markdown.InlineLinkBecomesText | src/Element/Text.tsx:170 | `[a link](http://x.test/)` in a paragraph becomes the text `[a link](http://x.test/ )` |

## Left out

- React and JSX: elements are datatype values. Keys, CSS, the `style` of the error marker, `Link` and its `stopPropagation` click handler are not modelled.
- The regexes `UrlRegex`, `MentionRegex`, `InvoiceRegex` and `HashtagRegex` are not part of this model. Nor are the capture-group rules of JavaScript `split`. Each splitter is an abstract function; text round trips are stated only for lossless splitters.
- `hexToBech32`, `eventLink` and `unwrap` are not part of this model. The first two are abstract functions. A missing node position, where `unwrap` would throw, is a precondition.
- Fragments.PassPreservesText: no text round trip is stated for the mention pass, because a mention or note link does not carry the text of its placeholder.
- The `react-markdown` parser and `unist-util-visit` are not part of this model. The tree is a small node datatype, and the traversal is the recursive `Demote` over values.
- Markdown.Demote: the rewrite of the whole tree works on node values. Mutating shared node objects during the traversal is modelled only for the single node the callback receives (`MdastNode.Visit`).
- Markdown.MdastNode.Visit: the source assigns `type = "text"` before `unwrap` can throw. The state after that throw is not modelled, because a missing position is a precondition.
- A link node's absent `value` is the empty string in this model.
- `useMemo` and `useCallback`: memoization only, keyed on `content` alone.
- The `users` map of a text fragment: no pass reads it.
- `parseInt` precision above 2^53: the index is an unbounded natural number.
- Character positions: a Dafny `string` holds Unicode scalar values, while `slice`, `substring(0, 12)` and the parser's offsets count UTF-16 code units. The model counts characters, so it does not capture text outside the Basic Multilingual Plane, where the two counts differ.
- `toLowerCase` beyond ASCII: case folding covers `A`-`Z` only.
- `flat()` also splices a non-string fragment that is itself an array. Every non-string fragment is atomic here.
- The `p` and `li` entries of the component map are not modelled separately. They only default missing children to an empty list before calling `transformParagraph` and `transformLi`.
