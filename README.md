# A verified model of the medicare-presentation blog and onboarding logic

The site is a React marketing site. Almost all of it is layout. Four pieces of
logic are modelled here, in Dafny, and properties of them are proved.

- **`parseMarkdown`** turns a blog post's markdown body into HTML in three phases:
  - it trims the input and escapes `&`, `<` and `>`;
  - a line-by-line block scan over the flags `inList`, `listType` and `inParagraph` makes headings, lists and paragraphs;
  - three global regular-expression replacements make bold, italic and inline code.
- **The blog post queries** work over the constant post array: lookup by slug, filter by category, the distinct category list and the most recent posts.
- **The listing page's `filteredPosts`**: an optional category match, AND a case-insensitive substring search over title, excerpt and tags.
- **The onboarding wizard**: two steps, a persona and a language selection, and the handlers that move between steps and report the choice through `onComplete`.

Modules:

| file | module | models |
|---|---|---|
| `wrappers.dfy` | `Wrappers` | `Option` |
| `js_string.dfy` | `JsString` | these JS string operations as ECMAScript defines them: `trim`, `startsWith`, global single-character `replace`, `split`/`join` on one character, ASCII `toLowerCase`, `includes`, string `<` |
| `seqs.dfy` | `Seqs` | `find`, `filter`, `[...new Set(xs)]` and `slice(0, count)` on sequences |
| `markdown_escape.dfy` | `MarkdownEscape` | the escape phase |
| `markdown_blocks.dfy` | `MarkdownBlocks` | the block scan: the `ProcessLine` and `BlockPhase` methods, the reference functions `Step`/`ScanFrom`/`BlockFragments`, and a balance checker `WalkFrom` |
| `markdown_inline.dfy` | `MarkdownInline` | the three replacement passes, as leftmost, non-overlapping scanners that resume after each match; also the `Safe` predicate ("every `<` begins one of the given tags") |
| `markdown.dfy` | `Markdown` | `ParseMarkdown` as a whole, the safety theorem, and whole-document examples |
| `blog_posts.dfy` | `BlogData` | the `BlogPost` record, the seven shipped posts and the four queries |
| `blog_listing.dfy` | `BlogListing` | `filteredPosts` |
| `wizard.dfy` | `Onboarding` | the `Wizard` class |

The central result concerns `ParseMarkdown`.
- Its output equals `Render(content)`, the composition of the reference definitions of the phases.
- In that output, every `<` begins one of the parser's own 18 tags.
- So no `<script` can appear in it, whatever the post contains.

The block phase is proved to produce balanced markup:
- every container it opens is closed;
- no two containers are open at once;
- nothing is left open at the end.

The post array is modelled without the post bodies (see Left out).

## Model

| member | source | states |
|---|---|---|
| MarkdownEscape.EscapeHtml | src/react-app/utils/markdownParser.ts:11-14 | no `<` or `>` is left after escaping; text without `&`, `<`, `>` is returned unchanged |
| MarkdownEscape.EscapeHtmlIsPerCharacter | src/react-app/utils/markdownParser.ts:11-14 | because `&` is replaced first, the chain equals escaping each character on its own, so `<` becomes exactly `&lt;` and no entity the chain produces is escaped again |
| MarkdownEscape.EscapeHtmlConcat | src/react-app/utils/markdownParser.ts:11-14 | escaping distributes over concatenation |
| MarkdownEscape.UnescapeEscapeHtml | src/react-app/utils/markdownParser.ts:11-14 | decoding the three entities recovers the input exactly, so escaping loses nothing |
| MarkdownEscape.EscapeTag | src/react-app/utils/markdownParser.ts:11-14 | a tag such as `<script>` in the input comes out as the text `&lt;script&gt;` |
| MarkdownEscape.EscapeEntityAgain | src/react-app/utils/markdownParser.ts:12 | an entity already present in the input is escaped again (`&lt;` becomes `&amp;lt;`) |
| JsString.Trim | src/react-app/utils/markdownParser.ts:8 | the result is empty exactly when the input is all whitespace; otherwise it neither starts nor ends with whitespace |
| JsString.TrimInfix | src/react-app/utils/markdownParser.ts:8 | the input is a blank prefix, then the trimmed text, then a blank suffix |
| JsString.SplitJoin | src/react-app/utils/markdownParser.ts:17 | splitting the `'\n'`-join of newline-free pieces gives back the pieces |
| JsString.JoinSplit | src/react-app/utils/markdownParser.ts:131 | joining the `'\n'`-split of a string gives back the string |
| JsString.TrimKeepsInfix | src/react-app/utils/markdownParser.ts:8 | a piece that neither starts nor ends with whitespace survives trimming whole |
| JsString.SplitKeepsInfix | src/react-app/utils/markdownParser.ts:17 | a piece without `'\n'` lies whole inside one of the split lines |
| JsString.JoinKeepsPart | src/react-app/utils/markdownParser.ts:131 | every part appears whole in the join |
| MarkdownBlocks.OrderedItem | src/react-app/utils/markdownParser.ts:76 | a match of `/^(\d+)\.\s+(.+)$/` yields a non-empty body that is a suffix of the line |
| MarkdownBlocks.OrderedItemSound | src/react-app/utils/markdownParser.ts:76 | every match is digits, `.`, whitespace and a body without line terminators |
| MarkdownBlocks.OrderedItemComplete | src/react-app/utils/markdownParser.ts:76 | every line of that shape matches |
| MarkdownBlocks.OrderedItemNoSpace | src/react-app/utils/markdownParser.ts:76-77 | `1.` does not match and is paragraph text |
| MarkdownBlocks.OrderedItemOneSpace | src/react-app/utils/markdownParser.ts:76-77 | `1. ` does not match and is paragraph text |
| MarkdownBlocks.OrderedItemTwoSpaces | src/react-app/utils/markdownParser.ts:76 | `1.  ` matches with body `" "`, because `\s+` gives a space back to `.+` |
| MarkdownBlocks.OrderedItemNumeral | src/react-app/utils/markdownParser.ts:88 | the numeral is dropped: `12. Step` yields `Step` |
| MarkdownBlocks.ProcessLine | src/react-app/utils/markdownParser.ts:24-120 | one pass of the loop body: the new flags and pushed fragments are those of the reference step `Step` for the line's kind |
| MarkdownBlocks.CloseBlocks | src/react-app/utils/markdownParser.ts:28-36 | closes the open list (with the tag of its type), then the open paragraph, as the reference close steps do |
| MarkdownBlocks.OpenList | src/react-app/utils/markdownParser.ts:60-69 | closes the open paragraph, then opens a list of the item's type unless one is open, closing a list of the other type first |
| MarkdownBlocks.BlockPhase | src/react-app/utils/markdownParser.ts:17-129 | the loop and close-out compute `BlockFragments(lines)`; on lines without `<` (any escaped text) the fragments are balanced |
| MarkdownBlocks.StepConsistent | src/react-app/utils/markdownParser.ts:19-21 | each line keeps the flag invariant: `inList` exactly when `listType` is set, and never a list and a paragraph at once |
| MarkdownBlocks.ScanWalk | src/react-app/utils/markdownParser.ts:23-121 | after any prefix of lines, the fragments pushed so far leave open exactly the container the flags say is open |
| MarkdownBlocks.BlockFragmentsBalanced | src/react-app/utils/markdownParser.ts:123-129 | after the close-out, every `<ul>`, `<ol>` and `<p>` is closed by its own closing tag, containers never nest, and nothing is left open |
| MarkdownBlocks.ScanAppend | src/react-app/utils/markdownParser.ts:23 | scanning `a + b` is scanning `a`, then scanning `b` from the flags `a` left |
| MarkdownBlocks.LineKeepsInfix | src/react-app/utils/markdownParser.ts:24-120 | a line holding an entity (text that begins with `&`) is not blank, and its own fragment holds the entity whole: the dropped `## `, `### `, `- ` or numeral lead holds no `&` |
| MarkdownBlocks.ScanHolds | src/react-app/utils/markdownParser.ts:23-121 | the fragment of every line that is not blank is among the fragments the loop pushes |
| MarkdownBlocks.FragmentsKeepInfix | src/react-app/utils/markdownParser.ts:17-129 | an entity in any line lies whole inside one fragment of the block phase's output |
| MarkdownBlocks.Heading2Line | src/react-app/utils/markdownParser.ts:27-40 | a `## ` line closes any open list and paragraph, then pushes `<h2 class="article-h2">` + `line.slice(3)` + `</h2>` |
| MarkdownBlocks.Heading3Line | src/react-app/utils/markdownParser.ts:43-56 | a `### ` line does the same with `h3` and `line.slice(4)` |
| MarkdownBlocks.BlankLine | src/react-app/utils/markdownParser.ts:93-104 | a blank or whitespace-only line closes any open list and paragraph and pushes nothing else |
| MarkdownBlocks.PlainLine | src/react-app/utils/markdownParser.ts:107-120 | a text line closes an open list, then opens a paragraph, or inside one pushes `" "` before the line |
| MarkdownBlocks.BulletAfterOrdered | src/react-app/utils/markdownParser.ts:59-72 | a `- ` line in an open `<ol>` emits `</ol>`, then opens `<ul>` |
| MarkdownBlocks.OrderedAfterBullet | src/react-app/utils/markdownParser.ts:76-89 | an ordered line in an open `<ul>` emits `</ul>`, then opens `<ol>` |
| MarkdownBlocks.BulletList | src/react-app/utils/markdownParser.ts:59-72 | consecutive `- ` lines make one `<ul>` with one `<li>` per line, in order, each holding `line.slice(2)` |
| MarkdownBlocks.OrderedList | src/react-app/utils/markdownParser.ts:76-89 | consecutive ordered lines make one `<ol>` with one `<li>` per line, each holding only the captured body |
| MarkdownBlocks.Paragraph | src/react-app/utils/markdownParser.ts:113-120 | consecutive text lines make one paragraph: the first line, then `" "` and the line for each further line |
| MarkdownBlocks.TwoLineParagraph | src/react-app/utils/markdownParser.ts:118-131 | two merged lines read `line1\n \nline2` after the join |
| MarkdownInline.MatchAt | src/react-app/utils/markdownParser.ts:135-141 | a match spans the delimiter, a non-empty capture and the delimiter, within the text |
| MarkdownInline.MatchAtSound | src/react-app/utils/markdownParser.ts:135-141 | a match found is the delimiter, a capture without the excluded character, and the delimiter again |
| MarkdownInline.SubstituteSkips | src/react-app/utils/markdownParser.ts:135-141 | text without the delimiter character passes through, and scanning continues after it |
| MarkdownInline.SubstituteDelimited | src/react-app/utils/markdownParser.ts:135-141 | a delimited span becomes the pass's tags around the captured text, and scanning resumes after the span |
| MarkdownInline.SubstituteKeepsInfix | src/react-app/utils/markdownParser.ts:135-141 | a non-empty piece without the pass's delimiter character comes out of the replacement whole, between matches or inside one capture |
| MarkdownInline.BoldSpan | src/react-app/utils/markdownParser.ts:135 | `**x**` becomes `<strong class="article-strong">x</strong>`, which the later passes leave alone |
| MarkdownInline.ItalicSpan | src/react-app/utils/markdownParser.ts:138 | `*x*` becomes `<em class="article-em">x</em>` |
| MarkdownInline.CodeSpan | src/react-app/utils/markdownParser.ts:141 | `` `x` `` becomes `<code class="article-code">x</code>` |
| MarkdownInline.NoDoubleStar | src/react-app/utils/markdownParser.ts:135 | a single-star span is not touched by the bold pass |
| MarkdownInline.ItalicSkipsStrong | src/react-app/utils/markdownParser.ts:138 | the italic pass passes over a strong element |
| MarkdownInline.SubstituteSafe | src/react-app/utils/markdownParser.ts:135-141 | a pass whose tags are among the allowed tags keeps "every `<` begins an allowed tag" |
| Markdown.ParseMarkdown | src/react-app/utils/markdownParser.ts:6-144 | the method equals `Render`; every `<` in its result begins one of the parser's tags, and the result never contains `<script` |
| Markdown.AllTagsClosed | src/react-app/utils/markdownParser.ts:29-141 | none of the 18 emitted tags contains an inner `<`, a `*` or a backtick |
| Markdown.FragmentsSafe | src/react-app/utils/markdownParser.ts:23-129 | on escaped lines, every block fragment is safe |
| Markdown.RenderSafe | src/react-app/utils/markdownParser.ts:6-144 | for every input, every `<` in the output begins one of the parser's own tags |
| Markdown.RenderNoScript | src/react-app/utils/markdownParser.ts:6-144 | for every input, the output does not contain `<script` |
| Markdown.RenderKeepsTag | src/react-app/utils/markdownParser.ts:6-144 | wherever `<w>` occurs in a post, for a name `w` without `&`, `<`, `>`, newline, `*` or backtick, `&lt;w&gt;` occurs in the output |
| Markdown.RenderEscapesScript | src/react-app/utils/markdownParser.ts:11-14 | a post containing `<script>` renders to a page containing the text `&lt;script&gt;` |
| Markdown.BlocksKeepInfix | src/react-app/utils/markdownParser.ts:17-131 | an entity in the escaped text lies whole in the joined block output |
| Markdown.InlineKeepsInfix | src/react-app/utils/markdownParser.ts:135-141 | text without `*` or a backtick survives the three inline passes whole |
| Markdown.RenderHeading | src/react-app/utils/markdownParser.ts:27-40 | a document `## Title` renders as exactly `<h2 class="article-h2">Title</h2>` |
| Markdown.RenderBulletPair | src/react-app/utils/markdownParser.ts:59-72 | `- a`, `- b` render as one `<ul>` holding two `<li>`, in order |
| Markdown.RenderTwoParagraphs | src/react-app/utils/markdownParser.ts:93-120 | `line1\n\nline2` renders as two separate paragraphs |
| Markdown.RenderBoldParagraph | src/react-app/utils/markdownParser.ts:135 | a line `**x**` renders as a paragraph holding `<strong class="article-strong">x</strong>` |
| Seqs.Find | src/react-app/data/blogPosts.ts:629 | `find`: none exactly when no element passes; otherwise the first element that passes |
| Seqs.Filter | src/react-app/data/blogPosts.ts:633 | `filter`: an order-preserving subsequence holding exactly the passing elements, each with its multiplicity |
| Seqs.Distinct | src/react-app/data/blogPosts.ts:637 | `[...new Set(xs)]`: no duplicates, and the same members as the input |
| Seqs.DistinctOrder | src/react-app/data/blogPosts.ts:637 | the distinct values come in order of first occurrence |
| Seqs.SliceTo | src/react-app/data/blogPosts.ts:643 | `slice(0, count)`: a prefix of length `min(count, n)`, or `n + count` (down to 0) for a negative count |
| BlogData.GetBlogPostBySlug | src/react-app/data/blogPosts.ts:628-630 | returns none exactly when no post has the slug; otherwise the first post in array order that has it |
| BlogData.GetBlogPostsByCategory | src/react-app/data/blogPosts.ts:632-634 | exactly the posts of the category, as an order-preserving subsequence of the array |
| BlogData.GetCategories | src/react-app/data/blogPosts.ts:636-638 | every category of some post, each once, and nothing else |
| BlogData.CategoriesInOrder | src/react-app/data/blogPosts.ts:636-638 | the categories come in order of first occurrence, as a JS `Set` keeps insertion order |
| BlogData.CategoriesAre | src/react-app/data/blogPosts.ts:19-638 | for the shipped array the categories are Practice Management, Technology, Compliance, Patient Care, Mental Health |
| BlogData.DateOrderIsTextOrder | src/react-app/data/blogPosts.ts:642 | on `YYYY-MM-DD` dates, comparing the date values is comparing the strings |
| BlogData.SortByDate | src/react-app/data/blogPosts.ts:641-642 | the sort is a permutation of its input |
| BlogData.SortNewestFirst | src/react-app/data/blogPosts.ts:642 | the sort puts the newest post first |
| BlogData.SortStable | src/react-app/data/blogPosts.ts:642 | the posts of any one date keep their relative order |
| BlogData.SortKeepsNewestFirst | src/react-app/data/blogPosts.ts:642 | posts already newest first are left as they are |
| BlogData.Recent | src/react-app/data/blogPosts.ts:640-644 | the result is the first `min(count, n)` posts of the date-sorted permutation of the input for `count >= 0` (the JS length for a negative count), so it is newest first and holds only posts of the input |
| BlogData.RecentAreNewest | src/react-app/data/blogPosts.ts:641-643 | the result is a sub-multiset of the input, and no post left out is newer than a post kept |
| BlogData.RecentDistinct | src/react-app/data/blogPosts.ts:641-643 | if the input has no repeats, neither does the result |
| BlogData.GetRecentPosts | src/react-app/data/blogPosts.ts:640-644 | for the shipped array, the result has `min(count, 7)` posts for `count >= 0` (`max(7 + count, 0)` for a negative count), and they are the array's first entries |
| BlogData.RecentPostsDistinct | src/react-app/data/blogPosts.ts:640-644 | the recent posts repeat no post |
| BlogData.DefaultRecentPosts | src/react-app/data/blogPosts.ts:640 | with the default count of 3, the result is the posts with ids 7, 1 and 2 |
| BlogData.RecentPostsExcept | src/react-app/pages/BlogDetailsPage.tsx:15 | the sidebar list: at most 3 of the recent posts, in order, minus the one shown |
| BlogData.PostsDated | src/react-app/data/blogPosts.ts:19-626 | every shipped `publishedAt` has the form `YYYY-MM-DD` with a valid month and day |
| BlogData.PostsNewestFirst | src/react-app/data/blogPosts.ts:19-626 | the shipped array is already newest first |
| BlogData.PostIdsDistinct | src/react-app/data/blogPosts.ts:19-626 | no two shipped posts share an `id` |
| BlogData.PostSlugsDistinct | src/react-app/data/blogPosts.ts:19-626 | no two shipped posts share a `slug` |
| BlogListing.FilteredPosts | src/react-app/pages/BlogListingPage.tsx:15-22 | an order-preserving subsequence holding exactly the posts that match the category test and the search test |
| BlogListing.NoFiltersShowAll | src/react-app/pages/BlogListingPage.tsx:15-17 | with no category (null or empty) and an empty query, every post is shown |
| BlogListing.SelectedCategoryExact | src/react-app/pages/BlogListingPage.tsx:16 | with a category selected, every post shown has that category, and every post of it that passes the search is shown |
| BlogListing.CategoryOnly | src/react-app/pages/BlogListingPage.tsx:16-17 | with a category selected and an empty query, the list is the posts of that category, in order |
| BlogListing.CategoryOnlyIsQuery | src/react-app/pages/BlogListingPage.tsx:16 | a category with an empty query gives exactly `getBlogPostsByCategory` |
| BlogListing.SearchIff | src/react-app/pages/BlogListingPage.tsx:17-20 | with a non-empty query, a post passes exactly when the lowercased query occurs in the lowercased title, excerpt or some tag |
| BlogListing.FilterIsIntersection | src/react-app/pages/BlogListingPage.tsx:21 | the result is the category-only filter followed by the search-only filter, and its members are those of both |
| BlogListing.SearchIgnoresCase | src/react-app/pages/BlogListingPage.tsx:17-20 | two queries that lowercase alike give the same list |
| BlogListing.LowercasedQuerySame | src/react-app/pages/BlogListingPage.tsx:17-20 | a query and its lowercase form give the same list |
| Onboarding.Wizard.constructor | src/react-app/Wizard.tsx:10-12 | starts on step 1 with nothing selected and no call made |
| Onboarding.Wizard.SelectPersona | src/react-app/Wizard.tsx:14-16 | overwrites the persona only and keeps the invariants; a button's value keeps every selection among the options |
| Onboarding.Wizard.SelectLanguage | src/react-app/Wizard.tsx:18-20 | overwrites the language only and keeps the invariants |
| Onboarding.Wizard.Next | src/react-app/Wizard.tsx:22-26 | moves from step 1 to step 2 exactly when a persona is chosen; otherwise nothing changes |
| Onboarding.Wizard.Back | src/react-app/Wizard.tsx:210 | sets the step to 1 and keeps both selections |
| Onboarding.Wizard.Complete | src/react-app/Wizard.tsx:28-32 | calls `onComplete(persona, language)` exactly when both are chosen, whatever the step; no call otherwise |
| Onboarding.Wizard.Skip | src/react-app/Wizard.tsx:34-36 | always calls `onComplete("patient", "en")` and changes nothing else |
| Onboarding.ChooseAndFinish | src/react-app/Wizard.tsx:14-32 | choosing a persona and a language from the buttons, with Next between, makes exactly one call with those two values |
| Onboarding.NextWithoutPersona | src/react-app/Wizard.tsx:22-32 | with nothing chosen, Next stays on step 1 and finishing makes no call |
| Onboarding.Session | src/react-app/Wizard.tsx:10-36 | after any sequence of clicks on a fresh wizard the step is 1 or 2, every `onComplete` call has a non-empty persona and language, and with button values only every call's values are options |

## Left out

- JSX, styling, routing, the translation lookup and `localStorage`: all of it is layout or browser state, not logic.
- The floating-point reading progress, `window.open`, clipboard sharing and date formatting on the post page: browser APIs and floating point.
- The post bodies (`content`) in the constant array: the queries never read them; they are large strings; the markdown model takes any body as input.
- BlogData.Recent: `new Date(s).getTime()` is replaced by the integer `y·10⁴ + m·10² + d`. This is valid only for well-formed `YYYY-MM-DD` dates, which every shipped post has (`BlogData.PostsDated`). Invalid dates, which give `NaN` in JS, are not modelled.
- BlogData.GetRecentPosts: a non-integer `count` is not modelled (the parameter is an integer).
- BlogData.RecentDistinct: the proof uses the fact that the input is already newest first. The shipped array is, so the result is a prefix of it. Distinctness for an arbitrary unsorted input is not stated.
- `getRecentPosts` leaving `blogPosts` unchanged: the model is pure, so the array cannot change. Nothing further is stated.
- JsString.Lower: lowercases the ASCII letters only. Unicode case mapping is not modelled.
- JsString.Trim: the whitespace set is exactly ECMAScript WhiteSpace (TAB, VT, FF, SP, U+00A0, U+FEFF and the category Zs characters of Unicode 15) plus LineTerminator, the same set `\s` matches. A later Unicode version that adds a Zs character is not modelled.
- Inline passes: nothing is proved about pathological nesting such as `*a**b*`, or about a bold span that crosses block tags. The scanners reproduce the leftmost-match behaviour, and safety holds for every input.
- Balance is proved for the block phase only. After the inline passes a `<strong>` may span block tags, because `[^*]` also matches newlines.
- The wizard's view: which step's buttons are visible, and the `disabled` flags on the buttons, are not modelled. Every handler can be called in every state. This matches the handlers, which do not check the step themselves, except `handleNext`.
- BlogListing.FilteredPosts: takes the post list as a parameter. The page applies it to `blogPosts`. `CategoryOnlyIsQuery` instantiates it with the shipped array.
- No single lemma states the output for a whole document that mixes every line kind. The pieces are covered by `Markdown.RenderHeading`, `RenderBulletPair`, `RenderTwoParagraphs` and `RenderBoldParagraph`.

Behaviour of the code worth noting:
- Merged paragraph lines are separated by a `" "` fragment. After the `'\n'` join they read `line1\n \nline2`, not `line1 line2` (`MarkdownBlocks.TwoLineParagraph`).
- The ordered-item pattern takes any whitespace after the period (`\s+`), not only spaces.
- A text line also closes an open list.
