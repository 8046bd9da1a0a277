/**
 * The listing page's `filteredPosts`: a post is shown when it matches the
 * selected category (if any) and the search box (if non-empty), where the
 * search looks case-insensitively for the query inside the title, the excerpt
 * or one of the tags. The page state (`selectedCategory`, `searchQuery`) and
 * the post list are parameters.
 */
module BlogListing {
  import opened Wrappers
  import opened JsString
  import opened Seqs
  import opened BlogData

  /**
   * `!selectedCategory || post.category === selectedCategory`: no selection
   * and the empty string are both falsy, so both mean "every category".
   */
  predicate MatchesCategory(post: BlogPost, selected: Option<string>) {
    selected.None? || selected.value == "" || post.category == selected.value
  }

  /** `tags.some(tag => tag.toLowerCase().includes(needle))`. */
  predicate SomeTagIncludes(tags: seq<string>, needle: string) {
    exists i :: 0 <= i < |tags| && Includes(Lower(tags[i]), needle)
  }

  /** The search test; an empty query lets every post through. */
  predicate MatchesSearch(post: BlogPost, query: string) {
    var q := Lower(query);
    query == ""
    || Includes(Lower(post.title), q)
    || Includes(Lower(post.excerpt), q)
    || SomeTagIncludes(post.tags, q)
  }

  predicate Matches(post: BlogPost, selected: Option<string>, query: string) {
    MatchesCategory(post, selected) && MatchesSearch(post, query)
  }

  /** `filteredPosts`: the posts that pass both tests, in their original order. */
  function FilteredPosts(posts: seq<BlogPost>, selected: Option<string>, query: string): (r: seq<BlogPost>)
    ensures IsSubsequence(r, posts)
    ensures forall p :: p in r <==> p in posts && MatchesCategory(p, selected) && MatchesSearch(p, query)
  {
    Filter(posts, (p: BlogPost) => Matches(p, selected, query))
  }

  /** With no category and an empty query, the page lists every post. */
  lemma NoFiltersShowAll(posts: seq<BlogPost>, selected: Option<string>)
    requires selected.None? || selected.value == ""
    ensures FilteredPosts(posts, selected, "") == posts
  {
    FilterAll(posts, (p: BlogPost) => Matches(p, selected, ""));
  }

  /** A selected category lets through exactly the posts of that category. */
  lemma SelectedCategoryExact(posts: seq<BlogPost>, category: string, query: string)
    requires category != ""
    ensures forall p :: p in FilteredPosts(posts, Some(category), query) ==> p.category == category
    ensures forall p :: p in posts && p.category == category && MatchesSearch(p, query) ==>
      p in FilteredPosts(posts, Some(category), query)
  {
  }

  /** Selecting a category with an empty query is `getBlogPostsByCategory`. */
  lemma CategoryOnlyIsQuery(category: string)
    requires category != ""
    ensures FilteredPosts(BlogPosts, Some(category), "") == GetBlogPostsByCategory(category)
  {
    CategoryOnly(BlogPosts, category);
  }

  /** With an empty query, a selected category filters on the category alone. */
  lemma CategoryOnly(posts: seq<BlogPost>, category: string)
    requires category != ""
    ensures FilteredPosts(posts, Some(category), "") == Filter(posts, (p: BlogPost) => p.category == category)
  {
    var f := (p: BlogPost) => Matches(p, Some(category), "");
    var g := (p: BlogPost) => p.category == category;
    FilterAgree(posts, f, g);
  }

  /**
   * With a non-empty query, the search test is substring search of the
   * lowercased query in the lowercased title, excerpt or some tag.
   */
  lemma SearchIff(post: BlogPost, query: string)
    requires query != ""
    ensures var q := Lower(query);
      MatchesSearch(post, query) <==>
        (exists i :: OccursAt(Lower(post.title), q, i))
        || (exists i :: OccursAt(Lower(post.excerpt), q, i))
        || (exists k, i :: 0 <= k < |post.tags| && OccursAt(Lower(post.tags[k]), q, i))
  {
    var q := Lower(query);
    IncludesIff(Lower(post.title), q);
    IncludesIff(Lower(post.excerpt), q);
    forall k | 0 <= k < |post.tags| {
      IncludesIff(Lower(post.tags[k]), q);
    }
  }

  /** The whole filter is the category-only filter followed by the search-only filter. */
  lemma FilterIsIntersection(posts: seq<BlogPost>, selected: Option<string>, query: string)
    ensures FilteredPosts(posts, selected, query)
      == Filter(Filter(posts, (p: BlogPost) => MatchesCategory(p, selected)), (p: BlogPost) => MatchesSearch(p, query))
    ensures forall p :: p in FilteredPosts(posts, selected, query) <==>
      p in FilteredPosts(posts, selected, "") && p in FilteredPosts(posts, None, query)
  {
    FilterConjunction(posts, (p: BlogPost) => Matches(p, selected, query),
      (p: BlogPost) => MatchesCategory(p, selected), (p: BlogPost) => MatchesSearch(p, query));
  }

  /** Two queries that lowercase alike make the same list. */
  lemma SearchIgnoresCase(posts: seq<BlogPost>, selected: Option<string>, q1: string, q2: string)
    requires Lower(q1) == Lower(q2)
    ensures FilteredPosts(posts, selected, q1) == FilteredPosts(posts, selected, q2)
  {
    assert |q1| == |q2|;
    FilterAgree(posts, (p: BlogPost) => Matches(p, selected, q1), (p: BlogPost) => Matches(p, selected, q2));
  }

  lemma LowerIdempotent(s: string)
    ensures Lower(Lower(s)) == Lower(s)
  {
  }

  /** In particular a query and its lowercased form give the same list. */
  lemma LowercasedQuerySame(posts: seq<BlogPost>, selected: Option<string>, query: string)
    ensures FilteredPosts(posts, selected, Lower(query)) == FilteredPosts(posts, selected, query)
  {
    LowerIdempotent(query);
    SearchIgnoresCase(posts, selected, Lower(query), query);
  }
}
