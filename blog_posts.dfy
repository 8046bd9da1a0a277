/**
 * The blog's post list and its four queries, `getBlogPostBySlug`,
 * `getBlogPostsByCategory`, `getCategories` and `getRecentPosts`, over the
 * constant array the site ships.
 */
module BlogData {
  import opened Wrappers
  import opened JsString
  import opened Seqs

  datatype Author = Author(name: string, role: string, avatar: string)

  /** A post, without its markdown `content`. */
  datatype BlogPost = BlogPost(
    id: string, slug: string, title: string, excerpt: string, author: Author,
    category: string, tags: seq<string>, publishedAt: string, readTime: int, image: string)

  /** The `publishedAt` of each shipped post, by id. */
  const Date7 := "2025-01-20"
  const Date1 := "2025-01-15"
  const Date2 := "2025-01-10"
  const Date3 := "2025-01-05"
  const Date4 := "2024-12-28"
  const Date5 := "2024-12-20"
  const Date6 := "2024-12-15"

  /** blogPosts entry with id "7", content omitted. */
  const Post7 := BlogPost(
    id := "7",
    slug := "time-management-healthcare-digital-tools",
    title := "Why Every Minute Matters: How Smart Time Management Transforms Healthcare",
    excerpt := "Discover how smart time management tools are revolutionizing healthcare. Learn practical strategies to eliminate wasted hours and take control of your medical care journey.",
    author := Author("Dr. Marcus Thompson", "Healthcare Innovation Director", "/blog/authors/marcus-thompson.jpg"),
    category := "Practice Management",
    tags := ["time management", "healthcare efficiency", "digital health", "patient experience", "practice optimization"],
    publishedAt := Date7,
    readTime := 10,
    image := "/blog/time-management-healthcare.jpg")

  /** blogPosts entry with id "1", content omitted. */
  const Post1 := BlogPost(
    id := "1",
    slug := "future-of-telemedicine-2025",
    title := "The Future of Telemedicine: What to Expect in 2025 and Beyond",
    excerpt := "Telemedicine has transformed healthcare delivery. Discover the emerging trends and technologies that will shape virtual care in the coming years.",
    author := Author("Dr. Sarah Mitchell", "Chief Medical Officer", "/blog/authors/sarah-mitchell.jpg"),
    category := "Technology",
    tags := ["telemedicine", "healthcare technology", "digital health", "AI"],
    publishedAt := Date1,
    readTime := 6,
    image := "/blog/telemedicine-future.jpg")

  /** blogPosts entry with id "2", content omitted. */
  const Post2 := BlogPost(
    id := "2",
    slug := "hipaa-compliance-guide-healthcare-apps",
    title := "HIPAA Compliance: A Complete Guide for Healthcare Applications",
    excerpt := "Understanding HIPAA requirements is crucial for any healthcare application. Learn the essential steps to ensure your platform protects patient data.",
    author := Author("Michael Chen", "Security & Compliance Lead", "/blog/authors/michael-chen.jpg"),
    category := "Compliance",
    tags := ["HIPAA", "compliance", "security", "patient data"],
    publishedAt := Date2,
    readTime := 8,
    image := "/blog/hipaa-compliance.jpg")

  /** blogPosts entry with id "3", content omitted. */
  const Post3 := BlogPost(
    id := "3",
    slug := "patient-engagement-strategies",
    title := "5 Proven Strategies to Improve Patient Engagement",
    excerpt := "Engaged patients have better health outcomes. Discover actionable strategies that healthcare providers can implement to boost patient engagement.",
    author := Author("Dr. Emily Rodriguez", "Patient Experience Director", "/blog/authors/emily-rodriguez.jpg"),
    category := "Patient Care",
    tags := ["patient engagement", "healthcare", "patient experience", "digital health"],
    publishedAt := Date3,
    readTime := 5,
    image := "/blog/patient-engagement.jpg")

  /** blogPosts entry with id "4", content omitted. */
  const Post4 := BlogPost(
    id := "4",
    slug := "gdpr-healthcare-data-protection",
    title := "GDPR and Healthcare: Protecting Patient Data in Europe",
    excerpt := "European healthcare providers face unique data protection challenges. Learn how GDPR applies to healthcare and what steps you need to take.",
    author := Author("Anna Kowalski", "Data Protection Officer", "/blog/authors/anna-kowalski.jpg"),
    category := "Compliance",
    tags := ["GDPR", "data protection", "privacy", "European healthcare"],
    publishedAt := Date4,
    readTime := 7,
    image := "/blog/gdpr-healthcare.jpg")

  /** blogPosts entry with id "5", content omitted. */
  const Post5 := BlogPost(
    id := "5",
    slug := "reducing-no-shows-appointment-reminders",
    title := "How Smart Appointment Reminders Can Reduce No-Shows by 50%",
    excerpt := "No-shows cost healthcare practices thousands annually. Discover how intelligent reminder systems can dramatically improve appointment adherence.",
    author := Author("James Wilson", "Operations Director", "/blog/authors/james-wilson.jpg"),
    category := "Practice Management",
    tags := ["appointment scheduling", "no-shows", "practice efficiency", "patient communication"],
    publishedAt := Date5,
    readTime := 6,
    image := "/blog/appointment-reminders.jpg")

  /** blogPosts entry with id "6", content omitted. */
  const Post6 := BlogPost(
    id := "6",
    slug := "mental-health-digital-age",
    title := "Mental Health Care in the Digital Age: Breaking Down Barriers",
    excerpt := "Digital mental health solutions are making care more accessible than ever. Explore how technology is transforming mental health support.",
    author := Author("Dr. Rachel Green", "Behavioral Health Director", "/blog/authors/rachel-green.jpg"),
    category := "Mental Health",
    tags := ["mental health", "teletherapy", "digital health", "accessibility"],
    publishedAt := Date6,
    readTime := 7,
    image := "/blog/mental-health-digital.jpg")
  /** `blogPosts`, in the order of the source array. */
  const BlogPosts: seq<BlogPost> := [Post7, Post1, Post2, Post3, Post4, Post5, Post6]

  // ---------------------------------------------------------------------
  // Lookup, filter and categories
  // ---------------------------------------------------------------------

  /** `getBlogPostBySlug`: the first post in array order with that slug, or nothing. */
  function GetBlogPostBySlug(slug: string): (r: Option<BlogPost>)
    ensures r.None? <==> forall i :: 0 <= i < |BlogPosts| ==> BlogPosts[i].slug != slug
    ensures r.Some? ==>
      exists i :: 0 <= i < |BlogPosts| && BlogPosts[i] == r.value && r.value.slug == slug &&
        forall j :: 0 <= j < i ==> BlogPosts[j].slug != slug
  {
    Find(BlogPosts, (p: BlogPost) => p.slug == slug)
  }

  /** `getBlogPostsByCategory`: exactly the posts of that category, in array order. */
  function GetBlogPostsByCategory(category: string): (r: seq<BlogPost>)
    ensures IsSubsequence(r, BlogPosts)
    ensures forall p :: p in r <==> p in BlogPosts && p.category == category
  {
    Filter(BlogPosts, (p: BlogPost) => p.category == category)
  }

  /** `posts.map(post => post.category)` */
  function CategoryList(posts: seq<BlogPost>): (r: seq<string>)
    ensures |r| == |posts| && forall i :: 0 <= i < |posts| ==> r[i] == posts[i].category
  {
    seq(|posts|, i requires 0 <= i < |posts| => posts[i].category)
  }

  /** `getCategories`: every category that some post has, once each. */
  function GetCategories(): (r: seq<string>)
    ensures NoDuplicates(r)
    ensures forall c :: c in r <==> exists i :: 0 <= i < |BlogPosts| && BlogPosts[i].category == c
  {
    var cs := CategoryList(BlogPosts);
    assert forall c :: c in cs <==> exists i :: 0 <= i < |cs| && cs[i] == c;
    Distinct(cs)
  }

  /** The categories come in the order in which they first occur among the posts. */
  lemma CategoriesInOrder()
    ensures var cs := GetCategories(); var all := CategoryList(BlogPosts);
      forall i, j :: 0 <= i < j < |cs| ==> FirstIndex(all, cs[i]) < FirstIndex(all, cs[j])
  {
    DistinctOrder(CategoryList(BlogPosts));
  }
  // ---------------------------------------------------------------------
  // Dates
  // ---------------------------------------------------------------------

  predicate IsDigit(c: char) { '0' <= c <= '9' }

  function Digit(c: char): int { c as int - '0' as int }

  function Year(s: string): int requires |s| == 10 {
    Digit(s[0]) * 1000 + Digit(s[1]) * 100 + Digit(s[2]) * 10 + Digit(s[3])
  }

  function Month(s: string): int requires |s| == 10 { Digit(s[5]) * 10 + Digit(s[6]) }

  function Day(s: string): int requires |s| == 10 { Digit(s[8]) * 10 + Digit(s[9]) }

  /** `YYYY-MM-DD`, with a month from 01 to 12 and a day from 01 to 31. */
  predicate WellFormedDate(s: string) {
    && |s| == 10 && s[4] == '-' && s[7] == '-'
    && IsDigit(s[0]) && IsDigit(s[1]) && IsDigit(s[2]) && IsDigit(s[3])
    && IsDigit(s[5]) && IsDigit(s[6]) && IsDigit(s[8]) && IsDigit(s[9])
    && 1 <= Month(s) <= 12 && 1 <= Day(s) <= 31
  }

  /**
   * The date as one number, y·10⁴ + m·10² + d. It stands for
   * `new Date(s).getTime()`: of two valid dates the later has the larger value.
   */
  function DateValue(s: string): int requires |s| == 10 {
    Year(s) * 10000 + Month(s) * 100 + Day(s)
  }

  /** Of two dates that agree before position `k`, the digit at `k` decides. */
  lemma DigitDecides(a: string, b: string, k: nat)
    requires WellFormedDate(a) && WellFormedDate(b) && k < 10
    requires a[..k] == b[..k] && a[k] != b[k]
    ensures DateValue(a) < DateValue(b) <==> a[k] < b[k]
  {
    assert forall i :: 0 <= i < k ==> a[i] == a[..k][i] && b[i] == b[..k][i];
    assert k != 4 && k != 7;
  }

  /** On well-formed dates, comparing the strings is comparing the dates. */
  lemma DateOrderIsTextOrder(a: string, b: string)
    requires WellFormedDate(a) && WellFormedDate(b)
    ensures DateValue(a) < DateValue(b) <==> Less(a, b)
  {
    if a == b {
      LessIrreflexive(a);
    } else {
      FirstDifference(a, b);
      var k :| 0 <= k < |a| && a[..k] == b[..k] && a[k] != b[k];
      LessAt(a, b, k);
      DigitDecides(a, b, k);
    }
  }

  // ---------------------------------------------------------------------
  // Newest first
  // ---------------------------------------------------------------------

  /** Every post has a well-formed date. */
  predicate Dated(posts: seq<BlogPost>) {
    forall i :: 0 <= i < |posts| ==> WellFormedDate(posts[i].publishedAt)
  }

  function Time(p: BlogPost): int requires WellFormedDate(p.publishedAt) {
    DateValue(p.publishedAt)
  }

  /** No post is older than one after it. */
  predicate NewestFirst(posts: seq<BlogPost>) requires Dated(posts) {
    forall i, j :: 0 <= i < j < |posts| ==> Time(posts[i]) >= Time(posts[j])
  }

  /** `x` goes before the first post that is not newer than it. */
  function Insert(x: BlogPost, s: seq<BlogPost>): (r: seq<BlogPost>)
    requires WellFormedDate(x.publishedAt) && Dated(s)
    ensures Dated(r) && multiset(r) == multiset(s) + multiset{x}
    decreases |s|
  {
    if s == [] || Time(s[0]) <= Time(x) then [x] + s
    else
      assert s == [s[0]] + s[1..];
      [s[0]] + Insert(x, s[1..])
  }

  /**
   * `[...posts].sort((a, b) => time(b) - time(a))`: the comparator puts newer
   * posts first, and the sort is stable, as ECMAScript requires.
   */
  function SortByDate(s: seq<BlogPost>): (r: seq<BlogPost>)
    requires Dated(s)
    ensures Dated(r) && multiset(r) == multiset(s)
    decreases |s|
  {
    if s == [] then []
    else
      assert s == [s[0]] + s[1..];
      Insert(s[0], SortByDate(s[1..]))
  }

  lemma {:induction false} InsertNewestFirst(x: BlogPost, s: seq<BlogPost>)
    requires WellFormedDate(x.publishedAt) && Dated(s) && NewestFirst(s)
    ensures NewestFirst(Insert(x, s))
    decreases |s|
  {
    if s != [] && Time(s[0]) > Time(x) {
      InsertNewestFirst(x, s[1..]);
      var r := Insert(x, s[1..]);
      forall y | y in r ensures Time(s[0]) >= Time(y) {
        assert y in multiset(r);
        if y != x {
          assert y in s[1..];
        }
      }
    }
  }

  /** The sort puts the newest post first. */
  lemma {:induction false} SortNewestFirst(s: seq<BlogPost>)
    requires Dated(s)
    ensures NewestFirst(SortByDate(s))
    decreases |s|
  {
    if s != [] {
      SortNewestFirst(s[1..]);
      InsertNewestFirst(s[0], SortByDate(s[1..]));
    }
  }

  /** The test `publishedAt` is the date of value `t`. */
  function PublishedAt(t: int): BlogPost -> bool {
    (p: BlogPost) => WellFormedDate(p.publishedAt) && Time(p) == t
  }

  lemma {:induction false} InsertStable(x: BlogPost, s: seq<BlogPost>, t: int)
    requires WellFormedDate(x.publishedAt) && Dated(s)
    ensures Filter(Insert(x, s), PublishedAt(t)) == Filter([x] + s, PublishedAt(t))
    decreases |s|
  {
    if s != [] && Time(s[0]) > Time(x) {
      var f, y, rest := PublishedAt(t), s[0], s[1..];
      assert s == [y] + rest;
      assert Insert(x, s) == [y] + Insert(x, rest);
      InsertStable(x, rest, t);
      var a := if f(y) then [y] else [];
      var b := if f(x) then [x] else [];
      assert a == [] || b == [];
      FilterCons(y, Insert(x, rest), f);
      FilterCons(x, rest, f);
      FilterCons(x, s, f);
      FilterCons(y, rest, f);
      assert Filter(Insert(x, s), f) == a + (b + Filter(rest, f));
      assert Filter([x] + s, f) == b + (a + Filter(rest, f));
    }
  }

  /** Stability: the posts of any one date keep their order. */
  lemma {:induction false} SortStable(s: seq<BlogPost>, t: int)
    requires Dated(s)
    ensures Filter(SortByDate(s), PublishedAt(t)) == Filter(s, PublishedAt(t))
    decreases |s|
  {
    if s != [] {
      var f := PublishedAt(t);
      SortStable(s[1..], t);
      InsertStable(s[0], SortByDate(s[1..]), t);
      FilterCons(s[0], SortByDate(s[1..]), f);
      FilterCons(s[0], s[1..], f);
      assert [s[0]] + s[1..] == s;
    }
  }

  /** Posts already newest first are left as they are. */
  lemma {:induction false} SortKeepsNewestFirst(s: seq<BlogPost>)
    requires Dated(s) && NewestFirst(s)
    ensures SortByDate(s) == s
    decreases |s|
  {
    if s != [] {
      SortKeepsNewestFirst(s[1..]);
      assert [s[0]] + s[1..] == s;
    }
  }

  /** Adjacent posts in order are enough. */
  lemma {:induction false} NewestFirstByNeighbours(s: seq<BlogPost>)
    requires Dated(s)
    requires forall i :: 0 <= i < |s| - 1 ==> Time(s[i]) >= Time(s[i + 1])
    ensures NewestFirst(s)
    decreases |s|
  {
    if |s| > 1 {
      var t := s[1..];
      NewestFirstByNeighbours(t);
      forall j | 1 <= j < |s| ensures Time(s[0]) >= Time(s[j]) {
        assert s[j] == t[j - 1] && s[1] == t[0];
      }
    }
  }

  // ---------------------------------------------------------------------
  // Recent posts
  // ---------------------------------------------------------------------

  /** The `count` newest of `posts`, newest first, as `[...posts].sort(...).slice(0, count)`. */
  function Recent(posts: seq<BlogPost>, count: int): (r: seq<BlogPost>)
    requires Dated(posts)
    ensures count >= 0 ==> |r| == if count < |posts| then count else |posts|
    ensures count < 0 ==> |r| == if |posts| + count > 0 then |posts| + count else 0
    ensures Dated(r) && NewestFirst(r)
    ensures forall p :: p in r ==> p in posts
    ensures |r| <= |SortByDate(posts)| && r == SortByDate(posts)[..|r|]
  {
    var sorted := SortByDate(posts);
    SortNewestFirst(posts);
    var r := SliceTo(sorted, count);
    PrefixNewestFirst(sorted, |r|);
    SameMembers(sorted, posts);
    r
  }

  /**
   * The recent posts are the newest ones: every post they leave out (counted
   * with its repeats) is no newer than any post they keep.
   */
  lemma RecentAreNewest(posts: seq<BlogPost>, count: int)
    requires Dated(posts)
    ensures multiset(Recent(posts, count)) <= multiset(posts)
    ensures forall p: BlogPost, q: BlogPost :: p in multiset(posts) - multiset(Recent(posts, count)) && q in Recent(posts, count) ==>
      WellFormedDate(p.publishedAt) && WellFormedDate(q.publishedAt) && Time(p) <= Time(q)
  {
    var sorted, r := SortByDate(posts), Recent(posts, count);
    SortNewestFirst(posts);
    PrefixMultiset(sorted, |r|);
    PrefixNewest(sorted, |r|);
  }

  /** Splitting a list at `n` splits its multiset. */
  lemma PrefixMultiset<T>(s: seq<T>, n: nat)
    requires n <= |s|
    ensures multiset(s[..n]) <= multiset(s) && multiset(s) - multiset(s[..n]) == multiset(s[n..])
  {
    assert s == s[..n] + s[n..];
  }

  /** In a newest-first list, nothing after position `n` is newer than anything before it. */
  lemma PrefixNewest(s: seq<BlogPost>, n: nat)
    requires n <= |s| && Dated(s) && NewestFirst(s)
    ensures forall p: BlogPost, q: BlogPost :: p in multiset(s[n..]) && q in s[..n] ==>
      WellFormedDate(p.publishedAt) && WellFormedDate(q.publishedAt) && Time(p) <= Time(q)
  {
    forall p: BlogPost, q: BlogPost | p in multiset(s[n..]) && q in s[..n]
      ensures WellFormedDate(p.publishedAt) && WellFormedDate(q.publishedAt) && Time(p) <= Time(q)
    {
      var j :| 0 <= j < |s| - n && s[n..][j] == p;
      var i :| 0 <= i < n && s[..n][i] == q;
      assert s[n + j] == p && s[i] == q;
    }
  }

  lemma PrefixNewestFirst(s: seq<BlogPost>, n: nat)
    requires n <= |s| && Dated(s) && NewestFirst(s)
    ensures Dated(s[..n]) && NewestFirst(s[..n])
    ensures forall p :: p in s[..n] ==> p in s
  {
    assert forall i :: 0 <= i < n ==> s[..n][i] == s[i];
  }

  lemma SameMembers(s: seq<BlogPost>, t: seq<BlogPost>)
    requires multiset(s) == multiset(t)
    ensures |s| == |t| && forall p :: p in s ==> p in t
  {
    assert |s| == |multiset(s)| == |multiset(t)| == |t|;
    forall p | p in s ensures p in t {
      assert p in multiset(s);
    }
  }

  /**
   * `getRecentPosts(count = 3)`: the `count` newest posts. A negative count
   * leaves off that many from the end, as `slice` does.
   */
  function GetRecentPosts(count: int := 3): (r: seq<BlogPost>)
    ensures count >= 0 ==> |r| == if count < |BlogPosts| then count else |BlogPosts|
    ensures count < 0 ==> |r| == if |BlogPosts| + count > 0 then |BlogPosts| + count else 0
    ensures r == BlogPosts[..|r|]
  {
    PostsDated();
    PostsNewestFirst();
    RecentOfNewestFirst(BlogPosts, count);
    Recent(BlogPosts, count)
  }

  /** Of posts already newest first, the recent ones are the first entries. */
  lemma RecentOfNewestFirst(posts: seq<BlogPost>, count: int)
    requires Dated(posts) && NewestFirst(posts)
    ensures Recent(posts, count) == posts[..|Recent(posts, count)|]
  {
    SortKeepsNewestFirst(posts);
  }

  /** Distinct posts give distinct recent posts. */
  lemma RecentDistinct(posts: seq<BlogPost>, count: int)
    requires Dated(posts) && NewestFirst(posts) && NoDuplicates(posts)
    ensures NoDuplicates(Recent(posts, count))
  {
    RecentOfNewestFirst(posts, count);
    PrefixNoDuplicates(posts, Recent(posts, count));
  }

  /** The recent posts repeat no post. */
  lemma RecentPostsDistinct(count: int)
    ensures NoDuplicates(GetRecentPosts(count))
  {
    PostsDistinct();
    PrefixNoDuplicates(BlogPosts, GetRecentPosts(count));
  }

  /** By default: the three posts at the head of the array. */
  lemma DefaultRecentPosts()
    ensures GetRecentPosts() == [Post7, Post1, Post2]
  {
  }

  /** The sidebar of a post page: the three recent posts other than the one shown. */
  function RecentPostsExcept(slug: string): (r: seq<BlogPost>)
    ensures IsSubsequence(r, GetRecentPosts(3)) && |r| <= 3
    ensures forall p :: p in r <==> p in GetRecentPosts(3) && p.slug != slug
  {
    Filter(GetRecentPosts(3), (p: BlogPost) => p.slug != slug)
  }

  // ---------------------------------------------------------------------
  // The shipped array
  // ---------------------------------------------------------------------

  lemma PostsDated()
    ensures Dated(BlogPosts)
  {
    DatesWellFormed();
  }

  lemma PostsNewestFirst()
    requires Dated(BlogPosts)
    ensures NewestFirst(BlogPosts)
  {
    NewestFirstByNeighbours(BlogPosts);
  }

  lemma DatesWellFormed()
    ensures WellFormedDate(Date7) && WellFormedDate(Date1) && WellFormedDate(Date2) && WellFormedDate(Date3)
    ensures WellFormedDate(Date4) && WellFormedDate(Date5) && WellFormedDate(Date6)
  {
  }

  /** No two posts share an id. */
  lemma PostIdsDistinct()
    ensures forall i, j :: 0 <= i < j < |BlogPosts| ==> BlogPosts[i].id != BlogPosts[j].id
  {
  }

  lemma PostsDistinct()
    ensures NoDuplicates(BlogPosts)
  {
    PostIdsDistinct();
  }

  /** No two posts share a slug. */
  lemma PostSlugsDistinct()
    ensures forall i, j :: 0 <= i < j < |BlogPosts| ==> BlogPosts[i].slug != BlogPosts[j].slug
  {
  }

  /** The five categories, in order of first occurrence. */
  lemma DistinctSnoc<T(!new)>(s: seq<T>, x: T, p: seq<T>)
    requires Distinct(s) == p
    ensures Distinct(s + [x]) == if x in p then p else p + [x]
  {
    assert (s + [x])[..|s + [x]| - 1] == s;
  }

  lemma DistinctFour<T(!new)>(a: T, b: T, c: T, d: T)
    requires a != b && a != c && a != d && b != c && b != d && c != d
    ensures Distinct([a, b, c, d]) == [a, b, c, d]
  {
    var nil: seq<T> := [];
    DistinctSnoc(nil, a, nil);
    assert nil + [a] == [a];
    DistinctSnoc([a], b, [a]);
    assert [a] + [b] == [a, b];
    DistinctSnoc([a, b], c, [a, b]);
    assert [a, b] + [c] == [a, b, c];
    DistinctSnoc([a, b, c], d, [a, b, c]);
    assert [a, b, c] + [d] == [a, b, c, d];
  }

  /** The shape of the category column: five names, two of them repeated. */
  lemma DistinctPattern<T(!new)>(a: T, b: T, c: T, d: T, e: T)
    requires a != b && a != c && a != d && a != e && b != c && b != d && b != e
    requires c != d && c != e && d != e
    ensures Distinct([a, b, c, d, c, a, e]) == [a, b, c, d, e]
  {
    var p := [a, b, c, d];
    DistinctFour(a, b, c, d);
    DistinctSnoc(p, c, p);
    assert p + [c] == [a, b, c, d, c];
    DistinctSnoc(p + [c], a, p);
    assert p + [c] + [a] == [a, b, c, d, c, a];
    DistinctSnoc(p + [c] + [a], e, p);
    assert p + [c] + [a] + [e] == [a, b, c, d, c, a, e];
  }

  lemma CategoryColumn()
    ensures CategoryList(BlogPosts) == ["Practice Management", "Technology", "Compliance", "Patient Care",
                                        "Compliance", "Practice Management", "Mental Health"]
  {
  }

  /** The categories of the array, in first-seen order. */
  lemma CategoriesAre()
    ensures GetCategories() == ["Practice Management", "Technology", "Compliance", "Patient Care", "Mental Health"]
  {
    CategoryColumn();
    DistinctPattern("Practice Management", "Technology", "Compliance", "Patient Care", "Mental Health");
  }

}
