/**
 * The pure part of the posts view: matching a fetched record against the search
 * term, filtering the fetched list, and cutting the filtered list into pages of ten.
 */
module Posts {
  import opened Wrappers
  import opened Strings
  import Seqs

  /** Records per page. */
  const PageSize: nat := 10

  /** One fetched article. Only the fields the search reads are kept, plus its identifier. */
  datatype Post = Post(id: int, title: string, description: Option<string>, tags: Option<seq<string>>)

  function Min(a: int, b: int): int { if a <= b then a else b }
  function Max(a: int, b: int): int { if a >= b then a else b }

  // ---------------------------------------------------------------------------
  // Search
  // ---------------------------------------------------------------------------

  /** `tags.some(tag => tag.toLowerCase().includes(q))`. */
  function SomeTagContains(tags: seq<string>, q: string): (b: bool)
    ensures b <==> exists k :: 0 <= k < |tags| && Contains(Lower(tags[k]), q)
  {
    if tags == [] then false
    else
      assert forall k :: 1 <= k < |tags| ==> tags[k] == tags[1..][k - 1];
      Contains(Lower(tags[0]), q) || SomeTagContains(tags[1..], q)
  }

  /**
   * The search predicate for a non-empty term: the lower-cased term occurs in the
   * lower-cased title, or in the description when there is one, or in some tag
   * when there are tags.
   */
  predicate Matches(p: Post, term: string) {
    var q := Lower(term);
    Contains(Lower(p.title), q)
    || (p.description.Some? && Contains(Lower(p.description.value), q))
    || (p.tags.Some? && SomeTagContains(p.tags.value, q))
  }

  /** The callback handed to `filter`. */
  function MatchesTerm(term: string): Post -> bool {
    p => Matches(p, term)
  }

  /** The filter step of the fetch: an empty term keeps everything, otherwise only the matches, in order. */
  function FilterPosts(posts: seq<Post>, term: string): (r: seq<Post>)
    ensures term == "" ==> r == posts
    ensures term != "" ==> forall p :: p in r <==> p in posts && Matches(p, term)
    ensures forall p :: multiset(r)[p] == if term == "" || Matches(p, term) then multiset(posts)[p] else 0
    ensures Seqs.IsSubsequence(r, posts)
  {
    if term == "" then
      assert Seqs.IsSubsequence(posts, posts) by { Seqs.SubsequenceRefl(posts); }
      posts
    else
      Seqs.FilterMembers(posts, MatchesTerm(term));
      Seqs.FilterSubsequence(posts, MatchesTerm(term));
      Seqs.FilterMultiset(posts, MatchesTerm(term));
      Seqs.Filter(posts, MatchesTerm(term))
  }

  /** With a non-empty term, a record is kept exactly when the term occurs, ignoring case, in one of its fields. */
  lemma FilterPostsMembership(posts: seq<Post>, term: string, p: Post)
    requires term != "" && p in posts
    ensures p in FilterPosts(posts, term) <==>
      Contains(Lower(p.title), Lower(term))
      || (p.description.Some? && Contains(Lower(p.description.value), Lower(term)))
      || (p.tags.Some? && exists k :: 0 <= k < |p.tags.value| && Contains(Lower(p.tags.value[k]), Lower(term)))
  {
  }

  /** When no record matches a non-empty term, nothing is left. */
  lemma NoMatchFiltersAll(posts: seq<Post>, term: string)
    requires term != ""
    requires forall k :: 0 <= k < |posts| ==> !Matches(posts[k], term)
    ensures FilterPosts(posts, term) == []
  {
    Seqs.FilterNone(posts, MatchesTerm(term));
  }

  /** A record without a description and without tags is found only through its title. */
  lemma TitleOnlyRecord(posts: seq<Post>, term: string, p: Post)
    requires term != "" && p in posts && p.description.None? && p.tags.None?
    ensures p in FilterPosts(posts, term) <==> Contains(Lower(p.title), Lower(term))
  {
  }

  // ---------------------------------------------------------------------------
  // Pagination
  // ---------------------------------------------------------------------------

  /**
   * `Array.prototype.slice(start, end)`: a negative bound counts from the end,
   * both bounds are clamped to the length, and an empty range gives `[]`.
   */
  function JsSlice<T>(s: seq<T>, start: int, end: int): (r: seq<T>)
    ensures |r| <= |s|
    ensures 0 <= start <= end ==> r == s[Min(start, |s|)..Min(end, |s|)]
    ensures |s| <= start ==> r == []
  {
    var n := |s|;
    var from := if start < 0 then Max(n + start, 0) else Min(start, n);
    var to := if end < 0 then Max(n + end, 0) else Min(end, n);
    if from < to then s[from..to] else []
  }

  /** The visible page: `filtered.slice((page - 1) * 10, (page - 1) * 10 + 10)`. */
  function PageSlice<T>(s: seq<T>, page: int): (r: seq<T>)
    ensures page >= 1 ==> |r| <= PageSize
    ensures page >= 1 ==> r == s[Min((page - 1) * PageSize, |s|)..Min(page * PageSize, |s|)]
    ensures page >= 1 && |s| <= (page - 1) * PageSize ==> r == []
  {
    JsSlice(s, (page - 1) * PageSize, (page - 1) * PageSize + PageSize)
  }

  /** `Math.ceil(count / 10)`: the least number of pages of ten that hold `count` records. */
  function TotalPages(count: nat): (r: nat)
    ensures count <= r * PageSize
    ensures r == 0 || (r - 1) * PageSize < count
    ensures r == 0 <==> count == 0
  {
    (count + PageSize - 1) / PageSize
  }

  /** Pages 1 through `k`, one after the other. */
  function AllPages<T>(s: seq<T>, k: nat): seq<T> {
    if k == 0 then [] else AllPages(s, k - 1) + PageSlice(s, k)
  }

  lemma {:induction false} AllPagesPrefix<T>(s: seq<T>, k: nat)
    ensures AllPages(s, k) == s[..Min(k * PageSize, |s|)]
  {
    if k > 0 {
      AllPagesPrefix(s, k - 1);
      var lo := (k - 1) * PageSize;
      var hi := lo + PageSize;
      assert hi == k * PageSize;
      var a, b := Min(lo, |s|), Min(hi, |s|);
      assert AllPages(s, k) == s[..a] + s[a..b];
      assert s[..a] + s[a..b] == s[..b];
    }
  }

  /** The pages 1 .. TotalPages(|s|), concatenated, give back exactly the filtered list. */
  lemma PagesReassemble<T>(s: seq<T>)
    ensures AllPages(s, TotalPages(|s|)) == s
  {
    AllPagesPrefix(s, TotalPages(|s|));
  }

  /** A page number the guard accepts always shows at least one record; a page past the end shows none. */
  lemma PageNonEmptyIff<T>(s: seq<T>, page: int)
    requires page >= 1
    ensures PageSlice(s, page) != [] <==> page <= TotalPages(|s|)
  {
    if page <= TotalPages(|s|) {
      assert (page - 1) * PageSize <= (TotalPages(|s|) - 1) * PageSize;
    } else {
      assert TotalPages(|s|) * PageSize <= (page - 1) * PageSize;
    }
  }

  /** Twenty-five records: three pages, and the third holds the last five. */
  lemma TwentyFiveRecords<T>(s: seq<T>)
    requires |s| == 25
    ensures TotalPages(|s|) == 3
    ensures PageSlice(s, 3) == s[20..25] && |PageSlice(s, 3)| == 5
  {
  }
}
