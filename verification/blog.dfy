/** The blog page's platform tabs: which posts are listed for the selected
    tab, the count shown on each tab's badge, and when the page says that
    no posts were found. */
module Blog {
  import opened Sequences
  import opened Posts

  /** The tab state: all posts, or the posts of one platform. */
  datatype Selection = All | Only(platform: Platform)

  /** `posts.filter(post => post.platform === p)`. */
  function FilterPlatform(posts: seq<BlogPost>, p: Platform): (r: seq<BlogPost>)
    ensures IsSubsequence(r, posts)
    ensures forall i :: 0 <= i < |r| ==> r[i].platform == p
    ensures forall x :: multiset(r)[x] == if x.platform == p then multiset(posts)[x] else 0
    decreases |posts|
  {
    if |posts| == 0 then []
    else
      var rest := FilterPlatform(posts[1..], p);
      assert posts == [posts[0]] + posts[1..];
      if posts[0].platform == p then
        var r := [posts[0]] + rest;
        assert r[1..] == rest;
        r
      else
        rest
  }

  /** The list the page renders for the selected tab. */
  function FilteredPosts(posts: seq<BlogPost>, selected: Selection): (r: seq<BlogPost>)
    ensures selected == All ==> r == posts
    ensures IsSubsequence(r, posts)
    ensures selected.Only? ==>
      (forall i :: 0 <= i < |r| ==> r[i].platform == selected.platform) &&
      (forall x :: multiset(r)[x] == if x.platform == selected.platform then multiset(posts)[x] else 0)
  {
    match selected
    case All => SubsequenceRefl(posts); posts
    case Only(p) => FilterPlatform(posts, p)
  }

  /** The number on a tab's badge, computed for each tab on its own: at
      most the number of posts, all of them on the "All Posts" tab, and zero
      exactly when no post belongs to the tab. */
  function BadgeCount(posts: seq<BlogPost>, tab: Selection): (n: nat)
    ensures n <= |posts|
    ensures tab == All ==> n == |posts|
    ensures n == 0 <==> forall i :: 0 <= i < |posts| ==> !OnTab(posts[i], tab)
  {
    FilteredEmptyIff(posts, tab);
    match tab
    case All => |posts|
    case Only(p) =>
      SubsequenceLength(FilterPlatform(posts, p), posts);
      |FilterPlatform(posts, p)|
  }

  /** Whether the page shows its "No posts found" message: exactly when no
      post belongs to the selected tab. */
  predicate ShowsNoPostsMessage(posts: seq<BlogPost>, selected: Selection)
    ensures ShowsNoPostsMessage(posts, selected) <==>
      forall i :: 0 <= i < |posts| ==> !OnTab(posts[i], selected)
  {
    FilteredEmptyIff(posts, selected);
    |FilteredPosts(posts, selected)| == 0
  }

  /** Whether a post belongs to a tab. */
  predicate OnTab(post: BlogPost, tab: Selection) {
    tab.All? || post.platform == tab.platform
  }

  /** A list whose posts all have platform `p` passes the filter unchanged. */
  lemma {:induction false} FilterKeepsMatching(posts: seq<BlogPost>, p: Platform)
    requires forall i :: 0 <= i < |posts| ==> posts[i].platform == p
    ensures FilterPlatform(posts, p) == posts
    decreases |posts|
  {
    if |posts| > 0 {
      FilterKeepsMatching(posts[1..], p);
      assert posts == [posts[0]] + posts[1..];
    }
  }

  /** Filtering an already filtered list by the same platform changes nothing. */
  lemma {:induction false} FilterIdempotent(posts: seq<BlogPost>, p: Platform)
    ensures FilterPlatform(FilterPlatform(posts, p), p) == FilterPlatform(posts, p)
  {
    FilterKeepsMatching(FilterPlatform(posts, p), p);
  }

  /** The filter keeps exactly the posts of its platform, in their original
      order: any order-preserving selection of those posts that keeps every
      one of them is the filter's result. */
  lemma {:induction false} FilterUnique(posts: seq<BlogPost>, p: Platform, r: seq<BlogPost>)
    requires IsSubsequence(r, posts)
    requires forall i :: 0 <= i < |r| ==> r[i].platform == p
    requires |r| == |FilterPlatform(posts, p)|
    ensures r == FilterPlatform(posts, p)
    decreases |posts|
  {
    if |posts| > 0 {
      var rest := FilterPlatform(posts[1..], p);
      if posts[0].platform == p {
        assert |r| > 0;
        if r[0] == posts[0] && IsSubsequence(r[1..], posts[1..]) {
          FilterUnique(posts[1..], p, r[1..]);
          assert r == [r[0]] + r[1..];
        } else {
          FilterLongest(posts[1..], p, r);
          assert false;
        }
      } else {
        if |r| > 0 {
          assert r[0] != posts[0];
        }
        FilterUnique(posts[1..], p, r);
      }
    }
  }

  /** No order-preserving selection of posts of platform `p` is longer than the filter's result. */
  lemma {:induction false} FilterLongest(posts: seq<BlogPost>, p: Platform, r: seq<BlogPost>)
    requires IsSubsequence(r, posts)
    requires forall i :: 0 <= i < |r| ==> r[i].platform == p
    ensures |r| <= |FilterPlatform(posts, p)|
    decreases |posts|
  {
    if |r| > 0 {
      if r[0] == posts[0] && IsSubsequence(r[1..], posts[1..]) {
        FilterLongest(posts[1..], p, r[1..]);
      } else {
        FilterLongest(posts[1..], p, r);
      }
    }
  }

  /** Every post is on exactly one of the two platform tabs, so the two
      platform badges add up to the "All Posts" badge. */
  lemma {:induction false} PlatformCountsPartition(posts: seq<BlogPost>)
    ensures BadgeCount(posts, Only(LinkedIn)) + BadgeCount(posts, Only(Medium)) == BadgeCount(posts, All)
    decreases |posts|
  {
    if |posts| > 0 {
      PlatformCountsPartition(posts[1..]);
    }
  }

  /** The badge on the selected tab shows the length of the rendered list. */
  lemma SelectedBadgeIsListLength(posts: seq<BlogPost>, selected: Selection)
    ensures BadgeCount(posts, selected) == |FilteredPosts(posts, selected)|
  {
  }

  /** The rendered list is empty exactly when no post belongs to the selected tab. */
  lemma FilteredEmptyIff(posts: seq<BlogPost>, selected: Selection)
    ensures |FilteredPosts(posts, selected)| == 0 <==>
      forall i :: 0 <= i < |posts| ==> !OnTab(posts[i], selected)
  {
    var r := FilteredPosts(posts, selected);
    if exists i :: 0 <= i < |posts| && OnTab(posts[i], selected) {
      var i :| 0 <= i < |posts| && OnTab(posts[i], selected);
      assert posts[i] in multiset(posts);
      assert posts[i] in multiset(r);
    }
    if |r| > 0 {
      assert r[0] in multiset(r);
      assert r[0] in multiset(posts);
      var i :| 0 <= i < |posts| && posts[i] == r[0];
      assert OnTab(posts[i], selected);
    }
  }
}
