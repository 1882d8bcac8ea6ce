/**
 * The category table (`analyze_categories`, `generate_category_json`):
 * for each category, how many times the posts list it and which posts do,
 * in discovery order. Nothing is de-duplicated: a post that lists a
 * category twice counts twice and appears twice.
 */
module Aggregate {
  import opened FrontMatter

  /** Every category occurrence of the run, post by post, in discovery order. */
  function AllCategories(entries: seq<Entry>): seq<string>
  {
    if entries == [] then []
    else AllCategories(entries[..|entries| - 1]) + entries[|entries| - 1].cats
  }

  /** A category occurs in the run exactly when some post lists it. */
  lemma {:induction false} AllCategoriesIff(entries: seq<Entry>, c: string)
    ensures c in AllCategories(entries) <==> exists i :: 0 <= i < |entries| && c in entries[i].cats
  {
    if entries != [] {
      var init := entries[..|entries| - 1];
      AllCategoriesIff(init, c);
      assert forall i :: 0 <= i < |init| ==> init[i] == entries[i];
    }
  }

  /**
   * No category occurs in the run exactly when every post's list is empty;
   * with the key set of `AnalyzeCategories`, this is when the report stops early.
   */
  lemma {:induction false} NoCategoriesIff(entries: seq<Entry>)
    ensures AllCategories(entries) == [] <==> forall i :: 0 <= i < |entries| ==> entries[i].cats == []
  {
    if entries != [] {
      var init := entries[..|entries| - 1];
      NoCategoriesIff(init);
      assert forall i :: 0 <= i < |init| ==> init[i] == entries[i];
    }
  }

  /** How many times category `c` occurs across all posts' lists. */
  function Occurrences(entries: seq<Entry>, c: string): nat
  {
    multiset(AllCategories(entries))[c]
  }

  function Repeat(x: string, n: nat): (r: seq<string>)
    ensures |r| == n && forall y :: y in r ==> y == x
  {
    seq(n, _ => x)
  }

  /** The posts that list `c`, once per listing, in discovery order. */
  function PostsOf(entries: seq<Entry>, c: string): (r: seq<string>)
    ensures |r| == Occurrences(entries, c)
  {
    if entries == [] then []
    else
      var init, last := entries[..|entries| - 1], entries[|entries| - 1];
      assert forall i :: 0 <= i < |init| ==> init[i] == entries[i];
      assert multiset(AllCategories(entries)) == multiset(AllCategories(init)) + multiset(last.cats);
      PostsOf(init, c) + Repeat(last.post, multiset(last.cats)[c])
  }

  /** Every post in a category's list is a post that lists the category. */
  lemma {:induction false} PostsOfListed(entries: seq<Entry>, c: string, p: string)
    requires p in PostsOf(entries, c)
    ensures exists i :: 0 <= i < |entries| && entries[i].post == p && c in entries[i].cats
  {
    var init, last := entries[..|entries| - 1], entries[|entries| - 1];
    if p in PostsOf(init, c) {
      PostsOfListed(init, c, p);
      var i :| 0 <= i < |init| && init[i].post == p && c in init[i].cats;
      assert entries[i] == init[i];
    } else {
      assert p == last.post && multiset(last.cats)[c] > 0;
    }
  }

  /** Every post that lists a category is in that category's list. */
  lemma {:induction false} ListedInPostsOf(entries: seq<Entry>, c: string, i: int)
    requires 0 <= i < |entries| && c in entries[i].cats
    ensures entries[i].post in PostsOf(entries, c)
  {
    var init, last := entries[..|entries| - 1], entries[|entries| - 1];
    if i < |entries| - 1 {
      assert init[i] == entries[i];
      ListedInPostsOf(init, c, i);
    } else {
      var n := multiset(last.cats)[c];
      assert n > 0;
      assert Repeat(last.post, n)[0] == last.post;
    }
  }

  /** `count` and `posts` hold, for every category of `entries` and no other, its occurrences and its posts. */
  ghost predicate Tabulates(entries: seq<Entry>, count: map<string, nat>, posts: map<string, seq<string>>)
  {
    && (forall c :: c in count <==> c in AllCategories(entries))
    && (forall c :: c in posts <==> c in AllCategories(entries))
    && (forall c :: c in count ==> count[c] == Occurrences(entries, c) && posts[c] == PostsOf(entries, c))
  }

  /** Listing one more category `c` for the last post adds one occurrence of `c` and the post once more to `c`'s list. */
  lemma ListOneMore(done: seq<Entry>, post: string, cats: seq<string>, c: string)
    ensures AllCategories(done + [Entry(post, cats + [c])]) == AllCategories(done + [Entry(post, cats)]) + [c]
    ensures forall k ::
      PostsOf(done + [Entry(post, cats + [c])], k) == PostsOf(done + [Entry(post, cats)], k) + (if k == c then [post] else [])
  {
    var before, after := done + [Entry(post, cats)], done + [Entry(post, cats + [c])];
    assert before[..|before| - 1] == done && after[..|after| - 1] == done;
    forall k
      ensures PostsOf(after, k) == PostsOf(before, k) + (if k == c then [post] else [])
    {
      assert multiset(cats + [c])[k] == multiset(cats)[k] + (if k == c then 1 else 0);
      if k == c {
        assert Repeat(post, multiset(cats)[k] + 1) == Repeat(post, multiset(cats)[k]) + [post];
      }
    }
  }

  /** A post that has not listed anything yet changes nothing. */
  lemma EmptyListing(done: seq<Entry>, post: string)
    ensures AllCategories(done + [Entry(post, [])]) == AllCategories(done)
    ensures forall k :: PostsOf(done + [Entry(post, [])], k) == PostsOf(done, k)
  {
    var after := done + [Entry(post, [])];
    assert after[..|after| - 1] == done;
  }

  /** One step of the inner loop keeps the table exact. */
  lemma TabulateStep(done: seq<Entry>, post: string, cats: seq<string>, c: string,
                     categoryCount: map<string, nat>, categoryPosts: map<string, seq<string>>)
    requires Tabulates(done + [Entry(post, cats)], categoryCount, categoryPosts)
    ensures Tabulates(done + [Entry(post, cats + [c])],
                      categoryCount[c := (if c in categoryCount then categoryCount[c] else 0) + 1],
                      categoryPosts[c := (if c in categoryPosts then categoryPosts[c] else []) + [post]])
  {
    var before, after := done + [Entry(post, cats)], done + [Entry(post, cats + [c])];
    var categoryCount' := categoryCount[c := (if c in categoryCount then categoryCount[c] else 0) + 1];
    var categoryPosts' := categoryPosts[c := (if c in categoryPosts then categoryPosts[c] else []) + [post]];
    ListOneMore(done, post, cats, c);
    var all, all' := AllCategories(before), AllCategories(after);
    assert all' == all + [c];
    forall k
      ensures (k in categoryCount' <==> k in all') && (k in categoryPosts' <==> k in all')
    {
      assert k in all' <==> k in all || k == c;
    }
    forall k | k in categoryCount'
      ensures categoryCount'[k] == Occurrences(after, k) && categoryPosts'[k] == PostsOf(after, k)
    {
      assert multiset(all')[k] == multiset(all)[k] + (if k == c then 1 else 0);
      if k == c && c !in categoryCount {
        assert c !in all;
      }
    }
  }

  /**
   * The counting loop of `analyze_categories`: `category_count[cat] += 1`
   * and `category_posts[cat].append(post)` for every category of every post.
   */
  method AnalyzeCategories(entries: seq<Entry>) returns (categoryCount: map<string, nat>, categoryPosts: map<string, seq<string>>)
    ensures forall c :: c in categoryCount <==> c in AllCategories(entries)
    ensures forall c :: c in categoryPosts <==> c in AllCategories(entries)
    ensures forall c :: c in categoryCount ==> categoryCount[c] == Occurrences(entries, c) && categoryPosts[c] == PostsOf(entries, c)
  {
    categoryCount, categoryPosts := map[], map[];
    for i := 0 to |entries|
      invariant Tabulates(entries[..i], categoryCount, categoryPosts)
    {
      var post, cats := entries[i].post, entries[i].cats;
      EmptyListing(entries[..i], post);
      assert cats[..0] == [];
      for j := 0 to |cats|
        invariant Tabulates(entries[..i] + [Entry(post, cats[..j])], categoryCount, categoryPosts)
      {
        var cat := cats[j];
        TabulateStep(entries[..i], post, cats[..j], cat, categoryCount, categoryPosts);
        assert cats[..j + 1] == cats[..j] + [cat];
        categoryCount := categoryCount[cat := (if cat in categoryCount then categoryCount[cat] else 0) + 1];
        categoryPosts := categoryPosts[cat := (if cat in categoryPosts then categoryPosts[cat] else []) + [post]];
      }
      assert cats[..|cats|] == cats;
      assert entries[..i + 1] == entries[..i] + [Entry(post, cats)];
    }
    assert entries[..|entries|] == entries;
  }

  /** The record `generate_category_json` keeps per category. */
  datatype CategoryInfo = CategoryInfo(count: nat, posts: seq<string>, description: string)

  /** The factory of `defaultdict`: the record a category gets on first use. */
  function NewInfo(): (r: CategoryInfo)
    ensures r.count == 0 && r.posts == [] && r.description == ""
  {
    CategoryInfo(0, [], "")
  }

  /** The fixed label-to-description table. */
  const Descriptions: map<string, string> := map[
    "Mathematics" := "Pure and applied mathematical concepts",
    "AI" := "Artificial Intelligence topics",
    "Machine Learning" := "ML algorithms and applications",
    "Deep Learning" := "Neural networks and deep architectures",
    "Philosophy" := "Philosophical implications of technology",
    "History" := "Historical perspectives on science and math",
    "Signal Processing" := "Signals, systems, and transformations"
  ]

  /** The description a category ends up with: its table entry, or the empty default. */
  function Describe(c: string): (r: string)
    ensures c in Descriptions ==> r == Descriptions[c]
    ensures r != "" <==> c in Descriptions
  {
    if c in Descriptions then Descriptions[c] else ""
  }

  /**
   * The counting loop of `generate_category_json`: each category's record is
   * created on first use, then its count is bumped and the post appended.
   */
  method TallyRecords(entries: seq<Entry>) returns (info: map<string, CategoryInfo>)
    ensures forall c :: c in info <==> c in AllCategories(entries)
    ensures forall c :: c in info ==>
      info[c] == CategoryInfo(Occurrences(entries, c), PostsOf(entries, c), "")
  {
    info := map[];
    ghost var count: map<string, nat> := map[];
    ghost var posts: map<string, seq<string>> := map[];
    for i := 0 to |entries|
      invariant Tabulates(entries[..i], count, posts)
      invariant info.Keys == count.Keys
      invariant forall c :: c in info ==> info[c] == CategoryInfo(count[c], posts[c], "")
    {
      var post, cats := entries[i].post, entries[i].cats;
      EmptyListing(entries[..i], post);
      assert cats[..0] == [];
      for j := 0 to |cats|
        invariant Tabulates(entries[..i] + [Entry(post, cats[..j])], count, posts)
        invariant info.Keys == count.Keys
        invariant forall c :: c in info ==> info[c] == CategoryInfo(count[c], posts[c], "")
      {
        var cat := cats[j];
        TabulateStep(entries[..i], post, cats[..j], cat, count, posts);
        assert cats[..j + 1] == cats[..j] + [cat];
        var record := if cat in info then info[cat] else NewInfo();
        info := info[cat := record.(count := record.count + 1, posts := record.posts + [post])];
        count := count[cat := (if cat in count then count[cat] else 0) + 1];
        posts := posts[cat := (if cat in posts then posts[cat] else []) + [post]];
      }
      assert cats[..|cats|] == cats;
      assert entries[..i + 1] == entries[..i] + [Entry(post, cats)];
    }
    assert entries[..|entries|] == entries;
  }

  /** The description loop: every record whose label the fixed table knows gets that description; the rest keep theirs. */
  method AddDescriptions(info0: map<string, CategoryInfo>) returns (info: map<string, CategoryInfo>)
    ensures info.Keys == info0.Keys
    ensures forall c :: c in info ==>
      info[c] == if c in Descriptions then info0[c].(description := Descriptions[c]) else info0[c]
  {
    info := info0;
    var pending := info.Keys;
    while pending != {}
      invariant pending <= info.Keys == info0.Keys
      invariant forall c :: c in info ==>
        info[c] == if c in Descriptions && c !in pending then info0[c].(description := Descriptions[c]) else info0[c]
      decreases pending
    {
      var cat :| cat in pending;
      if cat in Descriptions {
        info := info[cat := info[cat].(description := Descriptions[cat])];
      }
      pending := pending - {cat};
    }
  }

  /** `generate_category_json` up to the file write: the table that is serialised. */
  method GenerateCategoryInfo(entries: seq<Entry>) returns (info: map<string, CategoryInfo>)
    ensures forall c :: c in info <==> c in AllCategories(entries)
    ensures forall c :: c in info ==>
      info[c] == CategoryInfo(Occurrences(entries, c), PostsOf(entries, c), Describe(c))
  {
    info := TallyRecords(entries);
    info := AddDescriptions(info);
  }

  /**
   * The `used_categories` set of `check_config_categories`, filled post by
   * post: exactly the categories some post lists.
   */
  method UsedCategories(entries: seq<Entry>) returns (used: set<string>)
    ensures forall c :: c in used <==> exists i :: 0 <= i < |entries| && c in entries[i].cats
  {
    used := {};
    for i := 0 to |entries|
      invariant forall c :: c in used <==> exists k :: 0 <= k < i && c in entries[k].cats
    {
      used := used + set c | c in entries[i].cats;
    }
  }
}
