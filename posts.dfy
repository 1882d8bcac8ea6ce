/**
 * The collector: which files of the posts directory count as blog posts
 * (`get_all_posts`), and the short name under which a post is reported.
 * The directory walk itself is an input: one entry per directory visited,
 * in the order the walk yields them, with the file names it lists there.
 */
module Posts {
  import opened Strings

  /** One directory visited by the walk: its path and the names of its files. */
  datatype WalkEntry = WalkEntry(root: string, files: seq<string>)

  /** A collected post, `Path(root) / name`. */
  datatype PostPath = PostPath(root: string, name: string)
  {
    /** `str(Path(root) / name)`, the form the JSON export lists. */
    function Text(): (r: string)
      ensures StartsWith(r, root) && EndsWith(r, name)
    {
      root + "/" + name
    }
  }

  const Extension := ".qmd"

  /** A directory whose path mentions a template or example marker is skipped whole. */
  predicate ExcludedRoot(root: string)
  {
    Contains(root, "TEMPLATE") || Contains(root, "EXAMPLE")
  }

  /** A file name that the collector keeps, once its directory is not excluded. */
  predicate IsPostName(name: string)
  {
    EndsWith(name, Extension) && !StartsWith(name, "_")
    && !Contains(name, "TEMPLATE") && !Contains(name, "EXAMPLE")
  }

  /** The filter of `get_all_posts`, applied to one (directory, file name) pair. */
  predicate IsPost(root: string, name: string)
  {
    !ExcludedRoot(root) && IsPostName(name)
  }

  /** The posts among `files`, all in directory `root`, in listing order. */
  function PostsIn(root: string, files: seq<string>): (r: seq<PostPath>)
    ensures |r| <= |files|
    ensures forall p :: p in r ==> p.root == root && p.name in files && IsPost(root, p.name)
  {
    if files == [] then []
    else
      var last := files[|files| - 1];
      PostsIn(root, files[..|files| - 1]) + (if IsPost(root, last) then [PostPath(root, last)] else [])
  }

  /** Every post of the walk, directory by directory, in the order the walk lists them. */
  function Eligible(walk: seq<WalkEntry>): (r: seq<PostPath>)
  {
    if walk == [] then []
    else Eligible(walk[..|walk| - 1]) + PostsIn(walk[|walk| - 1].root, walk[|walk| - 1].files)
  }

  /** The walk lists file `name` in directory `root`. */
  predicate Listed(walk: seq<WalkEntry>, root: string, name: string)
  {
    exists i :: 0 <= i < |walk| && walk[i].root == root && name in walk[i].files
  }

  /** `get_all_posts`: the nested loops that append each eligible file. */
  method CollectPosts(walk: seq<WalkEntry>) returns (posts: seq<PostPath>)
    ensures posts == Eligible(walk)
    ensures forall p :: p in posts ==> IsPost(p.root, p.name)
  {
    posts := [];
    for i := 0 to |walk|
      invariant posts == Eligible(walk[..i])
    {
      var root, files := walk[i].root, walk[i].files;
      assert walk[..i + 1][..i] == walk[..i];
      if !ExcludedRoot(root) {
        for j := 0 to |files|
          invariant posts == Eligible(walk[..i]) + PostsIn(root, files[..j])
        {
          assert files[..j + 1][..j] == files[..j];
          var name := files[j];
          if EndsWith(name, Extension) && !StartsWith(name, "_") {
            if !(Contains(name, "TEMPLATE") || Contains(name, "EXAMPLE")) {
              posts := posts + [PostPath(root, name)];
            }
          }
        }
        assert files[..|files|] == files;
      } else {
        NothingFromExcludedRoot(root, files);
      }
    }
    assert walk[..|walk|] == walk;
    EligibleArePosts(walk);
  }

  lemma {:induction false} NothingFromExcludedRoot(root: string, files: seq<string>)
    requires ExcludedRoot(root)
    ensures PostsIn(root, files) == []
  {
    if files != [] {
      NothingFromExcludedRoot(root, files[..|files| - 1]);
    }
  }

  lemma {:induction false} EligibleArePosts(walk: seq<WalkEntry>)
    ensures forall p :: p in Eligible(walk) ==> IsPost(p.root, p.name)
  {
    if walk != [] {
      EligibleArePosts(walk[..|walk| - 1]);
    }
  }

  /** A file in directory `root` is among `PostsIn(root, files)` exactly when it is listed and passes the filter. */
  lemma {:induction false} PostsInIff(root: string, files: seq<string>, name: string)
    ensures PostPath(root, name) in PostsIn(root, files) <==> name in files && IsPost(root, name)
  {
    if files != [] {
      PostsInIff(root, files[..|files| - 1], name);
      assert files == files[..|files| - 1] + [files[|files| - 1]];
    }
  }

  /**
   * A file is collected exactly when the walk lists it and the filter
   * accepts it: the name ends in `.qmd`, does not start with `_`, and
   * neither the directory path nor the name mentions TEMPLATE or EXAMPLE.
   */
  lemma {:induction false} CollectedIff(walk: seq<WalkEntry>, p: PostPath)
    ensures p in Eligible(walk) <==> Listed(walk, p.root, p.name) && IsPost(p.root, p.name)
  {
    if walk != [] {
      var init, last := walk[..|walk| - 1], walk[|walk| - 1];
      CollectedIff(init, p);
      PostsInIff(last.root, last.files, p.name);
      if Listed(walk, p.root, p.name) {
        var i :| 0 <= i < |walk| && walk[i].root == p.root && p.name in walk[i].files;
        if i < |walk| - 1 {
          assert init[i] == walk[i];
        }
      }
      if Listed(init, p.root, p.name) {
        var i :| 0 <= i < |init| && init[i].root == p.root && p.name in init[i].files;
        assert walk[i] == init[i];
      }
    }
  }

  /** `Path.stem`: the name without its last suffix; a leading dot does not start a suffix. */
  function Stem(name: string): (r: string)
    ensures |r| <= |name| && StartsWith(name, r)
  {
    var i := RFind(name, '.');
    if 0 < i < |name| - 1 then name[..i] else name
  }

  /** The stem of a post's name drops exactly the `.qmd` extension, unless the name is `.qmd` itself. */
  lemma StemOfPostName(name: string)
    requires EndsWith(name, Extension)
    ensures |name| > |Extension| ==> Stem(name) + Extension == name
    ensures |name| == |Extension| ==> Stem(name) == name
  {
    assert name[|name| - 4] == '.';
    assert forall j :: |name| - 4 < j < |name| ==> name[j] != '.' by {
      assert name[|name| - 4..] == ".qmd";
    }
  }
}
