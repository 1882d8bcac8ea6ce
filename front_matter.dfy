/**
 * Category extraction (`extract_categories`): find the header between a
 * leading `---` and the next `---`, hand its text to the YAML loader, and
 * turn the loaded `categories` value into a list. The file read and the
 * YAML loader are inputs: the read is `None` when it fails, and the loader
 * is a function from header text to what it produces.
 */
module FrontMatter {
  import opened Wrappers
  import opened Strings
  import opened Posts

  /** The shapes a loaded `categories` value can take. `Other` is any value that is not a string or a list (a number, null, a mapping). */
  datatype CategoriesValue = Absent | Str(s: string) | List(items: seq<string>) | Other

  /** What the loader returns: a mapping with the two keys that matter (`draft` already read for truthiness), or any non-mapping document. */
  datatype Metadata = Mapping(categories: CategoriesValue, draft: bool) | NotMapping

  /** A loader call either produces a document or raises. */
  datatype LoadResult = Loaded(meta: Metadata) | ParseError

  /**
   * What `extract_categories` hands back: a list of categories, or, when the
   * `categories` value was neither a string nor a list, that value itself
   * (the callers then fail when they iterate over it).
   */
  datatype Extracted = Categories(list: seq<string>) | NotAList

  /** A post's short identifier with the categories extracted from it. */
  datatype Entry = Entry(post: string, cats: seq<string>)

  const Delimiter := "---"

  /**
   * The header text, `content[3:yaml_end]` where `yaml_end` is the first
   * `---` at or after index 3, or `None` when the content does not start
   * with `---` or the header is never closed.
   */
  function HeaderRegion(content: string): (r: Option<string>)
    ensures r.None? <==> !StartsWith(content, Delimiter) || forall j :: 3 <= j ==> !IsAt(content, Delimiter, j)
    ensures r.Some? ==> StartsWith(content, Delimiter) && 3 + |r.value| <= |content|
    ensures r.Some? ==> r.value == content[3..3 + |r.value|] && IsAt(content, Delimiter, 3 + |r.value|)
    ensures r.Some? ==> forall j :: 3 <= j < 3 + |r.value| ==> !IsAt(content, Delimiter, j)
  {
    if StartsWith(content, Delimiter) then
      var yamlEnd := Find(content, Delimiter, 3);
      if yamlEnd != -1 then Some(content[3..yamlEnd]) else None
    else None
  }

  /** The header never contains the closing delimiter. */
  lemma HeaderHasNoDelimiter(content: string)
    requires HeaderRegion(content).Some?
    ensures !Contains(HeaderRegion(content).value, Delimiter)
  {
    var h := HeaderRegion(content).value;
    if Contains(h, Delimiter) {
      var k :| 0 <= k <= |h| - |Delimiter| && IsAt(h, Delimiter, k);
      assert h == content[3..3 + |h|];
      IsAtSlice(content, Delimiter, 3, 3 + |h|, k);
      assert false;
    }
  }

  /** The header is empty exactly when the content starts with six dashes. */
  lemma EmptyHeaderIff(content: string)
    ensures HeaderRegion(content) == Some("") <==> StartsWith(content, "------")
  {
    if StartsWith(content, "------") {
      assert content[..3] == "---" && content[3..6] == "---";
      assert IsAt(content, Delimiter, 3);
    }
    if HeaderRegion(content) == Some("") {
      assert content[..3] == "---" && content[3..6] == "---";
      assert content[..6] == content[..3] + content[3..6];
    }
  }

  /** The category list a loaded header yields, before the caller sees it. */
  function Normalize(load: LoadResult): (r: Extracted)
    // A parse failure, or a document that is not a mapping, yields no categories.
    ensures load.ParseError? || load.meta.NotMapping? ==> r == Categories([])
    // A draft yields no categories, whatever it declares.
    ensures load.Loaded? && load.meta.Mapping? && load.meta.draft ==> r == Categories([])
    // Only a non-draft mapping whose value is neither string, list nor absent passes through.
    ensures r.NotAList? <==> load == Loaded(Mapping(Other, false))
    // Otherwise a non-draft mapping: a string becomes a one-element list, a list is kept, no key is the empty list.
    ensures load == Loaded(Mapping(Absent, false)) ==> r == Categories([])
    ensures forall s :: load == Loaded(Mapping(Str(s), false)) ==> r == Categories([s])
    ensures forall xs :: load == Loaded(Mapping(List(xs), false)) ==> r == Categories(xs)
  {
    match load
    case ParseError => Categories([])
    case Loaded(NotMapping) => Categories([])
    case Loaded(Mapping(value, draft)) =>
      var categories := match value
        case Absent => Categories([])
        case Str(s) => Categories([s])
        case List(xs) => Categories(xs)
        case Other => NotAList;
      if draft then Categories([]) else categories
  }

  /** The header text of a readable file, if it has a closed header. */
  function HeaderOf(content: Option<string>): Option<string>
  {
    if content.None? then None else HeaderRegion(content.value)
  }

  /** `extract_categories`, given the result of reading the file and the loader. */
  function ExtractCategories(content: Option<string>, load: string -> LoadResult): (r: Extracted)
    // An unreadable file, a file without a header and a file whose header is not closed yield no categories.
    ensures HeaderOf(content).None? ==> r == Categories([])
    // Categories come only from a non-draft mapping loaded from the header.
    ensures r != Categories([]) ==>
      HeaderOf(content).Some? && load(HeaderOf(content).value).Loaded? &&
      load(HeaderOf(content).value).meta.Mapping? && !load(HeaderOf(content).value).meta.draft
    // Every category returned is one the header declares.
    ensures r.Categories? && r.list != [] ==>
      match load(HeaderOf(content).value).meta.categories
      case Str(s) => r.list == [s]
      case List(xs) => r.list == xs
      case _ => false
    // A closed header whose document declares a string yields exactly that one-element list.
    ensures forall s :: HeaderOf(content).Some? && load(HeaderOf(content).value) == Loaded(Mapping(Str(s), false)) ==>
      r == Categories([s])
    // A closed header whose document declares a list yields exactly that list.
    ensures forall xs :: HeaderOf(content).Some? && load(HeaderOf(content).value) == Loaded(Mapping(List(xs), false)) ==>
      r == Categories(xs)
    // The value is passed back unlisted exactly when a non-draft header declares something that is neither.
    ensures r.NotAList? <==> HeaderOf(content).Some? && load(HeaderOf(content).value) == Loaded(Mapping(Other, false))
  {
    match HeaderOf(content)
    case None => Categories([])
    case Some(header) => Normalize(load(header))
  }

  /**
   * The extraction step of a whole run: one entry per post, in order, with
   * the identifier the report uses. `None` when some post's `categories`
   * value is not a list, which makes the callers' loops fail.
   */
  function ExtractAll(posts: seq<PostPath>, read: PostPath -> Option<string>,
                      load: string -> LoadResult, id: PostPath -> string): (r: Option<seq<Entry>>)
    ensures r.None? <==> exists i :: 0 <= i < |posts| && ExtractCategories(read(posts[i]), load).NotAList?
    ensures r.Some? ==> |r.value| == |posts|
    ensures r.Some? ==> forall i :: 0 <= i < |posts| ==>
      r.value[i] == Entry(id(posts[i]), ExtractCategories(read(posts[i]), load).list)
  {
    if posts == [] then Some([])
    else
      var init := posts[..|posts| - 1];
      var last := posts[|posts| - 1];
      assert forall i :: 0 <= i < |init| ==> init[i] == posts[i];
      match ExtractAll(init, read, load, id)
      case None => None
      case Some(entries) =>
        match ExtractCategories(read(last), load)
        case NotAList => None
        case Categories(cats) => Some(entries + [Entry(id(last), cats)])
  }
}
