# Blog category manager, modelled in Dafny

`manage_categories.py` scans a Quarto blog's `posts` directory, reads the
YAML front matter of every post, and reports how the posts use their
`categories`: a frequency table, a cross-check against `#category=` links in
`_quarto.yml`, a split into main categories and tags with two keyword
groups, and an optional JSON export with a count, the posts and a fixed
description per category.

This project models the logic between the I/O calls:

- `Posts` — the collector filter of `get_all_posts` and its nested loops
  over the directory walk (the walk is an input), and `Path.stem`.
- `FrontMatter` — `extract_categories`: the header slice between a leading
  `---` and the next `---` at or after index 3, and the normalisation of the
  loaded `categories` value. The file read is an `Option<string>` and the
  YAML loader a function parameter `load: string -> LoadResult`.
- `Aggregate` — the counting loops of `analyze_categories` and
  `generate_category_json` over maps, the description loop, and the
  `used_categories` set.
- `Suggest` — the `Counter` key order, the main/tag partition at threshold
  2 and the mathematics and AI/ML keyword groups.
- `ConfigScan` — a hand-written left-to-right scanner for the
  `#category=<value>` references, and the used/unused status of each.
- `Strings`, `Wrappers` — Python's `in`, `startswith`, `endswith`, `find`,
  `rfind` on strings, and `Option`.

The loops are methods proved against specification functions: the table
after the loop equals `Occurrences(entries, c)` (the multiplicity of `c` in
the concatenation of all posts' lists) and `PostsOf(entries, c)` (the
posts, once per listing, in discovery order), and `|PostsOf| ==
Occurrences` is proved about those functions.

Notes on what the source does, which the model follows:

- A category's count is the number of times posts list it, not the number of distinct posts: the code does not de-duplicate.
- A `categories` value that is neither a string nor a list is returned unchanged, not coerced to a list.
- The header is empty only when the content starts with six dashes, because the closing delimiter is searched from index 3.

## Model

| member | source | states |
|---|---|---|
| `Posts.IsPost` | manage_categories.py:25-31 | the filter for one (directory, file) pair: the name ends in `.qmd`, does not start with `_`, and neither directory nor name contains TEMPLATE or EXAMPLE |
| `Posts.CollectPosts` | manage_categories.py:20-33 | the nested loops collect exactly the eligible files of the walk, in walk order, and each collected file passes the filter |
| `Posts.CollectedIff` | manage_categories.py:25-31 | a file is collected iff the walk lists it and its name ends in `.qmd`, does not start with `_`, and neither name nor directory contains TEMPLATE or EXAMPLE |
| `Posts.PostsInIff` | manage_categories.py:27-32 | within one directory, a file is kept iff it is listed there and passes the filter |
| `Posts.NothingFromExcludedRoot` | manage_categories.py:25-26 | a directory whose path mentions TEMPLATE or EXAMPLE contributes no post |
| `Posts.Stem` | manage_categories.py:75 | `post.stem`, cut at the last dot unless that dot is first or last, is a prefix of the name no longer than it |
| `Posts.StemOfPostName` | manage_categories.py:75 | a post's stem is its name without `.qmd`, except for a name that is `.qmd` alone |
| `Posts.PostPath.Text` | manage_categories.py:186 | the path text the export lists starts with the directory and ends with the file name |
| `Strings.Find` | manage_categories.py:43 | `find` returns the first occurrence at or after the start index, or -1 exactly when there is none |
| `FrontMatter.HeaderRegion` | manage_categories.py:42-45 | there is a header iff the content starts with `---` and `---` occurs at or after index 3; the header is `content[3:e]` for the first such `e` |
| `FrontMatter.HeaderHasNoDelimiter` | manage_categories.py:43-45 | the header text never contains `---` |
| `FrontMatter.EmptyHeaderIff` | manage_categories.py:43-45 | the header is empty iff the content starts with six dashes |
| `FrontMatter.Normalize` | manage_categories.py:46-60 | a string becomes the one-element list, a list is kept, an absent key gives `[]`; drafts, parse failures and non-mapping documents give `[]`; only a non-draft non-list value passes through |
| `FrontMatter.ExtractCategories` | manage_categories.py:35-60 | unreadable files and files with a missing or unclosed header give `[]`; a closed non-draft header declaring a string `s` gives exactly `[s]` and one declaring a list gives exactly that list; a non-empty result comes only from a non-draft mapping; the value is passed back unlisted iff a closed non-draft header declares a `categories` value that is not a string or a list |
| `FrontMatter.ExtractAll` | manage_categories.py:71-73 | one entry per post in order with its extracted list; the run fails iff some post's `categories` is not a list |
| `Aggregate.AllCategoriesIff` | manage_categories.py:143-145 | a category occurs in the run iff some post lists it |
| `Aggregate.NoCategoriesIff` | manage_categories.py:77-79 | no category occurs, so the table is empty and the report stops early, iff every post's list is empty |
| `Aggregate.PostsOf` | manage_categories.py:75 | a category's post list has exactly one element per occurrence of the category |
| `Aggregate.ListedInPostsOf` | manage_categories.py:73-75 | every post that lists a category appears in that category's list |
| `Aggregate.PostsOfListed` | manage_categories.py:73-75 | every post in a category's list is a post that lists the category |
| `Aggregate.TabulateStep` | manage_categories.py:73-75 | one `+= 1` / `append` step keeps count and post list exact for every category |
| `Aggregate.AnalyzeCategories` | manage_categories.py:71-79 | after the loop the keys are exactly the categories used; each count is the number of occurrences, duplicates included; each post list holds the contributing posts in iteration order |
| `Aggregate.TallyRecords` | manage_categories.py:180-186 | the export's records hold, per category used, its occurrence count and its posts in order |
| `Aggregate.Describe` | manage_categories.py:189-201 | a category's description is the fixed table's entry, and is non-empty iff the table has the category |
| `Aggregate.AddDescriptions` | manage_categories.py:199-201 | the description loop changes exactly the descriptions of labels in the fixed table and keeps the keys |
| `Aggregate.GenerateCategoryInfo` | manage_categories.py:177-201 | the exported table maps each used category to its count, its posts in order and its description |
| `Aggregate.UsedCategories` | manage_categories.py:110-113 | the used set holds exactly the categories some post lists |
| `Suggest.Distinct` | manage_categories.py:147 | the counter's keys are the run's categories, each once, in the order of their first occurrence |
| `Suggest.MainCategories` | manage_categories.py:150-152 | a category is main iff it is listed at least twice; none appears twice |
| `Suggest.Tags` | manage_categories.py:153 | a category is a tag iff it is listed exactly once; none appears twice |
| `Suggest.Partition` | manage_categories.py:150-153 | main categories are those listed at least twice, tags those listed once; the two are disjoint and together cover every category |
| `Suggest.MathGroup` | manage_categories.py:169 | the mathematics group is every used category mentioning Math, Algebra or Calculus, once each, in first-seen order |
| `Suggest.AiGroup` | manage_categories.py:170 | the AI/ML group is every used category mentioning AI, Learning or Neural, once each, in first-seen order |
| `ConfigScan.Scan` | manage_categories.py:123 | the values `findall` returns from a position on: at a marker followed by a value character take the greedy value and continue after it, otherwise move one character on |
| `ConfigScan.ValueEnd` | manage_categories.py:123 | a value runs to the first whitespace or quote character, or to the end |
| `ConfigScan.ScanValuesWellFormed` | manage_categories.py:123 | every value found is non-empty, has no whitespace or quote, and stands whole right after `#category=` |
| `ConfigScan.ScanEmptyIff` | manage_categories.py:121-123 | the scan finds nothing iff no `#category=` followed by a value character occurs |
| `ConfigScan.GuardIsRedundant` | manage_categories.py:121 | without `#category=` in the text the scan is empty, so the guard changes nothing |
| `ConfigScan.ScanConfig` | manage_categories.py:121-124 | the scanner loop yields exactly the specified sequence of values, each well formed and found right after a marker |
| `ConfigScan.CheckConfigCategories` | manage_categories.py:104-132 | the status table has one key per distinct referenced value, marked used iff some post lists it; an unreadable configuration gives no keys |

## Left out

- The directory walk (`os.walk`), opening and reading files, and writing the JSON file: the walk's entries and each file's text are inputs, and a failed read is `None`.
- `yaml.safe_load` is the `load` parameter; the truthiness of `draft` is given as a boolean.
- FrontMatter.Normalize: items of a `categories` list are taken to be strings; a list holding numbers or other values is not modelled.
- FrontMatter.ExtractAll: every non-string, non-list `categories` value is treated as making the callers fail; a mapping value, whose keys the callers would iterate, is not told apart.
- The `re` engine: the scanner is written directly and proved against its own specification, `Scan`.
- `Counter.most_common` ordering and the most- and least-used lines built from it.
- The average categories per post, which uses floating-point division.
- All printing: the tables, emoji, column padding, the alphabetical `sorted` used only for display, and the error message printed when a file fails.
- `json.dump` serialisation, the output path, and the `sys.argv` dispatch in `main`.
- Posts.PostPath.Text: joins directory and name with `/` and does not model `pathlib`'s normalisation of the directory path.
- Each report walks and reads the posts again; the model takes the extracted entries once per report.
