# Diagram index builder, modelled in Dafny

`scripts/generate-diagram-index.py` generates the diagram data and pages of a
Jekyll site. It scans the directory `40-resources/diagrams` for draw.io files.
It builds one record per file, merging a curated metadata table (`DIAGRAM_INFO`) with
defaults derived from the file name. It attaches the PNG, SVG and thumbnail
assets that exist and sorts the records by id. It then writes one markdown page
per record and groups the records by category. The records and the groups go
to two YAML data files, `_data/diagrams.yml` and `_data/diagram_categories.yml`.

This project models that script as imperative Dafny. The modules are:

- `Text`: the Python string built-ins the generator relies on. These are
  `str.replace`, `str.title`, `str.join`, the ordering of `str` and the `repr`
  of a list of strings.
- `DiagramModel`: the configuration constants and the curated table with its
  default record. It also holds the record datatype and `DiagramFor`, which
  specifies the record one pass of the scanning loop builds.
- `DiagramScan`: `scan_diagrams` as a method. `DiagramsFor` lists, in file
  order, the record of each globbed file; it is the specification the scanning
  loop is held to. A `for` loop builds the records key by key. Then a sort by
  id orders them. The sort is an insertion sort, specified as sorted and a
  permutation.
- `DiagramPages`: `generate_individual_pages`.
  - `RenderPage` builds a page by appending pieces, exactly as the script does.
    It is proved equal to `PageText`.
  - `PageTextIsRender` proves that text equal to the rendering of the page's
    list of pieces.
  - `GeneratePages` returns the page files in the order they are written.
- `DiagramCategories`: the grouping loop of `main`. It updates a map and its
  insertion order in place, and is proved equal to a functional `Grouping`.
- `DiagramIndex`: `main`, composing the three.

The filesystem is an input. It is given as three things:

- whether the source directory exists;
- the names the directory lists, in an order that is left arbitrary;
- the set of asset paths that exist.

The files the script writes are returned as values: the records and groups it
hands to the YAML writer, and a sequence of `(path, content)` page writes.

Ids need not be unique. The code removes *every* `.drawio` from the name, so
`a.drawio.drawio` and `a.drawio` share the id `a`
(`DiagramModel.DistinctNamesMayShareId`). Ids are distinct among names that
hold `.drawio` once, as their suffix (`DiagramModel.SimpleNamesHaveDistinctIds`).

## Model

| member | source | states |
|---|---|---|
| `DiagramModel.IdentityFields` | scripts/generate-diagram-index.py:71-97 | the id is the file name with every ".drawio" removed; url is "/diagrams/<id>/"; source_file is "40-resources/diagrams/<file>"; drawio is "/" + source_file and never empty |
| `DiagramModel.SimpleNameId` | scripts/generate-diagram-index.py:72 | for a name holding ".drawio" only as its suffix, id + ".drawio" is the name |
| `DiagramModel.SimpleNamesHaveDistinctIds` | scripts/generate-diagram-index.py:72 | two different names of that form get different ids |
| `DiagramModel.DistinctNamesMayShareId` | scripts/generate-diagram-index.py:72 | "a.drawio.drawio" and "a.drawio" both get id "a" |
| `DiagramModel.CuratedMetadata` | scripts/generate-diagram-index.py:75-94 | a file named in the table takes exactly that entry's title, description, category, complexity and tags |
| `DiagramModel.DefaultMetadata` | scripts/generate-diagram-index.py:75-81 | any other file: title has the id's length and is, position by position, the title-casing of the id with '-' as ' '; description "Architecture diagram: <id>", category "General", complexity "Medium", tags ["Architecture"] |
| `DiagramModel.AssetFields` | scripts/generate-diagram-index.py:84-104 | png is present iff diagrams/assets/png/<id>.png exists, and is then "/diagrams/assets/png/<id>.png"; the same for svg |
| `DiagramModel.AssetPaths` | scripts/generate-diagram-index.py:84-86 | the PNG, SVG and thumbnail of id <id> are looked for at "diagrams/assets/png/<id>.png", "diagrams/assets/svg/<id>.svg" and "diagrams/assets/png/<id>_thumb.png" |
| `DiagramModel.ThumbnailFallback` | scripts/generate-diagram-index.py:86-108 | thumbnail is never empty; it is the thumbnail asset if that exists, otherwise the png value if present, otherwise "/assets/img/diagram-placeholder.png" |
| `Text.RemoveSoleSuffix` | scripts/generate-diagram-index.py:72 | removing a pattern that occurs only as the suffix leaves the part before it |
| `Text.ReplaceCharAt` | scripts/generate-diagram-index.py:76 | replacing one character by another keeps the length and changes exactly the positions holding the old one |
| `Text.TitleFrom` | scripts/generate-diagram-index.py:76 | title-casing keeps the length; a cased character is upper-cased after an uncased one and lower-cased after a cased one |
| `Text.TitleAt` | scripts/generate-diagram-index.py:76 | the title-casing rule at each position of `Title(s)` |
| `Text.Quoted` | scripts/generate-diagram-index.py:123 | each tag of the front matter's list repr is single-quoted |
| `Text.StrLeTotal` | scripts/generate-diagram-index.py:112 | the string order used to sort ids is total |
| `Text.StrLeTransitive` | scripts/generate-diagram-index.py:112 | the string order is transitive |
| `Text.StrLeAntisymmetric` | scripts/generate-diagram-index.py:112 | the string order is antisymmetric |
| `DiagramScan.Glob` | scripts/generate-diagram-index.py:70 | a name is among the files scanned iff it is a directory entry ending in ".drawio"; there are no more files than entries |
| `DiagramScan.GlobCounts` | scripts/generate-diagram-index.py:70 | each entry ending in ".drawio" is scanned exactly as many times as it is listed, and no other entry is scanned |
| `DiagramScan.GlobInListingOrder` | scripts/generate-diagram-index.py:70 | the scanned files are the ".drawio" entries in listing order: the j-th file is the entry at the j-th of strictly increasing positions, which are exactly the ".drawio" entries |
| `DiagramScan.ScanFile` | scripts/generate-diagram-index.py:71-108 | one pass of the scanning loop, adding the asset keys one by one, builds exactly the record `DiagramFor` specifies for that file |
| `DiagramScan.InsertById` | scripts/generate-diagram-index.py:112 | inserting into a list sorted by id keeps it sorted and adds exactly that record |
| `DiagramScan.SortById` | scripts/generate-diagram-index.py:112 | the result is non-decreasing by id and a permutation of the input |
| `DiagramScan.ScanDiagrams` | scripts/generate-diagram-index.py:62-112 | no records when the source directory is missing; otherwise the records sorted by id, a permutation of one record per scanned file, as many records as scanned files (with `GlobCounts`, one per listed ".drawio" entry) |
| `DiagramScan.ScannedRecordsComeFromFiles` | scripts/generate-diagram-index.py:70-112 | every scanned record is the record of some ".drawio" entry, and every such entry's record is among them |
| `DiagramCategories.GroupByCategory` | scripts/generate-diagram-index.py:282-292 | the in-place loop yields exactly `Grouping(ds)`, and every group's count is the length of its id list |
| `DiagramCategories.PrefixStep` | scripts/generate-diagram-index.py:283-292 | one more record adds its category to the key order iff it is new, creates an empty group for a new category, and appends its id and adds one to the count of its own group only |
| `DiagramCategories.FirstOccurrencesMembers` | scripts/generate-diagram-index.py:285-290 | the keys are exactly the categories seen, each once |
| `DiagramCategories.FirstOccurrencesOrdered` | scripts/generate-diagram-index.py:285-290 | the keys are in order of each category's first occurrence |
| `DiagramCategories.GroupNames` | scripts/generate-diagram-index.py:282-296 | one group per distinct category of the records, no name twice, in order of first occurrence |
| `DiagramCategories.IdsInMembers` | scripts/generate-diagram-index.py:291 | an id is in a category's list iff some record of that category has it |
| `DiagramCategories.IdsInAbsent` | scripts/generate-diagram-index.py:285-290 | a category no record has has no ids |
| `DiagramCategories.RecordInItsGroup` | scripts/generate-diagram-index.py:284-291 | every record's id is in the group named by its category |
| `DiagramCategories.PositionsIn` | scripts/generate-diagram-index.py:283-284 | the positions of a category's records, increasing, and exactly those positions |
| `DiagramCategories.GroupInRecordOrder` | scripts/generate-diagram-index.py:291 | a group's j-th id is the id of the j-th record of that category |
| `DiagramCategories.GroupsPartitionIds` | scripts/generate-diagram-index.py:282-292 | the groups' id lists taken together are a permutation of all record ids |
| `DiagramPages.RenderPage` | scripts/generate-diagram-index.py:117-258 | the page built by appending is `PageText`: intro, image if png, the actions opening, PNG, SVG and source links each if present, then the tail |
| `DiagramPages.PageTextIsRender` | scripts/generate-diagram-index.py:117-258 | the page text is the text of its pieces, in order |
| `DiagramPages.RenderOptional` | scripts/generate-diagram-index.py:143-162 | an optional piece contributes its text when the record has the asset and nothing otherwise |
| `DiagramPages.PageBlockMembers` | scripts/generate-diagram-index.py:117-258 | the pieces of a page are exactly the intro, the image if png, the actions opening, the links for the assets present, and the tail |
| `DiagramPages.PageLinksMatchRecord` | scripts/generate-diagram-index.py:143-162 | the page has an image iff the record has a (non-empty) png, with the png as source and the title as alt text; a PNG, SVG or source link iff the record has that field non-empty, linking to it; no link is empty |
| `DiagramPages.ScannedPageLinks` | scripts/generate-diagram-index.py:143-162 | for a scanned record: image and PNG link iff the PNG asset exists, SVG link iff the SVG asset exists, the source link always |
| `DiagramPages.PageShowsBlocks` | scripts/generate-diagram-index.py:117-258 | the text of every piece of a page is a substring of the page |
| `DiagramPages.PageFrontMatter` | scripts/generate-diagram-index.py:117-141 | the page opens with its front matter, holds "permalink: /diagrams/<id>/" and the Tags line of the tags joined by ", " |
| `DiagramPages.DefaultPageTags` | scripts/generate-diagram-index.py:75-135 | the page of a file missing from the curated table has the Tags line "- **Tags**: Architecture" |
| `DiagramPages.PageEndsWithTail` | scripts/generate-diagram-index.py:164-258 | every page ends with the fixed tail |
| `DiagramPages.GeneratePages` | scripts/generate-diagram-index.py:114-261 | one write per record, in record order, to "diagrams/pages/<id>.md" with that record's page |
| `DiagramIndex.Generate` | scripts/generate-diagram-index.py:266-296 | the data records are the sorted scan; one page per record; the category data is their grouping, whose ids are a permutation of the records' ids |

## Left out

- File writes, `os.makedirs` and `ensure_directories` (scripts/generate-diagram-index.py:57-60, 262-263) are not modelled. They are I/O: the pages are returned as `(path, content)` writes, and the data files as the values handed to the writer.
- `yaml.dump` is a foreign library; its serialisation of the records and groups is not modelled.
- The `print` messages of `main` and the warning of `scan_diagrams` are console output and are not modelled.
- `Path.glob` is an input: the directory's entry names, in an arbitrary order. The filter is the name ending in ".drawio", so names that are directories or start with a dot are treated as files.
- `Text.TitleFrom`: only the ASCII letters are cased. Python's `str.title` also cases other Unicode letters, which the model does not tabulate.
- `Text.Quoted`: the list repr is modelled for tags without quote characters, backslashes or unprintable characters, for which Python picks other quoting or escapes.
- `DiagramPages.PageShowsBlocks`: states that the text of each piece present is in the page. It does not state that the text of an absent piece is missing, because titles and descriptions are free text that may hold the same characters. That direction is stated on the pieces (`PageLinksMatchRecord`).
- `DiagramPages.PageText`: the fixed tail of a page (the editing help, the Liquid "Related Diagrams" template and the style sheet, scripts/generate-diagram-index.py:164-258) is a parameter treated as an opaque string. `DiagramPages.PageTail` holds its exact text, and `DiagramIndex.Generate` passes that. The template's comparison of `item.id` with `page.title`, and its literal `{{`/`}}`, are kept as they are.
- `scripts/convert-drawio-free.py` and `scripts/convert-drawio-simple.py` are not part of this model. They drive external converters, draw images and write placeholder files.
- `scripts/integration_tests/check_site.py` is not part of this model. It is an HTTP client with retries and timeouts.
