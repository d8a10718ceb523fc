/**
 * `main`: scan the diagrams, write their pages and group them by category.
 * The two data files are returned as the values `main` passes to the YAML
 * writer.
 */
module DiagramIndex {
  import opened DiagramModel
  import opened DiagramScan
  import opened DiagramPages
  import opened DiagramCategories

  /**
   * What one run produces: the records dumped to `_data/diagrams.yml`, the
   * page files in the order they are written, and the groups dumped to
   * `_data/diagram_categories.yml`.
   */
  datatype Index = Index(diagrams: seq<Diagram>, pages: seq<PageWrite>, categories: seq<CategoryGroup>)

  /**
   * One run of the generator over a source directory that exists or not,
   * lists `entries` and whose generated assets are `assets`.
   */
  method Generate(sourceExists: bool, entries: seq<string>, assets: set<string>) returns (index: Index)
    ensures !sourceExists ==> index == Index([], [], [])
    ensures sourceExists ==> SortedById(index.diagrams)
    ensures sourceExists ==> multiset(index.diagrams) == multiset(DiagramsFor(Glob(entries), assets, DiagramInfo))
    ensures |index.pages| == |index.diagrams|
    ensures forall i :: 0 <= i < |index.diagrams| ==>
      index.pages[i] == PageWrite("diagrams/pages/" + index.diagrams[i].id + ".md",
                                  PageText(index.diagrams[i], PageTail))
    ensures index.categories == Grouping(index.diagrams)
    ensures multiset(AllGroupIds(index.categories)) == multiset(Ids(index.diagrams))
  {
    var diagrams := ScanDiagrams(sourceExists, entries, assets, DiagramInfo);
    var pages := GeneratePages(diagrams, PageTail);
    var categories := GroupByCategory(diagrams);
    GroupsPartitionIds(diagrams);
    if !sourceExists {
      assert Categories(diagrams) == [];
    }
    index := Index(diagrams, pages, categories);
  }
}
