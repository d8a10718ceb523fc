/**
 * `generate_individual_pages`: the markdown page of one diagram, built by
 * appending fixed and record-dependent pieces, with the image and the download
 * links only for the assets the record has.
 */
module DiagramPages {
  import opened Text
  import opened DiagramModel

  /** `if diagram.get(key):` on an optional string key: present and non-empty. */
  predicate Truthy(o: Option<string>)
  {
    o.Some? && o.value != ""
  }

  datatype AssetKind = PngAsset | SvgAsset | SourceAsset

  /** The pieces a page is appended from, in the order they are appended. */
  datatype Block =
    | Intro(diagram: Diagram)                  // front matter, heading, details, opening of the viewer
    | ImageTag(src: string, alt: string)
    | ActionsOpen                              // closes the image column, opens the download list
    | DownloadLink(kind: AssetKind, href: string)
    | Closing(text: string)                    // the editing help, related diagrams and style

  // ---------------------------------------------------------------------
  // The text of each piece.

  function PermalinkLine(id: string): string
  {
    "permalink: /diagrams/" + id + "/\n"
  }

  function TagsLine(tags: seq<string>): string
  {
    "- **Tags**: " + Join(tags, ", ") + "\n"
  }

  /** The front matter the site generator reads. */
  function FrontMatter(d: Diagram): string
  {
    "---\nlayout: diagram\ntitle: \"" + d.title + "\"\ndescription: \"" + d.description +
    "\"\ncategory: \"" + d.category + "\"\ncomplexity: \"" + d.complexity +
    "\"\ntags: " + ListRepr(d.tags) + "\n" + PermalinkLine(d.id) + "---\n"
  }

  /** The heading, the description, the details list and the opening of the viewer. */
  function Details(d: Diagram): string
  {
    "\n# " + d.title + "\n\n" + d.description + "\n\n## Diagram Details\n\n- **Category**: " +
    d.category + "\n- **Complexity**: " + d.complexity + "\n" + TagsLine(d.tags) +
    "\n## View Options\n\n<div class=\"diagram-viewer\">\n  <div class=\"diagram-image\">\n"
  }

  function ImageTagText(src: string, alt: string): string
  {
    "    <img src=\"" + src + "\" alt=\"" + alt +
    "\" style=\"max-width: 100%; height: auto; border: 1px solid #ddd; border-radius: 8px;\">\n"
  }

  const ActionsOpenText: string :=
    "  </div>\n  \n  <div class=\"diagram-actions\">\n    <h3>Download Options</h3>\n    <div class=\"download-buttons\">\n"

  function ButtonClass(kind: AssetKind): string
  {
    match kind
    case PngAsset => "btn-primary"
    case SvgAsset => "btn-secondary"
    case SourceAsset => "btn-outline"
  }

  function ButtonLabel(kind: AssetKind): string
  {
    match kind
    case PngAsset => "Download PNG"
    case SvgAsset => "Download SVG"
    case SourceAsset => "Download Source (.drawio)"
  }

  function DownloadText(kind: AssetKind, href: string): string
  {
    "      <a href=\"" + href + "\" download class=\"btn " + ButtonClass(kind) + "\">" + ButtonLabel(kind) + "</a>\n"
  }

  /**
   * The fixed tail of every page, appended verbatim: the editing help, the
   * Liquid template the site generator expands into related diagrams, and the
   * page's style sheet (whose `{{`/`}}` are literal, the tail not being an
   * f-string). The page functions take the tail as a parameter and treat it
   * as an opaque string; this constant is the one the generator passes.
   */
  const PageTail: string := @"    </div>
    
    <h3>How to Edit</h3>
    <ol>
      <li>Download the .drawio source file</li>
      <li>Open with <a href=""https://app.diagrams.net/"" target=""_blank"">draw.io</a> or VS Code with draw.io extension</li>
      <li>Edit and save your changes</li>
      <li>Export to your preferred format</li>
    </ol>
  </div>
</div>

## Related Diagrams

{% assign related_diagrams = site.data.diagrams | where_exp: ""item"", ""item.category == page.category and item.id != page.title"" %}
{% for related in related_diagrams limit:3 %}
- [{{ related.title }}]({{ related.url }}) - {{ related.description }}
{% endfor %}

<style>
.diagram-viewer {
  display: flex;
  flex-wrap: wrap;
  gap: 20px;
  margin: 20px 0;
}

.diagram-image {
  flex: 2;
  min-width: 300px;
}

.diagram-actions {
  flex: 1;
  min-width: 250px;
  background: #f8f9fa;
  padding: 20px;
  border-radius: 8px;
}

.download-buttons {
  display: flex;
  flex-direction: column;
  gap: 10px;
  margin: 15px 0;
}

.btn {
  display: inline-block;
  padding: 10px 15px;
  text-decoration: none;
  border-radius: 4px;
  text-align: center;
  font-weight: bold;
  transition: all 0.3s ease;
}

.btn-primary {
  background: #007cba;
  color: white;
}

.btn-primary:hover {
  background: #005a8b;
  color: white;
}

.btn-secondary {
  background: #6c757d;
  color: white;
}

.btn-secondary:hover {
  background: #545b62;
  color: white;
}

.btn-outline {
  background: transparent;
  color: #007cba;
  border: 2px solid #007cba;
}

.btn-outline:hover {
  background: #007cba;
  color: white;
}

@media (max-width: 768px) {{
  .diagram-viewer {{
    flex-direction: column;
  }}
}}
</style>
"

  function BlockText(b: Block): string
  {
    match b
    case Intro(d) => FrontMatter(d) + Details(d)
    case ImageTag(src, alt) => ImageTagText(src, alt)
    case ActionsOpen => ActionsOpenText
    case DownloadLink(kind, href) => DownloadText(kind, href)
    case Closing(text) => text
  }

  /** The text of a sequence of pieces, appended left to right. */
  function Render(bs: seq<Block>): string
    decreases |bs|
  {
    if bs == [] then "" else Render(bs[..|bs| - 1]) + BlockText(bs[|bs| - 1])
  }

  /** The image and the three download links, each there only when the record has the asset. */
  function ImageBlocks(d: Diagram): seq<Block>
  {
    if Truthy(d.png) then [ImageTag(d.png.value, d.title)] else []
  }

  function PngBlocks(d: Diagram): seq<Block>
  {
    if Truthy(d.png) then [DownloadLink(PngAsset, d.png.value)] else []
  }

  function SvgBlocks(d: Diagram): seq<Block>
  {
    if Truthy(d.svg) then [DownloadLink(SvgAsset, d.svg.value)] else []
  }

  function SourceBlocks(d: Diagram): seq<Block>
  {
    if d.drawio != "" then [DownloadLink(SourceAsset, d.drawio)] else []
  }

  /** The pieces of the page of `d`, in the order they are appended. */
  function PageBlocks(d: Diagram, tail: string): seq<Block>
  {
    [Intro(d)] + ImageBlocks(d) + [ActionsOpen] + PngBlocks(d) + SvgBlocks(d) + SourceBlocks(d) + [Closing(tail)]
  }

  /**
   * The text of the page of `d` ending in `tail`, section after section; a
   * section for an asset the record lacks is empty.
   */
  function PageText(d: Diagram, tail: string): string
  {
    FrontMatter(d) + Details(d)
    + (if Truthy(d.png) then ImageTagText(d.png.value, d.title) else "")
    + ActionsOpenText
    + (if Truthy(d.png) then DownloadText(PngAsset, d.png.value) else "")
    + (if Truthy(d.svg) then DownloadText(SvgAsset, d.svg.value) else "")
    + (if d.drawio != "" then DownloadText(SourceAsset, d.drawio) else "")
    + tail
  }

  /** The body of the loop of `generate_individual_pages`: the page content of one record. */
  method RenderPage(d: Diagram, tail: string) returns (page: string)
    ensures page == PageText(d, tail)
  {
    page := FrontMatter(d) + Details(d);
    if Truthy(d.png) {
      page := page + ImageTagText(d.png.value, d.title);
    } else {
      AppendEmpty(page);
    }
    page := page + ActionsOpenText;
    if Truthy(d.png) {
      page := page + DownloadText(PngAsset, d.png.value);
    } else {
      AppendEmpty(page);
    }
    if Truthy(d.svg) {
      page := page + DownloadText(SvgAsset, d.svg.value);
    } else {
      AppendEmpty(page);
    }
    if d.drawio != "" {
      page := page + DownloadText(SourceAsset, d.drawio);
    } else {
      AppendEmpty(page);
    }
    page := page + tail;
  }

  /** A page file the generator writes: where, and what. */
  datatype PageWrite = PageWrite(path: string, content: string)

  function PagePath(id: string): string
  {
    OutputDir + "/pages/" + id + ".md"
  }

  /**
   * `generate_individual_pages(diagrams)`: one page per record, in record
   * order, written to `diagrams/pages/<id>.md`. The writes are returned in the
   * order they are made.
   */
  method GeneratePages(diagrams: seq<Diagram>, tail: string) returns (writes: seq<PageWrite>)
    ensures |writes| == |diagrams|
    ensures forall i :: 0 <= i < |diagrams| ==>
      writes[i] == PageWrite("diagrams/pages/" + diagrams[i].id + ".md", PageText(diagrams[i], tail))
  {
    writes := [];
    for i := 0 to |diagrams|
      invariant |writes| == i
      invariant forall k :: 0 <= k < i ==>
        writes[k] == PageWrite("diagrams/pages/" + diagrams[k].id + ".md", PageText(diagrams[k], tail))
    {
      var content := RenderPage(diagrams[i], tail);
      var path := PagePath(diagrams[i].id);
      PagePathForm(diagrams[i].id);
      writes := writes + [PageWrite(path, content)];
    }
  }

  /** The page of id `id` is `diagrams/pages/<id>.md`. */
  lemma PagePathForm(id: string)
    ensures PagePath(id) == "diagrams/pages/" + id + ".md"
  {
  }

  // ---------------------------------------------------------------------
  // Strings and pieces.

  lemma AppendEmpty(s: string)
    ensures s + "" == s
  {
  }

  lemma EmptyAppend(s: string)
    ensures "" + s == s
  {
  }

  lemma AppendAssoc(a: string, b: string, c: string)
    ensures a + b + c == a + (b + c)
  {
  }

  /** Rendering distributes over concatenation of the pieces. */
  lemma {:induction false} RenderAppend(bs: seq<Block>, cs: seq<Block>)
    ensures Render(bs + cs) == Render(bs) + Render(cs)
    decreases |cs|
  {
    if cs == [] {
      assert bs + cs == bs;
      AppendEmpty(Render(bs));
    } else {
      var front, last := cs[..|cs| - 1], cs[|cs| - 1];
      assert (bs + cs)[..|bs + cs| - 1] == bs + front;
      RenderAppend(bs, front);
      AppendAssoc(Render(bs), Render(front), BlockText(last));
    }
  }

  lemma RenderOne(b: Block)
    ensures Render([b]) == BlockText(b)
  {
    assert [b][..0] == [];
    EmptyAppend(BlockText(b));
  }

  /** The page text is the text of its pieces. */
  lemma PageTextIsRender(d: Diagram, tail: string)
    ensures PageText(d, tail) == Render(PageBlocks(d, tail))
  {
    var intro, img, open, png, svg, src, close :=
      [Intro(d)], ImageBlocks(d), [ActionsOpen], PngBlocks(d), SvgBlocks(d), SourceBlocks(d), [Closing(tail)];
    RenderAppend(intro, img);
    RenderAppend(intro + img, open);
    RenderAppend(intro + img + open, png);
    RenderAppend(intro + img + open + png, svg);
    RenderAppend(intro + img + open + png + svg, src);
    RenderAppend(intro + img + open + png + svg + src, close);
    RenderOne(Intro(d));
    RenderOne(ActionsOpen);
    RenderOne(Closing(tail));
    RenderOptional(d);
    assert Render(PageBlocks(d, tail)) ==
      Render(intro) + Render(img) + Render(open) + Render(png) + Render(svg) + Render(src) + Render(close);
  }

  /** The text of each optional piece: the piece's text, or nothing. */
  lemma RenderOptional(d: Diagram)
    ensures Render(ImageBlocks(d)) == if Truthy(d.png) then ImageTagText(d.png.value, d.title) else ""
    ensures Render(PngBlocks(d)) == if Truthy(d.png) then DownloadText(PngAsset, d.png.value) else ""
    ensures Render(SvgBlocks(d)) == if Truthy(d.svg) then DownloadText(SvgAsset, d.svg.value) else ""
    ensures Render(SourceBlocks(d)) == if d.drawio != "" then DownloadText(SourceAsset, d.drawio) else ""
  {
    if Truthy(d.png) {
      RenderOne(ImageTag(d.png.value, d.title));
      RenderOne(DownloadLink(PngAsset, d.png.value));
    }
    if Truthy(d.svg) {
      RenderOne(DownloadLink(SvgAsset, d.svg.value));
    }
    if d.drawio != "" {
      RenderOne(DownloadLink(SourceAsset, d.drawio));
    }
  }

  // ---------------------------------------------------------------------
  // What a page holds.

  /** The pieces of a page, one by one. */
  lemma PageBlockMembers(d: Diagram, tail: string, b: Block)
    ensures b in PageBlocks(d, tail) <==>
      || b == Intro(d)
      || (Truthy(d.png) && b == ImageTag(d.png.value, d.title))
      || b == ActionsOpen
      || (Truthy(d.png) && b == DownloadLink(PngAsset, d.png.value))
      || (Truthy(d.svg) && b == DownloadLink(SvgAsset, d.svg.value))
      || (d.drawio != "" && b == DownloadLink(SourceAsset, d.drawio))
      || b == Closing(tail)
  {
    var img := if Truthy(d.png) then [ImageTag(d.png.value, d.title)] else [];
    var png := if Truthy(d.png) then [DownloadLink(PngAsset, d.png.value)] else [];
    var svg := if Truthy(d.svg) then [DownloadLink(SvgAsset, d.svg.value)] else [];
    var src := if d.drawio != "" then [DownloadLink(SourceAsset, d.drawio)] else [];
    assert PageBlocks(d, tail) == [Intro(d)] + img + [ActionsOpen] + png + svg + src + [Closing(tail)];
  }

  /**
   * The image and each download link are on the page exactly when the record
   * has the matching asset, and no link on the page is empty.
   */
  lemma PageLinksMatchRecord(d: Diagram, tail: string)
    ensures (exists b :: b in PageBlocks(d, tail) && b.ImageTag?) <==> Truthy(d.png)
    ensures forall src, alt :: ImageTag(src, alt) in PageBlocks(d, tail) <==>
      d.png == Some(src) && src != "" && alt == d.title
    ensures forall href :: DownloadLink(PngAsset, href) in PageBlocks(d, tail) <==> d.png == Some(href) && href != ""
    ensures forall href :: DownloadLink(SvgAsset, href) in PageBlocks(d, tail) <==> d.svg == Some(href) && href != ""
    ensures forall href :: DownloadLink(SourceAsset, href) in PageBlocks(d, tail) <==> href == d.drawio && href != ""
    ensures forall b :: b in PageBlocks(d, tail) && b.DownloadLink? ==> b.href != ""
  {
    forall b
      ensures b in PageBlocks(d, tail) <==>
        || b == Intro(d)
        || (Truthy(d.png) && b == ImageTag(d.png.value, d.title))
        || b == ActionsOpen
        || (Truthy(d.png) && b == DownloadLink(PngAsset, d.png.value))
        || (Truthy(d.svg) && b == DownloadLink(SvgAsset, d.svg.value))
        || (d.drawio != "" && b == DownloadLink(SourceAsset, d.drawio))
        || b == Closing(tail)
    {
      PageBlockMembers(d, tail, b);
    }
    if Truthy(d.png) {
      assert ImageTag(d.png.value, d.title) in PageBlocks(d, tail);
    }
  }

  /**
   * For a scanned record: the image and the PNG link appear iff the PNG asset
   * exists, the SVG link iff the SVG asset exists, and the source link always.
   */
  lemma ScannedPageLinks(filename: string, assets: set<string>, table: map<string, Info>, tail: string)
    ensures var d := DiagramFor(filename, assets, table);
      && ((exists b :: b in PageBlocks(d, tail) && b.ImageTag?) <==> PngPath(d.id) in assets)
      && ((exists b :: b in PageBlocks(d, tail) && b.DownloadLink? && b.kind == PngAsset) <==> PngPath(d.id) in assets)
      && ((exists b :: b in PageBlocks(d, tail) && b.DownloadLink? && b.kind == SvgAsset) <==> SvgPath(d.id) in assets)
      && DownloadLink(SourceAsset, "/" + DiagramSourceDir + "/" + filename) in PageBlocks(d, tail)
  {
    var d := DiagramFor(filename, assets, table);
    PageLinksMatchRecord(d, tail);
    IdentityFields(filename, assets, table);
    AssetFields(filename, assets, table);
    assert Truthy(d.png) <==> PngPath(d.id) in assets;
    assert Truthy(d.svg) <==> SvgPath(d.id) in assets;
  }

  lemma {:induction false} RenderContains(bs: seq<Block>, i: int)
    requires 0 <= i < |bs|
    ensures exists pre, post :: Render(bs) == pre + BlockText(bs[i]) + post
    decreases |bs|
  {
    var front := bs[..|bs| - 1];
    if i == |bs| - 1 {
      AppendEmpty(Render(bs));
      assert Render(bs) == Render(front) + BlockText(bs[i]) + "";
    } else {
      RenderContains(front, i);
      var pre, post :| Render(front) == pre + BlockText(front[i]) + post;
      AppendAssoc(pre + BlockText(bs[i]), post, BlockText(bs[|bs| - 1]));
      assert Render(bs) == pre + BlockText(bs[i]) + (post + BlockText(bs[|bs| - 1]));
    }
  }

  /** The text of every piece of a page is a substring of the page. */
  lemma PageShowsBlocks(d: Diagram, tail: string, b: Block)
    requires b in PageBlocks(d, tail)
    ensures Contains(PageText(d, tail), BlockText(b))
  {
    var bs := PageBlocks(d, tail);
    var i :| 0 <= i < |bs| && bs[i] == b;
    RenderContains(bs, i);
    var pre, post :| Render(bs) == pre + BlockText(b) + post;
    ContainsMiddle(pre, BlockText(b), post);
    PageTextIsRender(d, tail);
  }

  /** A page's text starts with the text of its first piece. */
  lemma {:induction false} RenderStartsWith(bs: seq<Block>)
    requires bs != []
    ensures BlockText(bs[0]) <= Render(bs)
    decreases |bs|
  {
    if |bs| > 1 {
      RenderStartsWith(bs[..|bs| - 1]);
    } else {
      assert bs[..0] == [];
      EmptyAppend(BlockText(bs[0]));
    }
  }

  /**
   * Every page opens with its front matter, which carries the permalink
   * `/diagrams/<id>/`, and lists the tags joined by ", " among its details.
   */
  lemma PageFrontMatter(d: Diagram, tail: string)
    ensures FrontMatter(d) <= PageText(d, tail)
    ensures Contains(PageText(d, tail), "permalink: /diagrams/" + d.id + "/\n")
    ensures Contains(PageText(d, tail), "- **Tags**: " + Join(d.tags, ", ") + "\n")
  {
    var page := PageText(d, tail);
    PageTextIsRender(d, tail);
    RenderStartsWith(PageBlocks(d, tail));
    assert FrontMatter(d) + Details(d) <= page;
    PrefixTransitive(FrontMatter(d), FrontMatter(d) + Details(d), page);

    var fmHead := "---\nlayout: diagram\ntitle: \"" + d.title + "\"\ndescription: \"" + d.description +
      "\"\ncategory: \"" + d.category + "\"\ncomplexity: \"" + d.complexity +
      "\"\ntags: " + ListRepr(d.tags) + "\n";
    ContainsMiddle(fmHead, PermalinkLine(d.id), "---\n");
    ContainsInPrefix(FrontMatter(d), page, PermalinkLine(d.id));

    var dHead := "\n# " + d.title + "\n\n" + d.description + "\n\n## Diagram Details\n\n- **Category**: " +
      d.category + "\n- **Complexity**: " + d.complexity + "\n";
    var dTail := "\n## View Options\n\n<div class=\"diagram-viewer\">\n  <div class=\"diagram-image\">\n";
    ContainsMiddle(dHead, TagsLine(d.tags), dTail);
    ContainsInSuffix(FrontMatter(d), Details(d), TagsLine(d.tags));
    ContainsInPrefix(FrontMatter(d) + Details(d), page, TagsLine(d.tags));
  }

  /**
   * The page of a file missing from the curated table lists the single tag
   * "Architecture" on its Tags line.
   */
  lemma DefaultPageTags(filename: string, assets: set<string>, table: map<string, Info>, tail: string)
    requires filename !in table
    ensures Contains(PageText(DiagramFor(filename, assets, table), tail), "- **Tags**: Architecture\n")
  {
    var d := DiagramFor(filename, assets, table);
    DefaultMetadata(filename, assets, table);
    JoinSingle("Architecture", ", ");
    assert TagsLine(d.tags) == "- **Tags**: Architecture\n";
    PageFrontMatter(d, tail);
  }

  /** Every page ends with the fixed tail. */
  lemma PageEndsWithTail(d: Diagram, tail: string)
    ensures EndsWith(PageText(d, tail), tail)
  {
  }
}
