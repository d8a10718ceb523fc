/**
 * The configuration of the diagram-index builder, its curated metadata table
 * and the record it derives from one `.drawio` file.
 */
module DiagramModel {
  import opened Text

  datatype Option<T> = None | Some(value: T)

  // Configuration.
  const DiagramSourceDir: string := "40-resources/diagrams"
  const OutputDir: string := "diagrams"
  const AssetsDir: string := OutputDir + "/assets"
  const Extension: string := ".drawio"
  const PlaceholderImage: string := "/assets/img/diagram-placeholder.png"

  /** The descriptive fields of a diagram. */
  datatype Info = Info(
    title: string,
    description: string,
    category: string,
    complexity: string,
    tags: seq<string>)

  /**
   * The curated metadata, keyed by file name. The record functions take the
   * table as a parameter; this constant is the one the generator passes.
   */
  const DiagramInfo: map<string, Info> := map[
    "01-complete-system-architecture.drawio" := Info(
      "Complete System Architecture",
      "End-to-end system architecture showing all AWS services, load balancers, microservices, and data flow from users to databases.",
      "System Architecture",
      "High",
      ["AWS", "Infrastructure", "Overview", "Fargate", "RDS"]),
    "02-security-architecture.drawio" := Info(
      "Security Architecture",
      "Multi-layered security implementation with AWS WAF, Shield, VPC security groups, and application-level protection mechanisms.",
      "Security",
      "High",
      ["Security", "WAF", "Shield", "VPC", "Authentication"]),
    "03-cicd-pipeline.drawio" := Info(
      "CI/CD Pipeline Architecture",
      "Complete GitLab CI/CD pipeline showing 7 stages from code commit to production deployment with approval gates and rollback strategies.",
      "DevOps",
      "Medium",
      ["GitLab", "CI/CD", "Pipeline", "Deployment", "Automation"]),
    "04-microservices-deployment.drawio" := Info(
      "Microservices Deployment",
      "Detailed microservices architecture on AWS Fargate showing service communication, load balancing, and container orchestration.",
      "Architecture",
      "High",
      ["Microservices", "Fargate", "Spring Boot", "Angular", "Communication"]),
    "05-data-flow-architecture.drawio" := Info(
      "Data Flow Architecture",
      "Request processing flow and event-driven communication patterns showing user journeys, API gateway routing, and database operations.",
      "Data Flow",
      "Medium",
      ["Data Flow", "Events", "API Gateway", "Processing", "Observability"])
  ]

  /** What a file missing from the table is described by. */
  function DefaultInfo(base: string): Info
  {
    Info(
      Title(ReplaceAll(base, "-", " ")),
      "Architecture diagram: " + base,
      "General",
      "Medium",
      ["Architecture"])
  }

  /** `DIAGRAM_INFO.get(filename, <default>)`, for the table `table`. */
  function LookupInfo(filename: string, base: string, table: map<string, Info>): Info
  {
    if filename in table then table[filename] else DefaultInfo(base)
  }

  /**
   * One diagram record. `png` and `svg` are the optional keys of the source's
   * dictionary; every other key is always present.
   */
  datatype Diagram = Diagram(
    id: string,
    title: string,
    description: string,
    category: string,
    complexity: string,
    tags: seq<string>,
    sourceFile: string,
    url: string,
    drawio: string,
    png: Option<string>,
    svg: Option<string>,
    thumbnail: string)

  /** The id of a diagram file: its name with every ".drawio" removed. */
  function BaseName(filename: string): string
  {
    ReplaceAll(filename, Extension, "")
  }

  // Where the generated assets of a diagram are looked for.
  function PngPath(base: string): string { AssetsDir + "/png/" + base + ".png" }
  function SvgPath(base: string): string { AssetsDir + "/svg/" + base + ".svg" }
  function ThumbPath(base: string): string { AssetsDir + "/png/" + base + "_thumb.png" }

  /** The site-relative link to an existing asset path, or nothing. */
  function AssetLink(path: string, assets: set<string>): Option<string>
  {
    if path in assets then Some("/" + path) else None
  }

  /**
   * The record built for `filename` when the paths in `assets` exist and the
   * curated metadata is `table`: the specification of one pass of the
   * scanning loop.
   */
  function DiagramFor(filename: string, assets: set<string>, table: map<string, Info>): Diagram
  {
    var base := BaseName(filename);
    var info := LookupInfo(filename, base, table);
    var png := AssetLink(PngPath(base), assets);
    Diagram(
      base, info.title, info.description, info.category, info.complexity, info.tags,
      DiagramSourceDir + "/" + filename,
      "/diagrams/" + base + "/",
      "/" + DiagramSourceDir + "/" + filename,
      png,
      AssetLink(SvgPath(base), assets),
      if ThumbPath(base) in assets then "/" + ThumbPath(base)
      else if png.Some? then png.value else PlaceholderImage)
  }

  /** A file name that holds ".drawio" once, as its suffix. */
  predicate SimpleName(filename: string)
  {
    EndsWith(filename, Extension) &&
    forall i :: 0 <= i < |filename| - |Extension| ==> !OccursAt(filename, Extension, i)
  }

  /**
   * The identity fields of a record: the id is the file name with every
   * ".drawio" removed, and the url and the source paths are derived from the
   * id and the file name; the download path of the source is never empty.
   */
  lemma IdentityFields(filename: string, assets: set<string>, table: map<string, Info>)
    ensures var d := DiagramFor(filename, assets, table);
      && d.id == ReplaceAll(filename, ".drawio", "")
      && d.url == "/diagrams/" + d.id + "/"
      && d.sourceFile == "40-resources/diagrams/" + filename
      && d.drawio == "/" + d.sourceFile
      && d.drawio != ""
  {
  }

  /** For a file whose name holds ".drawio" only as its suffix, the id is the name without it. */
  lemma SimpleNameId(filename: string, assets: set<string>, table: map<string, Info>)
    requires SimpleName(filename)
    ensures DiagramFor(filename, assets, table).id + ".drawio" == filename
  {
    var id := BaseName(filename);
    RemoveSoleSuffix(filename, Extension);
    assert id == filename[..|filename| - |Extension|];
    assert filename == filename[..|filename| - |Extension|] + filename[|filename| - |Extension|..];
  }

  /**
   * Two different file names of the simple form never share an id.
   */
  lemma SimpleNamesHaveDistinctIds(f1: string, f2: string, assets: set<string>, table: map<string, Info>)
    requires SimpleName(f1) && SimpleName(f2) && f1 != f2
    ensures DiagramFor(f1, assets, table).id != DiagramFor(f2, assets, table).id
  {
    SimpleNameId(f1, assets, table);
    SimpleNameId(f2, assets, table);
  }

  /**
   * Without that form ids can collide: "a.drawio.drawio" and "a.drawio" are
   * different files with the one id "a", since every ".drawio" is removed.
   */
  lemma DistinctNamesMayShareId(assets: set<string>, table: map<string, Info>)
    ensures "a.drawio.drawio" != "a.drawio"
    ensures DiagramFor("a.drawio.drawio", assets, table).id == DiagramFor("a.drawio", assets, table).id == "a"
  {
    var s := "a.drawio";
    assert s[..7][0] == 'a';
    assert s[..7] != Extension;
    assert s[1..] == Extension;
    assert s[1..][..7] == Extension;
    assert s[1..][7..] == "";
    assert ReplaceAll(s, Extension, "") == "a";
    var t := "a.drawio.drawio";
    assert t[..7][0] == 'a';
    assert t[..7] != Extension;
    assert t[1..] == Extension + Extension;
    assert t[1..][..7] == Extension;
    assert t[1..][7..] == Extension;
    assert ReplaceAll(Extension, Extension, "") == "" by {
      assert Extension[..7] == Extension;
      assert Extension[7..] == "";
    }
    assert ReplaceAll(t, Extension, "") == "a";
  }

  /** A file named in the table takes exactly that entry's descriptive fields. */
  lemma CuratedMetadata(filename: string, assets: set<string>, table: map<string, Info>)
    requires filename in table
    ensures var d := DiagramFor(filename, assets, table);
      Info(d.title, d.description, d.category, d.complexity, d.tags) == table[filename]
  {
  }

  /**
   * A file missing from the table is described by its id: the title is the id
   * with hyphens as spaces, title-cased, and the other fields are fixed.
   */
  lemma DefaultMetadata(filename: string, assets: set<string>, table: map<string, Info>)
    requires filename !in table
    ensures var d := DiagramFor(filename, assets, table);
      && |d.title| == |d.id|
      && (forall i :: 0 <= i < |d.id| ==>
            d.title[i] == TitleChar(if d.id[i] == '-' then ' ' else d.id[i],
                                    i > 0 && IsCased(d.id[i - 1])))
      && d.description == "Architecture diagram: " + d.id
      && d.category == "General"
      && d.complexity == "Medium"
      && d.tags == ["Architecture"]
  {
    var d := DiagramFor(filename, assets, table);
    var spaced := ReplaceAll(d.id, "-", " ");
    ReplaceCharAt(d.id, '-', ' ');
    forall i | 0 <= i < |d.id|
      ensures d.title[i] == TitleChar(if d.id[i] == '-' then ' ' else d.id[i],
                                      i > 0 && IsCased(d.id[i - 1]))
    {
      TitleAt(spaced, i);
      if i > 0 {
        assert IsCased(spaced[i - 1]) == IsCased(d.id[i - 1]);
      }
    }
  }

  /**
   * `png` and `svg` are present exactly when the asset exists, and then hold
   * its site-relative path.
   */
  lemma AssetFields(filename: string, assets: set<string>, table: map<string, Info>)
    ensures var d := DiagramFor(filename, assets, table);
      && (d.png.Some? <==> PngPath(d.id) in assets)
      && (d.png.Some? ==> d.png.value == "/" + PngPath(d.id))
      && (d.svg.Some? <==> SvgPath(d.id) in assets)
      && (d.svg.Some? ==> d.svg.value == "/" + SvgPath(d.id))
  {
  }

  /** Where the assets of id `id` are looked for, written out. */
  lemma AssetPaths(id: string)
    ensures PngPath(id) == "diagrams/assets/png/" + id + ".png"
    ensures SvgPath(id) == "diagrams/assets/svg/" + id + ".svg"
    ensures ThumbPath(id) == "diagrams/assets/png/" + id + "_thumb.png"
  {
  }

  /**
   * The thumbnail is always set, to the first that applies of: the dedicated
   * thumbnail, the PNG, the shared placeholder.
   */
  lemma ThumbnailFallback(filename: string, assets: set<string>, table: map<string, Info>)
    ensures var d := DiagramFor(filename, assets, table);
      && d.thumbnail != ""
      && (ThumbPath(d.id) in assets ==> d.thumbnail == "/" + ThumbPath(d.id))
      && (ThumbPath(d.id) !in assets && d.png.Some? ==> d.thumbnail == d.png.value)
      && (ThumbPath(d.id) !in assets && d.png.None? ==> d.thumbnail == "/assets/img/diagram-placeholder.png")
  {
  }
}
