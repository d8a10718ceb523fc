/**
 * `scan_diagrams`: discover the `.drawio` files of the source directory, build
 * one record per file and return the records sorted by id.
 */
module DiagramScan {
  import opened Text
  import opened DiagramModel

  /**
   * `Path(dir).glob("*.drawio")` over the names of the directory's entries:
   * the names that end in ".drawio", in the order the directory lists them.
   */
  function Glob(entries: seq<string>): (r: seq<string>)
    ensures forall f :: f in r <==> f in entries && EndsWith(f, Extension)
    ensures |r| <= |entries|
    decreases |entries|
  {
    if entries == [] then []
    else (if EndsWith(entries[0], Extension) then [entries[0]] else []) + Glob(entries[1..])
  }

  /** Each ".drawio" entry is scanned as often as it is listed, and no other name is. */
  lemma {:induction false} GlobCounts(entries: seq<string>)
    ensures forall f :: multiset(Glob(entries))[f] == if EndsWith(f, Extension) then multiset(entries)[f] else 0
    decreases |entries|
  {
    if entries != [] {
      GlobCounts(entries[1..]);
      assert entries == [entries[0]] + entries[1..];
    }
  }

  /**
   * The positions, in the directory listing, of the entries the glob yields.
   * `GlobInListingOrder` states what they are.
   */
  function GlobPositions(entries: seq<string>): seq<int>
    decreases |entries|
  {
    if entries == [] then []
    else (if EndsWith(entries[0], Extension) then [0] else []) + Shift(GlobPositions(entries[1..]))
  }

  function Shift(p: seq<int>): (r: seq<int>)
    ensures |r| == |p|
    ensures forall j :: 0 <= j < |p| ==> r[j] == p[j] + 1
  {
    seq(|p|, j requires 0 <= j < |p| => p[j] + 1)
  }

  /** The positions are in range, as many as the globbed files, and point at them. */
  lemma {:induction false} GlobPositionsAt(entries: seq<string>)
    ensures |GlobPositions(entries)| == |Glob(entries)|
    ensures forall j :: 0 <= j < |GlobPositions(entries)| ==>
      0 <= GlobPositions(entries)[j] < |entries| && Glob(entries)[j] == entries[GlobPositions(entries)[j]]
    decreases |entries|
  {
    if entries != [] {
      var tail := entries[1..];
      GlobPositionsAt(tail);
      var rest, p, g := GlobPositions(tail), GlobPositions(entries), Glob(entries);
      var n := if EndsWith(entries[0], Extension) then 1 else 0;
      assert p == (if n == 1 then [0] else []) + Shift(rest);
      assert g == (if n == 1 then [entries[0]] else []) + Glob(tail);
      forall j | n <= j < |p|
        ensures 0 <= p[j] < |entries| && g[j] == entries[p[j]]
      {
        assert p[j] == rest[j - n] + 1;
        assert g[j] == Glob(tail)[j - n];
        assert tail[rest[j - n]] == entries[rest[j - n] + 1];
      }
    }
  }

  /** The positions strictly increase, so no entry is taken twice. */
  lemma {:induction false} GlobPositionsIncreasing(entries: seq<string>)
    ensures forall j :: 0 <= j < |GlobPositions(entries)| ==> GlobPositions(entries)[j] >= 0
    ensures forall i, j :: 0 <= i < j < |GlobPositions(entries)| ==> GlobPositions(entries)[i] < GlobPositions(entries)[j]
    decreases |entries|
  {
    if entries != [] {
      var tail := entries[1..];
      GlobPositionsIncreasing(tail);
      var rest, p := GlobPositions(tail), GlobPositions(entries);
      var n := if EndsWith(entries[0], Extension) then 1 else 0;
      assert p == (if n == 1 then [0] else []) + Shift(rest);
      assert forall j :: n <= j < |p| ==> p[j] == rest[j - n] + 1;
    }
  }

  /** Every position is that of a ".drawio" entry. */
  lemma {:induction false} GlobPositionsSound(entries: seq<string>)
    ensures forall j :: 0 <= j < |GlobPositions(entries)| ==>
      0 <= GlobPositions(entries)[j] < |entries| && EndsWith(entries[GlobPositions(entries)[j]], Extension)
    decreases |entries|
  {
    if entries != [] {
      var tail := entries[1..];
      GlobPositionsSound(tail);
      var rest, p := GlobPositions(tail), GlobPositions(entries);
      var n := if EndsWith(entries[0], Extension) then 1 else 0;
      assert p == (if n == 1 then [0] else []) + Shift(rest);
      forall j | n <= j < |p|
        ensures 0 <= p[j] < |entries| && EndsWith(entries[p[j]], Extension)
      {
        assert p[j] == rest[j - n] + 1;
        assert tail[rest[j - n]] == entries[p[j]];
      }
    }
  }

  /** Every ".drawio" entry has its position among them. */
  lemma {:induction false} GlobPositionsComplete(entries: seq<string>, k: int)
    requires 0 <= k < |entries| && EndsWith(entries[k], Extension)
    ensures k in GlobPositions(entries)
    decreases |entries|
  {
    var tail := entries[1..];
    var p := GlobPositions(entries);
    var n := if EndsWith(entries[0], Extension) then 1 else 0;
    assert p == (if n == 1 then [0] else []) + Shift(GlobPositions(tail));
    if k > 0 {
      assert tail[k - 1] == entries[k];
      GlobPositionsComplete(tail, k - 1);
      var rest := GlobPositions(tail);
      var j :| 0 <= j < |rest| && rest[j] == k - 1;
      assert p[j + n] == k;
    }
  }

  /**
   * The glob keeps the listing order: its j-th file is the entry at the j-th
   * of a strictly increasing run of positions, and those positions are
   * exactly the ".drawio" entries of the listing.
   */
  lemma GlobInListingOrder(entries: seq<string>)
    ensures var p := GlobPositions(entries);
      && |p| == |Glob(entries)|
      && (forall j :: 0 <= j < |p| ==> 0 <= p[j] < |entries| && Glob(entries)[j] == entries[p[j]])
      && (forall i, j :: 0 <= i < j < |p| ==> p[i] < p[j])
      && (forall k :: k in p <==> 0 <= k < |entries| && EndsWith(entries[k], Extension))
  {
    GlobPositionsAt(entries);
    GlobPositionsIncreasing(entries);
    GlobPositionsSound(entries);
    forall k | 0 <= k < |entries| && EndsWith(entries[k], Extension)
      ensures k in GlobPositions(entries)
    {
      GlobPositionsComplete(entries, k);
    }
  }

  /** The records of the given files, in file order. */
  function DiagramsFor(files: seq<string>, assets: set<string>, table: map<string, Info>): (r: seq<Diagram>)
    ensures |r| == |files|
    ensures forall i :: 0 <= i < |files| ==> r[i] == DiagramFor(files[i], assets, table)
  {
    seq(|files|, i requires 0 <= i < |files| => DiagramFor(files[i], assets, table))
  }

  // ---------------------------------------------------------------------
  // `sorted(diagrams, key=lambda x: x["id"])`.

  ghost predicate SortedById(s: seq<Diagram>)
  {
    forall i, j :: 0 <= i < j < |s| ==> StrLe(s[i].id, s[j].id)
  }

  lemma AppendSorted(s: seq<Diagram>, x: Diagram)
    requires SortedById(s)
    requires s != [] ==> StrLe(s[|s| - 1].id, x.id)
    ensures SortedById(s + [x])
  {
    var t := s + [x];
    forall i, j | 0 <= i < j < |t|
      ensures StrLe(t[i].id, t[j].id)
    {
      if j == |s| && i < |s| - 1 {
        StrLeTransitive(s[i].id, s[|s| - 1].id, x.id);
      }
    }
  }

  /** Insert `x` into the sorted `s` behind every record whose id is not greater. */
  function InsertById(s: seq<Diagram>, x: Diagram): (r: seq<Diagram>)
    requires SortedById(s)
    ensures SortedById(r)
    ensures multiset(r) == multiset(s) + multiset{x}
    ensures |r| == |s| + 1
    decreases |s|
  {
    if s == [] || StrLe(s[|s| - 1].id, x.id) then
      AppendSorted(s, x);
      s + [x]
    else
      var front, last := s[..|s| - 1], s[|s| - 1];
      assert s == front + [last];
      var r' := InsertById(front, x);
      InsertedBelowLast(s, x, r');
      AppendSorted(r', last);
      r' + [last]
  }

  /** What the recursive case of `InsertById` needs: the list built below the last record stays below it. */
  lemma InsertedBelowLast(s: seq<Diagram>, x: Diagram, r': seq<Diagram>)
    requires SortedById(s) && s != [] && !StrLe(s[|s| - 1].id, x.id)
    requires multiset(r') == multiset(s[..|s| - 1]) + multiset{x}
    ensures r' != [] && StrLe(r'[|r'| - 1].id, s[|s| - 1].id)
  {
    var last := s[|s| - 1];
    assert x in multiset(r');
    var top := r'[|r'| - 1];
    assert top in multiset(r');
    if top == x {
      StrLeTotal(x.id, last.id);
    } else {
      assert top in multiset(s[..|s| - 1]);
      var k :| 0 <= k < |s| - 1 && s[..|s| - 1][k] == top;
      assert s[k] == top;
    }
  }

  /** An insertion sort by id: sorted, and a permutation of its input. */
  function SortById(s: seq<Diagram>): (r: seq<Diagram>)
    ensures SortedById(r)
    ensures multiset(r) == multiset(s)
    ensures |r| == |s|
    decreases |s|
  {
    if s == [] then []
    else
      assert s == s[..|s| - 1] + [s[|s| - 1]];
      InsertById(SortById(s[..|s| - 1]), s[|s| - 1])
  }

  // ---------------------------------------------------------------------
  // The scan.

  /**
   * One pass of the scanning loop: the record of `filename`, built key by key,
   * the asset keys only for the assets that exist.
   */
  method ScanFile(filename: string, assets: set<string>, table: map<string, Info>) returns (data: Diagram)
    ensures data == DiagramFor(filename, assets, table)
  {
    var base := ReplaceAll(filename, ".drawio", "");
    var info := LookupInfo(filename, base, table);

    var pngPath := AssetsDir + "/png/" + base + ".png";
    var svgPath := AssetsDir + "/svg/" + base + ".svg";
    var thumbPath := AssetsDir + "/png/" + base + "_thumb.png";

    data := Diagram(
      base, info.title, info.description, info.category, info.complexity, info.tags,
      DiagramSourceDir + "/" + filename,
      "/diagrams/" + base + "/",
      "/" + DiagramSourceDir + "/" + filename,
      None, None, "");
    if pngPath in assets {
      data := data.(png := Some("/" + pngPath));
    }
    if svgPath in assets {
      data := data.(svg := Some("/" + svgPath));
    }
    if thumbPath in assets {
      data := data.(thumbnail := "/" + thumbPath);
    } else {
      data := data.(thumbnail := if data.png.Some? then data.png.value else PlaceholderImage);
    }
  }

  /**
   * `scan_diagrams()`: no records when the source directory is missing;
   * otherwise one record per `.drawio` file, sorted by id.
   */
  method ScanDiagrams(sourceExists: bool, entries: seq<string>, assets: set<string>, table: map<string, Info>)
    returns (diagrams: seq<Diagram>)
    ensures !sourceExists ==> diagrams == []
    ensures sourceExists ==> SortedById(diagrams)
    ensures sourceExists ==> multiset(diagrams) == multiset(DiagramsFor(Glob(entries), assets, table))
    ensures sourceExists ==> |diagrams| == |Glob(entries)|
  {
    diagrams := [];
    if !sourceExists {
      return;
    }
    var files := Glob(entries);
    ghost var expected := DiagramsFor(files, assets, table);
    for n := 0 to |files|
      invariant |diagrams| == n
      invariant forall k :: 0 <= k < n ==> diagrams[k] == expected[k]
    {
      var data := ScanFile(files[n], assets, table);
      diagrams := diagrams + [data];
    }
    assert diagrams == expected;
    diagrams := SortById(diagrams);
  }

  /**
   * Every scanned record is the record of one `.drawio` entry, and every such
   * entry has its record among the results.
   */
  lemma ScannedRecordsComeFromFiles(entries: seq<string>, assets: set<string>, table: map<string, Info>, diagrams: seq<Diagram>)
    requires multiset(diagrams) == multiset(DiagramsFor(Glob(entries), assets, table))
    ensures forall d :: d in diagrams ==>
      exists f :: f in entries && EndsWith(f, Extension) && d == DiagramFor(f, assets, table)
    ensures forall f :: f in entries && EndsWith(f, Extension) ==> DiagramFor(f, assets, table) in diagrams
  {
    var files := Glob(entries);
    var all := DiagramsFor(files, assets, table);
    forall d | d in diagrams
      ensures exists f :: f in entries && EndsWith(f, Extension) && d == DiagramFor(f, assets, table)
    {
      assert d in multiset(all);
      var k :| 0 <= k < |all| && all[k] == d;
      assert files[k] in files;
    }
    forall f | f in entries && EndsWith(f, Extension)
      ensures DiagramFor(f, assets, table) in diagrams
    {
      assert f in files;
      var k :| 0 <= k < |files| && files[k] == f;
      assert all[k] in multiset(diagrams);
    }
  }
}
