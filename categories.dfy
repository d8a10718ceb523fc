/**
 * The category data of the index: one group per category, listing the ids of
 * the records in that category and how many there are.
 */
module DiagramCategories {
  import opened DiagramModel

  /** One value of the category list: `{'name': …, 'diagrams': […], 'count': …}`. */
  datatype CategoryGroup = CategoryGroup(name: string, diagrams: seq<string>, count: int)

  function Categories(ds: seq<Diagram>): (r: seq<string>)
    ensures |r| == |ds|
    ensures forall i :: 0 <= i < |ds| ==> r[i] == ds[i].category
  {
    seq(|ds|, i requires 0 <= i < |ds| => ds[i].category)
  }

  function Ids(ds: seq<Diagram>): (r: seq<string>)
    ensures |r| == |ds|
    ensures forall i :: 0 <= i < |ds| ==> r[i] == ds[i].id
  {
    seq(|ds|, i requires 0 <= i < |ds| => ds[i].id)
  }

  /** The distinct elements of `cs`, in the order each first occurs. */
  function FirstOccurrences(cs: seq<string>): seq<string>
    decreases |cs|
  {
    if cs == [] then []
    else
      var front := FirstOccurrences(cs[..|cs| - 1]);
      if cs[|cs| - 1] in front then front else front + [cs[|cs| - 1]]
  }

  /** The ids of the records of category `c`, in record order. */
  function IdsIn(ds: seq<Diagram>, c: string): seq<string>
    decreases |ds|
  {
    if ds == [] then []
    else IdsIn(ds[..|ds| - 1], c) + (if ds[|ds| - 1].category == c then [ds[|ds| - 1].id] else [])
  }

  function GroupOf(ds: seq<Diagram>, c: string): CategoryGroup
  {
    CategoryGroup(c, IdsIn(ds, c), |IdsIn(ds, c)|)
  }

  /** The groups of the categories `names`, in that order. */
  function GroupsFor(ds: seq<Diagram>, names: seq<string>): (r: seq<CategoryGroup>)
    ensures |r| == |names|
    ensures forall i :: 0 <= i < |names| ==> r[i] == GroupOf(ds, names[i])
    decreases |names|
  {
    if names == [] then [] else [GroupOf(ds, names[0])] + GroupsFor(ds, names[1..])
  }

  /** The grouping of `ds`: one group per category, in order of first occurrence. */
  function Grouping(ds: seq<Diagram>): seq<CategoryGroup>
  {
    GroupsFor(ds, FirstOccurrences(Categories(ds)))
  }

  /**
   * The loop of `main` that fills the category dictionary in place, and the
   * dictionary's values in insertion order.
   */
  method GroupByCategory(ds: seq<Diagram>) returns (groups: seq<CategoryGroup>)
    ensures groups == Grouping(ds)
    ensures forall i :: 0 <= i < |groups| ==> groups[i].count == |groups[i].diagrams|
  {
    var order: seq<string> := [];   // the dictionary's keys, in insertion order
    var table: map<string, CategoryGroup> := map[];
    for n := 0 to |ds|
      invariant order == FirstOccurrences(Categories(ds[..n]))
      invariant forall c :: c in table <==> c in order
      invariant forall c :: c in order ==> table[c] == GroupOf(ds[..n], c)
    {
      PrefixStep(ds, n);
      var category := ds[n].category;
      if category !in table {
        table := table[category := CategoryGroup(category, [], 0)];
        order := order + [category];
      }
      var g := table[category];
      table := table[category := g.(diagrams := g.diagrams + [ds[n].id])];
      g := table[category];
      table := table[category := g.(count := g.count + 1)];
    }
    assert ds[..|ds|] == ds;
    groups := seq(|order|, i requires 0 <= i < |order| => table[order[i]]);
  }

  /** How one more record changes the first-occurrence list and the groups. */
  lemma PrefixStep(ds: seq<Diagram>, n: int)
    requires 0 <= n < |ds|
    ensures var c, before := ds[n].category, FirstOccurrences(Categories(ds[..n]));
      FirstOccurrences(Categories(ds[..n + 1])) == if c in before then before else before + [c]
    ensures ds[n].category !in FirstOccurrences(Categories(ds[..n])) ==>
      GroupOf(ds[..n], ds[n].category) == CategoryGroup(ds[n].category, [], 0)
    ensures forall c ::
              GroupOf(ds[..n + 1], c) ==
              if c == ds[n].category
              then GroupOf(ds[..n], c).(diagrams := GroupOf(ds[..n], c).diagrams + [ds[n].id],
                                        count := GroupOf(ds[..n], c).count + 1)
              else GroupOf(ds[..n], c)
  {
    assert ds[..n + 1][..n] == ds[..n];
    var cs := Categories(ds[..n + 1]);
    assert cs[..n] == Categories(ds[..n]);
    if ds[n].category !in FirstOccurrences(Categories(ds[..n])) {
      FirstOccurrencesMembers(Categories(ds[..n]));
      IdsInAbsent(ds[..n], ds[n].category);
    }
  }

  // ---------------------------------------------------------------------
  // Properties of the grouping.

  lemma {:induction false} FirstOccurrencesMembers(cs: seq<string>)
    ensures forall x :: x in FirstOccurrences(cs) <==> x in cs
    ensures forall i, j :: 0 <= i < j < |FirstOccurrences(cs)| ==>
      FirstOccurrences(cs)[i] != FirstOccurrences(cs)[j]
    decreases |cs|
  {
    if cs != [] {
      var front := cs[..|cs| - 1];
      FirstOccurrencesMembers(front);
      assert cs == front + [cs[|cs| - 1]];
    }
  }

  /** The position where `x` first occurs in `cs`. */
  function FirstIndex(cs: seq<string>, x: string): (k: nat)
    requires x in cs
    ensures k < |cs| && cs[k] == x
    ensures forall m :: 0 <= m < k ==> cs[m] != x
  {
    if cs[0] == x then 0 else 1 + FirstIndex(cs[1..], x)
  }

  lemma FirstIndexInPrefix(front: seq<string>, c: string, y: string)
    requires y in front
    ensures FirstIndex(front + [c], y) == FirstIndex(front, y)
  {
    var a, b := FirstIndex(front + [c], y), FirstIndex(front, y);
    assert (front + [c])[b] == y;
    assert a <= b;
    assert front[a] == y;
  }

  /** The first-occurrence list really is ordered by where each element first occurs. */
  lemma {:induction false} FirstOccurrencesOrdered(cs: seq<string>)
    ensures forall x :: x in FirstOccurrences(cs) ==> x in cs
    ensures forall i, j :: 0 <= i < j < |FirstOccurrences(cs)| ==>
      FirstIndex(cs, FirstOccurrences(cs)[i]) < FirstIndex(cs, FirstOccurrences(cs)[j])
    decreases |cs|
  {
    FirstOccurrencesMembers(cs);
    if cs != [] {
      var front, c := cs[..|cs| - 1], cs[|cs| - 1];
      assert cs == front + [c];
      FirstOccurrencesOrdered(front);
      FirstOccurrencesMembers(front);
      var r := FirstOccurrences(cs);
      var rf := FirstOccurrences(front);
      forall i, j | 0 <= i < j < |r|
        ensures FirstIndex(cs, r[i]) < FirstIndex(cs, r[j])
      {
        FirstIndexInPrefix(front, c, r[i]);
        if j < |rf| {
          FirstIndexInPrefix(front, c, r[j]);
        } else {
          assert r[j] == c && c !in front;
          assert FirstIndex(cs, c) == |front|;
        }
      }
    }
  }

  /**
   * One group per distinct category: the names are pairwise different and are
   * exactly the categories of the records, in order of first occurrence.
   */
  lemma GroupNames(ds: seq<Diagram>)
    ensures var gs := Grouping(ds);
      && (forall i, j :: 0 <= i < j < |gs| ==> gs[i].name != gs[j].name)
      && (forall c :: (exists i :: 0 <= i < |gs| && gs[i].name == c) <==> c in Categories(ds))
      && (forall i, j :: 0 <= i < j < |gs| ==>
            FirstIndex(Categories(ds), gs[i].name) < FirstIndex(Categories(ds), gs[j].name))
  {
    var cs := Categories(ds);
    var names := FirstOccurrences(cs);
    FirstOccurrencesMembers(cs);
    FirstOccurrencesOrdered(cs);
    var gs := Grouping(ds);
    forall c
      ensures (exists i :: 0 <= i < |gs| && gs[i].name == c) <==> c in cs
    {
      if c in cs {
        assert c in names;
        var i :| 0 <= i < |names| && names[i] == c;
        assert gs[i].name == c;
      }
    }
  }

  lemma {:induction false} IdsInMembers(ds: seq<Diagram>, c: string)
    ensures forall id :: id in IdsIn(ds, c) <==>
      exists k :: 0 <= k < |ds| && ds[k].category == c && ds[k].id == id
    decreases |ds|
  {
    if ds != [] {
      var front := ds[..|ds| - 1];
      IdsInMembers(front, c);
      forall id
        ensures id in IdsIn(ds, c) <==>
          exists k :: 0 <= k < |ds| && ds[k].category == c && ds[k].id == id
      {
        if exists k :: 0 <= k < |ds| && ds[k].category == c && ds[k].id == id {
          var k :| 0 <= k < |ds| && ds[k].category == c && ds[k].id == id;
          if k < |ds| - 1 {
            assert front[k] == ds[k];
          }
        }
        if id in IdsIn(front, c) {
          var k :| 0 <= k < |front| && front[k].category == c && front[k].id == id;
          assert ds[k] == front[k];
        }
      }
    }
  }

  /** A category no record has has no ids. */
  lemma {:induction false} IdsInAbsent(ds: seq<Diagram>, c: string)
    requires c !in Categories(ds)
    ensures IdsIn(ds, c) == []
    decreases |ds|
  {
    if ds != [] {
      var front := ds[..|ds| - 1];
      assert Categories(ds) == Categories(front) + [ds[|ds| - 1].category];
      IdsInAbsent(front, c);
    }
  }

  /** Every record is listed, by id, in the group named by its category. */
  lemma RecordInItsGroup(ds: seq<Diagram>, k: int)
    requires 0 <= k < |ds|
    ensures exists i :: 0 <= i < |Grouping(ds)| &&
              Grouping(ds)[i].name == ds[k].category && ds[k].id in Grouping(ds)[i].diagrams
  {
    GroupNames(ds);
    assert Categories(ds)[k] == ds[k].category;
    assert ds[k].category in Categories(ds);
    var gs := Grouping(ds);
    var i :| 0 <= i < |gs| && gs[i].name == ds[k].category;
    IdsInMembers(ds, ds[k].category);
  }

  /** The positions of the records of category `c`, in increasing order. */
  function PositionsIn(ds: seq<Diagram>, c: string): (r: seq<int>)
    ensures forall k :: k in r <==> 0 <= k < |ds| && ds[k].category == c
    ensures forall i, j :: 0 <= i < j < |r| ==> r[i] < r[j]
    ensures forall i :: 0 <= i < |r| ==> 0 <= r[i] < |ds|
    decreases |ds|
  {
    if ds == [] then []
    else
      var pre := ds[..|ds| - 1];
      assert forall k :: 0 <= k < |pre| ==> pre[k] == ds[k];
      var front := PositionsIn(pre, c);
      front + (if ds[|ds| - 1].category == c then [|ds| - 1] else [])
  }

  /**
   * A group lists the ids of its category's records in record order: its
   * j-th id is the id of the j-th record of that category.
   */
  lemma {:induction false} GroupInRecordOrder(ds: seq<Diagram>, c: string)
    ensures |IdsIn(ds, c)| == |PositionsIn(ds, c)|
    ensures forall j :: 0 <= j < |IdsIn(ds, c)| ==> IdsIn(ds, c)[j] == ds[PositionsIn(ds, c)[j]].id
    decreases |ds|
  {
    if ds != [] {
      var front := ds[..|ds| - 1];
      GroupInRecordOrder(front, c);
      forall j | 0 <= j < |IdsIn(front, c)|
        ensures front[PositionsIn(front, c)[j]] == ds[PositionsIn(front, c)[j]]
      {
      }
    }
  }

  // ---------------------------------------------------------------------
  // The groups partition the ids.

  /** The ids of every group, one group after the other. */
  function AllGroupIds(gs: seq<CategoryGroup>): seq<string>
    decreases |gs|
  {
    if gs == [] then [] else gs[0].diagrams + AllGroupIds(gs[1..])
  }

  function Members(names: seq<string>): set<string>
  {
    set c | c in names
  }

  /** The ids of the records whose category is in `cats`, in record order. */
  function IdsWithin(ds: seq<Diagram>, cats: set<string>): seq<string>
    decreases |ds|
  {
    if ds == [] then []
    else IdsWithin(ds[..|ds| - 1], cats) + (if ds[|ds| - 1].category in cats then [ds[|ds| - 1].id] else [])
  }

  lemma {:induction false} IdsWithinAddCategory(ds: seq<Diagram>, cats: set<string>, c: string)
    requires c !in cats
    ensures multiset(IdsWithin(ds, cats + {c})) == multiset(IdsIn(ds, c)) + multiset(IdsWithin(ds, cats))
    decreases |ds|
  {
    if ds != [] {
      IdsWithinAddCategory(ds[..|ds| - 1], cats, c);
    }
  }

  lemma {:induction false} IdsWithinAll(ds: seq<Diagram>, cats: set<string>)
    requires forall k :: 0 <= k < |ds| ==> ds[k].category in cats
    ensures IdsWithin(ds, cats) == Ids(ds)
    decreases |ds|
  {
    if ds != [] {
      var front := ds[..|ds| - 1];
      IdsWithinAll(front, cats);
      assert Ids(ds) == Ids(front) + [ds[|ds| - 1].id];
    }
  }

  lemma {:induction false} GroupsForIds(ds: seq<Diagram>, names: seq<string>)
    requires forall i, j :: 0 <= i < j < |names| ==> names[i] != names[j]
    ensures multiset(AllGroupIds(GroupsFor(ds, names))) == multiset(IdsWithin(ds, Members(names)))
    decreases |names|
  {
    if names == [] {
      assert Members(names) == {};
      assert IdsWithin(ds, {}) == [] by { IdsWithinEmpty(ds); }
    } else {
      var rest := names[1..];
      GroupsForIds(ds, rest);
      assert Members(names) == Members(rest) + {names[0]};
      assert names[0] !in Members(rest);
      IdsWithinAddCategory(ds, Members(rest), names[0]);
    }
  }

  lemma {:induction false} IdsWithinEmpty(ds: seq<Diagram>)
    ensures IdsWithin(ds, {}) == []
    decreases |ds|
  {
    if ds != [] {
      IdsWithinEmpty(ds[..|ds| - 1]);
    }
  }

  /**
   * The groups' id lists, taken together, are a permutation of the records'
   * ids: every record is in exactly one group, and no id is added.
   */
  lemma GroupsPartitionIds(ds: seq<Diagram>)
    ensures multiset(AllGroupIds(Grouping(ds))) == multiset(Ids(ds))
  {
    var cs := Categories(ds);
    var names := FirstOccurrences(cs);
    FirstOccurrencesMembers(cs);
    GroupsForIds(ds, names);
    assert forall k :: 0 <= k < |ds| ==> ds[k].category in Members(names) by {
      forall k | 0 <= k < |ds| ensures ds[k].category in Members(names) {
        assert cs[k] in cs;
      }
    }
    IdsWithinAll(ds, Members(names));
  }
}
