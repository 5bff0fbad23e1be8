/** The three category taxonomies of main.py (primary, second and third
    level): how a category file's entries are loaded, and the rule that picks
    a new shape's default second or third category. */
module Categories {
  import opened Wrappers

  /** One entry of a category file. */
  datatype Category = Category(id: int, name: string, supercategory: string)

  /** A loaded taxonomy: name to entry, id to name, and the names in load order. */
  datatype Taxonomy = Taxonomy(byName: map<string, Category>, idsToNames: map<int, string>, names: seq<string>)

  const EmptyTaxonomy: Taxonomy := Taxonomy(map[], map[], [])

  /** A category file: its `name` and its `category` array, either of which may be absent. */
  datatype CategoryFile = CategoryFile(name: Option<string>, category: Option<seq<Category>>)

  /** The taxonomy after loading `entries` in order: an entry whose name is
      already present is skipped; otherwise it is recorded by name, by id
      (a later id overwrites) and appended to the names. */
  function Build(entries: seq<Category>): Taxonomy
  {
    if entries == [] then EmptyTaxonomy
    else
      var t := Build(entries[..|entries| - 1]);
      var c := entries[|entries| - 1];
      if c.name in t.byName then t else Record(t, c)
  }

  /** `c` recorded under its name and its id, and its name appended. */
  function Record(t: Taxonomy, c: Category): Taxonomy
  {
    Taxonomy(t.byName[c.name := c], t.idsToNames[c.id := c.name], t.names + [c.name])
  }

  /** Reference definition, read from the front: the position of the first
      entry called `n`, or -1. */
  function FirstWithName(entries: seq<Category>, n: string): (k: int)
    ensures -1 <= k < |entries|
    ensures k == -1 <==> forall i :: 0 <= i < |entries| ==> entries[i].name != n
    ensures k != -1 ==> entries[k].name == n && forall j :: 0 <= j < k ==> entries[j].name != n
  {
    if entries == [] then -1
    else if entries[0].name == n then 0
    else
      var k := FirstWithName(entries[1..], n);
      if k == -1 then -1 else k + 1
  }

  /** The maps of a taxonomy agree with each other and with its names list. */
  ghost predicate WellFormed(t: Taxonomy)
  {
    && (forall n :: n in t.byName <==> n in t.names)
    && Distinct(t.names)
    && (forall n :: n in t.byName ==> t.byName[n].name == n && t.byName[n].id in t.idsToNames)
    && (forall id :: id in t.idsToNames ==> t.idsToNames[id] in t.byName && t.byName[t.idsToNames[id]].id == id)
  }

  /** What loading `entries` keeps: every name present in them, with the
      entry of its first occurrence, listed in order of first occurrence. */
  ghost predicate FirstOccurrences(entries: seq<Category>, t: Taxonomy)
  {
    AllNames(entries, t) && FirstEntries(entries, t) && InFirstOrder(entries, t)
  }

  ghost predicate AllNames(entries: seq<Category>, t: Taxonomy)
  {
    forall n :: n in t.byName <==> FirstWithName(entries, n) != -1
  }

  ghost predicate FirstEntries(entries: seq<Category>, t: Taxonomy)
  {
    forall n :: n in t.byName ==> FirstWithName(entries, n) != -1 && t.byName[n] == entries[FirstWithName(entries, n)]
  }

  ghost predicate InFirstOrder(entries: seq<Category>, t: Taxonomy)
  {
    forall j, k :: 0 <= j < k < |t.names| ==> FirstWithName(entries, t.names[j]) < FirstWithName(entries, t.names[k])
  }

  lemma FirstWithNameSnoc(prefix: seq<Category>, c: Category, n: string)
    ensures FirstWithName(prefix + [c], n) ==
              if FirstWithName(prefix, n) != -1 then FirstWithName(prefix, n)
              else if c.name == n then |prefix| else -1
  {
    var s := prefix + [c];
    assert forall i :: 0 <= i < |prefix| ==> s[i] == prefix[i];
    assert s[|prefix|] == c;
  }

  lemma RecordWellFormed(t: Taxonomy, c: Category)
    requires WellFormed(t) && c.name !in t.byName
    ensures WellFormed(Record(t, c))
  {
    var t' := Record(t, c);
    forall i, j | 0 <= i < j < |t'.names| ensures t'.names[i] != t'.names[j] {
      if j < |t.names| {
        assert t'.names[i] == t.names[i] && t'.names[j] == t.names[j];
      } else {
        assert t'.names[i] == t.names[i] && t.names[i] in t.byName;
      }
    }
  }

  lemma RecordAllNames(prefix: seq<Category>, c: Category, t: Taxonomy)
    requires AllNames(prefix, t)
    ensures AllNames(prefix + [c], if c.name in t.byName then t else Record(t, c))
  {
    forall n ensures n in (if c.name in t.byName then t else Record(t, c)).byName <==> FirstWithName(prefix + [c], n) != -1 {
      FirstWithNameSnoc(prefix, c, n);
    }
  }

  lemma RecordFirstEntries(prefix: seq<Category>, c: Category, t: Taxonomy)
    requires AllNames(prefix, t) && FirstEntries(prefix, t)
    ensures FirstEntries(prefix + [c], if c.name in t.byName then t else Record(t, c))
  {
    var entries := prefix + [c];
    var t' := if c.name in t.byName then t else Record(t, c);
    forall n | n in t'.byName ensures FirstWithName(entries, n) != -1 && t'.byName[n] == entries[FirstWithName(entries, n)] {
      FirstWithNameSnoc(prefix, c, n);
      if n in t.byName {
        assert entries[FirstWithName(prefix, n)] == prefix[FirstWithName(prefix, n)];
      } else {
        assert entries[|prefix|] == c;
      }
    }
  }

  lemma RecordInFirstOrder(prefix: seq<Category>, c: Category, t: Taxonomy)
    requires forall i :: 0 <= i < |t.names| ==> t.names[i] in t.byName
    requires AllNames(prefix, t) && InFirstOrder(prefix, t)
    ensures InFirstOrder(prefix + [c], if c.name in t.byName then t else Record(t, c))
  {
    var entries := prefix + [c];
    if c.name in t.byName {
      forall j, k | 0 <= j < k < |t.names|
        ensures FirstWithName(entries, t.names[j]) < FirstWithName(entries, t.names[k])
      {
        assert t.names[j] in t.byName && t.names[k] in t.byName;
        FirstWithNameSnoc(prefix, c, t.names[j]);
        FirstWithNameSnoc(prefix, c, t.names[k]);
      }
    } else {
      var t' := Record(t, c);
      forall j, k | 0 <= j < k < |t'.names|
        ensures FirstWithName(entries, t'.names[j]) < FirstWithName(entries, t'.names[k])
      {
        assert t'.names[j] == t.names[j] && t.names[j] in t.byName;
        FirstWithNameSnoc(prefix, c, t.names[j]);
        FirstWithNameSnoc(prefix, c, t'.names[k]);
        if k < |t.names| {
          assert t'.names[k] == t.names[k] && t.names[k] in t.byName;
        } else {
          assert t'.names[k] == c.name;
        }
      }
    }
  }

  /** Loading keeps a well-formed taxonomy of the first occurrences, in order. */
  lemma {:induction false} BuildFirstOccurrences(entries: seq<Category>)
    ensures WellFormed(Build(entries))
    ensures FirstOccurrences(entries, Build(entries))
  {
    if entries != [] {
      var prefix, c := entries[..|entries| - 1], entries[|entries| - 1];
      assert entries == prefix + [c];
      BuildFirstOccurrences(prefix);
      var t := Build(prefix);
      if c.name !in t.byName {
        RecordWellFormed(t, c);
      }
      RecordAllNames(prefix, c, t);
      RecordFirstEntries(prefix, c, t);
      RecordInFirstOrder(prefix, c, t);
    }
  }

  /** Reload by name and by id: an entry kept under its name is found again
      through its id whenever no other kept entry shares that id. */
  lemma ReachableById(t: Taxonomy, n: string)
    requires WellFormed(t) && n in t.byName
    requires forall m :: m in t.byName && m != n ==> t.byName[m].id != t.byName[n].id
    ensures t.byName[n].id in t.idsToNames && t.idsToNames[t.byName[n].id] == n
  {
  }

  /** The loop of `set_category`, `set_second_category` and `set_third_category`:
      the taxonomy is rebuilt from nothing out of `entries`. */
  method LoadTaxonomy(entries: seq<Category>) returns (t: Taxonomy)
    ensures t == Build(entries)
    ensures WellFormed(t) && FirstOccurrences(entries, t)
  {
    t := EmptyTaxonomy;
    for i := 0 to |entries|
      invariant t == Build(entries[..i])
    {
      var c := entries[i];
      assert entries[..i + 1][..i] == entries[..i];
      if c.name in t.byName {
        continue;
      }
      t := Taxonomy(t.byName[c.name := c], t.idsToNames[c.id := c.name], t.names + [c.name]);
    }
    assert entries[..|entries|] == entries;
    BuildFirstOccurrences(entries);
  }

  /** The default rule of `add_label`: an entry matches when its supercategory
      is "all", the primary category's name or the primary's supercategory. */
  predicate Matches(entry: Category, primary: Category)
  {
    entry.supercategory == "all" || entry.supercategory == primary.name || entry.supercategory == primary.supercategory
  }

  predicate MatchesAt(t: Taxonomy, primary: Category, i: int)
    requires 0 <= i < |t.names| && t.names[i] in t.byName
  {
    Matches(t.byName[t.names[i]], primary)
  }

  /** Reference definition of the search: the first position from `i` on
      whose entry matches, or -1. */
  function FirstMatchFrom(t: Taxonomy, primary: Category, i: nat): (k: int)
    requires forall j :: 0 <= j < |t.names| ==> t.names[j] in t.byName
    requires i <= |t.names|
    ensures k == -1 || i <= k < |t.names|
    ensures k == -1 <==> forall j :: i <= j < |t.names| ==> !MatchesAt(t, primary, j)
    ensures k != -1 ==> MatchesAt(t, primary, k) && forall j :: i <= j < k ==> !MatchesAt(t, primary, j)
    decreases |t.names| - i
  {
    if i == |t.names| then -1
    else if MatchesAt(t, primary, i) then i
    else FirstMatchFrom(t, primary, i + 1)
  }

  /** The default rule as a value: the given name, else the first match, else
      the first name; nothing for an empty taxonomy. */
  function DefaultChoice(given: Option<string>, t: Taxonomy, primary: Category): Option<string>
    requires forall j :: 0 <= j < |t.names| ==> t.names[j] in t.byName
  {
    if given.Some? then given
    else if t.names == [] then None
    else
      var k := FirstMatchFrom(t, primary, 0);
      Some(if k == -1 then t.names[0] else t.names[k])
  }

  /** The default rule: a given second or third category is kept; without
      one, and with a non-empty taxonomy, the first name in load order that
      matches is chosen, or the first name when none matches. */
  lemma DefaultChoiceRule(given: Option<string>, t: Taxonomy, primary: Category)
    requires forall i :: 0 <= i < |t.names| ==> t.names[i] in t.byName
    ensures given.Some? ==> DefaultChoice(given, t, primary) == given
    ensures given.None? && t.names == [] ==> DefaultChoice(given, t, primary) == None
    ensures given.None? && t.names != [] ==>
              DefaultChoice(given, t, primary).Some? && DefaultChoice(given, t, primary).value in t.names
    ensures given.None? && (exists i :: 0 <= i < |t.names| && MatchesAt(t, primary, i)) ==>
              exists i :: 0 <= i < |t.names| && DefaultChoice(given, t, primary) == Some(t.names[i]) && MatchesAt(t, primary, i)
                          && forall j :: 0 <= j < i ==> !MatchesAt(t, primary, j)
    ensures given.None? && t.names != [] && (forall i :: 0 <= i < |t.names| ==> !MatchesAt(t, primary, i)) ==>
              DefaultChoice(given, t, primary) == Some(t.names[0])
  {
    if given.None? && t.names != [] {
      var k := FirstMatchFrom(t, primary, 0);
      if k != -1 {
        assert DefaultChoice(given, t, primary) == Some(t.names[k]);
      }
    }
  }

  /** The search of `add_label` for a default second or third category. */
  method DefaultCategory(given: Option<string>, t: Taxonomy, primary: Category) returns (chosen: Option<string>)
    requires forall i :: 0 <= i < |t.names| ==> t.names[i] in t.byName
    ensures chosen == DefaultChoice(given, t, primary)
  {
    chosen := given;
    if given.None? && |t.names| > 0 {
      chosen := Some(t.names[0]);
      var i := 0;
      while i < |t.names|
        invariant 0 <= i <= |t.names|
        invariant chosen == Some(t.names[0])
        invariant forall j :: 0 <= j < i ==> !MatchesAt(t, primary, j)
      {
        if Matches(t.byName[t.names[i]], primary) {
          assert MatchesAt(t, primary, i);
          assert FirstMatchFrom(t, primary, 0) == i;
          chosen := Some(t.names[i]);
          break;
        }
        i := i + 1;
      }
    }
  }
}
