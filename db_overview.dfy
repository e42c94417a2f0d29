/**
  The bookkeeping of the database overview page (`DBOverview.jsx`): which
  tables are shown as tracked or untracked, whether the database still needs
  setting up, and how tracking tables merges new entries into the collections
  of the selected database.

  A collections object is kept as its list of entries in JavaScript's
  property order: assigning to an existing name keeps its place, a new name
  goes to the end.
*/
module DbOverview {
  import opened Options

  /** One collection entry of the database configuration. */
  datatype Collection = Collection(isRealtimeEnabled: bool, rules: string, schema: string)

  datatype Entry = Entry(name: string, value: Collection)

  type Collections = seq<Entry>

  /** The names of the entries, in property order. */
  function Names(cs: Collections): seq<string> {
    if cs == [] then [] else [cs[0].name] + Names(cs[1..])
  }

  /** Property names of an object are unique. */
  predicate UniqueNames(cs: Collections) {
    forall i, j :: 0 <= i < j < |cs| ==> cs[i].name != cs[j].name
  }

  /** `collections[name]`, `None` when undefined. */
  function Lookup(cs: Collections, name: string): (r: Option<Collection>)
    ensures r.Some? <==> name in Names(cs)
  {
    if cs == [] then None
    else if cs[0].name == name then Some(cs[0].value)
    else Lookup(cs[1..], name)
  }

  /** `collections[name] = c`: overwrite in place, or append a new property. */
  function Put(cs: Collections, name: string, c: Collection): (r: Collections)
    ensures forall n :: Lookup(r, n) == if n == name then Some(c) else Lookup(cs, n)
    ensures Names(r) == if name in Names(cs) then Names(cs) else Names(cs) + [name]
    ensures UniqueNames(cs) ==> UniqueNames(r)
  {
    if cs == [] then [Entry(name, c)]
    else if cs[0].name == name then [Entry(name, c)] + cs[1..]
    else
      var rest := Put(cs[1..], name, c);
      assert UniqueNames(cs) ==> forall j :: 0 <= j < |rest| ==> rest[j].name != cs[0].name by {
        if UniqueNames(cs) {
          forall j | 0 <= j < |rest| ensures rest[j].name != cs[0].name {
            NameAt(rest, j);
            NamesUnique(cs);
          }
        }
      }
      [cs[0]] + rest
  }

  lemma {:induction false} NameAt(cs: Collections, j: nat)
    requires j < |cs|
    ensures |Names(cs)| == |cs| && cs[j].name == Names(cs)[j]
  {
    if j > 0 {
      NameAt(cs[1..], j - 1);
    } else {
      NamesLength(cs[1..]);
    }
  }

  lemma {:induction false} NamesLength(cs: Collections)
    ensures |Names(cs)| == |cs|
  {
    if cs != [] {
      NamesLength(cs[1..]);
    }
  }

  /** A name occurs in `Names` exactly when some entry carries it. */
  lemma {:induction false} NamesMembers(cs: Collections)
    ensures forall n :: n in Names(cs) <==> exists j :: 0 <= j < |cs| && cs[j].name == n
  {
    if cs != [] {
      NamesMembers(cs[1..]);
      forall n | exists j :: 0 <= j < |cs| && cs[j].name == n
        ensures n in Names(cs)
      {
        var j :| 0 <= j < |cs| && cs[j].name == n;
        if j > 0 {
          assert cs[1..][j - 1].name == n;
        }
      }
    }
  }

  /** With unique names the first name does not occur among the others. */
  lemma NamesUnique(cs: Collections)
    requires UniqueNames(cs) && cs != []
    ensures cs[0].name !in Names(cs[1..])
  {
    NamesMembers(cs[1..]);
    forall j | 0 <= j < |cs[1..]|
      ensures cs[1..][j].name != cs[0].name
    {
      assert cs[1..][j] == cs[j + 1];
    }
  }

  // ---------------------------------------------------------------------
  // mapStateToProps, label
  // ---------------------------------------------------------------------

  /** The entries the overview never lists as tracked tables. */
  predicate Hidden(name: string) {
    name == "default" || name == "events_log"
  }

  datatype TrackedRow = TrackedRow(name: string, realtime: bool)

  /** `trackedTables`: one row per collection entry, in property order,
      without the hidden names, showing whether realtime is enabled. */
  function TrackedTables(cs: Collections): (r: seq<TrackedRow>)
    ensures |r| <= |cs|
    ensures forall k :: 0 <= k < |r| ==> !Hidden(r[k].name) && Lookup(cs, r[k].name).Some?
  {
    if cs == [] then []
    else if Hidden(cs[0].name) then TrackedTables(cs[1..])
    else [TrackedRow(cs[0].name, cs[0].value.isRealtimeEnabled)] + TrackedTables(cs[1..])
  }

  /** The rows keep property order: the rows of `a + b` are those of `a`
      followed by those of `b`. */
  lemma {:induction false} TrackedAppend(a: Collections, b: Collections)
    ensures TrackedTables(a + b) == TrackedTables(a) + TrackedTables(b)
  {
    if a != [] {
      assert (a + b)[0] == a[0];
      assert (a + b)[1..] == a[1..] + b;
      TrackedAppend(a[1..], b);
    } else {
      assert a + b == b;
    }
  }

  /** One entry gives one row with its name and realtime flag, or none when hidden. */
  lemma TrackedSingle(e: Entry)
    ensures TrackedTables([e]) == if Hidden(e.name) then [] else [TrackedRow(e.name, e.value.isRealtimeEnabled)]
  {
    assert [e][1..] == [];
  }

  /** With unique names a row shows its own entry's realtime flag. */
  lemma {:induction false} RowShowsEntry(cs: Collections, k: nat)
    requires UniqueNames(cs) && k < |TrackedTables(cs)|
    ensures Lookup(cs, TrackedTables(cs)[k].name).Some?
    ensures Lookup(cs, TrackedTables(cs)[k].name).value.isRealtimeEnabled == TrackedTables(cs)[k].realtime
  {
    NamesUnique(cs);
    if !Hidden(cs[0].name) && k > 0 {
      RowShowsEntry(cs[1..], k - 1);
    } else if Hidden(cs[0].name) {
      RowShowsEntry(cs[1..], k);
    }
  }

  /** Every entry other than the hidden ones has a row showing its realtime flag. */
  lemma {:induction false} EveryEntryHasRow(cs: Collections, n: string)
    requires n in Names(cs) && !Hidden(n)
    ensures TrackedRow(n, Lookup(cs, n).value.isRealtimeEnabled) in TrackedTables(cs)
  {
    if cs[0].name != n {
      EveryEntryHasRow(cs[1..], n);
    }
  }

  /** `untrackedTables`: the listed tables with no collection entry, in their order. */
  function UntrackedTables(tables: seq<string>, cs: Collections): (r: seq<string>)
    ensures |r| <= |tables|
    ensures forall t :: t in r <==> t in tables && Lookup(cs, t).None?
  {
    if tables == [] then []
    else
      var rest := UntrackedTables(tables[1..], cs);
      if Lookup(cs, tables[0]).None? then [tables[0]] + rest else rest
  }

  /** Untracked tables keep the order of the list: the split of the list splits the result. */
  lemma {:induction false} UntrackedAppend(a: seq<string>, b: seq<string>, cs: Collections)
    ensures UntrackedTables(a + b, cs) == UntrackedTables(a, cs) + UntrackedTables(b, cs)
  {
    if a != [] {
      assert (a + b)[0] == a[0];
      assert (a + b)[1..] == a[1..] + b;
      UntrackedAppend(a[1..], b, cs);
    } else {
      assert a + b == b;
    }
  }

  /** `setUpDb`: the database still needs setting up while no `events_log` table is listed. */
  function SetUpDb(tables: seq<string>): (r: bool)
    ensures r <==> (forall k :: 0 <= k < |tables| ==> tables[k] != "events_log")
  {
    !("events_log" in tables)
  }

  /** The event log is never a tracked row; once it is listed (no set-up
      needed) and has no entry, it is offered as an untracked table. */
  lemma EventsLogRows(tables: seq<string>, cs: Collections)
    ensures forall k :: 0 <= k < |TrackedTables(cs)| ==> TrackedTables(cs)[k].name != "events_log"
    ensures !SetUpDb(tables) && Lookup(cs, "events_log").None? ==> "events_log" in UntrackedTables(tables, cs)
    ensures SetUpDb(tables) ==> "events_log" !in UntrackedTables(tables, cs)
  {
  }

  /** `label`: a MongoDB database holds collections, the others tables. */
  function Label(selectedDb: string): (r: string)
    ensures r == "Collection" <==> selectedDb == "mongo"
    ensures r == "Collection" || r == "Table"
  {
    if selectedDb == "mongo" then "Collection" else "Table"
  }

  // ---------------------------------------------------------------------
  // handleTrackTables
  // ---------------------------------------------------------------------

  /** The rules of the `default` collection, or '' when there is none. */
  function DefaultRule(cs: Collections): (r: string)
    ensures Lookup(cs, "default").Some? ==> r == Lookup(cs, "default").value.rules
    ensures Lookup(cs, "default").None? ==> r == ""
  {
    match Lookup(cs, "default")
    case Some(c) => c.rules
    case None => ""
  }

  /** The schema a tracked MongoDB collection starts with. */
  function MongoSchema(table: string): string {
    "type " + table + " {\n  _id: ID! @id \n}"
  }

  function MongoSchemas(tables: seq<string>): (r: seq<string>)
    ensures |r| == |tables|
    ensures forall i :: 0 <= i < |tables| ==> r[i] == MongoSchema(tables[i])
  {
    seq(|tables|, i requires 0 <= i < |tables| => MongoSchema(tables[i]))
  }

  /** The collections after tracking `tables[..]` in order, the table at
      position i with schema `schemas[i]`. */
  function Merged(cs: Collections, tables: seq<string>, schemas: seq<string>, rule: string): Collections
    requires |schemas| == |tables|
  {
    if tables == [] then cs
    else
      var n := |tables| - 1;
      Put(Merged(cs, tables[..n], schemas[..n], rule), tables[n], Collection(true, rule, schemas[n]))
  }

  /** The `forEach` that assigns `newCollections[table]` on a copy of the collections. */
  method Merge(collections: Collections, tables: seq<string>, schemas: seq<string>, rule: string) returns (newCollections: Collections)
    requires |schemas| == |tables|
    ensures newCollections == Merged(collections, tables, schemas, rule)
  {
    newCollections := collections;
    var i := 0;
    while i < |tables|
      invariant 0 <= i <= |tables|
      invariant newCollections == Merged(collections, tables[..i], schemas[..i], rule)
    {
      assert tables[..i + 1][..i] == tables[..i];
      assert schemas[..i + 1][..i] == schemas[..i];
      newCollections := Put(newCollections, tables[i], Collection(true, rule, schemas[i]));
      i := i + 1;
    }
    assert tables[..i] == tables && schemas[..i] == schemas;
  }

  /** `handleTrackTables`: a MongoDB database gives every table the template
      schema. The others take the schema the inspection returned for the
      table at the same position. `inspected` stands for that result, `None`
      when an inspection request failed: then only an error is reported and
      the collections stay as they were. */
  method HandleTrackTables(selectedDb: string, collections: Collections, tables: seq<string>, inspected: Option<seq<string>>)
    returns (newCollections: Collections)
    requires selectedDb != "mongo" && inspected.Some? ==> |inspected.value| == |tables|
    ensures selectedDb == "mongo" ==> newCollections == Merged(collections, tables, MongoSchemas(tables), DefaultRule(collections))
    ensures selectedDb != "mongo" && inspected.Some? ==> newCollections == Merged(collections, tables, inspected.value, DefaultRule(collections))
    ensures selectedDb != "mongo" && inspected.None? ==> newCollections == collections
  {
    var defaultRule := DefaultRule(collections);
    if selectedDb == "mongo" {
      newCollections := Merge(collections, tables, MongoSchemas(tables), defaultRule);
      return;
    }
    match inspected
    case None =>
      newCollections := collections;
    case Some(schemas) =>
      newCollections := Merge(collections, tables, schemas, defaultRule);
  }

  /** The last position of `x` in `s`. */
  function LastIndex(s: seq<string>, x: string): (i: nat)
    requires x in s
    ensures i < |s| && s[i] == x
    ensures forall j :: i < j < |s| ==> s[j] != x
  {
    if s[|s| - 1] == x then |s| - 1 else LastIndex(s[..|s| - 1], x)
  }

  /** What tracking leaves under each name: a tracked table holds realtime,
      the rule and the schema of its LAST position in the list; every other
      entry is unchanged. */
  lemma {:induction false} MergedLookup(cs: Collections, tables: seq<string>, schemas: seq<string>, rule: string, name: string)
    requires |schemas| == |tables|
    ensures Lookup(Merged(cs, tables, schemas, rule), name)
         == if name in tables then Some(Collection(true, rule, schemas[LastIndex(tables, name)])) else Lookup(cs, name)
  {
    if tables != [] {
      var n := |tables| - 1;
      MergedLookup(cs, tables[..n], schemas[..n], rule, name);
      if name in tables && name != tables[n] {
        var k := LastIndex(tables, name);
        assert tables[..n][k] == name;
        assert LastIndex(tables[..n], name) == k by {
          var k' := LastIndex(tables[..n], name);
          assert tables[k'] == name;
        }
      }
      if name !in tables[..n] && name != tables[n] {
        assert name !in tables;
      }
    }
  }

  /** The names after tracking: the old names in their places, then each newly
      tracked table once, in list order; names stay unique. */
  lemma {:induction false} MergedNames(cs: Collections, tables: seq<string>, schemas: seq<string>, rule: string)
    requires |schemas| == |tables| && UniqueNames(cs)
    ensures UniqueNames(Merged(cs, tables, schemas, rule))
    ensures Names(Merged(cs, tables, schemas, rule)) == Names(cs) + NewNames(Names(cs), tables)
  {
    if tables != [] {
      var n := |tables| - 1;
      MergedNames(cs, tables[..n], schemas[..n], rule);
      var before := Merged(cs, tables[..n], schemas[..n], rule);
      NewNamesMembers(Names(cs), tables[..n]);
    }
  }

  /** The tables of the list that `names` lacks, each once, in order of first appearance. */
  function NewNames(names: seq<string>, tables: seq<string>): seq<string> {
    if tables == [] then []
    else
      var n := |tables| - 1;
      var earlier := NewNames(names, tables[..n]);
      if tables[n] in names || tables[n] in earlier then earlier else earlier + [tables[n]]
  }

  lemma {:induction false} NewNamesMembers(names: seq<string>, tables: seq<string>)
    ensures forall t :: t in NewNames(names, tables) <==> t in tables && t !in names
  {
    if tables != [] {
      NewNamesMembers(names, tables[..|tables| - 1]);
      assert tables == tables[..|tables| - 1] + [tables[|tables| - 1]];
    }
  }

  /** After tracking, none of the tracked tables is offered as untracked. */
  lemma TrackedNotUntracked(cs: Collections, tables: seq<string>, schemas: seq<string>, rule: string)
    requires |schemas| == |tables|
    ensures UntrackedTables(tables, Merged(cs, tables, schemas, rule)) == []
  {
    forall t | t in tables ensures Lookup(Merged(cs, tables, schemas, rule), t).Some? {
      MergedLookup(cs, tables, schemas, rule, t);
    }
    UntrackedEmpty(tables, Merged(cs, tables, schemas, rule));
  }

  /** After tracking, a listed table is untracked exactly when it was before
      and is not among the tracked tables. */
  lemma UntrackedAfterTracking(cs: Collections, tables: seq<string>, schemas: seq<string>, rule: string, listed: seq<string>, t: string)
    requires |schemas| == |tables|
    ensures t in UntrackedTables(listed, Merged(cs, tables, schemas, rule)) <==> t in UntrackedTables(listed, cs) && t !in tables
  {
    MergedLookup(cs, tables, schemas, rule, t);
  }

  /** A list whose tables all have entries has nothing untracked. */
  lemma {:induction false} UntrackedEmpty(tables: seq<string>, cs: Collections)
    requires forall t :: t in tables ==> Lookup(cs, t).Some?
    ensures UntrackedTables(tables, cs) == []
  {
    if tables != [] {
      assert tables[0] in tables;
      UntrackedEmpty(tables[1..], cs);
    }
  }

  /** MongoDB tracking: every listed table is a realtime collection with the
      default collection's rules and the template schema naming the table. */
  lemma MongoTracking(cs: Collections, tables: seq<string>, t: string)
    requires t in tables
    ensures Lookup(Merged(cs, tables, MongoSchemas(tables), DefaultRule(cs)), t)
         == Some(Collection(true, DefaultRule(cs), MongoSchema(t)))
  {
    MergedLookup(cs, tables, MongoSchemas(tables), DefaultRule(cs), t);
  }

  /** Tracking distinct tables: the table at position i gets `schemas[i]`. */
  lemma SchemaByPosition(cs: Collections, tables: seq<string>, schemas: seq<string>, rule: string, i: nat)
    requires |schemas| == |tables| && i < |tables|
    requires forall j :: 0 <= j < |tables| && j != i ==> tables[j] != tables[i]
    ensures Lookup(Merged(cs, tables, schemas, rule), tables[i]) == Some(Collection(true, rule, schemas[i]))
  {
    MergedLookup(cs, tables, schemas, rule, tables[i]);
  }
}
