/**
 The catalog pipeline said in terms of the catalog's own entries: which resources are shown and
 how, which joins are loaded and with which keys, and what a proposal selects.
 */
module SelectionProperties {
  import opened Catalog
  import opened CatalogProperties
  import opened Decimals
  import opened Sequences

  /*** The filtered schema ***/

  /** Allowed by name, by scope or by one of several scopes. */
  predicate MaySee(r: Resource, p: Permissions) {
    || r.key in p.resources
    || (r.scope != "" && r.scope in p.scopes)
    || exists k :: k in r.scopeKeys && k in p.scopes
  }

  ghost function Seen(resources: seq<Resource>, p: Permissions): seq<Resource> {
    Select(resources, (i: nat) => i < |resources| && MaySee(resources[i], p))
  }

  /** Column j of a table as it is shown; the data type is text unless it is known. */
  ghost predicate ShowsColumn(c: TableColumn, table: string, j: nat, column: Column, safe: string -> string) {
    && c.key == table + "_col_" + Digits(j)
    && c.name == column.name && c.description == safe(column.description)
    && c.dataType == (if column.dataType != "" then column.dataType else "text")
  }

  /** The i-th table is the resource as it is shown. */
  ghost predicate ShowsResource(t: Table, i: nat, r: Resource, safe: string -> string) {
    && t.key == "table_" + Digits(i)
    && t.resourceKey == r.key && t.relation == r.relation && t.displayName == safe(r.displayName)
    && |t.columns| == |r.columns|
    && forall j: nat | j < |r.columns| :: ShowsColumn(t.columns[j], t.key, j + 1, r.columns[j], safe)
  }

  lemma AllowedIsExact(r: Resource, p: Permissions)
    ensures IsAllowed(r, p) <==> MaySee(r, p)
  {
    assert forall i | 0 <= i < |r.scopeKeys| :: r.scopeKeys[i] in r.scopeKeys;
    if k :| k in r.scopeKeys && k in p.scopes {
      var i :| 0 <= i < |r.scopeKeys| && r.scopeKeys[i] == k;
    }
  }

  lemma VisibleIsSeen(resources: seq<Resource>, p: Permissions)
    ensures Visible(resources, p) == Seen(resources, p)
  {
    forall i: nat | i < |resources|
      ensures MaySee(resources[i], p) == AllowedBy(p)(resources[i])
    {
      AllowedIsExact(resources[i], p);
    }
    KeepIsSelect(resources, AllowedBy(p), (i: nat) => i < |resources| && MaySee(resources[i], p));
  }

  lemma TableShowsResource(i: nat, r: Resource, safe: string -> string)
    ensures ShowsResource(MakeTable(i, r, safe), i, r, safe)
  {
    var t := MakeTable(i, r, safe);
    forall j: nat | j < |r.columns|
      ensures ShowsColumn(t.columns[j], t.key, j + 1, r.columns[j], safe)
    {
    }
  }

  /** The schema shows the resources one may see, in catalog order, numbered from one, and no others. */
  lemma FilteredIsExact(resources: seq<Resource>, p: Permissions, safe: string -> string)
    ensures var tables, seen := Filtered(resources, p, safe), Seen(resources, p);
      |tables| == |seen| && forall i: nat | i < |seen| :: ShowsResource(tables[i], i + 1, seen[i], safe)
  {
    VisibleIsSeen(resources, p);
    forall i: nat | i < |Seen(resources, p)|
      ensures ShowsResource(Filtered(resources, p, safe)[i], i + 1, Seen(resources, p)[i], safe)
    {
      TableShowsResource(i + 1, Seen(resources, p)[i], safe);
    }
  }

  /*** Loaded joins ***/

  /** Some table stands for the resource. */
  ghost predicate HasResource(tables: seq<Table>, resource: string) {
    exists a: nat :: a < |tables| && tables[a].resourceKey == resource
  }

  /** Table a stands for the resource and its column b has the name. */
  ghost predicate ColumnAt(tables: seq<Table>, resource: string, column: string, a: nat, b: nat) {
    && a < |tables| && tables[a].resourceKey == resource
    && b < |tables[a].columns| && tables[a].columns[b].name == column
  }

  ghost predicate HasColumn(tables: seq<Table>, resource: string, column: string) {
    exists a: nat, b: nat :: ColumnAt(tables, resource, column, a, b)
  }

  /** The last table for the resource. */
  ghost predicate LastTable(tables: seq<Table>, resource: string, a: nat) {
    && a < |tables| && tables[a].resourceKey == resource
    && forall later: nat | a < later < |tables| :: tables[later].resourceKey != resource
  }

  /** The last column of the name under the resource. */
  ghost predicate LastColumn(tables: seq<Table>, resource: string, column: string, a: nat, b: nat) {
    && ColumnAt(tables, resource, column, a, b)
    && forall c: nat, d: nat | ColumnAt(tables, resource, column, c, d) :: c < a || (c == a && d <= b)
  }

  /** The keys of table and column for one end of a join. */
  ghost predicate EndKeys(tables: seq<Table>, resource: string, column: string, tableKey: string, columnKey: string) {
    && (exists a: nat :: LastTable(tables, resource, a) && tableKey == tables[a].key)
    && (exists a: nat, b: nat :: LastColumn(tables, resource, column, a, b) && columnKey == tables[a].columns[b].key)
  }

  ghost predicate Fits(tables: seq<Table>, j: StoredJoin) {
    HasColumn(tables, j.leftResource, j.leftColumn) && HasColumn(tables, j.rightResource, j.rightColumn)
  }

  ghost predicate ShowsJoin(tables: seq<Table>, join: Join, n: nat, j: StoredJoin, safe: string -> string) {
    && join.key == "join_" + Digits(n)
    && EndKeys(tables, j.leftResource, j.leftColumn, join.leftTable, join.leftColumn)
    && EndKeys(tables, j.rightResource, j.rightColumn, join.rightTable, join.rightColumn)
    && join.joinType == (if j.joinType != "" then j.joinType else "inner")
    && join.reason == safe(j.reason)
  }

  ghost function FittingJoins(tables: seq<Table>, stored: seq<StoredJoin>): seq<StoredJoin> {
    Select(stored, (i: nat) => i < |stored| && Fits(tables, stored[i]))
  }

  lemma ColumnKnown(tables: seq<Table>, resource: string, column: string)
    ensures (resource, column) in ColumnKeys(tables) <==> HasColumn(tables, resource, column)
    ensures HasColumn(tables, resource, column) ==> resource in ByResource(tables)
    ensures resource in ByResource(tables) <==> HasResource(tables, resource)
  {
    ColumnKeysHold(tables);
    ByResourceHolds(tables);
    if (resource, column) in ColumnKeys(tables) {
      var t, c :| t in tables && c in t.columns && t.resourceKey == resource && c.name == column;
      var a: nat :| a < |tables| && tables[a] == t;
      var b: nat :| b < |t.columns| && t.columns[b] == c;
      assert ColumnAt(tables, resource, column, a, b);
    }
    if a: nat, b: nat :| ColumnAt(tables, resource, column, a, b) {
      assert tables[a] in tables && tables[a].columns[b] in tables[a].columns;
    }
    if resource in ByResource(tables) {
      var a: nat :| a < |tables| && tables[a] == ByResource(tables)[resource];
    }
    if a: nat :| a < |tables| && tables[a].resourceKey == resource {
      assert tables[a] in tables;
    }
  }

  /** The last column of a name wins. */
  lemma {:induction false} LastOfName(columns: seq<TableColumn>, resource: string, column: string) returns (b: nat)
    requires (resource, column) in ColumnsByName(columns, resource)
    ensures b < |columns| && columns[b].name == column && columns[b].key == ColumnsByName(columns, resource)[(resource, column)]
    ensures forall later: nat | b < later < |columns| :: columns[later].name != column
  {
    var n := |columns| - 1;
    if columns[n].name == column {
      b := n;
    } else {
      b := LastOfName(columns[..n], resource, column);
    }
  }

  lemma {:induction false} LastTableCounts(tables: seq<Table>, resource: string) returns (a: nat)
    requires resource in ByResource(tables)
    ensures LastTable(tables, resource, a) && ByResource(tables)[resource] == tables[a]
  {
    var n := |tables| - 1;
    if tables[n].resourceKey == resource {
      a := n;
    } else {
      a := LastTableCounts(tables[..n], resource);
      assert forall later | a < later < n :: tables[later] == tables[..n][later];
    }
  }

  lemma {:induction false} LastColumnCounts(tables: seq<Table>, resource: string, column: string) returns (a: nat, b: nat)
    requires (resource, column) in ColumnKeys(tables)
    ensures LastColumn(tables, resource, column, a, b)
    ensures ColumnKeys(tables)[(resource, column)] == tables[a].columns[b].key
  {
    var n := |tables| - 1;
    var t := tables[n];
    ColumnsByNameHolds(t.columns, t.resourceKey);
    if (resource, column) in ColumnsByName(t.columns, t.resourceKey) {
      a := n;
      b := LastOfName(t.columns, resource, column);
      assert ColumnAt(tables, resource, column, a, b);
    } else {
      a, b := LastColumnCounts(tables[..n], resource, column);
      EarlierLast(tables, n, resource, column, a, b);
    }
  }

  lemma EarlierLast(tables: seq<Table>, n: nat, resource: string, column: string, a: nat, b: nat)
    requires |tables| == n + 1 && LastColumn(tables[..n], resource, column, a, b)
    requires forall d: nat :: !ColumnAt(tables, resource, column, n, d)
    ensures LastColumn(tables, resource, column, a, b)
  {
    var front := tables[..n];
    assert ColumnAt(tables, resource, column, a, b);
    forall c: nat, d: nat | ColumnAt(tables, resource, column, c, d)
      ensures c < a || (c == a && d <= b)
    {
      assert ColumnAt(front, resource, column, c, d);
    }
  }

  lemma EndIsExact(tables: seq<Table>, resource: string, column: string)
    requires HasColumn(tables, resource, column)
    ensures EndKeys(tables, resource, column, TableKeyOf(tables, resource), ColumnKeyOf(tables, resource, column))
  {
    ColumnKnown(tables, resource, column);
    var t := LastTableCounts(tables, resource);
    var a, b := LastColumnCounts(tables, resource, column);
  }

  lemma LoadableIsFitting(tables: seq<Table>, j: StoredJoin)
    ensures Loadable(tables, j) <==> Fits(tables, j)
  {
    ColumnKnown(tables, j.leftResource, j.leftColumn);
    ColumnKnown(tables, j.rightResource, j.rightColumn);
  }

  /** The joins whose both ends are in the schema are loaded, in order, with the keys of their ends. */
  lemma LoadedIsExact(tables: seq<Table>, stored: seq<StoredJoin>, safe: string -> string)
    ensures var loaded, fitting := Loaded(tables, stored, safe), FittingJoins(tables, stored);
      |loaded| == |fitting| && forall n: nat | n < |fitting| :: ShowsJoin(tables, loaded[n], n + 1, fitting[n], safe)
  {
    forall i: nat | i < |stored|
      ensures Fits(tables, stored[i]) == LoadableIn(tables)(stored[i])
    {
      LoadableIsFitting(tables, stored[i]);
    }
    KeepIsSelect(stored, LoadableIn(tables), (i: nat) => i < |stored| && Fits(tables, stored[i]));
    var fitting := FittingJoins(tables, stored);
    KeptSatisfy(stored, LoadableIn(tables));
    forall n: nat | n < |fitting|
      ensures ShowsJoin(tables, Loaded(tables, stored, safe)[n], n + 1, fitting[n], safe)
    {
      assert fitting[n] in fitting;
      LoadableIsFitting(tables, fitting[n]);
      EndIsExact(tables, fitting[n].leftResource, fitting[n].leftColumn);
      EndIsExact(tables, fitting[n].rightResource, fitting[n].rightColumn);
    }
  }

  /*** Counters ***/

  predicate AllNamed(j: StoredJoin) {
    j.leftResource != "" && j.rightResource != "" && j.leftColumn != "" && j.rightColumn != ""
  }

  /** A join with all its names, one of whose resources is not in the schema. */
  ghost predicate TouchesDenied(tables: seq<Table>, j: StoredJoin) {
    AllNamed(j) && (!HasResource(tables, j.leftResource) || !HasResource(tables, j.rightResource))
  }

  /** The last table for the resource has a column of the name. */
  ghost predicate LastTableHas(tables: seq<Table>, resource: string, column: string) {
    exists a: nat, b: nat :: LastTable(tables, resource, a) && ColumnAt(tables, resource, column, a, b)
  }

  /** A join with a name missing, or between resources of the schema with a column that is not there. */
  ghost predicate IsMalformed(tables: seq<Table>, j: StoredJoin) {
    || !AllNamed(j)
    || (&& HasResource(tables, j.leftResource) && HasResource(tables, j.rightResource)
        && (!LastTableHas(tables, j.leftResource, j.leftColumn) || !LastTableHas(tables, j.rightResource, j.rightColumn)))
  }

  lemma KnownIsExact(tables: seq<Table>, resource: string, column: string)
    ensures resource in ByResource(tables) <==> HasResource(tables, resource)
    ensures KnownColumn(tables, resource, column) <==> LastTableHas(tables, resource, column)
  {
    ColumnKnown(tables, resource, column);
    if resource in ByResource(tables) {
      var t := LastTableCounts(tables, resource);
      if c :| c in tables[t].columns && c.name == column {
        var b: nat :| b < |tables[t].columns| && tables[t].columns[b] == c;
        assert ColumnAt(tables, resource, column, t, b);
      }
      if a: nat, b: nat :| LastTable(tables, resource, a) && ColumnAt(tables, resource, column, a, b) {
        assert a == t && tables[t].columns[b] in tables[t].columns;
      }
    }
  }

  lemma DropIsExact(tables: seq<Table>, j: StoredJoin)
    ensures DropOf(tables, j) == Denied <==> TouchesDenied(tables, j)
    ensures DropOf(tables, j) == Invalid <==> IsMalformed(tables, j)
  {
    KnownIsExact(tables, j.leftResource, j.leftColumn);
    KnownIsExact(tables, j.rightResource, j.rightColumn);
  }

  /** Denied joins and malformed ones are counted, each once. */
  lemma DropCountsAreExact(tables: seq<Table>, stored: seq<StoredJoin>)
    ensures CountDrops(tables, stored, Denied) ==
      |Select(stored, (i: nat) => i < |stored| && TouchesDenied(tables, stored[i]))|
    ensures CountDrops(tables, stored, Invalid) ==
      |Select(stored, (i: nat) => i < |stored| && IsMalformed(tables, stored[i]))|
  {
    forall i: nat | i < |stored|
      ensures TouchesDenied(tables, stored[i]) == DroppedFor(tables, Denied)(stored[i])
      ensures IsMalformed(tables, stored[i]) == DroppedFor(tables, Invalid)(stored[i])
    {
      DropIsExact(tables, stored[i]);
    }
    KeepIsSelect(stored, DroppedFor(tables, Denied), (i: nat) => i < |stored| && TouchesDenied(tables, stored[i]));
    KeepIsSelect(stored, DroppedFor(tables, Invalid), (i: nat) => i < |stored| && IsMalformed(tables, stored[i]));
  }

  /*** What a proposal selects ***/

  /** The proposal names the table or one of its columns. */
  ghost predicate TableSelected(t: Table, tableKeys: set<string>, columnKeys: set<string>) {
    t.key in tableKeys || exists c :: c in t.columns && c.key in columnKeys
  }

  ghost predicate ListsColumn(tables: seq<Table>, tableKey: string, columnKey: string, t: Table) {
    t in tables && t.key == tableKey && exists c :: c in t.columns && c.key == columnKey
  }

  /** The proposal names the join, and both its tables are selected and list its columns. */
  ghost predicate JoinSelected(
    tables: seq<Table>, j: Join, tableKeys: set<string>, columnKeys: set<string>, joinKeys: set<string>)
  {
    && j.key in joinKeys
    && (exists t :: ListsColumn(tables, j.leftTable, j.leftColumn, t) && TableSelected(t, tableKeys, columnKeys))
    && (exists t :: ListsColumn(tables, j.rightTable, j.rightColumn, t) && TableSelected(t, tableKeys, columnKeys))
  }

  lemma OwnerIsExact(tables: seq<Table>, table: string, column: string)
    requires GeneratedKeys(tables)
    ensures column in OwnerOf(tables) && OwnerOf(tables)[column] == table <==>
      exists t :: ListsColumn(tables, table, column, t)
  {
    var columns := AllColumns(tables);
    OwnerMapHolds(columns);
    if column in OwnerOf(tables) && OwnerOf(tables)[column] == table {
      var c :| c in columns && c.column.key == column && c.table == table;
      var i, j := ListedWhere(tables, c);
      assert tables[i].columns[j] in tables[i].columns;
      assert ListsColumn(tables, table, column, tables[i]);
    }
    if t :| ListsColumn(tables, table, column, t) {
      var i: nat :| i < |tables| && tables[i] == t;
      var c :| c in t.columns && c.key == column;
      var j: nat :| j < |t.columns| && t.columns[j] == c;
      GeneratedKeysAreInjective(tables);
      OwnerIsLister(tables, i, j);
    }
  }

  lemma TableKeysDiffer(tables: seq<Table>, t: Table, t': Table)
    requires GeneratedKeys(tables) && t in tables && t' in tables && t.key == t'.key
    ensures t == t'
  {
    var i: nat :| i < |tables| && tables[i] == t;
    var j: nat :| j < |tables| && tables[j] == t';
    SameRest("table_", Digits(i + 1), Digits(j + 1));
    DigitsInjective(i + 1, j + 1);
  }

  /** The canonical keys are those of the selected tables. */
  lemma CanonicalIsExact(tables: seq<Table>, t: Table, tableKeys: set<string>, columnKeys: set<string>)
    requires GeneratedKeys(tables) && t in tables
    ensures t.key in CanonicalTables(tables, tableKeys, columnKeys) <==> TableSelected(t, tableKeys, columnKeys)
  {
    var canonical := CanonicalTables(tables, tableKeys, columnKeys);
    var i: nat :| i < |tables| && tables[i] == t;
    assert TableKeys(tables)[i] == t.key;
    if c :| c in t.columns && c.key in columnKeys {
      OwnerIsExact(tables, t.key, c.key);
      assert ListsColumn(tables, t.key, c.key, t);
      assert c.key in SourceKeys(tables, columnKeys);
    }
    if t.key in canonical && t.key !in tableKeys {
      var k :| k in SourceKeys(tables, columnKeys) && OwnerOf(tables)[k] == t.key;
      OwnerIsExact(tables, t.key, k);
      var u :| ListsColumn(tables, t.key, k, u);
      TableKeysDiffer(tables, t, u);
    }
  }

  /** The selected tables, in catalog order: those proposed and those with a proposed column. */
  lemma SelectedTablesAreExact(
    tables: seq<Table>, joins: seq<Join>, tableKeys: set<string>, columnKeys: set<string>, joinKeys: set<string>)
    requires GeneratedKeys(tables)
    ensures Resolve(tables, joins, tableKeys, columnKeys, joinKeys).tables ==
      Select(tables, (i: nat) => i < |tables| && TableSelected(tables[i], tableKeys, columnKeys))
  {
    var canonical := CanonicalTables(tables, tableKeys, columnKeys);
    forall i: nat | i < |tables|
      ensures TableSelected(tables[i], tableKeys, columnKeys) == TableIn(canonical)(tables[i])
    {
      CanonicalIsExact(tables, tables[i], tableKeys, columnKeys);
    }
    KeepIsSelect(tables, TableIn(canonical), (i: nat) => i < |tables| && TableSelected(tables[i], tableKeys, columnKeys));
  }

  lemma EndSelected(tables: seq<Table>, table: string, column: string, tableKeys: set<string>, columnKeys: set<string>)
    requires GeneratedKeys(tables)
    ensures (column in OwnerOf(tables) && OwnerOf(tables)[column] == table
        && table in CanonicalTables(tables, tableKeys, columnKeys)) <==>
      exists t :: ListsColumn(tables, table, column, t) && TableSelected(t, tableKeys, columnKeys)
    ensures column in OwnerOf(tables) && OwnerOf(tables)[column] == table ==> table != "" && column != ""
  {
    OwnerIsExact(tables, table, column);
    if t :| ListsColumn(tables, table, column, t) {
      CanonicalIsExact(tables, t, tableKeys, columnKeys);
      KeysNotEmpty(tables, t);
    }
    forall t | ListsColumn(tables, table, column, t)
      ensures t.key in CanonicalTables(tables, tableKeys, columnKeys) <==> TableSelected(t, tableKeys, columnKeys)
    {
      CanonicalIsExact(tables, t, tableKeys, columnKeys);
    }
  }

  lemma KeysNotEmpty(tables: seq<Table>, t: Table)
    requires GeneratedKeys(tables) && t in tables
    ensures t.key != "" && forall c | c in t.columns :: c.key != ""
  {
    var i: nat :| i < |tables| && tables[i] == t;
    forall c | c in t.columns
      ensures c.key != ""
    {
      var j: nat :| j < |t.columns| && t.columns[j] == c;
      assert c.key == ColumnKey(t.key, j + 1);
    }
  }

  lemma MatchIsExact(
    tables: seq<Table>, j: Join, tableKeys: set<string>, columnKeys: set<string>, joinKeys: set<string>)
    requires GeneratedKeys(tables)
    ensures InClass(tables, CanonicalTables(tables, tableKeys, columnKeys), joinKeys, Matched)(j)
      <==> JoinSelected(tables, j, tableKeys, columnKeys, joinKeys)
  {
    EndSelected(tables, j.leftTable, j.leftColumn, tableKeys, columnKeys);
    EndSelected(tables, j.rightTable, j.rightColumn, tableKeys, columnKeys);
  }

  /** The selected joins, in order: those proposed between selected tables. */
  lemma SelectedJoinsAreExact(
    tables: seq<Table>, joins: seq<Join>, tableKeys: set<string>, columnKeys: set<string>, joinKeys: set<string>)
    requires GeneratedKeys(tables)
    ensures Resolve(tables, joins, tableKeys, columnKeys, joinKeys).joins ==
      Select(joins, (i: nat) => i < |joins| && JoinSelected(tables, joins[i], tableKeys, columnKeys, joinKeys))
  {
    var matched := InClass(tables, CanonicalTables(tables, tableKeys, columnKeys), joinKeys, Matched);
    forall i: nat | i < |joins|
      ensures JoinSelected(tables, joins[i], tableKeys, columnKeys, joinKeys) == matched(joins[i])
    {
      MatchIsExact(tables, joins[i], tableKeys, columnKeys, joinKeys);
    }
    KeepIsSelect(joins, matched,
      (i: nat) => i < |joins| && JoinSelected(tables, joins[i], tableKeys, columnKeys, joinKeys));
  }

  /** The columns of one table whose keys are asked for, in order. */
  function ListingOf(t: Table, keys: set<string>, m: nat): seq<Listed>
    requires m <= |t.columns|
  {
    if m == 0 then []
    else
      ListingOf(t, keys, m - 1)
        + if t.columns[m - 1].key in keys then [Listed(t.key, t.resourceKey, t.columns[m - 1])] else []
  }

  /** Those of the first n tables. */
  function Listing(tables: seq<Table>, keys: set<string>, n: nat): seq<Listed>
    requires n <= |tables|
  {
    if n == 0 then [] else Listing(tables, keys, n - 1) + ListingOf(tables[n - 1], keys, |tables[n - 1].columns|)
  }

  lemma {:induction false} KeptOfTable(t: Table, keys: set<string>, p: Listed -> bool, m: nat)
    requires m <= |t.columns|
    requires forall j: nat | j < m :: p(Listed(t.key, t.resourceKey, t.columns[j])) == (t.columns[j].key in keys)
    ensures Keep(ListedOf(t)[..m], p) == ListingOf(t, keys, m)
  {
    if m > 0 {
      KeptOfTable(t, keys, p, m - 1);
      KeepNext(ListedOf(t), m - 1, p);
    }
  }

  lemma {:induction false} KeptOfTables(tables: seq<Table>, keys: set<string>, p: Listed -> bool, n: nat)
    requires n <= |tables|
    requires forall i: nat, j: nat | i < n && j < |tables[i].columns| ::
      p(Listed(tables[i].key, tables[i].resourceKey, tables[i].columns[j])) == (tables[i].columns[j].key in keys)
    ensures Keep(AllColumns(tables[..n]), p) == Listing(tables, keys, n)
  {
    if n > 0 {
      var t := tables[n - 1];
      KeptOfTables(tables, keys, p, n - 1);
      ConcatNext(tables, n - 1, ListedOf);
      KeepAppend(AllColumns(tables[..n - 1]), ListedOf(t), p);
      KeptOfTable(t, keys, p, |t.columns|);
      assert ListedOf(t)[..|t.columns|] == ListedOf(t);
    }
  }

  ghost function JoinColumns(joins: seq<Join>): set<string> {
    (set j | j in joins :: j.leftColumn) + (set j | j in joins :: j.rightColumn)
  }

  /** A column that is asked for lies in a selected table. */
  lemma AskedIsSelected(
    tables: seq<Table>, joins: seq<Join>, tableKeys: set<string>, columnKeys: set<string>, joinKeys: set<string>,
    i: nat, j: nat)
    requires GeneratedKeys(tables) && i < |tables| && j < |tables[i].columns|
    ensures var r, k := Resolve(tables, joins, tableKeys, columnKeys, joinKeys), tables[i].columns[j].key;
      && (k in columnKeys <==> k in SourceKeys(tables, columnKeys))
      && (k in columnKeys || k in Endpoints(r.joins) ==> tables[i].key in CanonicalTables(tables, tableKeys, columnKeys))
  {
    var r, t, k := Resolve(tables, joins, tableKeys, columnKeys, joinKeys), tables[i], tables[i].columns[j].key;
    GeneratedKeysAreInjective(tables);
    OwnerIsLister(tables, i, j);
    assert t in tables && t.columns[j] in t.columns;
    CanonicalIsExact(tables, t, tableKeys, columnKeys);
    EndpointsOwned(tables, joins, tableKeys, columnKeys, joinKeys);
  }

  /** The source columns are the proposed ones; the columns are those and the ends of the selected joins. */
  lemma SelectedColumnsAreExact(
    tables: seq<Table>, joins: seq<Join>, tableKeys: set<string>, columnKeys: set<string>, joinKeys: set<string>)
    requires GeneratedKeys(tables)
    ensures var r := Resolve(tables, joins, tableKeys, columnKeys, joinKeys);
      && r.sourceColumns == Listing(tables, columnKeys, |tables|)
      && r.columns == Listing(tables, columnKeys + JoinColumns(r.joins), |tables|)
  {
    var r := Resolve(tables, joins, tableKeys, columnKeys, joinKeys);
    var canonical, source := CanonicalTables(tables, tableKeys, columnKeys), SourceKeys(tables, columnKeys);
    forall i: nat, j: nat | i < |tables| && j < |tables[i].columns|
      ensures var c := Listed(tables[i].key, tables[i].resourceKey, tables[i].columns[j]);
        && ListedIn(canonical, source)(c) == (c.column.key in columnKeys)
        && ListedIn(canonical, source + Endpoints(r.joins))(c) == (c.column.key in columnKeys + JoinColumns(r.joins))
    {
      AskedIsSelected(tables, joins, tableKeys, columnKeys, joinKeys, i, j);
    }
    assert tables[..|tables|] == tables;
    KeptOfTables(tables, columnKeys, ListedIn(canonical, source), |tables|);
    KeptOfTables(tables, columnKeys + JoinColumns(r.joins), ListedIn(canonical, source + Endpoints(r.joins)), |tables|);
  }
}
