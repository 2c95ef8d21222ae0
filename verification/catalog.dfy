/**
 The structured catalog as a SQL step sees it: permission filter, approved joins and the
 resolution of a selector's proposal. Table, column and join keys are generated from positions.
 Sample rows and column profiles are not carried; `safe` stands for the redaction of free text.
 */
module Catalog {
  import opened Decimals
  import opened Sequences

  /*** Permission filter ***/

  datatype Column = Column(name: string, dataType: string, description: string)

  datatype Resource = Resource(
    key: string, relation: string, displayName: string, scope: string, scopeKeys: seq<string>, columns: seq<Column>)

  datatype Permissions = Permissions(resources: set<string>, scopes: set<string>)

  datatype TableColumn = TableColumn(key: string, name: string, dataType: string, description: string)

  datatype Table = Table(
    key: string, resourceKey: string, relation: string, displayName: string, columns: seq<TableColumn>)

  predicate IsAllowed(r: Resource, p: Permissions) {
    || r.key in p.resources
    || (r.scope != "" && r.scope in p.scopes)
    || exists i | 0 <= i < |r.scopeKeys| :: r.scopeKeys[i] in p.scopes
  }

  function TableKey(i: nat): string {
    "table_" + Digits(i)
  }

  function ColumnKey(table: string, j: nat): string {
    table + "_col_" + Digits(j)
  }

  function MakeColumn(table: string, j: nat, c: Column, safe: string -> string): TableColumn {
    TableColumn(ColumnKey(table, j), c.name, if c.dataType == "" then "text" else c.dataType, safe(c.description))
  }

  function MakeColumns(table: string, columns: seq<Column>, safe: string -> string): seq<TableColumn> {
    seq(|columns|, j requires 0 <= j < |columns| => MakeColumn(table, j + 1, columns[j], safe))
  }

  function MakeTable(i: nat, r: Resource, safe: string -> string): Table {
    Table(TableKey(i), r.key, r.relation, safe(r.displayName), MakeColumns(TableKey(i), r.columns, safe))
  }

  function AllowedBy(p: Permissions): Resource -> bool {
    r => IsAllowed(r, p)
  }

  function Visible(resources: seq<Resource>, p: Permissions): seq<Resource> {
    Keep(resources, AllowedBy(p))
  }

  /** The allowed resources in catalog order, numbered from 1. */
  function Filtered(resources: seq<Resource>, p: Permissions, safe: string -> string): seq<Table> {
    var visible := Visible(resources, p);
    seq(|visible|, i requires 0 <= i < |visible| => MakeTable(i + 1, visible[i], safe))
  }

  method BuildFilteredSchema(resources: seq<Resource>, p: Permissions, safe: string -> string) returns (tables: seq<Table>)
    ensures tables == Filtered(resources, p, safe)
  {
    tables := [];
    for n := 0 to |resources|
      invariant tables == Filtered(resources[..n], p, safe)
    {
      var r := resources[n];
      KeepNext(resources, n, AllowedBy(p));
      if !IsAllowed(r, p) {
        continue;
      }
      var key := TableKey(|tables| + 1);
      var columns: seq<TableColumn> := [];
      for j := 0 to |r.columns|
        invariant columns == MakeColumns(key, r.columns[..j], safe)
      {
        columns := columns + [MakeColumn(key, |columns| + 1, r.columns[j], safe)];
      }
      assert r.columns[..|r.columns|] == r.columns;
      tables := tables + [Table(key, r.key, r.relation, safe(r.displayName), columns)];
    }
    assert resources[..|resources|] == resources;
  }

  /*** Approved joins ***/

  datatype StoredJoin = StoredJoin(
    leftResource: string, leftColumn: string, rightResource: string, rightColumn: string, joinType: string, reason: string)

  datatype Join = Join(
    key: string, leftTable: string, leftColumn: string, rightTable: string, rightColumn: string,
    joinType: string, reason: string)

  /** `{resource_key: resource}`: a later entry replaces an earlier one. */
  function ByResource(tables: seq<Table>): map<string, Table> {
    if tables == [] then map[]
    else
      var t := tables[|tables| - 1];
      ByResource(tables[..|tables| - 1])[t.resourceKey := t]
  }

  function ColumnsByName(columns: seq<TableColumn>, resource: string): map<(string, string), string> {
    if columns == [] then map[]
    else
      var c := columns[|columns| - 1];
      ColumnsByName(columns[..|columns| - 1], resource)[(resource, c.name) := c.key]
  }

  function ColumnKeys(tables: seq<Table>): map<(string, string), string> {
    if tables == [] then map[]
    else
      var t := tables[|tables| - 1];
      ColumnKeys(tables[..|tables| - 1]) + ColumnsByName(t.columns, t.resourceKey)
  }

  predicate Loadable(tables: seq<Table>, j: StoredJoin) {
    && j.leftResource in ByResource(tables) && j.rightResource in ByResource(tables)
    && (j.leftResource, j.leftColumn) in ColumnKeys(tables) && (j.rightResource, j.rightColumn) in ColumnKeys(tables)
  }

  /** The join loading tests, as a predicate value. */
  function LoadableIn(tables: seq<Table>): StoredJoin -> bool {
    j => Loadable(tables, j)
  }

  function JoinKey(n: nat): string {
    "join_" + Digits(n)
  }

  function TableKeyOf(tables: seq<Table>, resource: string): string {
    if resource in ByResource(tables) then ByResource(tables)[resource].key else ""
  }

  function ColumnKeyOf(tables: seq<Table>, resource: string, column: string): string {
    if (resource, column) in ColumnKeys(tables) then ColumnKeys(tables)[(resource, column)] else ""
  }

  function MakeJoin(tables: seq<Table>, n: nat, j: StoredJoin, safe: string -> string): Join {
    Join(
      JoinKey(n),
      TableKeyOf(tables, j.leftResource), ColumnKeyOf(tables, j.leftResource, j.leftColumn),
      TableKeyOf(tables, j.rightResource), ColumnKeyOf(tables, j.rightResource, j.rightColumn),
      if j.joinType == "" then "inner" else j.joinType,
      safe(j.reason))
  }

  function Loaded(tables: seq<Table>, joins: seq<StoredJoin>, safe: string -> string): seq<Join> {
    var kept := Keep(joins, LoadableIn(tables));
    seq(|kept|, n requires 0 <= n < |kept| => MakeJoin(tables, n + 1, kept[n], safe))
  }

  lemma LoadedNext(tables: seq<Table>, joins: seq<StoredJoin>, n: nat, safe: string -> string)
    requires n < |joins|
    ensures var before := Loaded(tables, joins[..n], safe);
      Loaded(tables, joins[..n + 1], safe) ==
        before + if Loadable(tables, joins[n]) then [MakeJoin(tables, |before| + 1, joins[n], safe)] else []
  {
    KeepNext(joins, n, LoadableIn(tables));
  }

  method LoadApprovedJoins(tables: seq<Table>, joins: seq<StoredJoin>, safe: string -> string) returns (loaded: seq<Join>)
    ensures loaded == Loaded(tables, joins, safe)
  {
    var byResource, columnKeys := ByResource(tables), ColumnKeys(tables);
    loaded := [];
    for n := 0 to |joins|
      invariant loaded == Loaded(tables, joins[..n], safe)
    {
      var j := joins[n];
      LoadedNext(tables, joins, n, safe);
      if j.leftResource !in byResource || j.rightResource !in byResource {
        continue;
      }
      if (j.leftResource, j.leftColumn) !in columnKeys || (j.rightResource, j.rightColumn) !in columnKeys {
        continue;
      }
      var join := Join(
        JoinKey(|loaded| + 1),
        byResource[j.leftResource].key, columnKeys[(j.leftResource, j.leftColumn)],
        byResource[j.rightResource].key, columnKeys[(j.rightResource, j.rightColumn)],
        if j.joinType == "" then "inner" else j.joinType,
        safe(j.reason));
      loaded := loaded + [join];
    }
    assert joins[..|joins|] == joins;
  }

  /** The drop counters look only at the resource that survived under its key. */
  predicate KnownColumn(tables: seq<Table>, resource: string, column: string) {
    resource in ByResource(tables) && exists c | c in ByResource(tables)[resource].columns :: c.name == column
  }

  datatype DropReason = Denied | Invalid | NotDropped

  /** How the drop counters classify a join, the tests in the order the counters try them. */
  function DropOf(tables: seq<Table>, j: StoredJoin): DropReason {
    if j.leftResource == "" || j.rightResource == "" || j.leftColumn == "" || j.rightColumn == "" then Invalid
    else if j.leftResource !in ByResource(tables) || j.rightResource !in ByResource(tables) then Denied
    else if !KnownColumn(tables, j.leftResource, j.leftColumn) || !KnownColumn(tables, j.rightResource, j.rightColumn)
    then Invalid
    else NotDropped
  }

  function DroppedFor(tables: seq<Table>, reason: DropReason): StoredJoin -> bool {
    j => DropOf(tables, j) == reason
  }

  function CountDrops(tables: seq<Table>, joins: seq<StoredJoin>, reason: DropReason): nat {
    |Keep(joins, DroppedFor(tables, reason))|
  }

  method DropCounts(tables: seq<Table>, joins: seq<StoredJoin>) returns (denied: nat, invalid: nat)
    ensures denied == CountDrops(tables, joins, Denied) && invalid == CountDrops(tables, joins, Invalid)
  {
    var resources := ByResource(tables);
    denied, invalid := 0, 0;
    for n := 0 to |joins|
      invariant denied == CountDrops(tables, joins[..n], Denied)
      invariant invalid == CountDrops(tables, joins[..n], Invalid)
    {
      var j := joins[n];
      KeepNext(joins, n, DroppedFor(tables, Denied));
      KeepNext(joins, n, DroppedFor(tables, Invalid));
      if j.leftResource == "" || j.rightResource == "" || j.leftColumn == "" || j.rightColumn == "" {
        invalid := invalid + 1;
      } else if j.leftResource !in resources || j.rightResource !in resources {
        denied := denied + 1;
      } else if !KnownColumn(tables, j.leftResource, j.leftColumn) || !KnownColumn(tables, j.rightResource, j.rightColumn) {
        invalid := invalid + 1;
      }
    }
    assert joins[..|joins|] == joins;
  }

  function ResourceKeys(tables: seq<Table>): seq<string> {
    seq(|tables|, i requires 0 <= i < |tables| => tables[i].resourceKey)
  }

  /*** Resolving a selection ***/

  datatype Selection = Selection(tableKeys: seq<string>, columnKeys: seq<string>, joinKeys: seq<string>)

  /** A column together with the table it is listed under. */
  datatype Listed = Listed(table: string, resource: string, column: TableColumn)

  function ListedOf(t: Table): seq<Listed> {
    seq(|t.columns|, j requires 0 <= j < |t.columns| => Listed(t.key, t.resourceKey, t.columns[j]))
  }

  /** Every column of the catalog, table by table. */
  function AllColumns(tables: seq<Table>): seq<Listed> {
    Concat(tables, ListedOf)
  }

  /** `{column_key: table_key}` over the whole catalog: a later column replaces an earlier one. */
  function OwnerMap(columns: seq<Listed>): map<string, string> {
    if columns == [] then map[]
    else
      var c := columns[|columns| - 1];
      OwnerMap(columns[..|columns| - 1])[c.column.key := c.table]
  }

  function OwnerOf(tables: seq<Table>): map<string, string> {
    OwnerMap(AllColumns(tables))
  }

  function TableKeys(tables: seq<Table>): seq<string> {
    seq(|tables|, i requires 0 <= i < |tables| => tables[i].key)
  }

  function JoinKeys(joins: seq<Join>): seq<string> {
    seq(|joins|, i requires 0 <= i < |joins| => joins[i].key)
  }

  /** A proposal resolved against the catalog; the proposal enters only through its three sets. */
  datatype Resolution = Resolution(
    tables: seq<Table>, columns: seq<Listed>, sourceColumns: seq<Listed>, joins: seq<Join>,
    canonicalTables: set<string>, matchedJoins: set<string>, incompleteJoins: set<string>, outsideJoins: set<string>)

  function SourceKeys(tables: seq<Table>, proposed: set<string>): set<string> {
    proposed * OwnerOf(tables).Keys
  }

  /** The proposed tables that exist, and the owners of the proposed columns. */
  function CanonicalTables(tables: seq<Table>, proposedTables: set<string>, proposedColumns: set<string>): set<string> {
    proposedTables * ToSet(TableKeys(tables)) + set k | k in SourceKeys(tables, proposedColumns) :: OwnerOf(tables)[k]
  }

  predicate CompleteJoin(tables: seq<Table>, j: Join) {
    && j.leftTable != "" && j.rightTable != "" && j.leftColumn != "" && j.rightColumn != ""
    && j.leftColumn in OwnerOf(tables) && OwnerOf(tables)[j.leftColumn] == j.leftTable
    && j.rightColumn in OwnerOf(tables) && OwnerOf(tables)[j.rightColumn] == j.rightTable
  }

  datatype JoinClass = NotProposed | Incomplete | Outside | Matched

  function Classify(tables: seq<Table>, canonical: set<string>, proposed: set<string>, j: Join): JoinClass {
    if j.key !in proposed then NotProposed
    else if !CompleteJoin(tables, j) then Incomplete
    else if !({j.leftTable, j.rightTable} <= canonical) then Outside
    else Matched
  }

  function InClass(tables: seq<Table>, canonical: set<string>, proposed: set<string>, kind: JoinClass): Join -> bool {
    j => Classify(tables, canonical, proposed, j) == kind
  }

  function TableIn(keys: set<string>): Table -> bool {
    (t: Table) => t.key in keys
  }

  function ListedIn(tables: set<string>, columns: set<string>): Listed -> bool {
    (c: Listed) => c.table in tables && c.column.key in columns
  }

  function Endpoints(joins: seq<Join>): set<string> {
    (set j | j in joins :: j.leftColumn) + (set j | j in joins :: j.rightColumn)
  }

  function Resolve(
    tables: seq<Table>, joins: seq<Join>, tableKeys: set<string>, columnKeys: set<string>, joinKeys: set<string>): Resolution
  {
    var source := SourceKeys(tables, columnKeys);
    var canonical := CanonicalTables(tables, tableKeys, columnKeys);
    var matched := Keep(joins, InClass(tables, canonical, joinKeys, Matched));
    Resolution(
      Keep(tables, TableIn(canonical)),
      Keep(AllColumns(tables), ListedIn(canonical, source + Endpoints(matched))),
      Keep(AllColumns(tables), ListedIn(canonical, source)),
      matched,
      canonical,
      ToSet(JoinKeys(matched)),
      ToSet(JoinKeys(Keep(joins, InClass(tables, canonical, joinKeys, Incomplete)))),
      ToSet(JoinKeys(Keep(joins, InClass(tables, canonical, joinKeys, Outside)))))
  }

  function Itself(key: string): string {
    key
  }

  lemma FirstsAreDistinct(keys: seq<string>)
    ensures Distinct(FirstBy(keys, Itself, {}))
  {
    var firsts := FirstBy(keys, Itself, {});
    FirstByDistinct(keys, Itself, {});
    assert Map(firsts, Itself) == firsts;
  }

  /** Drops repetitions and counts them. */
  method OrderedUnique(keys: seq<string>) returns (ordered: seq<string>, duplicates: nat)
    ensures ordered == FirstBy(keys, Itself, {})
    ensures ToSet(ordered) == ToSet(keys) && Distinct(ordered)
    ensures duplicates == |keys| - |ordered|
  {
    var seen: set<string> := {};
    ordered, duplicates := [], 0;
    for i := 0 to |keys|
      invariant FirstBy(keys, Itself, {}) == ordered + FirstBy(keys[i..], Itself, seen)
      invariant seen == ToSet(ordered) == ToSet(keys[..i])
      invariant duplicates == i - |ordered|
    {
      FirstByRound(keys, i, Itself, seen, ordered);
      assert keys[..i + 1] == keys[..i] + [keys[i]];
      if keys[i] in seen {
        duplicates := duplicates + 1;
        continue;
      }
      seen := seen + {keys[i]};
      ordered := ordered + [keys[i]];
    }
    assert keys[..|keys|] == keys;
    FirstsAreDistinct(keys);
  }

  /** The two loops of the resolution: one over the joins, one over the tables. */
  method ResolveSelection(selection: Selection, tables: seq<Table>, joins: seq<Join>) returns (r: Resolution)
    ensures r == Resolve(tables, joins, ToSet(selection.tableKeys), ToSet(selection.columnKeys), ToSet(selection.joinKeys))
  {
    var tableKeys, _ := OrderedUnique(selection.tableKeys);
    var columnKeys, _ := OrderedUnique(selection.columnKeys);
    var joinKeys, _ := OrderedUnique(selection.joinKeys);
    var owner := OwnerOf(tables);
    var source := ToSet(columnKeys) * owner.Keys;
    var canonical := ToSet(tableKeys) * ToSet(TableKeys(tables)) + set k | k in source :: owner[k];
    var matched, endpoints, incomplete, outside := ResolveJoins(tables, joins, canonical, ToSet(joinKeys));
    var selected, columns, sourceColumns := CollectColumns(tables, canonical, source + endpoints, source);
    r := Resolution(
      selected, columns, sourceColumns, matched, canonical, ToSet(JoinKeys(matched)), incomplete, outside);
  }

  method ResolveJoins(tables: seq<Table>, joins: seq<Join>, canonical: set<string>, proposed: set<string>)
    returns (matched: seq<Join>, endpoints: set<string>, incomplete: set<string>, outside: set<string>)
    ensures matched == Keep(joins, InClass(tables, canonical, proposed, Matched))
    ensures endpoints == Endpoints(matched)
    ensures incomplete == ToSet(JoinKeys(Keep(joins, InClass(tables, canonical, proposed, Incomplete))))
    ensures outside == ToSet(JoinKeys(Keep(joins, InClass(tables, canonical, proposed, Outside))))
  {
    matched, endpoints, incomplete, outside := [], {}, {}, {};
    for n := 0 to |joins|
      invariant matched == Keep(joins[..n], InClass(tables, canonical, proposed, Matched))
      invariant endpoints == Endpoints(matched)
      invariant incomplete == ToSet(JoinKeys(Keep(joins[..n], InClass(tables, canonical, proposed, Incomplete))))
      invariant outside == ToSet(JoinKeys(Keep(joins[..n], InClass(tables, canonical, proposed, Outside))))
    {
      var j := joins[n];
      KeepNext(joins, n, InClass(tables, canonical, proposed, Matched));
      KeysOfKeptNext(joins, n, InClass(tables, canonical, proposed, Incomplete));
      KeysOfKeptNext(joins, n, InClass(tables, canonical, proposed, Outside));
      if j.key !in proposed {
        continue;
      }
      if !CompleteJoin(tables, j) {
        incomplete := incomplete + {j.key};
        continue;
      }
      if !({j.leftTable, j.rightTable} <= canonical) {
        outside := outside + {j.key};
        continue;
      }
      EndpointsAppend(matched, j);
      matched := matched + [j];
      endpoints := endpoints + {j.leftColumn, j.rightColumn};
    }
    assert joins[..|joins|] == joins;
  }

  lemma EndpointsAppend(joins: seq<Join>, j: Join)
    ensures Endpoints(joins + [j]) == Endpoints(joins) + {j.leftColumn, j.rightColumn}
  {
    assert j in joins + [j];
  }

  lemma KeysOfKeptNext(joins: seq<Join>, n: nat, p: Join -> bool)
    requires n < |joins|
    ensures ToSet(JoinKeys(Keep(joins[..n + 1], p)))
      == ToSet(JoinKeys(Keep(joins[..n], p))) + if p(joins[n]) then {joins[n].key} else {}
  {
    KeepNext(joins, n, p);
    var before := Keep(joins[..n], p);
    assert JoinKeys(before + [joins[n]]) == JoinKeys(before) + [joins[n].key];
    assert before + [] == before;
  }

  method CollectColumns(tables: seq<Table>, canonical: set<string>, execution: set<string>, source: set<string>)
    returns (selected: seq<Table>, columns: seq<Listed>, sourceColumns: seq<Listed>)
    ensures selected == Keep(tables, TableIn(canonical))
    ensures columns == Keep(AllColumns(tables), ListedIn(canonical, execution))
    ensures sourceColumns == Keep(AllColumns(tables), ListedIn(canonical, source))
  {
    selected, columns, sourceColumns := [], [], [];
    for n := 0 to |tables|
      invariant selected == Keep(tables[..n], TableIn(canonical))
      invariant columns == Keep(AllColumns(tables[..n]), ListedIn(canonical, execution))
      invariant sourceColumns == Keep(AllColumns(tables[..n]), ListedIn(canonical, source))
    {
      var t := tables[n];
      var listed := ListedOf(t);
      KeepNext(tables, n, TableIn(canonical));
      ConcatNext(tables, n, ListedOf);
      KeepAppend(AllColumns(tables[..n]), listed, ListedIn(canonical, execution));
      KeepAppend(AllColumns(tables[..n]), listed, ListedIn(canonical, source));
      KeepWithinTable(t, canonical, execution);
      KeepWithinTable(t, canonical, source);
      if t.key !in canonical {
        continue;
      }
      selected := selected + [t];
      columns := columns + Keep(listed, KeyIn(execution));
      sourceColumns := sourceColumns + Keep(listed, KeyIn(source));
    }
    assert tables[..|tables|] == tables;
  }

  function KeyIn(keys: set<string>): Listed -> bool {
    (c: Listed) => c.column.key in keys
  }

  lemma KeepWithinTable(t: Table, canonical: set<string>, keys: set<string>)
    ensures Keep(ListedOf(t), ListedIn(canonical, keys)) == if t.key in canonical then Keep(ListedOf(t), KeyIn(keys)) else []
  {
    KeepSame(ListedOf(t), ListedIn(canonical, keys), if t.key in canonical then KeyIn(keys) else ((c: Listed) => false));
    KeepNone(ListedOf(t));
  }

  lemma {:induction false} KeepNone(s: seq<Listed>)
    ensures Keep(s, (c: Listed) => false) == []
  {
    if s != [] {
      KeepNone(s[1..]);
    }
  }
}
