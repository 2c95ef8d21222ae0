/**
 The catalog pipeline as a whole: what a step may see does not depend on what it may not see,
 loaded joins always fit the filtered catalog, and resolving a selection is a closure.
 */
module CatalogProperties {
  import opened Catalog
  import opened Decimals
  import opened Sequences

  /*** Resolving a selection is a closure ***/

  /** Every listed column has an owner, and the owner lists a column of that key. */
  lemma {:induction false} OwnerMapHolds(columns: seq<Listed>)
    ensures forall c | c in columns :: c.column.key in OwnerMap(columns)
    ensures forall k | k in OwnerMap(columns) :: exists c :: c in columns && c.column.key == k && c.table == OwnerMap(columns)[k]
  {
    if columns != [] {
      var front, last := columns[..|columns| - 1], columns[|columns| - 1];
      assert columns == front + [last];
      OwnerMapHolds(front);
      forall k | k in OwnerMap(columns)
        ensures exists c :: c in columns && c.column.key == k && c.table == OwnerMap(columns)[k]
      {
        if k == last.column.key {
          assert last in columns;
        } else {
          assert k in OwnerMap(front) && OwnerMap(columns)[k] == OwnerMap(front)[k];
          var c :| c in front && c.column.key == k && c.table == OwnerMap(front)[k];
          assert c in columns;
        }
      }
    }
  }

  lemma {:induction false} ListedHaveTables(tables: seq<Table>)
    ensures forall c | c in AllColumns(tables) :: c.table in TableKeys(tables)
  {
    if tables != [] {
      ListedHaveTables(tables[1..]);
      assert TableKeys(tables)[0] == tables[0].key && TableKeys(tables)[1..] == TableKeys(tables[1..]);
    }
  }

  /** An owned key shows up among the columns of any set of tables that has its owner. */
  lemma OwnedIsSelected(tables: seq<Table>, canonical: set<string>, keys: set<string>, k: string) returns (c: Listed)
    requires k in OwnerOf(tables) && OwnerOf(tables)[k] in canonical && k in keys
    ensures c in Keep(AllColumns(tables), ListedIn(canonical, keys)) && c.column.key == k && c.table == OwnerOf(tables)[k]
  {
    OwnerMapHolds(AllColumns(tables));
    c :| c in AllColumns(tables) && c.column.key == k && c.table == OwnerOf(tables)[k];
    KeptSatisfy(AllColumns(tables), ListedIn(canonical, keys));
  }

  lemma CanonicalTablesExist(tables: seq<Table>, tableKeys: set<string>, columnKeys: set<string>)
    ensures CanonicalTables(tables, tableKeys, columnKeys) <= ToSet(TableKeys(tables))
  {
    OwnerMapHolds(AllColumns(tables));
    ListedHaveTables(tables);
    forall k | k in SourceKeys(tables, columnKeys)
      ensures OwnerOf(tables)[k] in ToSet(TableKeys(tables))
    {
      var c :| c in AllColumns(tables) && c.column.key == k && c.table == OwnerOf(tables)[k];
    }
  }

  /** The selected tables are exactly the canonical ones. */
  lemma SelectedTableKeys(tables: seq<Table>, canonical: set<string>)
    requires canonical <= ToSet(TableKeys(tables))
    ensures ToSet(TableKeys(Keep(tables, TableIn(canonical)))) == canonical
  {
    var kept := Keep(tables, TableIn(canonical));
    KeptSatisfy(tables, TableIn(canonical));
    forall k | k in canonical
      ensures k in TableKeys(kept)
    {
      var i :| 0 <= i < |tables| && TableKeys(tables)[i] == k;
      assert tables[i] in kept;
      var h :| 0 <= h < |kept| && kept[h] == tables[i];
      assert TableKeys(kept)[h] == k;
    }
    forall k | k in TableKeys(kept)
      ensures k in canonical
    {
      var h :| 0 <= h < |kept| && TableKeys(kept)[h] == k;
      assert kept[h] in kept;
    }
  }

  function ColumnKeySet(columns: seq<Listed>): set<string> {
    set c | c in columns :: c.column.key
  }

  /** The owner of every source column is selected, and so are both ends of every matched join. */
  lemma ResolutionIsClosed(
    tables: seq<Table>, joins: seq<Join>, tableKeys: set<string>, columnKeys: set<string>, joinKeys: set<string>)
    ensures var r := Resolve(tables, joins, tableKeys, columnKeys, joinKeys);
      && ToSet(TableKeys(r.tables)) == r.canonicalTables
      && ColumnKeySet(r.sourceColumns) == SourceKeys(tables, columnKeys)
      && (forall k | k in SourceKeys(tables, columnKeys) :: OwnerOf(tables)[k] in r.canonicalTables)
      && (forall j | j in r.joins ::
            && {j.leftTable, j.rightTable} <= r.canonicalTables
            && {j.leftColumn, j.rightColumn} <= ColumnKeySet(r.columns))
  {
    var r := Resolve(tables, joins, tableKeys, columnKeys, joinKeys);
    CanonicalTablesExist(tables, tableKeys, columnKeys);
    SelectedTableKeys(tables, r.canonicalTables);
    SourceColumnKeys(tables, tableKeys, columnKeys);
    forall j | j in r.joins
      ensures {j.leftTable, j.rightTable} <= r.canonicalTables
      ensures {j.leftColumn, j.rightColumn} <= ColumnKeySet(r.columns)
    {
      MatchedJoinEnds(tables, joins, tableKeys, columnKeys, joinKeys, j);
    }
  }

  lemma SourceColumnKeys(tables: seq<Table>, tableKeys: set<string>, columnKeys: set<string>)
    ensures var source := SourceKeys(tables, columnKeys);
      ColumnKeySet(Keep(AllColumns(tables), ListedIn(CanonicalTables(tables, tableKeys, columnKeys), source))) == source
  {
    var canonical, source := CanonicalTables(tables, tableKeys, columnKeys), SourceKeys(tables, columnKeys);
    KeptSatisfy(AllColumns(tables), ListedIn(canonical, source));
    forall k | k in source
      ensures k in ColumnKeySet(Keep(AllColumns(tables), ListedIn(canonical, source)))
    {
      var c := OwnedIsSelected(tables, canonical, source, k);
    }
  }

  lemma MatchedJoinEnds(
    tables: seq<Table>, joins: seq<Join>, tableKeys: set<string>, columnKeys: set<string>, joinKeys: set<string>, j: Join)
    requires j in Resolve(tables, joins, tableKeys, columnKeys, joinKeys).joins
    ensures {j.leftTable, j.rightTable} <= CanonicalTables(tables, tableKeys, columnKeys)
    ensures {j.leftColumn, j.rightColumn} <= ColumnKeySet(Resolve(tables, joins, tableKeys, columnKeys, joinKeys).columns)
  {
    var canonical := CanonicalTables(tables, tableKeys, columnKeys);
    var matched := Keep(joins, InClass(tables, canonical, joinKeys, Matched));
    KeptSatisfy(joins, InClass(tables, canonical, joinKeys, Matched));
    assert {j.leftColumn, j.rightColumn} <= Endpoints(matched);
    var keys := SourceKeys(tables, columnKeys) + Endpoints(matched);
    var left := OwnedIsSelected(tables, canonical, keys, j.leftColumn);
    var right := OwnedIsSelected(tables, canonical, keys, j.rightColumn);
  }

  /** A larger proposal selects more of the same catalog: each result is a filter of the larger one. */
  lemma ResolutionIsMonotone(tables: seq<Table>, joins: seq<Join>,
                             tableKeys: set<string>, columnKeys: set<string>, joinKeys: set<string>,
                             tableKeys': set<string>, columnKeys': set<string>, joinKeys': set<string>)
    requires tableKeys <= tableKeys' && columnKeys <= columnKeys' && joinKeys <= joinKeys'
    ensures var r := Resolve(tables, joins, tableKeys, columnKeys, joinKeys);
      var r' := Resolve(tables, joins, tableKeys', columnKeys', joinKeys');
      && r.tables == Keep(r'.tables, TableIn(r.canonicalTables))
      && r.joins == Keep(r'.joins, InClass(tables, r.canonicalTables, joinKeys, Matched))
      && r.columns == Keep(r'.columns, ListedIn(r.canonicalTables, SourceKeys(tables, columnKeys) + Endpoints(r.joins)))
      && r.sourceColumns == Keep(r'.sourceColumns, ListedIn(r.canonicalTables, SourceKeys(tables, columnKeys)))
  {
    var r := Resolve(tables, joins, tableKeys, columnKeys, joinKeys);
    var r' := Resolve(tables, joins, tableKeys', columnKeys', joinKeys');
    var source, source' := SourceKeys(tables, columnKeys), SourceKeys(tables, columnKeys');
    assert r.canonicalTables <= r'.canonicalTables;
    KeepTwice(tables, TableIn(r'.canonicalTables), TableIn(r.canonicalTables));
    KeepTwice(joins, InClass(tables, r'.canonicalTables, joinKeys', Matched), InClass(tables, r.canonicalTables, joinKeys, Matched));
    KeptSatisfy(r'.joins, InClass(tables, r.canonicalTables, joinKeys, Matched));
    assert Endpoints(r.joins) <= Endpoints(r'.joins);
    KeepTwice(AllColumns(tables), ListedIn(r'.canonicalTables, source' + Endpoints(r'.joins)),
              ListedIn(r.canonicalTables, source + Endpoints(r.joins)));
    KeepTwice(AllColumns(tables), ListedIn(r'.canonicalTables, source'), ListedIn(r.canonicalTables, source));
  }

  /** Feeding the selected keys back reproduces the selection. */
  lemma ResolutionIsIdempotent(
    tables: seq<Table>, joins: seq<Join>, tableKeys: set<string>, columnKeys: set<string>, joinKeys: set<string>)
    ensures var r := Resolve(tables, joins, tableKeys, columnKeys, joinKeys);
      var again := Resolve(tables, joins, ToSet(TableKeys(r.tables)), ColumnKeySet(r.sourceColumns), ToSet(JoinKeys(r.joins)));
      && again.tables == r.tables && again.columns == r.columns
      && again.sourceColumns == r.sourceColumns && again.joins == r.joins
  {
    var r := Resolve(tables, joins, tableKeys, columnKeys, joinKeys);
    ResolutionIsClosed(tables, joins, tableKeys, columnKeys, joinKeys);
    assert CanonicalTables(tables, r.canonicalTables, SourceKeys(tables, columnKeys)) == r.canonicalTables by {
      CanonicalTablesExist(tables, tableKeys, columnKeys);
    }
    SameJoinsAgain(tables, joins, r.canonicalTables, joinKeys);
  }

  lemma SameJoinsAgain(tables: seq<Table>, joins: seq<Join>, canonical: set<string>, joinKeys: set<string>)
    ensures var matched := Keep(joins, InClass(tables, canonical, joinKeys, Matched));
      Keep(joins, InClass(tables, canonical, ToSet(JoinKeys(matched)), Matched)) == matched
  {
    var matched := Keep(joins, InClass(tables, canonical, joinKeys, Matched));
    var again := ToSet(JoinKeys(matched));
    KeptSatisfy(joins, InClass(tables, canonical, joinKeys, Matched));
    forall j | j in joins
      ensures InClass(tables, canonical, again, Matched)(j) == InClass(tables, canonical, joinKeys, Matched)(j)
    {
      if InClass(tables, canonical, joinKeys, Matched)(j) {
        var h :| 0 <= h < |matched| && matched[h] == j;
        assert JoinKeys(matched)[h] == j.key;
      }
      if j.key in again {
        var h :| 0 <= h < |matched| && JoinKeys(matched)[h] == j.key;
        assert matched[h] in matched;
      }
    }
    KeepSame(joins, InClass(tables, canonical, again, Matched), InClass(tables, canonical, joinKeys, Matched));
  }

  /** Also when the join endpoints are fed back as columns: they become source columns, nothing else changes. */
  lemma ResolutionAbsorbsEndpoints(
    tables: seq<Table>, joins: seq<Join>, tableKeys: set<string>, columnKeys: set<string>, joinKeys: set<string>)
    ensures var r := Resolve(tables, joins, tableKeys, columnKeys, joinKeys);
      var again := Resolve(tables, joins, ToSet(TableKeys(r.tables)), ColumnKeySet(r.columns), ToSet(JoinKeys(r.joins)));
      && again.tables == r.tables && again.columns == r.columns
      && again.sourceColumns == r.columns && again.joins == r.joins
  {
    var r := Resolve(tables, joins, tableKeys, columnKeys, joinKeys);
    ResolutionIsClosed(tables, joins, tableKeys, columnKeys, joinKeys);
    ColumnKeysOfSelection(tables, joins, tableKeys, columnKeys, joinKeys);
    assert CanonicalTables(tables, r.canonicalTables, ColumnKeySet(r.columns)) == r.canonicalTables by {
      CanonicalTablesExist(tables, tableKeys, columnKeys);
      EndpointsOwned(tables, joins, tableKeys, columnKeys, joinKeys);
    }
    SameJoinsAgain(tables, joins, r.canonicalTables, joinKeys);
    assert SourceKeys(tables, ColumnKeySet(r.columns)) == ColumnKeySet(r.columns) by {
      EndpointsOwned(tables, joins, tableKeys, columnKeys, joinKeys);
    }
  }

  lemma EndpointsOwned(
    tables: seq<Table>, joins: seq<Join>, tableKeys: set<string>, columnKeys: set<string>, joinKeys: set<string>)
    ensures var r := Resolve(tables, joins, tableKeys, columnKeys, joinKeys);
      forall k | k in Endpoints(r.joins) :: k in OwnerOf(tables) && OwnerOf(tables)[k] in r.canonicalTables
  {
    var r := Resolve(tables, joins, tableKeys, columnKeys, joinKeys);
    KeptSatisfy(joins, InClass(tables, r.canonicalTables, joinKeys, Matched));
  }

  lemma ColumnKeysOfSelection(
    tables: seq<Table>, joins: seq<Join>, tableKeys: set<string>, columnKeys: set<string>, joinKeys: set<string>)
    ensures var r := Resolve(tables, joins, tableKeys, columnKeys, joinKeys);
      ColumnKeySet(r.columns) == SourceKeys(tables, columnKeys) + Endpoints(r.joins)
  {
    var r := Resolve(tables, joins, tableKeys, columnKeys, joinKeys);
    var keys := SourceKeys(tables, columnKeys) + Endpoints(r.joins);
    KeptSatisfy(AllColumns(tables), ListedIn(r.canonicalTables, keys));
    EndpointsOwned(tables, joins, tableKeys, columnKeys, joinKeys);
    forall k | k in keys
      ensures k in ColumnKeySet(r.columns)
    {
      var c := OwnedIsSelected(tables, r.canonicalTables, keys, k);
    }
  }

  /*** The pipeline fits together ***/

  lemma SameRest(prefix: string, x: string, y: string)
    requires prefix + x == prefix + y
    ensures x == y
  {
    assert x == (prefix + x)[|prefix|..] && y == (prefix + y)[|prefix|..];
  }

  lemma KeyParts(t: string, d: string, e: string)
    ensures t + d + "_col_" + e == t + (d + "_" + ("col_" + e))
  {
    assert "_col_" == "_" + "col_";
  }

  lemma ColumnKeyInjective(i: nat, j: nat, i': nat, j': nat)
    requires ColumnKey(TableKey(i), j) == ColumnKey(TableKey(i'), j')
    ensures i == i' && j == j'
  {
    var d, e, d', e' := Digits(i), Digits(j), Digits(i'), Digits(j');
    KeyParts("table_", d, e);
    KeyParts("table_", d', e');
    SameRest("table_", d + "_" + ("col_" + e), d' + "_" + ("col_" + e'));
    DigitPrefix(d, d', "col_" + e, "col_" + e');
    SameRest("col_", e, e');
    DigitsInjective(i, i');
    DigitsInjective(j, j');
  }

  lemma JoinKeyInjective(m: nat, n: nat)
    requires JoinKey(m) == JoinKey(n)
    ensures m == n
  {
    assert JoinKey(m)[5..] == Digits(m) && JoinKey(n)[5..] == Digits(n);
    DigitsInjective(m, n);
  }

  /** Generated keys: table i is called table_i and its column j is called table_i_col_j. */
  ghost predicate GeneratedKeys(tables: seq<Table>) {
    forall i: nat | i < |tables| ::
      && tables[i].key == TableKey(i + 1)
      && forall j: nat | j < |tables[i].columns| :: tables[i].columns[j].key == ColumnKey(tables[i].key, j + 1)
  }

  lemma FilteredHasGeneratedKeys(resources: seq<Resource>, p: Permissions, safe: string -> string)
    ensures GeneratedKeys(Filtered(resources, p, safe))
  {
  }

  /** A column key belongs to one column of one table. */
  ghost predicate InjectiveColumnKeys(tables: seq<Table>) {
    forall i: nat, j: nat, i': nat, j': nat |
      i < |tables| && i' < |tables| && j < |tables[i].columns| && j' < |tables[i'].columns|
      && tables[i].columns[j].key == tables[i'].columns[j'].key :: i == i'
  }

  lemma GeneratedKeysAreInjective(tables: seq<Table>)
    requires GeneratedKeys(tables)
    ensures InjectiveColumnKeys(tables)
  {
    forall i: nat, j: nat, i': nat, j': nat |
      i < |tables| && i' < |tables| && j < |tables[i].columns| && j' < |tables[i'].columns|
      && tables[i].columns[j].key == tables[i'].columns[j'].key
      ensures i == i'
    {
      ColumnKeyInjective(i + 1, j + 1, i' + 1, j' + 1);
    }
  }

  lemma ListedHere(tables: seq<Table>, i: nat, j: nat)
    requires i < |tables| && j < |tables[i].columns|
    ensures Listed(tables[i].key, tables[i].resourceKey, tables[i].columns[j]) in AllColumns(tables)
  {
    ConcatMembers(tables, ListedOf);
    assert ListedOf(tables[i])[j] in ListedOf(tables[i]);
  }

  lemma ListedWhere(tables: seq<Table>, c: Listed) returns (i: nat, j: nat)
    requires c in AllColumns(tables)
    ensures i < |tables| && j < |tables[i].columns|
    ensures c == Listed(tables[i].key, tables[i].resourceKey, tables[i].columns[j])
  {
    ConcatMembers(tables, ListedOf);
    var t :| t in tables && c in ListedOf(t);
    i :| 0 <= i < |tables| && tables[i] == t;
    j :| 0 <= j < |ListedOf(t)| && ListedOf(t)[j] == c;
  }

  /** With generated keys a column is owned by the table that lists it. */
  lemma OwnerIsLister(tables: seq<Table>, i: nat, j: nat)
    requires InjectiveColumnKeys(tables) && i < |tables| && j < |tables[i].columns|
    ensures var k := tables[i].columns[j].key; k in OwnerOf(tables) && OwnerOf(tables)[k] == tables[i].key
  {
    var columns, k := AllColumns(tables), tables[i].columns[j].key;
    ListedHere(tables, i, j);
    OwnerMapHolds(columns);
    var c :| c in columns && c.column.key == k && c.table == OwnerMap(columns)[k];
    var i', j' := ListedWhere(tables, c);
  }

  lemma {:induction false} ByResourceHolds(tables: seq<Table>)
    ensures forall t | t in tables :: t.resourceKey in ByResource(tables)
    ensures forall k | k in ByResource(tables) :: ByResource(tables)[k] in tables && ByResource(tables)[k].resourceKey == k
  {
    if tables != [] {
      ByResourceHolds(tables[..|tables| - 1]);
      assert tables == tables[..|tables| - 1] + [tables[|tables| - 1]];
    }
  }

  lemma {:induction false} ColumnsByNameHolds(columns: seq<TableColumn>, resource: string)
    ensures forall c | c in columns :: (resource, c.name) in ColumnsByName(columns, resource)
    ensures forall key | key in ColumnsByName(columns, resource) ::
      key.0 == resource && exists c :: c in columns && c.name == key.1 && c.key == ColumnsByName(columns, resource)[key]
  {
    if columns != [] {
      var front, last := columns[..|columns| - 1], columns[|columns| - 1];
      assert columns == front + [last];
      ColumnsByNameHolds(front, resource);
      forall key | key in ColumnsByName(columns, resource)
        ensures key.0 == resource
        ensures exists c :: c in columns && c.name == key.1 && c.key == ColumnsByName(columns, resource)[key]
      {
        if key == (resource, last.name) {
          assert last in columns;
        } else {
          var c :| c in front && c.name == key.1 && c.key == ColumnsByName(front, resource)[key];
          assert c in columns;
        }
      }
    }
  }

  lemma {:induction false} ColumnKeysHold(tables: seq<Table>)
    ensures forall t, c | t in tables && c in t.columns :: (t.resourceKey, c.name) in ColumnKeys(tables)
    ensures forall key | key in ColumnKeys(tables) ::
      exists t, c :: t in tables && c in t.columns && t.resourceKey == key.0 && c.name == key.1 && c.key == ColumnKeys(tables)[key]
  {
    if tables != [] {
      var front, last := tables[..|tables| - 1], tables[|tables| - 1];
      assert tables == front + [last];
      ColumnKeysHold(front);
      ColumnsByNameHolds(last.columns, last.resourceKey);
      forall key | key in ColumnKeys(tables)
        ensures exists t, c ::
          t in tables && c in t.columns && t.resourceKey == key.0 && c.name == key.1 && c.key == ColumnKeys(tables)[key]
      {
        if key in ColumnsByName(last.columns, last.resourceKey) {
          var c :| c in last.columns && c.name == key.1 && c.key == ColumnsByName(last.columns, last.resourceKey)[key];
          assert last in tables;
        } else {
          var t, c :| t in front && c in t.columns && t.resourceKey == key.0 && c.name == key.1 && c.key == ColumnKeys(front)[key];
          assert t in tables;
        }
      }
    }
  }

  lemma SameResourceSameTable(tables: seq<Table>, t: Table, t': Table)
    requires Distinct(ResourceKeys(tables)) && t in tables && t' in tables && t.resourceKey == t'.resourceKey
    ensures t == t'
  {
    var i :| 0 <= i < |tables| && tables[i] == t;
    var j :| 0 <= j < |tables| && tables[j] == t';
    assert ResourceKeys(tables)[i] == ResourceKeys(tables)[j];
  }

  /** The table key and the column key looked up for one end of a join belong together. */
  lemma LookedUpKeysAgree(tables: seq<Table>, resource: string, column: string)
    requires GeneratedKeys(tables) && Distinct(ResourceKeys(tables))
    requires resource in ByResource(tables) && (resource, column) in ColumnKeys(tables)
    ensures var k := ColumnKeyOf(tables, resource, column);
      k != "" && k in OwnerOf(tables) && OwnerOf(tables)[k] == TableKeyOf(tables, resource) != ""
  {
    ByResourceHolds(tables);
    ColumnKeysHold(tables);
    var t, c :| t in tables && c in t.columns && t.resourceKey == resource && c.name == column
      && c.key == ColumnKeys(tables)[(resource, column)];
    SameResourceSameTable(tables, t, ByResource(tables)[resource]);
    var i: nat :| i < |tables| && tables[i] == t;
    var j: nat :| j < |t.columns| && t.columns[j] == c;
    GeneratedKeysAreInjective(tables);
    OwnerIsLister(tables, i, j);
  }

  lemma LoadedJoinIsComplete(tables: seq<Table>, stored: seq<StoredJoin>, safe: string -> string, n: nat)
    requires GeneratedKeys(tables) && Distinct(ResourceKeys(tables)) && n < |Loaded(tables, stored, safe)|
    ensures CompleteJoin(tables, Loaded(tables, stored, safe)[n])
  {
    var kept := Keep(stored, LoadableIn(tables));
    KeptSatisfy(stored, LoadableIn(tables));
    assert kept[n] in kept;
    assert Loadable(tables, kept[n]);
    LookedUpKeysAgree(tables, kept[n].leftResource, kept[n].leftColumn);
    LookedUpKeysAgree(tables, kept[n].rightResource, kept[n].rightColumn);
  }

  lemma LoadedKeysDistinct(tables: seq<Table>, stored: seq<StoredJoin>, safe: string -> string)
    ensures Distinct(JoinKeys(Loaded(tables, stored, safe)))
  {
    var keys := JoinKeys(Loaded(tables, stored, safe));
    forall m, n | 0 <= m < n < |keys|
      ensures keys[m] != keys[n]
    {
      assert keys[m] == JoinKey(m + 1) && keys[n] == JoinKey(n + 1);
      if keys[m] == keys[n] {
        JoinKeyInjective(m + 1, n + 1);
      }
    }
  }

  lemma KeysOfClass(joins: seq<Join>, p: Join -> bool, k: string)
    ensures k in JoinKeys(Keep(joins, p)) <==> exists n: nat :: n < |joins| && joins[n].key == k && p(joins[n])
  {
    var kept := Keep(joins, p);
    KeptSatisfy(joins, p);
    if k in JoinKeys(kept) {
      var h :| 0 <= h < |kept| && JoinKeys(kept)[h] == k;
      assert kept[h] in kept;
      var n: nat :| n < |joins| && joins[n] == kept[h];
    }
    if n: nat :| n < |joins| && joins[n].key == k && p(joins[n]) {
      assert joins[n] in kept;
      var h :| 0 <= h < |kept| && kept[h] == joins[n];
      assert JoinKeys(kept)[h] == k;
    }
  }

  function KeysIn(tables: seq<Table>, joins: seq<Join>, canonical: set<string>, joinKeys: set<string>, kind: JoinClass): set<string> {
    ToSet(JoinKeys(Keep(joins, InClass(tables, canonical, joinKeys, kind))))
  }

  /** With distinct keys and complete joins the class of a key is the class of its only join. */
  lemma ClassOfKey(tables: seq<Table>, joins: seq<Join>, canonical: set<string>, joinKeys: set<string>, k: string)
    requires Distinct(JoinKeys(joins)) && forall n: nat | n < |joins| :: CompleteJoin(tables, joins[n])
    ensures k !in KeysIn(tables, joins, canonical, joinKeys, Incomplete)
    ensures k in KeysIn(tables, joins, canonical, joinKeys, Matched) || k in KeysIn(tables, joins, canonical, joinKeys, Outside)
      <==> k in joinKeys && k in JoinKeys(joins)
    ensures !(k in KeysIn(tables, joins, canonical, joinKeys, Matched) && k in KeysIn(tables, joins, canonical, joinKeys, Outside))
  {
    KeysOfClass(joins, InClass(tables, canonical, joinKeys, Incomplete), k);
    KeysOfClass(joins, InClass(tables, canonical, joinKeys, Matched), k);
    KeysOfClass(joins, InClass(tables, canonical, joinKeys, Outside), k);
    if n: nat :| n < |joins| && JoinKeys(joins)[n] == k {
      assert joins[n].key == k;
      assert forall m: nat | m < |joins| && joins[m].key == k :: JoinKeys(joins)[m] == k;
    }
    assert forall m: nat | m < |joins| && joins[m].key == k :: JoinKeys(joins)[m] == k;
  }

  /**
   Over the joins that the pipeline itself loaded, a proposed join key is never incomplete: it
   is matched, outside the selected tables, or unknown, and exactly one of the three.
   */
  lemma ProposedJoinsAreClassified(tables: seq<Table>, stored: seq<StoredJoin>, safe: string -> string,
                                   tableKeys: set<string>, columnKeys: set<string>, joinKeys: set<string>)
    requires GeneratedKeys(tables) && Distinct(ResourceKeys(tables))
    ensures var joins := Loaded(tables, stored, safe);
      var r := Resolve(tables, joins, tableKeys, columnKeys, joinKeys);
      var unknown := joinKeys - ToSet(JoinKeys(joins));
      && r.incompleteJoins == {}
      && joinKeys == r.matchedJoins + r.outsideJoins + unknown
      && r.matchedJoins !! r.outsideJoins !! unknown
  {
    var joins := Loaded(tables, stored, safe);
    var r := Resolve(tables, joins, tableKeys, columnKeys, joinKeys);
    LoadedKeysDistinct(tables, stored, safe);
    forall n: nat | n < |joins|
      ensures CompleteJoin(tables, joins[n])
    {
      LoadedJoinIsComplete(tables, stored, safe, n);
    }
    forall k
      ensures k !in r.incompleteJoins
      ensures k in joinKeys && k in JoinKeys(joins) <==> k in r.matchedJoins || k in r.outsideJoins
      ensures !(k in r.matchedJoins && k in r.outsideJoins)
    {
      ClassOfKey(tables, joins, r.canonicalTables, joinKeys, k);
    }
  }

  /*** What may not be seen has no influence ***/

  /** Both resources of the join are visible. */
  function Touches(keys: set<string>): StoredJoin -> bool {
    (j: StoredJoin) => j.leftResource in keys && j.rightResource in keys
  }

  lemma LoadedIgnoresDenied(tables: seq<Table>, stored: seq<StoredJoin>, safe: string -> string)
    ensures Loaded(tables, stored, safe) == Loaded(tables, Keep(stored, Touches(ByResource(tables).Keys)), safe)
  {
    KeepTwice(stored, Touches(ByResource(tables).Keys), LoadableIn(tables));
  }

  /**
   Two catalogs with the same allowed resources, and two join stores that differ only in joins
   touching a resource that is not allowed, give the same schema, the same joins and the same
   resolution of every selection.
   */
  lemma DeniedHasNoInfluence(
    resources: seq<Resource>, resources': seq<Resource>, stored: seq<StoredJoin>, stored': seq<StoredJoin>,
    p: Permissions, safe: string -> string, tableKeys: set<string>, columnKeys: set<string>, joinKeys: set<string>)
    requires Visible(resources, p) == Visible(resources', p)
    requires var keys := ByResource(Filtered(resources, p, safe)).Keys;
      Keep(stored, Touches(keys)) == Keep(stored', Touches(keys))
    ensures var tables, tables' := Filtered(resources, p, safe), Filtered(resources', p, safe);
      && tables == tables'
      && Loaded(tables, stored, safe) == Loaded(tables', stored', safe)
      && Resolve(tables, Loaded(tables, stored, safe), tableKeys, columnKeys, joinKeys)
          == Resolve(tables', Loaded(tables', stored', safe), tableKeys, columnKeys, joinKeys)
  {
    LoadedIgnoresDenied(Filtered(resources, p, safe), stored, safe);
    LoadedIgnoresDenied(Filtered(resources, p, safe), stored', safe);
  }

  function KeysOf(resources: seq<Resource>): seq<string> {
    seq(|resources|, i requires 0 <= i < |resources| => resources[i].key)
  }

  lemma FilteredResourceKeys(resources: seq<Resource>, p: Permissions, safe: string -> string)
    ensures ResourceKeys(Filtered(resources, p, safe)) == KeysOf(Visible(resources, p))
  {
  }

  lemma ByResourceKeys(tables: seq<Table>)
    ensures ByResource(tables).Keys == ToSet(ResourceKeys(tables))
  {
    ByResourceHolds(tables);
    forall t | t in tables
      ensures t.resourceKey in ResourceKeys(tables)
    {
      var i :| 0 <= i < |tables| && tables[i] == t;
      assert ResourceKeys(tables)[i] == t.resourceKey;
    }
  }

  lemma VisibleKeys(resources: seq<Resource>, p: Permissions)
    ensures ToSet(KeysOf(Visible(resources, p))) == set r | r in resources && IsAllowed(r, p) :: r.key
  {
    var visible := Visible(resources, p);
    KeptSatisfy(resources, AllowedBy(p));
    forall r | r in visible
      ensures r.key in KeysOf(visible)
    {
      var i :| 0 <= i < |visible| && visible[i] == r;
      assert KeysOf(visible)[i] == r.key;
    }
    forall k | k in KeysOf(visible)
      ensures exists r :: r in resources && IsAllowed(r, p) && r.key == k
    {
      var i :| 0 <= i < |visible| && KeysOf(visible)[i] == k;
      assert visible[i] in visible;
    }
  }

  /** The schema keys of the filtered catalog are those of the allowed resources and no others. */
  lemma FilteredKeepsAllowed(resources: seq<Resource>, p: Permissions, safe: string -> string)
    ensures ByResource(Filtered(resources, p, safe)).Keys == set r | r in resources && IsAllowed(r, p) :: r.key
  {
    FilteredResourceKeys(resources, p, safe);
    ByResourceKeys(Filtered(resources, p, safe));
    VisibleKeys(resources, p);
  }

  lemma {:induction false} KeptKeysDistinct(resources: seq<Resource>, p: Resource -> bool)
    requires Distinct(KeysOf(resources))
    ensures Distinct(KeysOf(Keep(resources, p)))
  {
    if resources != [] {
      var rest := resources[1..];
      DistinctCons(KeysOf(resources));
      assert KeysOf(resources)[1..] == KeysOf(rest);
      KeptKeysDistinct(rest, p);
      if p(resources[0]) {
        var kept := Keep(resources, p);
        assert KeysOf(kept)[1..] == KeysOf(Keep(rest, p));
        KeptSatisfy(rest, p);
        KeysOfPart(Keep(rest, p), rest);
        DistinctCons(KeysOf(kept));
      } else {
        assert Keep(resources, p) == Keep(rest, p);
      }
    }
  }

  lemma KeysOfPart(part: seq<Resource>, all: seq<Resource>)
    requires forall r | r in part :: r in all
    ensures forall k | k in KeysOf(part) :: k in KeysOf(all)
  {
    forall k | k in KeysOf(part)
      ensures k in KeysOf(all)
    {
      var i :| 0 <= i < |part| && KeysOf(part)[i] == k;
      assert part[i] in part;
      var j :| 0 <= j < |all| && all[j] == part[i];
      assert KeysOf(all)[j] == k;
    }
  }

  /** The pipeline from end to end: a catalog with distinct keys never yields an incomplete join. */
  lemma CatalogJoinsAreClassified(
    resources: seq<Resource>, p: Permissions, stored: seq<StoredJoin>, safe: string -> string,
    tableKeys: set<string>, columnKeys: set<string>, joinKeys: set<string>)
    requires Distinct(KeysOf(resources))
    ensures var tables := Filtered(resources, p, safe);
      var joins := Loaded(tables, stored, safe);
      var r := Resolve(tables, joins, tableKeys, columnKeys, joinKeys);
      && r.incompleteJoins == {}
      && joinKeys == r.matchedJoins + r.outsideJoins + (joinKeys - ToSet(JoinKeys(joins)))
      && r.matchedJoins !! r.outsideJoins !! (joinKeys - ToSet(JoinKeys(joins)))
  {
    KeptKeysDistinct(resources, AllowedBy(p));
    FilteredResourceKeys(resources, p, safe);
    FilteredHasGeneratedKeys(resources, p, safe);
    ProposedJoinsAreClassified(Filtered(resources, p, safe), stored, safe, tableKeys, columnKeys, joinKeys);
  }

  /*** Every stored join is accounted for ***/

  lemma KnownColumnIsLoadable(tables: seq<Table>, resource: string, column: string)
    requires Distinct(ResourceKeys(tables))
    ensures KnownColumn(tables, resource, column) <==> resource in ByResource(tables) && (resource, column) in ColumnKeys(tables)
  {
    ByResourceHolds(tables);
    ColumnKeysHold(tables);
    if resource in ByResource(tables) && (resource, column) in ColumnKeys(tables) {
      var t, c :| t in tables && c in t.columns && t.resourceKey == resource && c.name == column;
      SameResourceSameTable(tables, t, ByResource(tables)[resource]);
    }
  }

  predicate Nameless(j: StoredJoin) {
    j.leftResource == "" || j.rightResource == "" || j.leftColumn == "" || j.rightColumn == ""
  }

  /** A join that is loaded although the counters call it invalid: one of its names is empty. */
  function LoadedNameless(tables: seq<Table>): StoredJoin -> bool {
    j => Loadable(tables, j) && Nameless(j)
  }

  lemma OneJoinAccounted(tables: seq<Table>, j: StoredJoin)
    requires Distinct(ResourceKeys(tables))
    ensures Loadable(tables, j) <==> DropOf(tables, j).NotDropped? || LoadedNameless(tables)(j)
    ensures LoadedNameless(tables)(j) ==> DropOf(tables, j).Invalid?
  {
    KnownColumnIsLoadable(tables, j.leftResource, j.leftColumn);
    KnownColumnIsLoadable(tables, j.rightResource, j.rightColumn);
  }

  /** The counters add up, except that loaded joins with an empty name are counted twice. */
  lemma {:induction false} JoinsAccounted(tables: seq<Table>, stored: seq<StoredJoin>)
    requires Distinct(ResourceKeys(tables))
    ensures |Keep(stored, LoadableIn(tables))| + CountDrops(tables, stored, Denied) + CountDrops(tables, stored, Invalid)
      == |stored| + |Keep(stored, LoadedNameless(tables))|
  {
    if stored != [] {
      OneJoinAccounted(tables, stored[0]);
      JoinsAccounted(tables, stored[1..]);
    }
  }

  lemma {:induction false} KeepEmpty<T>(s: seq<T>, p: T -> bool)
    ensures Keep(s, p) == [] <==> forall x | x in s :: !p(x)
  {
    if s != [] {
      assert s == [s[0]] + s[1..];
      KeepEmpty(s[1..], p);
    }
  }

  /** loaded + denied + invalid is the number of joins exactly when no loaded join has an empty name. */
  lemma JoinCountsAddUp(tables: seq<Table>, stored: seq<StoredJoin>, safe: string -> string)
    requires Distinct(ResourceKeys(tables))
    ensures |Loaded(tables, stored, safe)| + CountDrops(tables, stored, Denied) + CountDrops(tables, stored, Invalid) == |stored|
      <==> forall j | j in stored :: !(Loadable(tables, j) && Nameless(j))
  {
    JoinsAccounted(tables, stored);
    KeepEmpty(stored, LoadedNameless(tables));
  }
}
