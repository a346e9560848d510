/**
 Splitting a schema catalog into batches, marking each batch with what a model wants kept
 or dropped, and joining the batches: backend/src/data_catalog/utils.rs and dto.rs. Hash
 maps are enumerated in an arbitrary order.
 */
module DataCatalog {
  import opened Sequences

  type Name = string

  datatype Column = Column(name: Name, dataType: string, description: string, sampleValues: seq<string>,
                           shouldDelete: bool, shouldSelect: bool)

  datatype Table = Table(name: Name, description: string, columns: map<Name, Column>,
                         shouldDelete: bool, shouldSelect: bool)

  datatype Schema = Schema(name: Name, description: string, tables: map<Name, Table>,
                           shouldDelete: bool, shouldSelect: bool)

  datatype Catalog = Catalog(name: Name, description: string, schemas: map<Name, Schema>)

  datatype TableColumns = TableColumns(database: Name, schema: Name, table: Name, columns: seq<Name>)

  datatype SchemaTables = SchemaTables(database: Name, schema: Name, tables: seq<Name>)

  /** What one model answers about a batch: tables and columns to delete, or to select. */
  datatype NameSets = NameSets(tables: seq<SchemaTables>, columns: seq<TableColumns>)

  // Every map of a catalog is keyed by the name of the entry, as `Database::new` builds it.

  predicate KeyedTable(table: Table)
  {
    forall c :: c in table.columns ==> table.columns[c].name == c
  }

  predicate KeyedSchema(schema: Schema)
  {
    forall t :: t in schema.tables ==> schema.tables[t].name == t && KeyedTable(schema.tables[t])
  }

  predicate Keyed(catalog: Catalog)
  {
    forall s :: s in catalog.schemas ==> catalog.schemas[s].name == s && KeyedSchema(catalog.schemas[s])
  }

  // ---------- Marking ----------

  /** The places marked so far. */
  datatype Marks = Marks(deletedTables: set<(Name, Name)>, deletedColumns: set<(Name, Name, Name)>,
                         selectedTables: set<(Name, Name)>, selectedColumns: set<(Name, Name, Name)>)

  const NO_MARKS := Marks({}, {}, {}, {})

  function MarkColumn(s: Name, t: Name, c: Name, column: Column, marks: Marks): Column
  {
    column.(shouldDelete := column.shouldDelete || (s, t, c) in marks.deletedColumns,
            shouldSelect := column.shouldSelect || (s, t, c) in marks.selectedColumns)
  }

  function MarkTable(s: Name, t: Name, table: Table, marks: Marks): Table
  {
    table.(columns := map c | c in table.columns :: MarkColumn(s, t, c, table.columns[c], marks),
           shouldDelete := table.shouldDelete || (s, t) in marks.deletedTables,
           shouldSelect := table.shouldSelect || (s, t) in marks.selectedTables)
  }

  function MarkSchema(s: Name, schema: Schema, marks: Marks): Schema
  {
    schema.(tables := map t | t in schema.tables :: MarkTable(s, t, schema.tables[t], marks))
  }

  function MarkSchemas(schemas: map<Name, Schema>, marks: Marks): map<Name, Schema>
  {
    map s | s in schemas :: MarkSchema(s, schemas[s], marks)
  }

  function TableNames(entries: seq<SchemaTables>, database: Name): set<(Name, Name)>
  {
    set e, t | e in entries && e.database == database && t in e.tables :: (e.schema, t)
  }

  function ColumnNames(entries: seq<TableColumns>, database: Name): set<(Name, Name, Name)>
  {
    set e, c | e in entries && e.database == database && c in e.columns :: (e.schema, e.table, c)
  }

  function MarksOf(database: Name, deletions: NameSets, selections: NameSets): Marks
  {
    Marks(TableNames(deletions.tables, database), ColumnNames(deletions.columns, database),
          TableNames(selections.tables, database), ColumnNames(selections.columns, database))
  }

  function Pruned(batch: Catalog, deletions: NameSets, selections: NameSets): Catalog
  {
    batch.(schemas := MarkSchemas(batch.schemas, MarksOf(batch.name, deletions, selections)))
  }

  predicate NamesTable(entries: seq<SchemaTables>, database: Name, s: Name, t: Name)
  {
    exists e :: e in entries && e.database == database && e.schema == s && t in e.tables
  }

  predicate NamesColumn(entries: seq<TableColumns>, database: Name, s: Name, t: Name, c: Name)
  {
    exists e :: e in entries && e.database == database && e.schema == s && e.table == t && c in e.columns
  }

  /** The flags of one column after the answers: set by an entry that names it, and never cleared. */
  predicate ColumnAnswered(
    before: Column, after: Column, d: Name, s: Name, t: Name, c: Name, deletions: NameSets, selections: NameSets)
  {
    && after.name == before.name && after.dataType == before.dataType
    && after.description == before.description && after.sampleValues == before.sampleValues
    && (after.shouldDelete <==> before.shouldDelete || NamesColumn(deletions.columns, d, s, t, c))
    && (after.shouldSelect <==> before.shouldSelect || NamesColumn(selections.columns, d, s, t, c))
  }

  predicate TableAnswered(
    before: Table, after: Table, d: Name, s: Name, t: Name, deletions: NameSets, selections: NameSets)
  {
    && after.name == before.name && after.description == before.description
    && (after.shouldDelete <==> before.shouldDelete || NamesTable(deletions.tables, d, s, t))
    && (after.shouldSelect <==> before.shouldSelect || NamesTable(selections.tables, d, s, t))
    && after.columns.Keys == before.columns.Keys
    && forall c :: c in before.columns ==>
         ColumnAnswered(before.columns[c], after.columns[c], d, s, t, c, deletions, selections)
  }

  /** The batch with the flags that the answers ask for, and otherwise as it was. */
  predicate Answered(before: Catalog, after: Catalog, deletions: NameSets, selections: NameSets)
  {
    && after.name == before.name && after.description == before.description
    && after.schemas.Keys == before.schemas.Keys
    && forall s :: s in before.schemas ==>
         && after.schemas[s] == before.schemas[s].(tables := after.schemas[s].tables)
         && after.schemas[s].tables.Keys == before.schemas[s].tables.Keys
         && forall t :: t in before.schemas[s].tables ==>
              TableAnswered(before.schemas[s].tables[t], after.schemas[s].tables[t], before.name, s, t,
                            deletions, selections)
  }

  lemma TableNamesAre(entries: seq<SchemaTables>, d: Name, s: Name, t: Name)
    ensures (s, t) in TableNames(entries, d) <==> NamesTable(entries, d, s, t)
  {
  }

  lemma ColumnNamesAre(entries: seq<TableColumns>, d: Name, s: Name, t: Name, c: Name)
    ensures (s, t, c) in ColumnNames(entries, d) <==> NamesColumn(entries, d, s, t, c)
  {
  }

  lemma TableIsAnswered(s: Name, t: Name, table: Table, d: Name, deletions: NameSets, selections: NameSets)
    ensures TableAnswered(table, MarkTable(s, t, table, MarksOf(d, deletions, selections)), d, s, t,
                          deletions, selections)
  {
    hide NamesTable, NamesColumn, TableNames, ColumnNames;
    TableNamesAre(deletions.tables, d, s, t);
    TableNamesAre(selections.tables, d, s, t);
    forall c | c in table.columns
      ensures (s, t, c) in ColumnNames(deletions.columns, d) <==> NamesColumn(deletions.columns, d, s, t, c)
      ensures (s, t, c) in ColumnNames(selections.columns, d) <==> NamesColumn(selections.columns, d, s, t, c)
    {
      ColumnNamesAre(deletions.columns, d, s, t, c);
      ColumnNamesAre(selections.columns, d, s, t, c);
    }
  }

  /** Pruning sets exactly the flags that the entries of the answers name. */
  lemma PrunedIsAnswered(batch: Catalog, deletions: NameSets, selections: NameSets)
    ensures Answered(batch, Pruned(batch, deletions, selections), deletions, selections)
  {
    hide TableAnswered, MarkTable, MarksOf;
    forall s, t | s in batch.schemas && t in batch.schemas[s].tables
      ensures var marks := MarksOf(batch.name, deletions, selections);
              TableAnswered(batch.schemas[s].tables[t], MarkTable(s, t, batch.schemas[s].tables[t], marks),
                            batch.name, s, t, deletions, selections)
    {
      TableIsAnswered(s, t, batch.schemas[s].tables[t], batch.name, deletions, selections);
    }
  }

  predicate Touches(marks: Marks, s: Name, t: Name)
  {
    (s, t) in marks.deletedTables + marks.selectedTables ||
    exists m :: m in marks.deletedColumns + marks.selectedColumns && m.0 == s && m.1 == t
  }

  lemma UntouchedTable(s: Name, t: Name, table: Table, marks: Marks)
    requires !Touches(marks, s, t)
    ensures MarkTable(s, t, table, marks) == table
  {
    var marked := MarkTable(s, t, table, marks);
    forall c | c in table.columns
      ensures marked.columns[c] == table.columns[c]
    {
      assert (s, t, c) !in marks.deletedColumns + marks.selectedColumns by {
        assert (s, t, c).0 == s && (s, t, c).1 == t;
      }
    }
    assert marked.columns == table.columns;
  }

  function WithTable(schemas: map<Name, Schema>, s: Name, t: Name, table: Table): map<Name, Schema>
    requires s in schemas
  {
    schemas[s := schemas[s].(tables := schemas[s].tables[t := table])]
  }

  /** Marks within one table change that table, if it is there, and nothing else. */
  lemma MarkOneTable(schemas: map<Name, Schema>, s: Name, t: Name, marks: Marks)
    requires forall s', t' :: Touches(marks, s', t') ==> (s', t') == (s, t)
    ensures MarkSchemas(schemas, marks) ==
            if s in schemas && t in schemas[s].tables
            then WithTable(schemas, s, t, MarkTable(s, t, schemas[s].tables[t], marks)) else schemas
  {
    var marked := MarkSchemas(schemas, marks);
    var expected := if s in schemas && t in schemas[s].tables
      then WithTable(schemas, s, t, MarkTable(s, t, schemas[s].tables[t], marks)) else schemas;
    forall s' | s' in schemas
      ensures marked[s'] == expected[s']
    {
      forall t' | t' in schemas[s'].tables && (s', t') != (s, t)
        ensures marked[s'].tables[t'] == schemas[s'].tables[t']
      {
        UntouchedTable(s', t', schemas[s'].tables[t'], marks);
      }
      assert marked[s'].tables == expected[s'].tables;
    }
  }

  /** One batch, whose entries the marking functions update in place. */
  class Database {
    const name: Name
    const description: string
    var schemas: map<Name, Schema>

    constructor (catalog: Catalog)
      ensures View() == catalog
    {
      name, description, schemas := catalog.name, catalog.description, catalog.schemas;
    }

    function View(): Catalog
      reads this
    {
      Catalog(name, description, schemas)
    }

    predicate Holds(s: Name, t: Name)
      reads this
    {
      s in schemas && t in schemas[s].tables
    }

    method SetTable(s: Name, t: Name, table: Table)
      requires Holds(s, t)
      modifies this
      ensures schemas == WithTable(old(schemas), s, t, table)
    {
      schemas := schemas[s := schemas[s].(tables := schemas[s].tables[t := table])];
    }

    method DeleteTable(s: Name, t: Name) returns (found: bool)
      modifies this
      ensures found == old(Holds(s, t))
      ensures schemas == MarkSchemas(old(schemas), NO_MARKS.(deletedTables := {(s, t)}))
    {
      ghost var marks := NO_MARKS.(deletedTables := {(s, t)});
      MarkOneTable(schemas, s, t, marks);
      found := Holds(s, t);
      if found {
        var table := schemas[s].tables[t].(shouldDelete := true);
        assert table.columns == MarkTable(s, t, schemas[s].tables[t], marks).columns;
        SetTable(s, t, table);
      }
    }

    method SelectTable(s: Name, t: Name) returns (found: bool)
      modifies this
      ensures found == old(Holds(s, t))
      ensures schemas == MarkSchemas(old(schemas), NO_MARKS.(selectedTables := {(s, t)}))
    {
      ghost var marks := NO_MARKS.(selectedTables := {(s, t)});
      MarkOneTable(schemas, s, t, marks);
      found := Holds(s, t);
      if found {
        var table := schemas[s].tables[t].(shouldSelect := true);
        assert table.columns == MarkTable(s, t, schemas[s].tables[t], marks).columns;
        SetTable(s, t, table);
      }
    }

    method DeleteColumn(s: Name, t: Name, c: Name) returns (found: bool)
      modifies this
      ensures found == old(Holds(s, t) && c in schemas[s].tables[t].columns)
      ensures schemas == MarkSchemas(old(schemas), NO_MARKS.(deletedColumns := {(s, t, c)}))
    {
      ghost var marks := NO_MARKS.(deletedColumns := {(s, t, c)});
      MarkOneTable(schemas, s, t, marks);
      found := Holds(s, t) && c in schemas[s].tables[t].columns;
      if found {
        var table := schemas[s].tables[t];
        var columns := table.columns[c := table.columns[c].(shouldDelete := true)];
        assert columns == MarkTable(s, t, table, marks).columns;
        SetTable(s, t, table.(columns := columns));
      } else if Holds(s, t) {
        var table := schemas[s].tables[t];
        assert table.columns == MarkTable(s, t, table, marks).columns;
        assert schemas[s].tables == schemas[s].tables[t := table];
      }
    }

    method SelectColumn(s: Name, t: Name, c: Name) returns (found: bool)
      modifies this
      ensures found == old(Holds(s, t) && c in schemas[s].tables[t].columns)
      ensures schemas == MarkSchemas(old(schemas), NO_MARKS.(selectedColumns := {(s, t, c)}))
    {
      ghost var marks := NO_MARKS.(selectedColumns := {(s, t, c)});
      MarkOneTable(schemas, s, t, marks);
      found := Holds(s, t) && c in schemas[s].tables[t].columns;
      if found {
        var table := schemas[s].tables[t];
        var columns := table.columns[c := table.columns[c].(shouldSelect := true)];
        assert columns == MarkTable(s, t, table, marks).columns;
        SetTable(s, t, table.(columns := columns));
      } else if Holds(s, t) {
        var table := schemas[s].tables[t];
        assert table.columns == MarkTable(s, t, table, marks).columns;
        assert schemas[s].tables == schemas[s].tables[t := table];
      }
    }
  }

  // ---------- Pruning one batch ----------

  function Union(a: Marks, b: Marks): Marks
  {
    Marks(a.deletedTables + b.deletedTables, a.deletedColumns + b.deletedColumns,
          a.selectedTables + b.selectedTables, a.selectedColumns + b.selectedColumns)
  }

  lemma MarkTableTwice(s: Name, t: Name, table: Table, a: Marks, b: Marks)
    ensures MarkTable(s, t, MarkTable(s, t, table, a), b) == MarkTable(s, t, table, Union(a, b))
  {
    assert MarkTable(s, t, MarkTable(s, t, table, a), b).columns == MarkTable(s, t, table, Union(a, b)).columns;
  }

  /** Marking twice is marking once with both. */
  lemma MarkTwice(schemas: map<Name, Schema>, a: Marks, b: Marks)
    ensures MarkSchemas(MarkSchemas(schemas, a), b) == MarkSchemas(schemas, Union(a, b))
  {
    var twice, once := MarkSchemas(MarkSchemas(schemas, a), b), MarkSchemas(schemas, Union(a, b));
    hide MarkTable, Union;
    forall s | s in schemas
      ensures twice[s] == once[s]
    {
      forall t | t in schemas[s].tables
        ensures twice[s].tables[t] == once[s].tables[t]
      {
        MarkTableTwice(s, t, schemas[s].tables[t], a, b);
      }
      assert twice[s].tables == once[s].tables;
    }
  }

  lemma MarkNothing(schemas: map<Name, Schema>)
    ensures MarkSchemas(schemas, NO_MARKS) == schemas
  {
    var marked := MarkSchemas(schemas, NO_MARKS);
    forall s | s in schemas
      ensures marked[s] == schemas[s]
    {
      forall t | t in schemas[s].tables
        ensures marked[s].tables[t] == schemas[s].tables[t]
      {
        UntouchedTable(s, t, schemas[s].tables[t], NO_MARKS);
      }
      assert marked[s].tables == schemas[s].tables;
    }
  }

  /** The first n tables of an entry. */
  function TablesNamed(entry: SchemaTables, n: nat): set<(Name, Name)>
    requires n <= |entry.tables|
  {
    set t | t in entry.tables[..n] :: (entry.schema, t)
  }

  function ColumnsNamed(entry: TableColumns, n: nat): set<(Name, Name, Name)>
    requires n <= |entry.columns|
  {
    set c | c in entry.columns[..n] :: (entry.schema, entry.table, c)
  }

  method DeleteTables(batch: Database, entries: seq<SchemaTables>)
    modifies batch
    ensures batch.schemas ==
            MarkSchemas(old(batch.schemas), NO_MARKS.(deletedTables := TableNames(entries, batch.name)))
  {
    hide MarkSchemas, TableNames, TablesNamed;
    TableNamesNone(entries, batch.name);
    ghost var before, marks := batch.schemas, NO_MARKS;
    MarkNothing(before);
    for i := 0 to |entries|
      invariant batch.schemas == MarkSchemas(before, marks)
      invariant marks == NO_MARKS.(deletedTables := TableNames(entries[..i], batch.name))
    {
      var entry := entries[i];
      TableNamesSnoc(entries, i, batch.name);
      TablesNamedNone(entry);
      if entry.database == batch.name {
        for j := 0 to |entry.tables|
          invariant batch.schemas == MarkSchemas(before, marks)
          invariant marks == NO_MARKS.(deletedTables := TableNames(entries[..i], batch.name) + TablesNamed(entry, j))
        {
          ghost var mark := NO_MARKS.(deletedTables := {(entry.schema, entry.tables[j])});
          MarkTwice(before, marks, mark);
          TablesNamedSnoc(entry, j);
          var _ := batch.DeleteTable(entry.schema, entry.tables[j]);
          marks := Union(marks, mark);
        }
      }
    }
    assert entries[..|entries|] == entries;
  }

  method DeleteColumns(batch: Database, entries: seq<TableColumns>)
    modifies batch
    ensures batch.schemas ==
            MarkSchemas(old(batch.schemas), NO_MARKS.(deletedColumns := ColumnNames(entries, batch.name)))
  {
    hide MarkSchemas, ColumnNames, ColumnsNamed;
    ColumnNamesNone(entries, batch.name);
    ghost var before, marks := batch.schemas, NO_MARKS;
    MarkNothing(before);
    for i := 0 to |entries|
      invariant batch.schemas == MarkSchemas(before, marks)
      invariant marks == NO_MARKS.(deletedColumns := ColumnNames(entries[..i], batch.name))
    {
      var entry := entries[i];
      ColumnNamesSnoc(entries, i, batch.name);
      ColumnsNamedNone(entry);
      if entry.database == batch.name {
        for j := 0 to |entry.columns|
          invariant batch.schemas == MarkSchemas(before, marks)
          invariant marks == NO_MARKS.(deletedColumns := ColumnNames(entries[..i], batch.name) + ColumnsNamed(entry, j))
        {
          ghost var mark := NO_MARKS.(deletedColumns := {(entry.schema, entry.table, entry.columns[j])});
          MarkTwice(before, marks, mark);
          ColumnsNamedSnoc(entry, j);
          var _ := batch.DeleteColumn(entry.schema, entry.table, entry.columns[j]);
          marks := Union(marks, mark);
        }
      }
    }
    assert entries[..|entries|] == entries;
  }

  method SelectTables(batch: Database, entries: seq<SchemaTables>)
    modifies batch
    ensures batch.schemas ==
            MarkSchemas(old(batch.schemas), NO_MARKS.(selectedTables := TableNames(entries, batch.name)))
  {
    hide MarkSchemas, TableNames, TablesNamed;
    TableNamesNone(entries, batch.name);
    ghost var before, marks := batch.schemas, NO_MARKS;
    MarkNothing(before);
    for i := 0 to |entries|
      invariant batch.schemas == MarkSchemas(before, marks)
      invariant marks == NO_MARKS.(selectedTables := TableNames(entries[..i], batch.name))
    {
      var entry := entries[i];
      TableNamesSnoc(entries, i, batch.name);
      TablesNamedNone(entry);
      if entry.database == batch.name {
        for j := 0 to |entry.tables|
          invariant batch.schemas == MarkSchemas(before, marks)
          invariant marks == NO_MARKS.(selectedTables := TableNames(entries[..i], batch.name) + TablesNamed(entry, j))
        {
          ghost var mark := NO_MARKS.(selectedTables := {(entry.schema, entry.tables[j])});
          MarkTwice(before, marks, mark);
          TablesNamedSnoc(entry, j);
          var _ := batch.SelectTable(entry.schema, entry.tables[j]);
          marks := Union(marks, mark);
        }
      }
    }
    assert entries[..|entries|] == entries;
  }

  method SelectColumns(batch: Database, entries: seq<TableColumns>)
    modifies batch
    ensures batch.schemas ==
            MarkSchemas(old(batch.schemas), NO_MARKS.(selectedColumns := ColumnNames(entries, batch.name)))
  {
    hide MarkSchemas, ColumnNames, ColumnsNamed;
    ColumnNamesNone(entries, batch.name);
    ghost var before, marks := batch.schemas, NO_MARKS;
    MarkNothing(before);
    for i := 0 to |entries|
      invariant batch.schemas == MarkSchemas(before, marks)
      invariant marks == NO_MARKS.(selectedColumns := ColumnNames(entries[..i], batch.name))
    {
      var entry := entries[i];
      ColumnNamesSnoc(entries, i, batch.name);
      ColumnsNamedNone(entry);
      if entry.database == batch.name {
        for j := 0 to |entry.columns|
          invariant batch.schemas == MarkSchemas(before, marks)
          invariant marks ==
                    NO_MARKS.(selectedColumns := ColumnNames(entries[..i], batch.name) + ColumnsNamed(entry, j))
        {
          ghost var mark := NO_MARKS.(selectedColumns := {(entry.schema, entry.table, entry.columns[j])});
          MarkTwice(before, marks, mark);
          ColumnsNamedSnoc(entry, j);
          var _ := batch.SelectColumn(entry.schema, entry.table, entry.columns[j]);
          marks := Union(marks, mark);
        }
      }
    }
    assert entries[..|entries|] == entries;
  }

  method PruneDataCatalogBatch(batch: Database, deletions: NameSets, selections: NameSets)
    modifies batch
    ensures batch.View() == Pruned(old(batch.View()), deletions, selections)
    ensures Answered(old(batch.View()), batch.View(), deletions, selections)
  {
    hide MarkSchemas, TableNames, ColumnNames;
    ghost var before := batch.schemas;
    ghost var m := MarksOf(batch.name, deletions, selections);
    ghost var m1, m2 := NO_MARKS.(deletedTables := m.deletedTables), NO_MARKS.(deletedColumns := m.deletedColumns);
    ghost var m3, m4 := NO_MARKS.(selectedTables := m.selectedTables), NO_MARKS.(selectedColumns := m.selectedColumns);
    DeleteTables(batch, deletions.tables);
    DeleteColumns(batch, deletions.columns);
    SelectTables(batch, selections.tables);
    SelectColumns(batch, selections.columns);
    MarkTwice(before, m1, m2);
    MarkTwice(before, Union(m1, m2), m3);
    MarkTwice(before, Union(Union(m1, m2), m3), m4);
    assert Union(Union(Union(m1, m2), m3), m4) == m;
    hide Pruned, Answered;
    PrunedIsAnswered(old(batch.View()), deletions, selections);
  }

  lemma TableNamesNone(entries: seq<SchemaTables>, database: Name)
    ensures TableNames(entries[..0], database) == {}
  {
  }

  lemma TableNamesSnoc(entries: seq<SchemaTables>, i: nat, database: Name)
    requires i < |entries|
    ensures TableNames(entries[..i + 1], database) == TableNames(entries[..i], database) +
            if entries[i].database == database then TablesNamed(entries[i], |entries[i].tables|) else {}
  {
    assert entries[..i + 1] == entries[..i] + [entries[i]];
    assert entries[i].tables[..|entries[i].tables|] == entries[i].tables;
  }

  lemma TablesNamedNone(entry: SchemaTables)
    ensures TablesNamed(entry, 0) == {}
  {
  }

  lemma TablesNamedSnoc(entry: SchemaTables, j: nat)
    requires j < |entry.tables|
    ensures TablesNamed(entry, j + 1) == TablesNamed(entry, j) + {(entry.schema, entry.tables[j])}
  {
    assert entry.tables[..j + 1] == entry.tables[..j] + [entry.tables[j]];
  }

  lemma ColumnNamesNone(entries: seq<TableColumns>, database: Name)
    ensures ColumnNames(entries[..0], database) == {}
  {
  }

  lemma ColumnNamesSnoc(entries: seq<TableColumns>, i: nat, database: Name)
    requires i < |entries|
    ensures ColumnNames(entries[..i + 1], database) == ColumnNames(entries[..i], database) +
            if entries[i].database == database then ColumnsNamed(entries[i], |entries[i].columns|) else {}
  {
    assert entries[..i + 1] == entries[..i] + [entries[i]];
    assert entries[i].columns[..|entries[i].columns|] == entries[i].columns;
  }

  lemma ColumnsNamedNone(entry: TableColumns)
    ensures ColumnsNamed(entry, 0) == {}
  {
  }

  lemma ColumnsNamedSnoc(entry: TableColumns, j: nat)
    requires j < |entry.columns|
    ensures ColumnsNamed(entry, j + 1) == ColumnsNamed(entry, j) + {(entry.schema, entry.table, entry.columns[j])}
  {
    assert entry.columns[..j + 1] == entry.columns[..j] + [entry.columns[j]];
  }

  // ---------- Splitting into batches ----------

  type Location = (Name, Name)

  ghost function Locations(catalog: Catalog): set<Location>
  {
    set s, t | s in catalog.schemas && t in catalog.schemas[s].tables :: (s, t)
  }

  predicate Keeps(schema: Schema, s: Name, at: set<Location>)
  {
    exists t :: t in schema.tables && (s, t) in at
  }

  function RestrictSchema(schema: Schema, s: Name, at: set<Location>): Schema
  {
    schema.(tables := map t | t in schema.tables && (s, t) in at :: schema.tables[t])
  }

  function RestrictSchemas(schemas: map<Name, Schema>, at: set<Location>): map<Name, Schema>
  {
    map s | s in schemas && Keeps(schemas[s], s, at) :: RestrictSchema(schemas[s], s, at)
  }

  /** The part of a catalog that holds the tables at the given places. */
  function Restrict(catalog: Catalog, at: set<Location>): Catalog
  {
    catalog.(schemas := RestrictSchemas(catalog.schemas, at))
  }

  /** Each batch is a part of the catalog, and each table lies in exactly one batch. */
  ghost predicate Partition(catalog: Catalog, batches: seq<Catalog>)
  {
    && batches != []
    && (forall i :: 0 <= i < |batches| ==> batches[i] == Restrict(catalog, Locations(batches[i])))
    && (forall i :: 0 <= i < |batches| ==> Locations(batches[i]) <= Locations(catalog))
    && (forall i, j :: 0 <= i < j < |batches| ==> Locations(batches[i]) !! Locations(batches[j]))
    && (forall l :: l in Locations(catalog) ==> exists i :: 0 <= i < |batches| && l in Locations(batches[i]))
  }

  lemma RestrictLocations(catalog: Catalog, at: set<Location>)
    requires at <= Locations(catalog)
    ensures Locations(Restrict(catalog, at)) == at
  {
    forall l | l in at
      ensures l in Locations(Restrict(catalog, at))
    {
      assert l == (l.0, l.1) && l.1 in catalog.schemas[l.0].tables;
      assert Keeps(catalog.schemas[l.0], l.0, at);
    }
  }

  lemma RestrictSchemaMore(schema: Schema, s': Name, at: set<Location>, s: Name, t: Name)
    ensures Keeps(schema, s', at + {(s, t)}) <==> Keeps(schema, s', at) || (s' == s && t in schema.tables)
    ensures s' != s ==> RestrictSchema(schema, s', at + {(s, t)}) == RestrictSchema(schema, s', at)
    ensures s' == s && t in schema.tables ==>
              RestrictSchema(schema, s, at + {(s, t)}) ==
              schema.(tables := RestrictSchema(schema, s, at).tables[t := schema.tables[t]])
  {
    var more := at + {(s, t)};
    assert Keeps(schema, s', at) ==> Keeps(schema, s', more);
    assert s' == s && t in schema.tables ==> (s', t) in more && Keeps(schema, s', more);
    if s' == s && t in schema.tables {
      assert RestrictSchema(schema, s, more).tables == RestrictSchema(schema, s, at).tables[t := schema.tables[t]];
    } else if s' != s {
      assert RestrictSchema(schema, s', more).tables == RestrictSchema(schema, s', at).tables;
    }
  }

  lemma NotKeptIsEmpty(schema: Schema, s: Name, at: set<Location>)
    requires !Keeps(schema, s, at)
    ensures RestrictSchema(schema, s, at).tables == map[]
  {
  }

  /** Inserting one more table of the catalog into a batch, as the entry call does. */
  lemma RestrictOneMore(schemas: map<Name, Schema>, at: set<Location>, s: Name, t: Name)
    requires s in schemas && t in schemas[s].tables
    ensures var before := RestrictSchemas(schemas, at);
            RestrictSchemas(schemas, at + {(s, t)}) ==
            WithTable(if s in before then before else before[s := schemas[s].(tables := map[])],
                      s, t, schemas[s].tables[t])
  {
    var before, after := RestrictSchemas(schemas, at), RestrictSchemas(schemas, at + {(s, t)});
    var room := if s in before then before else before[s := schemas[s].(tables := map[])];
    var expected := WithTable(room, s, t, schemas[s].tables[t]);
    forall s' | s' in schemas
      ensures Keeps(schemas[s'], s', at + {(s, t)}) <==> Keeps(schemas[s'], s', at) || s' == s
      ensures s' != s ==> RestrictSchema(schemas[s'], s', at + {(s, t)}) == RestrictSchema(schemas[s'], s', at)
    {
      RestrictSchemaMore(schemas[s'], s', at, s, t);
    }
    RestrictSchemaMore(schemas[s], s, at, s, t);
    if !Keeps(schemas[s], s, at) {
      NotKeptIsEmpty(schemas[s], s, at);
    }
    assert room[s].tables == RestrictSchema(schemas[s], s, at).tables;
    hide Keeps, RestrictSchema;
    assert after.Keys == expected.Keys;
    assert forall s' :: s' in after ==> after[s'] == expected[s'];
  }

  /** The schema and the table under one entry of the work list. */
  datatype Entry = Entry(schema: Schema, tableName: Name, table: Table)
  {
    function At(): Location
    {
      (schema.name, tableName)
    }
  }

  predicate From(catalog: Catalog, entry: Entry)
  {
    entry.schema.name in catalog.schemas && entry.schema == catalog.schemas[entry.schema.name] &&
    entry.tableName in entry.schema.tables && entry.table == entry.schema.tables[entry.tableName]
  }

  function Places(entries: seq<Entry>): set<Location>
  {
    set e | e in entries :: e.At()
  }

  predicate Distinct(entries: seq<Entry>)
  {
    forall i, j :: 0 <= i < j < |entries| ==> entries[i].At() != entries[j].At()
  }

  /** The work list: every table of the catalog once, in whatever order the maps enumerate. */
  method ListTables(catalog: Catalog) returns (entries: seq<Entry>)
    requires Keyed(catalog)
    ensures forall e :: e in entries ==> From(catalog, e)
    ensures Distinct(entries) && Places(entries) == Locations(catalog)
  {
    entries := [];
    var schemas := catalog.schemas.Keys;
    while schemas != {}
      invariant schemas <= catalog.schemas.Keys
      invariant forall e :: e in entries ==> From(catalog, e) && e.schema.name !in schemas
      invariant Distinct(entries)
      invariant forall s, t :: s in catalog.schemas.Keys - schemas && t in catalog.schemas[s].tables
                  ==> (s, t) in Places(entries)
      decreases schemas
    {
      var s :| s in schemas;
      var schema := catalog.schemas[s];
      var tables := schema.tables.Keys;
      ghost var before := Places(entries);
      while tables != {}
        invariant tables <= schema.tables.Keys
        invariant forall e :: e in entries ==>
                    From(catalog, e) && e.schema.name !in schemas - {s} &&
                      (e.schema.name == s ==> e.tableName !in tables)
        invariant Distinct(entries)
        invariant before <= Places(entries)
        invariant forall t :: t in schema.tables.Keys - tables ==> (s, t) in Places(entries)
        decreases tables
      {
        var t :| t in tables;
        PlacesSnoc(entries, Entry(schema, t, schema.tables[t]));
        entries := entries + [Entry(schema, t, schema.tables[t])];
        tables := tables - {t};
      }
      schemas := schemas - {s};
    }
  }

  lemma PlacesSnoc(entries: seq<Entry>, entry: Entry)
    ensures Places(entries + [entry]) == Places(entries) + {entry.At()}
  {
    assert forall e :: e in entries + [entry] <==> e in entries || e == entry;
  }

  lemma EmptyBatch(catalog: Catalog, chunk: seq<Entry>)
    ensures RestrictSchemas(catalog.schemas, Places(chunk[..0])) == map[]
  {
  }

  lemma FromCatalog(catalog: Catalog, entry: Entry)
    requires From(catalog, entry)
    ensures entry.schema.name in catalog.schemas && entry.tableName in catalog.schemas[entry.schema.name].tables
    ensures entry.schema == catalog.schemas[entry.schema.name]
    ensures entry.table == catalog.schemas[entry.schema.name].tables[entry.tableName]
  {
  }

  /** The batch built from one chunk of the work list. */
  method BuildBatch(catalog: Catalog, chunk: seq<Entry>) returns (batch: Catalog)
    requires forall e :: e in chunk ==> From(catalog, e)
    ensures batch == Restrict(catalog, Places(chunk))
  {
    hide RestrictSchemas, Places, WithTable, From;
    var schemas: map<Name, Schema> := map[];
    EmptyBatch(catalog, chunk);
    for k := 0 to |chunk|
      invariant schemas == RestrictSchemas(catalog.schemas, Places(chunk[..k]))
    {
      var entry := chunk[k];
      FromCatalog(catalog, entry);
      var s := entry.schema.name;
      RestrictOneMore(catalog.schemas, Places(chunk[..k]), s, entry.tableName);
      PlacesSnoc(chunk[..k], entry);
      assert chunk[..k + 1] == chunk[..k] + [entry];
      if s !in schemas {
        schemas := schemas[s := entry.schema.(tables := map[])];
      }
      schemas := WithTable(schemas, s, entry.tableName, entry.table);
    }
    assert chunk[..|chunk|] == chunk;
    batch := Catalog(catalog.name, catalog.description, schemas);
  }

  function Max(a: nat, b: nat): nat
  {
    if a < b then b else a
  }

  /** Chunk i is not empty, and only the last may be shorter than the chunk size. */
  predicate CutAt(cuts: seq<nat>, n: nat, size: nat, i: nat)
    requires i + 1 < |cuts|
  {
    cuts[i] < cuts[i + 1] <= n && cuts[i + 1] - cuts[i] <= size &&
    (cuts[i + 1] < n ==> cuts[i + 1] - cuts[i] == size)
  }

  /** Where the chunks of a work list of length n begin and end. */
  predicate Cuts(cuts: seq<nat>, n: nat, size: nat)
  {
    && |cuts| >= 1 && cuts[0] == 0
    && (forall i :: 0 <= i < |cuts| - 1 ==> CutAt(cuts, n, size, i))
  }

  /** Batch i is the part of the catalog chunk i names. */
  predicate IsChunk(catalog: Catalog, entries: seq<Entry>, cuts: seq<nat>, i: nat, batch: Catalog)
  {
    i + 1 < |cuts| && cuts[i] <= cuts[i + 1] <= |entries| &&
    batch == Restrict(catalog, Places(entries[cuts[i]..cuts[i + 1]]))
  }

  method GetDataCatalogBatches(catalog: Catalog, batchSize: nat) returns (batches: seq<Catalog>)
    requires Keyed(catalog)
    ensures Partition(catalog, batches)
    ensures forall i :: 0 <= i < |batches| ==> |Locations(batches[i])| <= Max(batchSize, 1)
    ensures forall i :: 0 <= i < |batches| - 1 ==> |Locations(batches[i])| == Max(batchSize, 1)
  {
    var entries := ListTables(catalog);
    var size := Max(batchSize, 1);
    batches := [];
    var lo := 0;
    ghost var cuts: seq<nat> := [0];
    while lo < |entries|
      invariant Cuts(cuts, |entries|, size) && cuts[|cuts| - 1] == lo <= |entries|
      invariant |cuts| == |batches| + 1
      invariant forall i :: 0 <= i < |batches| ==> IsChunk(catalog, entries, cuts, i, batches[i])
    {
      var hi := if lo + size < |entries| then lo + size else |entries|;
      var batch := BuildBatch(catalog, entries[lo..hi]);
      ghost var longer := cuts + [hi];
      forall i | 0 <= i < |longer| - 1
        ensures CutAt(longer, |entries|, size, i)
      {
        assert i < |cuts| - 1 ==> CutAt(cuts, |entries|, size, i);
      }
      batches, cuts, lo := batches + [batch], longer, hi;
    }
    if batches == [] {
      batches := [Catalog(catalog.name, catalog.description, map[])];
      assert Locations(catalog) == {} && Locations(batches[0]) == {};
      assert batches[0] == Restrict(catalog, {});
    } else {
      ChunksPartition(catalog, entries, size, cuts, batches);
    }
  }

  lemma {:induction false} DistinctPlaces(entries: seq<Entry>)
    requires Distinct(entries)
    ensures |Places(entries)| == |entries|
  {
    if entries != [] {
      var init, last := entries[..|entries| - 1], entries[|entries| - 1];
      Snoc(entries);
      PlacesSnoc(init, last);
      DistinctPlaces(init);
      assert last.At() !in Places(init);
    }
  }

  lemma {:induction false} CutsGrow(cuts: seq<nat>, n: nat, size: nat, i: nat, j: nat)
    requires Cuts(cuts, n, size) && i <= j < |cuts|
    ensures cuts[i] <= cuts[j]
    decreases j
  {
    if i < j {
      CutsGrow(cuts, n, size, i, j - 1);
      assert CutAt(cuts, n, size, j - 1);
    }
  }

  /** A position of the work list falls into some chunk. */
  lemma {:induction false} FindChunk(cuts: seq<nat>, n: nat, size: nat, k: nat, m: nat) returns (i: nat)
    requires Cuts(cuts, n, size) && 0 < m < |cuts| && k < cuts[m]
    ensures i < m && cuts[i] <= k < cuts[i + 1]
    decreases m
  {
    i := m - 1;
    if k < cuts[i] {
      i := FindChunk(cuts, n, size, k, i);
    }
  }

  lemma ChunkPlaces(catalog: Catalog, entries: seq<Entry>, lo: nat, hi: nat)
    requires lo <= hi <= |entries| && Distinct(entries) && Places(entries) == Locations(catalog)
    ensures var at := Places(entries[lo..hi]);
            at <= Locations(catalog) && |at| == hi - lo && Locations(Restrict(catalog, at)) == at
  {
    var chunk := entries[lo..hi];
    assert forall e :: e in chunk ==> e in entries;
    assert Distinct(chunk) by {
      forall i, j | 0 <= i < j < |chunk|
        ensures chunk[i].At() != chunk[j].At()
      {
        assert chunk[i] == entries[lo + i] && chunk[j] == entries[lo + j];
      }
    }
    DistinctPlaces(chunk);
    RestrictLocations(catalog, Places(chunk));
  }

  lemma DisjointChunks(entries: seq<Entry>, a: nat, b: nat, c: nat, d: nat)
    requires a <= b <= c <= d <= |entries| && Distinct(entries)
    ensures Places(entries[a..b]) !! Places(entries[c..d])
  {
    var first, second := entries[a..b], entries[c..d];
    forall i, j | 0 <= i < |first| && 0 <= j < |second|
      ensures first[i].At() != second[j].At()
    {
      assert first[i] == entries[a + i] && second[j] == entries[c + j];
    }
  }

  lemma ChunksPartition(catalog: Catalog, entries: seq<Entry>, size: nat, cuts: seq<nat>, batches: seq<Catalog>)
    requires Distinct(entries) && Places(entries) == Locations(catalog)
    requires Cuts(cuts, |entries|, size) && cuts[|cuts| - 1] == |entries|
    requires batches != [] && |cuts| == |batches| + 1
    requires forall i :: 0 <= i < |batches| ==> IsChunk(catalog, entries, cuts, i, batches[i])
    ensures Partition(catalog, batches)
    ensures forall i :: 0 <= i < |batches| ==> |Locations(batches[i])| <= size
    ensures forall i :: 0 <= i < |batches| - 1 ==> |Locations(batches[i])| == size
  {
    hide Places, Distinct, Restrict, Locations;
    forall i | 0 <= i < |batches|
      ensures ChunkLocations(catalog, entries, cuts, i, batches[i])
    {
      assert IsChunk(catalog, entries, cuts, i, batches[i]);
      ChunkPlaces(catalog, entries, cuts[i], cuts[i + 1]);
    }
    forall i, j | 0 <= i < j < |batches|
      ensures Locations(batches[i]) !! Locations(batches[j])
    {
      assert ChunkLocations(catalog, entries, cuts, i, batches[i]) &&
             ChunkLocations(catalog, entries, cuts, j, batches[j]);
      CutsGrow(cuts, |entries|, size, i + 1, j);
      DisjointChunks(entries, cuts[i], cuts[i + 1], cuts[j], cuts[j + 1]);
    }
    forall l | l in Locations(catalog)
      ensures exists i :: 0 <= i < |batches| && l in Locations(batches[i])
    {
      var k := PlaceIndex(entries, l);
      var i := FindChunk(cuts, |entries|, size, k, |batches|);
      assert ChunkLocations(catalog, entries, cuts, i, batches[i]);
      PlaceInSlice(entries, k, cuts[i], cuts[i + 1]);
    }
    forall i | 0 <= i < |batches|
      ensures batches[i] == Restrict(catalog, Locations(batches[i])) && Locations(batches[i]) <= Locations(catalog)
      ensures |Locations(batches[i])| <= size && (i < |batches| - 1 ==> |Locations(batches[i])| == size)
    {
      assert ChunkLocations(catalog, entries, cuts, i, batches[i]) && CutAt(cuts, |entries|, size, i);
      if i < |batches| - 1 {
        assert CutAt(cuts, |entries|, size, i + 1);
      }
    }
  }

  /** The places of batch i, in terms of its chunk. */
  ghost predicate ChunkLocations(catalog: Catalog, entries: seq<Entry>, cuts: seq<nat>, i: nat, batch: Catalog)
  {
    i + 1 < |cuts| && cuts[i] <= cuts[i + 1] <= |entries| &&
    Locations(batch) == Places(entries[cuts[i]..cuts[i + 1]]) && batch == Restrict(catalog, Locations(batch)) &&
    Locations(batch) <= Locations(catalog) && |Locations(batch)| == cuts[i + 1] - cuts[i]
  }

  lemma PlaceIndex(entries: seq<Entry>, l: Location) returns (k: nat)
    requires l in Places(entries)
    ensures k < |entries| && entries[k].At() == l
  {
    var e :| e in entries && e.At() == l;
    k :| 0 <= k < |entries| && entries[k] == e;
  }

  lemma PlaceInSlice(entries: seq<Entry>, k: nat, lo: nat, hi: nat)
    requires lo <= k < hi <= |entries|
    ensures entries[k].At() in Places(entries[lo..hi])
  {
    assert entries[lo..hi][k - lo] == entries[k];
  }

  // ---------- Joining the batches ----------

  predicate ColumnIncluded(column: Column)
  {
    column.shouldSelect || !column.shouldDelete
  }

  function KeptColumns(table: Table): map<Name, Column>
  {
    map c | c in table.columns && ColumnIncluded(table.columns[c]) ::
      table.columns[c].(shouldSelect := true, shouldDelete := false)
  }

  predicate TableIncluded(table: Table)
  {
    table.shouldSelect || KeptColumns(table) != map[]
  }

  function KeptTable(table: Table): Table
  {
    Table(table.name, table.description, KeptColumns(table), false, false)
  }

  function KeptTables(schema: Schema): map<Name, Table>
  {
    map t | t in schema.tables && TableIncluded(schema.tables[t]) :: KeptTable(schema.tables[t])
  }

  predicate SchemaIncluded(schema: Schema)
  {
    schema.shouldSelect || KeptTables(schema) != map[]
  }

  function KeptSchema(schema: Schema): Schema
  {
    Schema(schema.name, schema.description, KeptTables(schema), false, false)
  }

  /** What one batch contributes: a filter applied to each entry on its own. */
  function KeptSchemas(schemas: map<Name, Schema>): map<Name, Schema>
  {
    map s | s in schemas && SchemaIncluded(schemas[s]) :: KeptSchema(schemas[s])
  }

  function OverlayTable(a: Table, b: Table): Table
  {
    a.(columns := a.columns + b.columns)
  }

  function OverlayTables(a: map<Name, Table>, b: map<Name, Table>): map<Name, Table>
  {
    map t | t in a.Keys + b.Keys ::
      if t in a && t in b then OverlayTable(a[t], b[t]) else if t in a then a[t] else b[t]
  }

  function OverlaySchema(a: Schema, b: Schema): Schema
  {
    a.(tables := OverlayTables(a.tables, b.tables))
  }

  function OverlaySchemas(a: map<Name, Schema>, b: map<Name, Schema>): map<Name, Schema>
  {
    map s | s in a.Keys + b.Keys ::
      if s in a && s in b then OverlaySchema(a[s], b[s]) else if s in a then a[s] else b[s]
  }

  function JoinedSchemas(batches: seq<Catalog>): map<Name, Schema>
  {
    if batches == [] then map[]
    else OverlaySchemas(JoinedSchemas(batches[..|batches| - 1]), KeptSchemas(batches[|batches| - 1].schemas))
  }

  function Joined(batches: seq<Catalog>): Catalog
    requires batches != []
  {
    Catalog(batches[0].name, batches[0].description, JoinedSchemas(batches))
  }

  function EmptySchema(schema: Schema): Schema
  {
    Schema(schema.name, schema.description, map[], false, false)
  }

  function EmptyTable(table: Table): Table
  {
    Table(table.name, table.description, map[], false, false)
  }

  /** Adds the kept columns of one table to the table of the result. */
  method JoinTable(result: Table, table: Table) returns (joined: Table)
    requires KeyedTable(table)
    ensures joined == OverlayTable(result, KeptTable(table))
  {
    joined := result;
    var pending := set c | c in table.columns && ColumnIncluded(table.columns[c]);
    while pending != {}
      invariant pending <= KeptColumns(table).Keys
      invariant joined == result.(columns := result.columns + (KeptColumns(table) - pending))
      decreases pending
    {
      var c :| c in pending;
      var column := table.columns[c];
      joined := joined.(columns := joined.columns[column.name := column.(shouldSelect := true, shouldDelete := false)]);
      pending := pending - {c};
    }
  }

  lemma OverlayTablesEnds(a: map<Name, Table>, kept: map<Name, Table>)
    ensures OverlayTables(a, kept - kept.Keys) == a
    ensures kept - {} == kept
  {
  }

  lemma OverlayOneTable(a: map<Name, Table>, kept: map<Name, Table>, pending: set<Name>, t: Name)
    requires t in kept && t in pending
    ensures OverlayTables(a, kept - (pending - {t})) ==
            OverlayTables(a, kept - pending)[t := if t in a then OverlayTable(a[t], kept[t]) else kept[t]]
    ensures t in OverlayTables(a, kept - pending) <==> t in a
    ensures t in a ==> OverlayTables(a, kept - pending)[t] == a[t]
  {
  }

  lemma OverlayOneSchema(a: map<Name, Schema>, kept: map<Name, Schema>, pending: set<Name>, s: Name)
    requires s in pending
    ensures OverlaySchemas(a, kept - (pending - {s})) ==
            if s in kept
            then OverlaySchemas(a, kept - pending)[s := if s in a then OverlaySchema(a[s], kept[s]) else kept[s]]
            else OverlaySchemas(a, kept - pending)
    ensures s in OverlaySchemas(a, kept - pending) <==> s in a
    ensures s in a ==> OverlaySchemas(a, kept - pending)[s] == a[s]
  {
    assert s !in kept ==> kept - (pending - {s}) == kept - pending;
  }

  /** Adds the included tables of one schema to the schema of the result. */
  method JoinSchema(result: Schema, schema: Schema) returns (joined: Schema)
    requires KeyedSchema(schema)
    ensures joined == OverlaySchema(result, KeptSchema(schema))
  {
    hide OverlayTables, KeptColumns;
    var included := KeptTables(schema);
    joined := result;
    ghost var kept := included;
    var pending := included.Keys;
    OverlayTablesEnds(result.tables, kept);
    while pending != {}
      invariant pending <= kept.Keys
      invariant joined == result.(tables := OverlayTables(result.tables, kept - pending))
      decreases pending
    {
      var t :| t in pending;
      var table := schema.tables[t];
      OverlayOneTable(result.tables, kept, pending, t);
      assert kept[t] == KeptTable(table) && table.name == t;
      var current := if table.name in joined.tables then joined.tables[table.name] else EmptyTable(table);
      current := JoinTable(current, table);
      assert map[] + KeptColumns(table) == KeptColumns(table);
      joined := joined.(tables := joined.tables[table.name := current]);
      pending := pending - {t};
    }
  }

  /** Adds the included schemas of one batch to the result. */
  method JoinBatch(result: map<Name, Schema>, batch: Catalog) returns (joined: map<Name, Schema>)
    requires Keyed(batch)
    ensures joined == OverlaySchemas(result, KeptSchemas(batch.schemas))
  {
    joined := result;
    ghost var kept := KeptSchemas(batch.schemas);
    var pending := batch.schemas.Keys;
    assert kept - pending == map[];
    assert OverlaySchemas(result, map[]) == result;
    while pending != {}
      invariant pending <= batch.schemas.Keys
      invariant joined == OverlaySchemas(result, kept - pending)
      decreases pending
    {
      hide OverlaySchemas, OverlayTables, KeptTables;
      var s :| s in pending;
      var schema := batch.schemas[s];
      OverlayOneSchema(result, kept, pending, s);
      assert s in kept <==> SchemaIncluded(schema);
      if SchemaIncluded(schema) {
        assert kept[s] == KeptSchema(schema) && schema.name == s;
        var current := if schema.name in joined then joined[schema.name] else EmptySchema(schema);
        OverlayNothing(KeptTables(schema));
        current := JoinSchema(current, schema);
        joined := joined[schema.name := current];
      }
      pending := pending - {s};
    }
    assert kept - {} == kept;
  }

  lemma OverlayNothing(tables: map<Name, Table>)
    ensures OverlayTables(map[], tables) == tables
  {
  }

  method JoinPrunedBatches(batches: seq<Catalog>) returns (result: Catalog)
    requires batches != []
    requires forall b :: b in batches ==> Keyed(b)
    ensures result == Joined(batches)
  {
    hide OverlaySchemas, KeptSchemas;
    var schemas: map<Name, Schema> := map[];
    for k := 0 to |batches|
      invariant schemas == JoinedSchemas(batches[..k])
    {
      assert batches[..k + 1][..k] == batches[..k];
      schemas := JoinBatch(schemas, batches[k]);
    }
    assert batches[..|batches|] == batches;
    result := Catalog(batches[0].name, batches[0].description, schemas);
  }

  // ---------- Batch, prune, join: a filter of the whole catalog ----------

  ghost predicate HeldBy(batches: seq<Catalog>, l: Location, i: nat)
  {
    i < |batches| && l in Locations(batches[i])
  }

  /** The batch a table went to. */
  ghost function BatchOf(batches: seq<Catalog>, l: Location): nat
  {
    if exists i: nat :: HeldBy(batches, l, i) then var i: nat :| HeldBy(batches, l, i); i else 0
  }

  /** The catalog with each table marked by the batch it went to. */
  ghost function MarkedSchema(s: Name, schema: Schema, batches: seq<Catalog>, marks: seq<Marks>): Schema
    requires |marks| == |batches| > 0
  {
    schema.(tables := map t | t in schema.tables :: MarkTable(s, t, schema.tables[t], MarksAt(batches, marks, (s, t))))
  }

  ghost function MarksAt(batches: seq<Catalog>, marks: seq<Marks>, l: Location): Marks
    requires |marks| == |batches| > 0
  {
    var i := BatchOf(batches, l);
    if i < |marks| then marks[i] else NO_MARKS
  }

  ghost function MarkedSchemas(schemas: map<Name, Schema>, batches: seq<Catalog>, marks: seq<Marks>): map<Name, Schema>
    requires |marks| == |batches| > 0
  {
    map s | s in schemas :: MarkedSchema(s, schemas[s], batches, marks)
  }

  function WithoutEmptySchemas(schemas: map<Name, Schema>): map<Name, Schema>
  {
    map s | s in schemas && schemas[s].tables != map[] :: schemas[s]
  }

  function PrunedAll(batches: seq<Catalog>, marks: seq<Marks>): (pruned: seq<Catalog>)
    requires |marks| == |batches|
    ensures |pruned| == |batches|
  {
    seq(|batches|, i requires 0 <= i < |batches| => batches[i].(schemas := MarkSchemas(batches[i].schemas, marks[i])))
  }

  ghost function PlacesOf(batches: seq<Catalog>): set<Location>
  {
    if batches == [] then {} else PlacesOf(batches[..|batches| - 1]) + Locations(batches[|batches| - 1])
  }

  function Select(tables: map<Name, Table>, s: Name, at: set<Location>): map<Name, Table>
  {
    map t | t in tables && (s, t) in at :: tables[t]
  }

  lemma KeptSelect(schema: Schema, s: Name, at: set<Location>)
    ensures KeptTables(RestrictSchema(schema, s, at)) == Select(KeptTables(schema), s, at)
    ensures Select(KeptTables(schema), s, at) != map[] ==> Keeps(schema, s, at)
  {
    var selected := Select(KeptTables(schema), s, at);
    if selected != map[] {
      var t :| t in selected;
    }
  }

  lemma SelectUnion(tables: map<Name, Table>, s: Name, a: set<Location>, b: set<Location>)
    requires a !! b
    ensures Select(tables, s, a + b) == OverlayTables(Select(tables, s, a), Select(tables, s, b))
    ensures Select(tables, s, a) == map[] ==> Select(tables, s, a + b) == Select(tables, s, b)
    ensures Select(tables, s, b) == map[] ==> Select(tables, s, a + b) == Select(tables, s, a)
    ensures Select(tables, s, a + b) == map[] ==> Select(tables, s, a) == map[] == Select(tables, s, b)
  {
    var ta, tb, tc := Select(tables, s, a), Select(tables, s, b), Select(tables, s, a + b);
    assert tc.Keys == ta.Keys + tb.Keys;
    assert ta.Keys !! tb.Keys;
  }

  /** One schema of the filtered part of a catalog. */
  lemma KeptRestricted(schemas: map<Name, Schema>, s: Name, at: set<Location>)
    requires s in schemas
    ensures var kept := KeptSchemas(RestrictSchemas(schemas, at));
            var tables := Select(KeptTables(schemas[s]), s, at);
            (s in kept <==> tables != map[] || (schemas[s].shouldSelect && Keeps(schemas[s], s, at))) &&
            (s in kept ==> kept[s] == Schema(schemas[s].name, schemas[s].description, tables, false, false))
  {
    KeptSelect(schemas[s], s, at);
  }

  /** Filtering two disjoint parts and laying one over the other filters both together. */
  lemma KeptOverlay(schemas: map<Name, Schema>, a: set<Location>, b: set<Location>)
    requires a !! b
    ensures OverlaySchemas(KeptSchemas(RestrictSchemas(schemas, a)), KeptSchemas(RestrictSchemas(schemas, b))) ==
            KeptSchemas(RestrictSchemas(schemas, a + b))
  {
    var ka, kb := KeptSchemas(RestrictSchemas(schemas, a)), KeptSchemas(RestrictSchemas(schemas, b));
    var both := KeptSchemas(RestrictSchemas(schemas, a + b));
    assert ka.Keys <= schemas.Keys && kb.Keys <= schemas.Keys && both.Keys <= schemas.Keys;
    hide *;
    forall s | s in schemas
      ensures s in ka || s in kb <==> s in both
      ensures s in both ==>
                both[s] == if s in ka && s in kb then OverlaySchema(ka[s], kb[s]) else if s in ka then ka[s] else kb[s]
    {
      KeptOverlayAt(schemas, s, a, b);
    }
    OverlaySchemasIs(ka, kb, both);
  }

  lemma OverlaySchemasIs(ka: map<Name, Schema>, kb: map<Name, Schema>, both: map<Name, Schema>)
    requires forall s :: s in ka || s in kb <==> s in both
    requires forall s :: s in both ==>
               both[s] == if s in ka && s in kb then OverlaySchema(ka[s], kb[s]) else if s in ka then ka[s] else kb[s]
    ensures OverlaySchemas(ka, kb) == both
  {
  }

  lemma KeptOverlayAt(schemas: map<Name, Schema>, s: Name, a: set<Location>, b: set<Location>)
    requires a !! b && s in schemas
    ensures var ka, kb := KeptSchemas(RestrictSchemas(schemas, a)), KeptSchemas(RestrictSchemas(schemas, b));
            var both := KeptSchemas(RestrictSchemas(schemas, a + b));
            (s in ka || s in kb <==> s in both) &&
            (s in both ==>
               both[s] == if s in ka && s in kb then OverlaySchema(ka[s], kb[s]) else if s in ka then ka[s] else kb[s])
  {
    hide KeptSchemas, RestrictSchemas, KeptTables, OverlayTables, Select, Keeps;
    KeptRestricted(schemas, s, a);
    KeptRestricted(schemas, s, b);
    KeptRestricted(schemas, s, a + b);
    SelectUnion(KeptTables(schemas[s]), s, a, b);
    KeepsUnion(schemas[s], s, a, b);
  }

  lemma KeepsUnion(schema: Schema, s: Name, a: set<Location>, b: set<Location>)
    ensures Keeps(schema, s, a + b) <==> Keeps(schema, s, a) || Keeps(schema, s, b)
  {
  }

  /** Marking a batch is taking the batch's part of the marked catalog. */
  lemma MarkedBatch(catalog: Catalog, batches: seq<Catalog>, marks: seq<Marks>, k: nat)
    requires Partition(catalog, batches) && |marks| == |batches| && k < |batches|
    ensures MarkSchemas(batches[k].schemas, marks[k]) ==
            RestrictSchemas(MarkedSchemas(catalog.schemas, batches, marks), Locations(batches[k]))
  {
    var at := Locations(batches[k]);
    assert batches[k].schemas == RestrictSchemas(catalog.schemas, at) by {
      hide Locations, RestrictSchemas;
      assert batches[k] == Restrict(catalog, at);
    }
    forall l | l in at
      ensures MarksAt(batches, marks, l) == marks[k]
    {
      hide Partition, BatchOf, Locations;
      assert HeldBy(batches, l, k);
      BatchIs(catalog, batches, l, k);
    }
    hide Partition, Locations, MarksAt;
    MarkOfPart(catalog.schemas, batches, marks, at, marks[k]);
  }

  lemma MarkOfPart(schemas: map<Name, Schema>, batches: seq<Catalog>, marks: seq<Marks>, at: set<Location>, m: Marks)
    requires |marks| == |batches| > 0
    requires forall l :: l in at ==> MarksAt(batches, marks, l) == m
    ensures MarkSchemas(RestrictSchemas(schemas, at), m) == RestrictSchemas(MarkedSchemas(schemas, batches, marks), at)
  {
    hide MarksAt, MarkTable;
    var marked := MarkedSchemas(schemas, batches, marks);
    var left, right := MarkSchemas(RestrictSchemas(schemas, at), m), RestrictSchemas(marked, at);
    forall s | s in schemas
      ensures Keeps(schemas[s], s, at) <==> Keeps(marked[s], s, at)
      ensures Keeps(marked[s], s, at) ==> left[s] == right[s]
    {
      assert schemas[s].tables.Keys == marked[s].tables.Keys;
      assert Keeps(schemas[s], s, at) <==> Keeps(marked[s], s, at);
      if Keeps(marked[s], s, at) {
        assert left[s].tables == right[s].tables;
      }
    }
    assert left.Keys == right.Keys;
  }

  /** A table lies in at most one batch. */
  lemma HeldOnce(catalog: Catalog, batches: seq<Catalog>, l: Location, i: nat, j: nat)
    requires Partition(catalog, batches) && HeldBy(batches, l, i) && HeldBy(batches, l, j)
    ensures i == j
  {
    hide Locations, Restrict;
  }

  /** And in at least one. */
  lemma HeldSomewhere(catalog: Catalog, batches: seq<Catalog>, l: Location) returns (i: nat)
    requires Partition(catalog, batches) && l in Locations(catalog)
    ensures HeldBy(batches, l, i)
  {
    hide Locations, Restrict;
    i :| 0 <= i < |batches| && l in Locations(batches[i]);
  }

  lemma HeldInCatalog(catalog: Catalog, batches: seq<Catalog>, l: Location, i: nat)
    requires Partition(catalog, batches) && HeldBy(batches, l, i)
    ensures l in Locations(catalog)
  {
    hide Locations, Restrict;
    assert Locations(batches[i]) <= Locations(catalog);
  }

  lemma BatchIs(catalog: Catalog, batches: seq<Catalog>, l: Location, k: nat)
    requires Partition(catalog, batches) && HeldBy(batches, l, k)
    ensures BatchOf(batches, l) == k
  {
    hide Partition, HeldBy;
    HeldOnce(catalog, batches, l, BatchOf(batches, l), k);
  }

  lemma {:induction false} PlacesOfAre(batches: seq<Catalog>, k: nat, l: Location)
    requires k <= |batches|
    ensures l in PlacesOf(batches[..k]) <==> exists i: nat :: i < k && HeldBy(batches, l, i)
  {
    if k > 0 {
      assert batches[..k][..k - 1] == batches[..k - 1];
      PlacesOfAre(batches, k - 1, l);
      assert HeldBy(batches, l, k - 1) <==> l in Locations(batches[k - 1]);
    }
  }

  lemma {:induction false} JoinOfPrefix(catalog: Catalog, batches: seq<Catalog>, marks: seq<Marks>, k: nat)
    requires Partition(catalog, batches) && |marks| == |batches| && k <= |batches|
    ensures JoinedSchemas(PrunedAll(batches, marks)[..k]) ==
            KeptSchemas(RestrictSchemas(MarkedSchemas(catalog.schemas, batches, marks), PlacesOf(batches[..k])))
  {
    var marked := MarkedSchemas(catalog.schemas, batches, marks);
    var pruned := PrunedAll(batches, marks);
    if k == 0 {
      hide MarkedSchemas, PrunedAll;
      assert RestrictSchemas(marked, {}) == map[];
    } else {
      hide *;
      PrefixSteps(pruned, batches, k);
      PrunedAt(batches, marks, k - 1);
      JoinOfPrefix(catalog, batches, marks, k - 1);
      MarkedBatch(catalog, batches, marks, k - 1);
      PrefixPlacesDisjoint(catalog, batches, k - 1);
      KeptOverlay(marked, PlacesOf(batches[..k - 1]), Locations(batches[k - 1]));
    }
  }

  lemma PrunedAt(batches: seq<Catalog>, marks: seq<Marks>, i: nat)
    requires i < |marks| == |batches|
    ensures PrunedAll(batches, marks)[i].schemas == MarkSchemas(batches[i].schemas, marks[i])
  {
    hide MarkSchemas;
  }

  lemma PrefixPlacesDisjoint(catalog: Catalog, batches: seq<Catalog>, k: nat)
    requires Partition(catalog, batches) && k < |batches|
    ensures PlacesOf(batches[..k]) !! Locations(batches[k])
  {
    hide Partition, Locations, PlacesOf;
    forall l | l in PlacesOf(batches[..k])
      ensures l !in Locations(batches[k])
    {
      PlacesOfAre(batches, k, l);
      var i: nat :| i < k && HeldBy(batches, l, i);
      if l in Locations(batches[k]) {
        HeldOnce(catalog, batches, l, i, k);
      }
    }
  }

  lemma PrefixSteps(pruned: seq<Catalog>, batches: seq<Catalog>, k: nat)
    requires 0 < k <= |pruned| == |batches|
    ensures JoinedSchemas(pruned[..k]) ==
            OverlaySchemas(JoinedSchemas(pruned[..k - 1]), KeptSchemas(pruned[k - 1].schemas))
    ensures PlacesOf(batches[..k]) == PlacesOf(batches[..k - 1]) + Locations(batches[k - 1])
  {
    assert pruned[..k][..k - 1] == pruned[..k - 1] && batches[..k][..k - 1] == batches[..k - 1];
  }

  lemma AllPlaces(catalog: Catalog, batches: seq<Catalog>)
    requires Partition(catalog, batches)
    ensures PlacesOf(batches) == Locations(catalog)
  {
    hide Partition, Locations, PlacesOf, HeldBy;
    assert batches[..|batches|] == batches;
    forall l
      ensures l in PlacesOf(batches) <==> l in Locations(catalog)
    {
      PlacesOfAre(batches, |batches|, l);
      if l in Locations(catalog) {
        var i := HeldSomewhere(catalog, batches, l);
        HeldInRange(batches, l, i);
      } else if l in PlacesOf(batches) {
        var i: nat :| i < |batches| && HeldBy(batches, l, i);
        HeldInCatalog(catalog, batches, l, i);
      }
    }
  }

  lemma HeldInRange(batches: seq<Catalog>, l: Location, i: nat)
    requires HeldBy(batches, l, i)
    ensures i < |batches|
  {
  }

  /** What the batches answered, as marks on the places they name. */
  function BatchMarks(name: Name, deletions: seq<NameSets>, selections: seq<NameSets>): (marks: seq<Marks>)
    requires |deletions| == |selections|
    ensures |marks| == |deletions|
  {
    seq(|deletions|, i requires 0 <= i < |deletions| => MarksOf(name, deletions[i], selections[i]))
  }

  /** The whole catalog filtered entry by entry, each table with the marks of its batch. */
  ghost function Filtered(catalog: Catalog, batches: seq<Catalog>, marks: seq<Marks>): Catalog
    requires |marks| == |batches| > 0
  {
    Catalog(catalog.name, catalog.description,
            KeptSchemas(WithoutEmptySchemas(MarkedSchemas(catalog.schemas, batches, marks))))
  }

  /**
   Batching, pruning each batch with its own answers and joining is filtering the catalog
   entry by entry, each table judged by the answers of the batch it went to.
   */
  lemma JoinIsPointwise(catalog: Catalog, batches: seq<Catalog>, deletions: seq<NameSets>, selections: seq<NameSets>,
                        pruned: seq<Catalog>)
    requires Partition(catalog, batches) && |deletions| == |selections| == |batches| == |pruned|
    requires forall i :: 0 <= i < |pruned| ==> pruned[i] == Pruned(batches[i], deletions[i], selections[i])
    ensures Joined(pruned) == Filtered(catalog, batches, BatchMarks(catalog.name, deletions, selections))
  {
    var marks := BatchMarks(catalog.name, deletions, selections);
    var marked := MarkedSchemas(catalog.schemas, batches, marks);
    BatchNames(catalog, batches);
    assert pruned == PrunedAll(batches, marks) by {
      hide Partition, MarkSchemas, MarksOf;
    }
    assert pruned[..|batches|] == pruned && batches[..|batches|] == batches;
    hide *;
    JoinOfPrefix(catalog, batches, marks, |batches|);
    AllPlaces(catalog, batches);
    RestrictToAll(catalog, batches, marks);
    JoinedDef(pruned);
    FilteredDef(catalog, batches, marks);
  }

  lemma FilteredDef(catalog: Catalog, batches: seq<Catalog>, marks: seq<Marks>)
    requires |marks| == |batches| > 0
    ensures Filtered(catalog, batches, marks) ==
            Catalog(catalog.name, catalog.description,
                    KeptSchemas(WithoutEmptySchemas(MarkedSchemas(catalog.schemas, batches, marks))))
  {
    hide KeptSchemas, WithoutEmptySchemas, MarkedSchemas;
  }

  lemma JoinedDef(batches: seq<Catalog>)
    requires batches != []
    ensures Joined(batches) == Catalog(batches[0].name, batches[0].description, JoinedSchemas(batches))
  {
    hide JoinedSchemas;
  }

  lemma BatchNames(catalog: Catalog, batches: seq<Catalog>)
    requires Partition(catalog, batches)
    ensures forall i :: 0 <= i < |batches| ==>
              batches[i].name == catalog.name && batches[i].description == catalog.description
  {
    hide Locations, RestrictSchemas;
    forall i | 0 <= i < |batches|
      ensures batches[i].name == catalog.name && batches[i].description == catalog.description
    {
      assert batches[i] == Restrict(catalog, Locations(batches[i]));
    }
  }

  lemma RestrictToAll(catalog: Catalog, batches: seq<Catalog>, marks: seq<Marks>)
    requires |marks| == |batches| > 0
    ensures var marked := MarkedSchemas(catalog.schemas, batches, marks);
            RestrictSchemas(marked, Locations(catalog)) == WithoutEmptySchemas(marked)
  {
    hide MarkTable, MarksAt;
    var marked, at := MarkedSchemas(catalog.schemas, batches, marks), Locations(catalog);
    forall s | s in catalog.schemas
      ensures Keeps(marked[s], s, at) <==> marked[s].tables != map[]
      ensures RestrictSchema(marked[s], s, at) == marked[s]
    {
      assert forall t :: t in marked[s].tables ==> (s, t) in at;
      assert RestrictSchema(marked[s], s, at).tables == marked[s].tables;
      if marked[s].tables != map[] {
        var t :| t in marked[s].tables;
        assert (s, t) in at;
      }
    }
  }

  /** Joining may be applied to pruned batches: they are still keyed by name. */
  lemma PrunedStaysKeyed(catalog: Catalog, batches: seq<Catalog>, i: nat, deletions: NameSets, selections: NameSets)
    requires Keyed(catalog) && Partition(catalog, batches) && i < |batches|
    ensures Keyed(Pruned(batches[i], deletions, selections))
  {
    assert batches[i] == Restrict(catalog, Locations(batches[i])) by {
      hide Locations, Restrict;
    }
    hide Partition, Locations, MarksOf;
  }

  predicate Unmarked(catalog: Catalog)
  {
    forall s :: s in catalog.schemas ==>
      !catalog.schemas[s].shouldSelect && forall t :: t in catalog.schemas[s].tables ==>
        var table := catalog.schemas[s].tables[t];
        !table.shouldSelect && forall c :: c in table.columns ==>
          !table.columns[c].shouldSelect && !table.columns[c].shouldDelete
  }

  predicate HasTable(catalog: Catalog, s: Name, t: Name)
  {
    s in catalog.schemas && t in catalog.schemas[s].tables
  }

  predicate HasColumn(catalog: Catalog, s: Name, t: Name, c: Name)
  {
    HasTable(catalog, s, t) && c in catalog.schemas[s].tables[t].columns
  }

  lemma KeptTableRules(s: Name, t: Name, table: Table, m: Marks)
    requires !table.shouldSelect && forall c :: c in table.columns ==>
               !table.columns[c].shouldSelect && !table.columns[c].shouldDelete
    ensures var kept := KeptColumns(MarkTable(s, t, table, m));
            (forall c :: c in kept <==>
               c in table.columns && ((s, t, c) in m.selectedColumns || (s, t, c) !in m.deletedColumns)) &&
            (TableIncluded(MarkTable(s, t, table, m)) <==> (s, t) in m.selectedTables || exists c :: c in kept)
  {
    var marked := MarkTable(s, t, table, m);
    assert KeptColumns(marked) != map[] <==> exists c :: c in KeptColumns(marked);
  }

  lemma KeptSchemaRules(schemas: map<Name, Schema>, s: Name)
    requires forall x :: x in schemas ==> !schemas[x].shouldSelect
    ensures var kept := KeptSchemas(WithoutEmptySchemas(schemas));
            (s in kept <==>
              s in schemas && exists t :: t in schemas[s].tables && TableIncluded(schemas[s].tables[t])) &&
            (s in kept ==> kept[s].tables == KeptTables(schemas[s]))
  {
    hide TableIncluded, KeptTable;
    if s in schemas {
      var tables := KeptTables(schemas[s]);
      assert forall t :: t in tables <==> t in schemas[s].tables && TableIncluded(schemas[s].tables[t]);
      if t :| t in schemas[s].tables && TableIncluded(schemas[s].tables[t]) {
        assert t in tables;
      } else {
        assert tables == map[];
      }
    }
  }

  /**
   In a catalog without marks of its own a column survives iff its batch selected it or did
   not delete it, a table iff it is selected or keeps a column, a schema iff it keeps a table.
   */
  lemma Survivors(catalog: Catalog, batches: seq<Catalog>, marks: seq<Marks>, s: Name, t: Name, c: Name)
    requires Unmarked(catalog) && |marks| == |batches| > 0
    ensures var m, result := MarksAt(batches, marks, (s, t)), Filtered(catalog, batches, marks);
            HasColumn(result, s, t, c) <==>
            HasColumn(catalog, s, t, c) && ((s, t, c) in m.selectedColumns || (s, t, c) !in m.deletedColumns)
    ensures var m, result := MarksAt(batches, marks, (s, t)), Filtered(catalog, batches, marks);
            HasTable(result, s, t) <==>
            HasTable(catalog, s, t) && ((s, t) in m.selectedTables || exists c' :: HasColumn(result, s, t, c'))
    ensures var result := Filtered(catalog, batches, marks);
            s in result.schemas <==> exists t' :: HasTable(result, s, t')
  {
    var marked := MarkedSchemas(catalog.schemas, batches, marks);
    var result := Filtered(catalog, batches, marks);
    assert forall x :: x in marked ==>
             !marked[x].shouldSelect && marked[x].tables.Keys == catalog.schemas[x].tables.Keys;
    assert HasTable(catalog, s, t) ==>
        marked[s].tables[t] == MarkTable(s, t, catalog.schemas[s].tables[t], MarksAt(batches, marks, (s, t)));
    assert marked.Keys == catalog.schemas.Keys;
    hide KeptSchemas, WithoutEmptySchemas, MarkedSchemas, MarkTable, MarksAt, TableIncluded, KeptColumns, KeptTables;
    KeptSchemaRules(marked, s);
    if s in marked {
      forall t' | t' in marked[s].tables
        ensures HasTable(result, s, t') <==> TableIncluded(marked[s].tables[t'])
      {
        TableSurvives(result, marked, s, t');
      }
    }
    if HasTable(catalog, s, t) {
      KeptTableRules(s, t, catalog.schemas[s].tables[t], MarksAt(batches, marks, (s, t)));
      TableSurvives(result, marked, s, t);
    } else {
      TableAbsent(result, marked, s, t);
    }
  }

  /** The table and the columns kept of it, as they were but for the marks. */
  predicate KeptAs(table: Table, kept: Table)
  {
    kept == Table(table.name, table.description, kept.columns, false, false) &&
    forall c :: c in kept.columns ==>
      c in table.columns &&
      var column := table.columns[c];
      kept.columns[c] == Column(column.name, column.dataType, column.description, column.sampleValues, false, true)
  }

  /** Everything about the result, for one table of the catalog, in terms of the entries of the answers. */
  ghost predicate SurvivesByAnswers(
    catalog: Catalog, result: Catalog, s: Name, t: Name, deletions: NameSets, selections: NameSets)
    requires HasTable(catalog, s, t)
  {
    var d, table := catalog.name, catalog.schemas[s].tables[t];
    && (forall c :: HasColumn(result, s, t, c) <==>
          c in table.columns &&
          (NamesColumn(selections.columns, d, s, t, c) || !NamesColumn(deletions.columns, d, s, t, c)))
    && (HasTable(result, s, t) <==>
          NamesTable(selections.tables, d, s, t) || exists c :: HasColumn(result, s, t, c))
    && (HasTable(result, s, t) ==> KeptAs(table, result.schemas[s].tables[t]))
  }

  /**
   From the answers to the joined catalog: each table of the catalog and its columns survive as
   the entries of its own batch's answers say, with their contents, and nothing else is there.
   */
  lemma AnswersDecide(catalog: Catalog, batches: seq<Catalog>, deletions: seq<NameSets>, selections: seq<NameSets>,
                      pruned: seq<Catalog>)
    requires Unmarked(catalog)
    requires Partition(catalog, batches) && |deletions| == |selections| == |batches| == |pruned|
    requires forall i :: 0 <= i < |pruned| ==> pruned[i] == Pruned(batches[i], deletions[i], selections[i])
    ensures forall i, s, t :: 0 <= i < |batches| && HasTable(batches[i], s, t) ==>
              HasTable(catalog, s, t) &&
              SurvivesByAnswers(catalog, Joined(pruned), s, t, deletions[i], selections[i])
    ensures forall s, t :: HasTable(Joined(pruned), s, t) ==> HasTable(catalog, s, t)
    ensures SchemasOf(catalog, Joined(pruned))
  {
    var marks, result := BatchMarks(catalog.name, deletions, selections), Joined(pruned);
    hide *;
    JoinIsPointwise(catalog, batches, deletions, selections, pruned);
    forall i, s, t | 0 <= i < |batches| && HasTable(batches[i], s, t)
      ensures HasTable(catalog, s, t)
      ensures HasTable(catalog, s, t) ==> SurvivesByAnswers(catalog, result, s, t, deletions[i], selections[i])
    {
      TableInBatch(catalog, batches, marks, i, s, t);
      MarksOfBatch(catalog.name, deletions, selections, i);
      TableDecided(catalog, batches, marks, s, t, deletions[i], selections[i]);
    }
    forall s, t | HasTable(result, s, t)
      ensures HasTable(catalog, s, t)
    {
      Survivors(catalog, batches, marks, s, t, "");
    }
    SchemasDecided(catalog, batches, marks);
  }

  /** The result is named as the catalog; a schema is there iff it keeps a table, described as before. */
  ghost predicate SchemasOf(catalog: Catalog, result: Catalog)
  {
    && result.name == catalog.name && result.description == catalog.description
    && forall s ::
         && (s in result.schemas <==> exists t :: HasTable(result, s, t))
         && (s in result.schemas ==>
               s in catalog.schemas &&
               var schema := catalog.schemas[s];
               result.schemas[s] ==
                 Schema(schema.name, schema.description, result.schemas[s].tables, false, false))
  }

  lemma TableInBatch(catalog: Catalog, batches: seq<Catalog>, marks: seq<Marks>, i: nat, s: Name, t: Name)
    requires Partition(catalog, batches) && |marks| == |batches| && i < |batches| && HasTable(batches[i], s, t)
    ensures HasTable(catalog, s, t) && MarksAt(batches, marks, (s, t)) == marks[i]
  {
    assert HeldBy(batches, (s, t), i);
    hide Partition, BatchOf;
    HeldInCatalog(catalog, batches, (s, t), i);
    BatchIs(catalog, batches, (s, t), i);
  }

  lemma MarksOfBatch(name: Name, deletions: seq<NameSets>, selections: seq<NameSets>, i: nat)
    requires i < |deletions| == |selections|
    ensures BatchMarks(name, deletions, selections)[i] == MarksOf(name, deletions[i], selections[i])
  {
    hide MarksOf;
  }

  /** What is left of a table that survives. */
  lemma KeptContents(catalog: Catalog, batches: seq<Catalog>, marks: seq<Marks>, s: Name, t: Name)
    requires |marks| == |batches| > 0 && HasTable(catalog, s, t)
    ensures var result := Filtered(catalog, batches, marks);
            HasTable(result, s, t) ==>
              result.schemas[s].tables[t] ==
              KeptTable(MarkTable(s, t, catalog.schemas[s].tables[t], MarksAt(batches, marks, (s, t))))
  {
    hide KeptTable, MarkTable, MarksAt, TableIncluded;
  }

  lemma KeptTableIs(s: Name, t: Name, table: Table, m: Marks)
    ensures KeptAs(table, KeptTable(MarkTable(s, t, table, m)))
  {
  }

  lemma ColumnDecided(catalog: Catalog, batches: seq<Catalog>, marks: seq<Marks>, s: Name, t: Name, c: Name,
                      deletions: NameSets, selections: NameSets)
    requires Unmarked(catalog) && |marks| == |batches| > 0 && HasTable(catalog, s, t)
    requires MarksAt(batches, marks, (s, t)) == MarksOf(catalog.name, deletions, selections)
    ensures var d := catalog.name;
            HasColumn(Filtered(catalog, batches, marks), s, t, c) <==>
            c in catalog.schemas[s].tables[t].columns &&
            (NamesColumn(selections.columns, d, s, t, c) || !NamesColumn(deletions.columns, d, s, t, c))
  {
    Survivors(catalog, batches, marks, s, t, c);
    ColumnNamesAre(deletions.columns, catalog.name, s, t, c);
    ColumnNamesAre(selections.columns, catalog.name, s, t, c);
    hide Filtered, NamesColumn, ColumnNames, MarksAt, Unmarked;
  }

  lemma KeptTableDecided(catalog: Catalog, batches: seq<Catalog>, marks: seq<Marks>, s: Name, t: Name,
                         deletions: NameSets, selections: NameSets)
    requires Unmarked(catalog) && |marks| == |batches| > 0 && HasTable(catalog, s, t)
    requires MarksAt(batches, marks, (s, t)) == MarksOf(catalog.name, deletions, selections)
    ensures var result := Filtered(catalog, batches, marks);
            HasTable(result, s, t) <==>
            NamesTable(selections.tables, catalog.name, s, t) || exists c :: HasColumn(result, s, t, c)
  {
    Survivors(catalog, batches, marks, s, t, "");
    TableNamesAre(selections.tables, catalog.name, s, t);
    hide Filtered, NamesTable, TableNames, MarksAt, Unmarked, HasColumn;
  }

  lemma ContentsDecided(catalog: Catalog, batches: seq<Catalog>, marks: seq<Marks>, s: Name, t: Name)
    requires |marks| == |batches| > 0 && HasTable(catalog, s, t)
    ensures var result := Filtered(catalog, batches, marks);
            HasTable(result, s, t) ==> KeptAs(catalog.schemas[s].tables[t], result.schemas[s].tables[t])
  {
    KeptContents(catalog, batches, marks, s, t);
    KeptTableIs(s, t, catalog.schemas[s].tables[t], MarksAt(batches, marks, (s, t)));
    hide Filtered, MarksAt, MarkTable, KeptTable;
  }

  lemma TableDecided(catalog: Catalog, batches: seq<Catalog>, marks: seq<Marks>, s: Name, t: Name,
                     deletions: NameSets, selections: NameSets)
    requires Unmarked(catalog) && |marks| == |batches| > 0 && HasTable(catalog, s, t)
    requires MarksAt(batches, marks, (s, t)) == MarksOf(catalog.name, deletions, selections)
    ensures SurvivesByAnswers(catalog, Filtered(catalog, batches, marks), s, t, deletions, selections)
  {
    hide Filtered, NamesTable, NamesColumn, MarksAt, Unmarked, MarksOf, HasColumn, KeptAs;
    var d, table := catalog.name, catalog.schemas[s].tables[t];
    ContentsDecided(catalog, batches, marks, s, t);
    KeptTableDecided(catalog, batches, marks, s, t, deletions, selections);
    forall c
      ensures HasColumn(Filtered(catalog, batches, marks), s, t, c) <==>
              c in table.columns &&
              (NamesColumn(selections.columns, d, s, t, c) || !NamesColumn(deletions.columns, d, s, t, c))
    {
      ColumnDecided(catalog, batches, marks, s, t, c, deletions, selections);
    }
  }

  lemma SchemasDecided(catalog: Catalog, batches: seq<Catalog>, marks: seq<Marks>)
    requires Unmarked(catalog) && |marks| == |batches| > 0
    ensures SchemasOf(catalog, Filtered(catalog, batches, marks))
  {
    var result := Filtered(catalog, batches, marks);
    forall s
      ensures s in result.schemas <==> exists t :: HasTable(result, s, t)
    {
      hide *;
      Survivors(catalog, batches, marks, s, "", "");
    }
    hide KeptTables, MarksAt, MarkTable, HasTable, Unmarked;
  }

  lemma TableAbsent(result: Catalog, marked: map<Name, Schema>, s: Name, t: Name)
    requires s in result.schemas ==> s in marked && result.schemas[s].tables == KeptTables(marked[s])
    requires s in marked ==> t !in marked[s].tables
    ensures !HasTable(result, s, t) && forall c :: !HasColumn(result, s, t, c)
  {
  }

  lemma TableSurvives(result: Catalog, marked: map<Name, Schema>, s: Name, t: Name)
    requires s in marked && t in marked[s].tables
    requires s in result.schemas <==> exists t' :: t' in marked[s].tables && TableIncluded(marked[s].tables[t'])
    requires s in result.schemas ==> result.schemas[s].tables == KeptTables(marked[s])
    ensures HasTable(result, s, t) <==> TableIncluded(marked[s].tables[t])
    ensures forall c :: HasColumn(result, s, t, c) <==> c in KeptColumns(marked[s].tables[t])
  {
    hide KeptColumns;
    assert forall c :: c in KeptColumns(marked[s].tables[t]) ==> TableIncluded(marked[s].tables[t]) by {
      assert forall c :: c in KeptColumns(marked[s].tables[t]) ==> KeptColumns(marked[s].tables[t]) != map[];
    }
  }

  /** With the same answers for every batch, how the tables were split does not matter. */
  lemma SplitDoesNotMatter(
      catalog: Catalog, a: seq<Catalog>, b: seq<Catalog>, deletions: NameSets, selections: NameSets,
      pa: seq<Catalog>, pb: seq<Catalog>)
    requires Partition(catalog, a) && Partition(catalog, b)
    requires |pa| == |a| && forall i :: 0 <= i < |a| ==> pa[i] == Pruned(a[i], deletions, selections)
    requires |pb| == |b| && forall i :: 0 <= i < |b| ==> pb[i] == Pruned(b[i], deletions, selections)
    ensures Joined(pa) == Joined(pb)
  {
    SplitIs(catalog, a, deletions, selections, pa);
    SplitIs(catalog, b, deletions, selections, pb);
  }

  /** The result in terms of the catalog and the answers alone. */
  lemma SplitIs(catalog: Catalog, batches: seq<Catalog>, deletions: NameSets, selections: NameSets,
      pruned: seq<Catalog>)
    requires Partition(catalog, batches)
    requires |pruned| == |batches|
    requires forall i :: 0 <= i < |batches| ==> pruned[i] == Pruned(batches[i], deletions, selections)
    ensures Joined(pruned) == Catalog(catalog.name, catalog.description, KeptSchemas(WithoutEmptySchemas(
              MarkSchemas(catalog.schemas, MarksOf(catalog.name, deletions, selections)))))
  {
    var ds, ss := seq(|batches|, i => deletions), seq(|batches|, i => selections);
    var m, marks := MarksOf(catalog.name, deletions, selections), BatchMarks(catalog.name, ds, ss);
    assert forall i :: 0 <= i < |marks| ==> marks[i] == m;
    hide Pruned, KeptSchemas, WithoutEmptySchemas, Joined, MarksOf, BatchMarks, Partition, Locations;
    JoinIsPointwise(catalog, batches, ds, ss, pruned);
    forall l | l in Locations(catalog)
      ensures MarksAt(batches, marks, l) == m
    {
      SameMarks(catalog, batches, marks, l, m);
    }
    MarkedAlike(catalog, batches, marks, m);
  }

  lemma MarkedAlike(catalog: Catalog, batches: seq<Catalog>, marks: seq<Marks>, m: Marks)
    requires |marks| == |batches| > 0
    requires forall l :: l in Locations(catalog) ==> MarksAt(batches, marks, l) == m
    ensures MarkedSchemas(catalog.schemas, batches, marks) == MarkSchemas(catalog.schemas, m)
  {
    hide MarksAt, MarkTable;
    forall s | s in catalog.schemas
      ensures MarkedSchema(s, catalog.schemas[s], batches, marks) == MarkSchema(s, catalog.schemas[s], m)
    {
      assert forall t :: t in catalog.schemas[s].tables ==> (s, t) in Locations(catalog);
      assert MarkedSchema(s, catalog.schemas[s], batches, marks).tables == MarkSchema(s, catalog.schemas[s], m).tables;
    }
  }

  lemma SameMarks(catalog: Catalog, batches: seq<Catalog>, marks: seq<Marks>, l: Location, m: Marks)
    requires Partition(catalog, batches) && |marks| == |batches| && l in Locations(catalog)
    requires forall i :: 0 <= i < |marks| ==> marks[i] == m
    ensures MarksAt(batches, marks, l) == m
  {
    hide Partition, Locations, BatchOf;
    var k := HeldSomewhere(catalog, batches, l);
    BatchIs(catalog, batches, l, k);
  }
}
