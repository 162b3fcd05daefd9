/// The metadata aggregator of ybmetadata_ai.py: the catalog rows, grouped by
/// qualified table name (get_metadata), merged with the index and constraint
/// rows (get_full_metadata), looked up by name (find_table_metadata),
/// filtered by keyword (filter_metadata) and listed (summarize_metadata).
/// The catalog queries themselves are not modelled: their rows are inputs.
module Metadata {
  import opened Strings
  import opened Options
  import opened Sequences
  import opened Dicts

  /** A row of the information_schema columns query. */
  datatype ColumnRow = ColumnRow(schema: string, table: string, column: string, dataType: string)
  /** A row of pg_indexes. */
  datatype IndexRow = IndexRow(schema: string, table: string, name: string, definition: string)
  /** A row of the pg_constraint query. */
  datatype ConstraintRow = ConstraintRow(schema: string, table: string, name: string, kind: string, definition: string)

  datatype Column = Column(name: string, dataType: string)
  datatype Index = Index(name: string, definition: string)
  datatype Constraint = Constraint(name: string, kind: string, definition: string)

  /** What the merged metadata holds for one table. */
  datatype TableMeta = TableMeta(columns: seq<Column>, indexes: seq<Index>, constraints: seq<Constraint>)

  /** f"{schema}.{table}" */
  function Qualify(schema: string, table: string): string {
    schema + "." + table
  }

  function ColumnPairs(rows: seq<ColumnRow>): seq<(string, Column)> {
    seq(|rows|, i requires 0 <= i < |rows| =>
      (Qualify(rows[i].schema, rows[i].table), Column(rows[i].column, rows[i].dataType)))
  }

  function ConstraintPairs(rows: seq<ConstraintRow>): seq<(string, Constraint)> {
    seq(|rows|, i requires 0 <= i < |rows| =>
      (Qualify(rows[i].schema, rows[i].table), Constraint(rows[i].name, rows[i].kind, rows[i].definition)))
  }

  /** get_metadata: the column rows grouped by qualified name. Every table
      it lists has at least one column, and each column list keeps row order. */
  method GetMetadata(rows: seq<ColumnRow>) returns (md: Dict<seq<Column>>)
    ensures md.Valid()
    ensures md.keys == Distinct(KeysOf(ColumnPairs(rows)))
    ensures forall t | t in md.entries :: md.entries[t] == Collect(ColumnPairs(rows), t) && md.entries[t] != []
  {
    md := GroupRows(ColumnPairs(rows));
    forall t | t in md.entries ensures md.entries[t] != [] {
      CollectNonEmpty(ColumnPairs(rows), t);
    }
  }

  /** f"{s}.{t}".lower() == table.lower() */
  predicate IndexBelongsTo(row: IndexRow, table: string) {
    Lower(Qualify(row.schema, row.table)) == Lower(table)
  }

  function ToIndex(row: IndexRow): Index {
    Index(row.name, row.definition)
  }

  /** The index list of one table in get_full_metadata: the index rows whose
      qualified name equals the table's case-insensitively, in row order. */
  function IndexesFor(rows: seq<IndexRow>, table: string): (r: seq<Index>)
    ensures |r| <= |rows|
    ensures forall x :: x in r <==> exists row | row in rows :: IndexBelongsTo(row, table) && ToIndex(row) == x
  {
    if rows == [] then []
    else
      assert forall row | row in rows :: row == rows[0] || row in rows[1..];
      (if IndexBelongsTo(rows[0], table) then [ToIndex(rows[0])] else []) + IndexesFor(rows[1..], table)
  }

  /** Index lists keep row order: they commute with concatenation of the rows. */
  lemma {:induction false} IndexesForAppend(a: seq<IndexRow>, b: seq<IndexRow>, table: string)
    ensures IndexesFor(a + b, table) == IndexesFor(a, table) + IndexesFor(b, table)
  {
    if a == [] {
      assert a + b == b;
    } else {
      assert (a + b)[0] == a[0];
      assert (a + b)[1..] == a[1..] + b;
      IndexesForAppend(a[1..], b, table);
    }
  }

  /** The entry that get_full_metadata builds for one table. */
  function Merged(columns: Dict<seq<Column>>, indexRows: seq<IndexRow>,
                  constraints: Dict<seq<Constraint>>, table: string): TableMeta
    requires table in columns.entries
  {
    TableMeta(columns.entries[table],
              IndexesFor(indexRows, table),
              if table in constraints.entries then constraints.entries[table] else [])
  }

  /** full holds the merged entries of the first n tables of columns. */
  ghost predicate MergedUpTo(full: Dict<TableMeta>, columns: Dict<seq<Column>>, indexRows: seq<IndexRow>,
                             constraints: Dict<seq<Constraint>>, n: nat)
  {
    && n <= |columns.keys|
    && full.Valid()
    && full.keys == columns.keys[..n]
    && forall t | t in full.entries :: t in columns.entries && full.entries[t] == Merged(columns, indexRows, constraints, t)
  }

  lemma MergedStep(full: Dict<TableMeta>, columns: Dict<seq<Column>>, indexRows: seq<IndexRow>,
                   constraints: Dict<seq<Constraint>>, n: nat)
    requires columns.Valid() && n < |columns.keys|
    requires MergedUpTo(full, columns, indexRows, constraints, n)
    ensures var table := columns.keys[n];
      MergedUpTo(Dict(full.keys + [table], full.entries[table := Merged(columns, indexRows, constraints, table)]),
                 columns, indexRows, constraints, n + 1)
  {
    var table := columns.keys[n];
    assert columns.keys[..n + 1] == columns.keys[..n] + [table];
    assert table !in columns.keys[..n];
  }

  /** Once every table is merged, the entries are what get_full_metadata promises. */
  lemma MergedAll(full: Dict<TableMeta>, columnRows: seq<ColumnRow>, columns: Dict<seq<Column>>,
                  indexRows: seq<IndexRow>, constraintRows: seq<ConstraintRow>, constraints: Dict<seq<Constraint>>)
    requires columns.Valid() && columns.keys == Distinct(KeysOf(ColumnPairs(columnRows)))
    requires forall t | t in columns.entries :: columns.entries[t] == Collect(ColumnPairs(columnRows), t) && columns.entries[t] != []
    requires constraints.Valid() && constraints.keys == Distinct(KeysOf(ConstraintPairs(constraintRows)))
    requires forall k | k in constraints.entries :: constraints.entries[k] == Collect(ConstraintPairs(constraintRows), k)
    requires MergedUpTo(full, columns, indexRows, constraints, |columns.keys|)
    ensures full.Valid()
    ensures full.keys == Distinct(KeysOf(ColumnPairs(columnRows)))
    ensures forall t | t in full.entries ::
      && full.entries[t].columns == Collect(ColumnPairs(columnRows), t)
      && full.entries[t].columns != []
      && full.entries[t].indexes == IndexesFor(indexRows, t)
      && full.entries[t].constraints == Collect(ConstraintPairs(constraintRows), t)
  {
    assert full.keys == columns.keys by {
      assert columns.keys[..|columns.keys|] == columns.keys;
    }
    forall t | t in full.entries
      ensures full.entries[t].columns == Collect(ColumnPairs(columnRows), t)
      ensures full.entries[t].columns != []
      ensures full.entries[t].indexes == IndexesFor(indexRows, t)
      ensures full.entries[t].constraints == Collect(ConstraintPairs(constraintRows), t)
    {
      var m := full.entries[t];
      assert t in columns.entries && m == Merged(columns, indexRows, constraints, t);
      if t !in constraints.entries {
        GroupedMissing(constraints, ConstraintPairs(constraintRows), t);
      }
    }
  }

  /** get_full_metadata: one entry per table of the column rows, in the same
      order; its columns are that table's column rows, its indexes the index
      rows that name it case-insensitively, and its constraints the
      constraint rows that name it with exactly the same spelling. */
  method GetFullMetadata(columnRows: seq<ColumnRow>, indexRows: seq<IndexRow>, constraintRows: seq<ConstraintRow>)
    returns (full: Dict<TableMeta>)
    ensures full.Valid()
    ensures full.keys == Distinct(KeysOf(ColumnPairs(columnRows)))
    ensures forall t | t in full.entries ::
      && full.entries[t].columns == Collect(ColumnPairs(columnRows), t)
      && full.entries[t].columns != []
      && full.entries[t].indexes == IndexesFor(indexRows, t)
      && full.entries[t].constraints == Collect(ConstraintPairs(constraintRows), t)
  {
    var columns := GetMetadata(columnRows);
    var constraints := GroupRows(ConstraintPairs(constraintRows));
    full := Dict([], map[]);
    for i := 0 to |columns.keys|
      invariant MergedUpTo(full, columns, indexRows, constraints, i)
    {
      var table := columns.keys[i];
      MergedStep(full, columns, indexRows, constraints, i);
      full := Dict(full.keys + [table], full.entries[table := Merged(columns, indexRows, constraints, table)]);
    }
    MergedAll(full, columnRows, columns, indexRows, constraintRows, constraints);
  }

  /** The test find_table_metadata applies to each qualified name: a dotted
      query must equal it case-insensitively, an undotted one must be its
      suffix after a dot, case-insensitively. */
  predicate NameMatches(qualified: string, query: string) {
    if '.' in query then Lower(qualified) == Lower(query)
    else EndsWith(Lower(qualified), "." + Lower(query))
  }

  /** The position of the first name that matches the query, or -1. */
  function FirstMatch(names: seq<string>, query: string): (r: int)
    ensures -1 <= r < |names|
    ensures 0 <= r ==> NameMatches(names[r], query)
    ensures forall j | 0 <= j < |names| && (r < 0 || j < r) :: !NameMatches(names[j], query)
  {
    if names == [] then -1
    else if NameMatches(names[0], query) then 0
    else
      var r := FirstMatch(names[1..], query);
      if r < 0 then -1 else r + 1
  }

  /** find_table_metadata: the first (name, entry) pair, in dict order, whose
      name matches the query; None for Python's (None, None). */
  method FindTableMetadata<V>(md: Dict<V>, query: string) returns (r: Option<(string, V)>)
    requires md.Valid()
    ensures var i := FirstMatch(md.keys, query);
      if i < 0 then r == None else r == Some((md.keys[i], md.entries[md.keys[i]]))
  {
    if '.' in query {
      for i := 0 to |md.keys|
        invariant forall j | 0 <= j < i :: !NameMatches(md.keys[j], query)
      {
        var name := md.keys[i];
        if Lower(name) == Lower(query) {
          return Some((name, md.entries[name]));
        }
      }
    } else {
      for i := 0 to |md.keys|
        invariant forall j | 0 <= j < i :: !NameMatches(md.keys[j], query)
      {
        var name := md.keys[i];
        if EndsWith(Lower(name), "." + Lower(query)) {
          return Some((name, md.entries[name]));
        }
      }
    }
    return None;
  }

  /** Looking a table up by its own qualified name finds it, unless an
      earlier key spells the same name in another letter case, in which case
      that earlier key is found. */
  lemma {:induction false} LookupByQualifiedName(names: seq<string>, i: nat)
    requires i < |names| && '.' in names[i]
    ensures 0 <= FirstMatch(names, names[i]) <= i
    ensures Lower(names[FirstMatch(names, names[i])]) == Lower(names[i])
    ensures (forall j | 0 <= j < i :: Lower(names[j]) != Lower(names[i])) ==> FirstMatch(names, names[i]) == i
  {
    assert NameMatches(names[i], names[i]);
  }

  /** Looking a table up by its bare table name finds the first qualified
      name that ends with "." + that name, case-insensitively. */
  lemma {:induction false} LookupByTableName(names: seq<string>, i: nat, table: string)
    requires i < |names| && '.' !in table
    requires EndsWith(Lower(names[i]), "." + Lower(table))
    requires forall j | 0 <= j < i :: !EndsWith(Lower(names[j]), "." + Lower(table))
    ensures FirstMatch(names, table) == i
  {
    assert NameMatches(names[i], table);
  }

  /** The key test of filter_metadata. */
  function Mentions(keyword: string): string -> bool {
    t => Contains(Lower(t), Lower(keyword))
  }

  /** filter_metadata: the entries whose name contains the keyword,
      case-insensitively, with their values, in dict order. */
  function FilterMetadata<V>(md: Dict<V>, keyword: string): (r: Dict<V>)
    requires md.Valid()
    ensures r.Valid()
    ensures r.keys == Filter(md.keys, Mentions(keyword))
    ensures forall t :: t in r.entries <==> t in md.entries && Contains(Lower(t), Lower(keyword))
    ensures forall t | t in r.entries :: r.entries[t] == md.entries[t]
  {
    var keys := Filter(md.keys, Mentions(keyword));
    Dict(keys, map t | t in keys :: md.entries[t])
  }

  /** summarize_metadata: every table name, each once, in dict order. */
  function SummarizeMetadata<V>(md: Dict<V>): (names: seq<string>)
    requires md.Valid()
    ensures NoDup(names) && |names| == |md.entries|
    ensures forall t :: t in names <==> t in md.entries
    ensures names == md.keys
  {
    SizeIsKeyCount(md);
    md.keys
  }
}
