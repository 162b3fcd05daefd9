/// process_natural_language_query: a first-match-wins cascade of tests on
/// the query that either passes it to the database verbatim ("sql") or
/// builds a prompt for the language model ("llm") from the metadata and from
/// what the database reads returned. The reads are inputs (Fetched) and
/// json.dumps is an uninterpreted parameter `dumps`.
module Classifier {
  import opened Strings
  import opened Options
  import opened Sequences
  import opened Dicts
  import opened Metadata
  import opened Patterns

  /** A pg_stat_statements row: the query text and its number of calls. */
  datatype StatementRow = StatementRow(query: string, calls: int)
  /** A pg_stat_activity row, its duration already rendered as HH24:MI:SS. */
  datatype ActivityRow = ActivityRow(pid: int, userName: string, query: string, state: string, duration: string)
  /** A pg_class row with its approximate record count (reltuples::bigint). */
  datatype CountRow = CountRow(schema: string, table: string, rows: int)

  /** What the database reads return. */
  datatype Fetched = Fetched(
    indexRows: seq<IndexRow>,                // get_pg_index_info
    countRows: seq<CountRow>,                // get_table_counts
    slowQueries: seq<StatementRow>,          // get_pg_stat_statements
    frequentSlowQueries: seq<StatementRow>,  // get_frequent_slow_queries
    activity: seq<ActivityRow>)              // get_pg_stat_activity

  /** The values handed to json.dumps. */
  datatype Payload =
    | CountList(counts: seq<(string, int)>)
    | Statements(statements: seq<StatementRow>)
    | Activity(sessions: seq<ActivityRow>)
    | IndexList(indexes: seq<IndexRow>)
    | NameList(names: seq<string>)
    | Tables(tables: Dict<TableMeta>)

  /** The prompts of the "llm" branches: which template, and what fills its
      holes. Text renders each one as the program spells it out. */
  datatype Prompt =
    | RecordCountPrompt(json: string)
    | DatabaseCountPrompt(tableCount: nat)
    | SchemaCountPrompt(schema: string, tableCount: nat)
    | SlowQueryPrompt(json: string)
    | FrequentSlowPrompt(json: string)
    | ActivityPrompt(json: string)
    | MostIndexedPrompt(table: string, indexCount: int)
    | NoPccIndexPrompt
    | ZeroIndexPrompt(json: string)
    | AllIndexedPrompt
    | IndexPrompt(json: string)
    | MetadataPrompt(json: string, query: string)

  /** The (query_type, query_or_prompt) pair: "sql" with the query, or "llm"
      with the prompt. */
  datatype Response = Sql(query: string) | Llm(prompt: Prompt)

  /** Which branch of the cascade answers a query. */
  datatype Branch =
    | DirectSql
    | RecordCounts
    | SchemaTableCount(schema: string)
    | SlowQueries
    | FrequentSlowQueries
    | ActiveQueries
    | MostIndexedTable
    | UnindexedTables
    | IndexReport
    | KeywordTables(keyword: string)
    | AllTables

  // ---------------------------------------------------------------------
  // The tests, on the lower-case query l

  predicate RecordCountRequest(l: string) {
    Contains(l, "record count") || Contains(l, "high record count")
  }

  predicate SlowRequest(l: string) {
    Contains(l, "slow quer")
  }

  predicate FrequentSlowRequest(l: string) {
    Contains(l, "frequent") && Contains(l, "slow")
  }

  predicate ActiveRequest(l: string) {
    Contains(l, "active query") || Contains(l, "pg_stat_activity")
  }

  predicate PccIndexRequest(l: string) {
    && Contains(l, "pcc_tssgui") && Contains(l, "index")
    && (Contains(l, "more") || Contains(l, "highest") || Contains(l, "most"))
  }

  predicate JavaZeroIndexRequest(l: string) {
    Contains(l, "java_abmf") && Contains(l, "zero index")
  }

  predicate IndexRequest(l: string) {
    Contains(l, "index") || Contains(l, "indexes")
  }

  /** The requests that the two schema-specific index branches serve. */
  predicate SchemaIndexRequest(l: string) {
    PccIndexRequest(l) || JavaZeroIndexRequest(l)
  }

  /** The cascade after the schema-count test: the three performance
      branches, then the index branches. */
  function LaterBranch(l: string): Branch {
    if SlowRequest(l) then SlowQueries
    else if FrequentSlowRequest(l) then FrequentSlowQueries
    else if ActiveRequest(l) then ActiveQueries
    else IndexBranch(l)
  }

  /** The two schema-specific index branches, the general index branch, and
      then the metadata question. */
  function IndexBranch(l: string): Branch {
    if PccIndexRequest(l) then MostIndexedTable
    else if JavaZeroIndexRequest(l) then UnindexedTables
    else if IndexRequest(l) then IndexReport
    else MetadataBranch(l)
  }

  /** The metadata question, filtered by a keyword when the query asks for
      "tables with <word>". */
  function MetadataBranch(l: string): Branch {
    match TablesWith(l)
    case Some(keyword) => KeywordTables(keyword)
    case None => AllTables
  }

  /** The cascade as the program orders it: any query with the phrase
      "in <word> schema" is answered with a table count, before the two
      schema-specific index branches are consulted. */
  function ClassifyAsWritten(q: string): Branch {
    var l := Lower(q);
    if StartsWithSelect(q) then DirectSql
    else if RecordCountRequest(l) then RecordCounts
    else match SchemaPhrase(l)
      case Some(schema) => SchemaTableCount(schema)
      case None => LaterBranch(l)
  }

  /** The cascade with the schema-count test giving way to the two
      schema-specific index requests, whose own example queries contain the
      phrase "in <schema> schema". */
  function Classify(q: string): Branch {
    var l := Lower(q);
    if StartsWithSelect(q) then DirectSql
    else if RecordCountRequest(l) then RecordCounts
    else if SchemaPhrase(l).Some? && !SchemaIndexRequest(l) then SchemaTableCount(SchemaPhrase(l).value)
    else LaterBranch(l)
  }

  // ---------------------------------------------------------------------
  // Record counts

  function CountPairs(rows: seq<CountRow>): seq<(string, int)> {
    seq(|rows|, i requires 0 <= i < |rows| => (Qualify(rows[i].schema, rows[i].table), rows[i].rows))
  }

  /** get_table_counts: {f"{schema}.{table}": count for each row}. */
  function TableCounts(rows: seq<CountRow>): Dict<int> {
    FromPairs(CountPairs(rows))
  }

  const TopCount := 10

  /** sorted(counts.items(), key=count, reverse=True)[:10] */
  function TopTableCounts(rows: seq<CountRow>): seq<(string, int)> {
    Top(Items(TableCounts(rows)), TopCount)
  }

  /** The top ten holds at most ten tables, each once, by non-increasing
      count, each with its count in the map. */
  lemma TopTableCountsRanked(rows: seq<CountRow>)
    ensures var r := TopTableCounts(rows);
      && |r| == (if |TableCounts(rows).keys| < TopCount then |TableCounts(rows).keys| else TopCount)
      && NonIncreasing(r)
      && forall x | x in r :: x.0 in TableCounts(rows).entries && TableCounts(rows).entries[x.0] == x.1
    ensures var r := TopTableCounts(rows);
      forall i, j | 0 <= i < j < |r| :: r[i].0 != r[j].0
  {
    var counts := TableCounts(rows);
    var r := TopTableCounts(rows);
    forall x | x in r ensures x.0 in counts.entries && counts.entries[x.0] == x.1 {
      ItemsAreEntries(counts, x);
    }
    NoDupOfSubMultiset(r, Items(counts));
    forall i, j | 0 <= i < j < |r| ensures r[i].0 != r[j].0 {
      assert r[i] in r && r[j] in r;
    }
  }

  /** A table missing from the top ten has no more records than any table in
      it, and a table is missing only when the top ten is full. */
  lemma RecordCountsKeepLargest(rows: seq<CountRow>, table: string)
    requires table in TableCounts(rows).entries
    requires forall x | x in TopTableCounts(rows) :: x.0 != table
    ensures |TopTableCounts(rows)| == TopCount
    ensures forall x | x in TopTableCounts(rows) :: TableCounts(rows).entries[table] <= x.1
  {
    var counts := TableCounts(rows);
    var x := (table, counts.entries[table]);
    ItemsAreEntries(counts, x);
    TopKeepsLargest(Items(counts), TopCount, x);
  }

  // ---------------------------------------------------------------------
  // Tables in a schema

  predicate AllSchemas(schema: string) {
    Lower(schema) == "all" || Lower(schema) == "entire"
  }

  /** The table-name test of the schema branch. */
  predicate BelongsToSchema(t: string, schema: string) {
    StartsWith(Lower(t), Lower(schema) + ".")
  }

  function InSchema(schema: string): string -> bool {
    t => BelongsToSchema(t, schema)
  }

  /** The count the schema branch reports. */
  function TablesInSchema(md: Dict<TableMeta>, schema: string): nat {
    if AllSchemas(schema) then |md.keys| else |Filter(md.keys, InSchema(schema))|
  }

  /** The schema branch counts every table for "all" or "entire", and
      otherwise the tables whose lower-case name starts with the lower-case
      schema and a dot. */
  lemma TablesInSchemaCounts(md: Dict<TableMeta>, schema: string)
    requires md.Valid()
    ensures AllSchemas(schema) ==> TablesInSchema(md, schema) == |md.entries|
    ensures !AllSchemas(schema) ==> TablesInSchema(md, schema) == |set t | t in md.entries && BelongsToSchema(t, schema)|
  {
    SizeIsKeyCount(md);
    if !AllSchemas(schema) {
      FilterKeysCount(md, InSchema(schema));
      var filtered := set t | t in md.entries && InSchema(schema)(t);
      var belonging := set t | t in md.entries && BelongsToSchema(t, schema);
      forall t ensures t in filtered <==> t in belonging {
        assert InSchema(schema)(t) == BelongsToSchema(t, schema);
      }
      assert filtered == belonging;
    }
  }

  function SchemaCount(md: Dict<TableMeta>, schema: string): Prompt {
    var n := TablesInSchema(md, schema);
    if AllSchemas(schema) then DatabaseCountPrompt(n) else SchemaCountPrompt(schema, n)
  }

  // ---------------------------------------------------------------------
  // The most indexed table of pcc_tssgui

  predicate IsPccRow(row: IndexRow) {
    Lower(row.schema) == "pcc_tssgui"
  }

  function QualifiedNames(rows: seq<IndexRow>): (names: seq<string>)
    ensures |names| == |rows|
    ensures forall i | 0 <= i < |rows| :: names[i] == Qualify(rows[i].schema, rows[i].table)
  {
    seq(|rows|, i requires 0 <= i < |rows| => Qualify(rows[i].schema, rows[i].table))
  }

  /** The qualified table name of every pcc_tssgui index row, in row order:
      one occurrence per index. */
  function PccTableNames(rows: seq<IndexRow>): seq<string> {
    QualifiedNames(Filter(rows, IsPccRow))
  }

  /** The names counted are exactly the tables of the pcc_tssgui index rows. */
  lemma PccTableNamesAreIndexedTables(rows: seq<IndexRow>)
    ensures forall t :: t in PccTableNames(rows) <==> exists row | row in rows :: IsPccRow(row) && Qualify(row.schema, row.table) == t
  {
    var pcc := Filter(rows, IsPccRow);
    var names := PccTableNames(rows);
    forall t ensures t in names <==> exists row | row in rows :: IsPccRow(row) && Qualify(row.schema, row.table) == t {
      if t in names {
        var i :| 0 <= i < |names| && names[i] == t;
        assert pcc[i] in pcc;
      }
      if exists row | row in rows :: IsPccRow(row) && Qualify(row.schema, row.table) == t {
        var row :| row in rows && IsPccRow(row) && Qualify(row.schema, row.table) == t;
        var i :| 0 <= i < |pcc| && pcc[i] == row;
        assert names[i] == t;
      }
    }
  }

  /** The head of the index counts sorted by count, descending. */
  function MostIndexed(names: seq<string>): Option<(string, int)> {
    var ranked := SortDesc(Items(Counter(names)));
    if ranked == [] then None else Some(ranked[0])
  }

  /** Against the first entry with the largest count in the counter's item
      list, every name counts no more, and one that counts as much was met
      no earlier. */
  lemma FirstMaxCountsMost(names: seq<string>, keys: seq<string>, counts: seq<int>, m: nat)
    requires keys == Distinct(names) && |counts| == |keys|
    requires forall i | 0 <= i < |keys| :: counts[i] == multiset(names)[keys[i]]
    requires m < |keys|
    requires forall j | 0 <= j < |keys| :: counts[j] <= counts[m]
    requires forall j | 0 <= j < m :: counts[j] < counts[m]
    ensures forall u | u in names :: multiset(names)[u] <= counts[m]
    ensures forall u | u in names && multiset(names)[u] == counts[m] :: FirstIndex(names, keys[m]) <= FirstIndex(names, u)
  {
    forall u | u in names
      ensures multiset(names)[u] <= counts[m]
      ensures multiset(names)[u] == counts[m] ==> FirstIndex(names, keys[m]) <= FirstIndex(names, u)
    {
      assert u in keys;
      var j :| 0 <= j < |keys| && keys[j] == u;
      assert counts[j] == multiset(names)[u];
      if j > m {
        DistinctKeepsFirstOccurrenceOrder(names, m, j);
      }
    }
  }

  /** The table the pcc_tssgui branch reports has the most index rows, and
      among the tables with that many it is the one met first; there is no
      such table only when there are no pcc_tssgui index rows. */
  lemma MostIndexedIsFirstMaximum(names: seq<string>)
    ensures MostIndexed(names).None? <==> names == []
    ensures MostIndexed(names).Some? ==>
      var (t, c) := MostIndexed(names).value;
      && t in names && c == multiset(names)[t]
      && (forall u | u in names :: multiset(names)[u] <= c)
      && (forall u | u in names && multiset(names)[u] == c :: FirstIndex(names, t) <= FirstIndex(names, u))
  {
    if names == [] {
      var items := Items(Counter(names));
      assert |SortDesc(items)| == |multiset(SortDesc(items))| == 0;
    } else {
      var m := MostIndexedHead(names);
      var d := Counter(names);
      var counts := CountsOf(d);
      FirstMaxCountsMost(names, d.keys, counts, m);
    }
  }

  /** The counts of the counter's items, position by position. */
  function CountsOf(d: Dict<int>): (counts: seq<int>)
    requires d.Valid()
    ensures |counts| == |d.keys| == |Items(d)|
    ensures forall i | 0 <= i < |d.keys| :: counts[i] == d.entries[d.keys[i]] == Items(d)[i].1
  {
    seq(|d.keys|, i requires 0 <= i < |d.keys| => d.entries[d.keys[i]])
  }

  /** With at least one name, the ranking starts with the first entry of
      the counter that has the largest count. */
  lemma MostIndexedHead(names: seq<string>) returns (m: nat)
    requires names != []
    ensures m < |Counter(names).keys| && m == FirstMax(Items(Counter(names)))
    ensures MostIndexed(names) == Some((Counter(names).keys[m], multiset(names)[Counter(names).keys[m]]))
  {
    var d := Counter(names);
    var items := Items(d);
    assert names[0] in d.keys;
    SortDescHead(items);
    m := FirstMax(items);
  }

  /** The answer of the pcc_tssgui branch: the most indexed table with its
      index count, or the fixed message when there is none. */
  function MostIndexedAnswer(names: seq<string>): Prompt {
    match MostIndexed(names)
    case Some((table, count)) => MostIndexedPrompt(table, count)
    case None => NoPccIndexPrompt
  }

  // ---------------------------------------------------------------------
  // The java_abmf tables without an index

  predicate IsJavaRow(row: IndexRow) {
    Lower(row.schema) == "java_abmf"
  }

  /** The lower-case qualified names of the java_abmf index rows. */
  function IndexedJavaTables(rows: seq<IndexRow>): set<string> {
    set row | row in rows && IsJavaRow(row) :: Lower(Qualify(row.schema, row.table))
  }

  /** The java_abmf tables of the metadata, in metadata order, whose
      lower-case name is not the qualified name of any java_abmf index row. */
  function ZeroIndexTables(md: Dict<TableMeta>, rows: seq<IndexRow>): seq<string> {
    var indexed := IndexedJavaTables(rows);
    Filter(md.keys, t => StartsWith(Lower(t), "java_abmf.") && Lower(t) !in indexed)
  }

  /** Each java_abmf table without an index row is listed once, and nothing
      else is. */
  lemma ZeroIndexTablesAreUnindexed(md: Dict<TableMeta>, rows: seq<IndexRow>)
    requires md.Valid()
    ensures NoDup(ZeroIndexTables(md, rows))
    ensures forall t :: t in ZeroIndexTables(md, rows) <==>
      && t in md.entries && StartsWith(Lower(t), "java_abmf.")
      && forall row | row in rows && IsJavaRow(row) :: Lower(Qualify(row.schema, row.table)) != Lower(t)
  {
  }

  /** The answer of the java_abmf branch: the tables without an index, or
      the fixed message when every table has one. */
  function ZeroIndexAnswer(md: Dict<TableMeta>, rows: seq<IndexRow>, dumps: Payload -> string): Prompt {
    var tables := ZeroIndexTables(md, rows);
    if tables != [] then ZeroIndexPrompt(dumps(NameList(tables))) else AllIndexedPrompt
  }

  // ---------------------------------------------------------------------
  // The metadata question

  const MaxPromptLength := 4000
  const TruncationMarker := "\n... (truncated)"

  /** The serialised metadata, cut to its first 4000 characters and marked
      when it is longer than that, untouched otherwise. */
  function Truncate(json: string): (r: string)
    ensures |r| <= MaxPromptLength + |TruncationMarker|
    ensures |json| <= MaxPromptLength ==> r == json
    ensures |json| > MaxPromptLength ==>
      && |r| == MaxPromptLength + |TruncationMarker|
      && json[..MaxPromptLength] <= r && EndsWith(r, TruncationMarker)
  {
    if |json| > MaxPromptLength then json[..MaxPromptLength] + TruncationMarker else json
  }

  /** Truncating an already truncated payload changes nothing. */
  lemma TruncateIdempotent(json: string)
    ensures Truncate(Truncate(json)) == Truncate(json)
  {
    if |json| > MaxPromptLength {
      var r := Truncate(json);
      assert r[..MaxPromptLength] == json[..MaxPromptLength];
    }
  }

  // ---------------------------------------------------------------------
  // The answer

  /** What each branch returns. */
  function Respond(branch: Branch, q: string, md: Dict<TableMeta>, f: Fetched, dumps: Payload -> string): Response
    requires md.Valid()
  {
    match branch
    case DirectSql => Sql(q)
    case RecordCounts => Llm(RecordCountPrompt(dumps(CountList(TopTableCounts(f.countRows)))))
    case SchemaTableCount(schema) => Llm(SchemaCount(md, schema))
    case SlowQueries => Llm(SlowQueryPrompt(dumps(Statements(f.slowQueries))))
    case FrequentSlowQueries => Llm(FrequentSlowPrompt(dumps(Statements(f.frequentSlowQueries))))
    case ActiveQueries => Llm(ActivityPrompt(dumps(Activity(f.activity))))
    case MostIndexedTable => Llm(MostIndexedAnswer(PccTableNames(f.indexRows)))
    case UnindexedTables => Llm(ZeroIndexAnswer(md, f.indexRows, dumps))
    case IndexReport => Llm(IndexPrompt(dumps(IndexList(f.indexRows))))
    case KeywordTables(keyword) => Llm(MetadataPrompt(Truncate(dumps(Tables(FilterMetadata(md, keyword)))), q))
    case AllTables => Llm(MetadataPrompt(Truncate(dumps(NameList(SummarizeMetadata(md)))), q))
  }

  /** Once the cascade has picked its branch, the answer is that branch's. */
  lemma Answers(q: string, b: Branch, b': Branch, md: Dict<TableMeta>, f: Fetched, dumps: Payload -> string)
    requires md.Valid() && b == b'
    ensures Respond(b, q, md, f, dumps) == Respond(b', q, md, f, dumps)
  {
  }

  /** process_natural_language_query: the cascade in the program's order,
      returning at the first test that holds. */
  method ProcessNaturalLanguageQuery(q: string, md: Dict<TableMeta>, f: Fetched, dumps: Payload -> string)
    returns (r: Response)
    requires md.Valid()
    ensures r == Respond(ClassifyAsWritten(q), q, md, f, dumps)
  {
    var l := Lower(q);
    if StartsWithSelect(q) {
      Answers(q, ClassifyAsWritten(q), DirectSql, md, f, dumps);
      return Sql(q);
    }
    if RecordCountRequest(l) {
      Answers(q, ClassifyAsWritten(q), RecordCounts, md, f, dumps);
      return Llm(RecordCountPrompt(dumps(CountList(TopTableCounts(f.countRows)))));
    }
    var schema := SchemaPhrase(l);
    if schema.Some? {
      Answers(q, ClassifyAsWritten(q), SchemaTableCount(schema.value), md, f, dumps);
      return Llm(SchemaCount(md, schema.value));
    }
    Answers(q, ClassifyAsWritten(q), LaterBranch(l), md, f, dumps);
    r := AnswerLater(q, l, md, f, dumps);
  }

  /** The tests after the schema-count test: the performance branches. */
  method AnswerLater(q: string, l: string, md: Dict<TableMeta>, f: Fetched, dumps: Payload -> string)
    returns (r: Response)
    requires md.Valid()
    ensures r == Respond(LaterBranch(l), q, md, f, dumps)
  {
    if SlowRequest(l) {
      Answers(q, LaterBranch(l), SlowQueries, md, f, dumps);
      return Llm(SlowQueryPrompt(dumps(Statements(f.slowQueries))));
    }
    if FrequentSlowRequest(l) {
      Answers(q, LaterBranch(l), FrequentSlowQueries, md, f, dumps);
      return Llm(FrequentSlowPrompt(dumps(Statements(f.frequentSlowQueries))));
    }
    if ActiveRequest(l) {
      Answers(q, LaterBranch(l), ActiveQueries, md, f, dumps);
      return Llm(ActivityPrompt(dumps(Activity(f.activity))));
    }
    Answers(q, LaterBranch(l), IndexBranch(l), md, f, dumps);
    r := AnswerIndexQuestion(q, l, md, f, dumps);
  }

  /** The index branches, then the metadata question. */
  method AnswerIndexQuestion(q: string, l: string, md: Dict<TableMeta>, f: Fetched, dumps: Payload -> string)
    returns (r: Response)
    requires md.Valid()
    ensures r == Respond(IndexBranch(l), q, md, f, dumps)
  {
    if PccIndexRequest(l) {
      IndexBranchAnswer(q, l, md, f, dumps);
      var prompt := MostIndexedReport(f.indexRows);
      return Llm(prompt);
    }
    if JavaZeroIndexRequest(l) {
      IndexBranchAnswer(q, l, md, f, dumps);
      var prompt := ZeroIndexReport(md, f.indexRows, dumps);
      return Llm(prompt);
    }
    if IndexRequest(l) {
      IndexBranchAnswer(q, l, md, f, dumps);
      return Llm(IndexPrompt(dumps(IndexList(f.indexRows))));
    }
    Answers(q, IndexBranch(l), MetadataBranch(l), md, f, dumps);
    r := AskAboutMetadata(q, l, md, f, dumps);
  }

  /** The answers of the three index branches. */
  lemma IndexBranchAnswer(q: string, l: string, md: Dict<TableMeta>, f: Fetched, dumps: Payload -> string)
    requires md.Valid()
    ensures PccIndexRequest(l) ==>
      Respond(IndexBranch(l), q, md, f, dumps) == Llm(MostIndexedAnswer(PccTableNames(f.indexRows)))
    ensures !PccIndexRequest(l) && JavaZeroIndexRequest(l) ==>
      Respond(IndexBranch(l), q, md, f, dumps) == Llm(ZeroIndexAnswer(md, f.indexRows, dumps))
    ensures !PccIndexRequest(l) && !JavaZeroIndexRequest(l) && IndexRequest(l) ==>
      Respond(IndexBranch(l), q, md, f, dumps) == Llm(IndexPrompt(dumps(IndexList(f.indexRows))))
  {
    if PccIndexRequest(l) {
      assert IndexBranch(l) == MostIndexedTable;
    } else if JavaZeroIndexRequest(l) {
      assert IndexBranch(l) == UnindexedTables;
    } else if IndexRequest(l) {
      assert IndexBranch(l) == IndexReport;
    }
  }

  lemma KeywordAnswer(q: string, w: string, md: Dict<TableMeta>, f: Fetched, dumps: Payload -> string)
    requires md.Valid()
    ensures Respond(KeywordTables(w), q, md, f, dumps) == Llm(MetadataPrompt(Truncate(dumps(Tables(FilterMetadata(md, w)))), q))
  {
    var r := Respond(KeywordTables(w), q, md, f, dumps);
    assert r.Llm? && r.prompt.MetadataPrompt? && r.prompt.query == q;
    assert r.prompt.json == Truncate(dumps(Tables(FilterMetadata(md, w))));
  }

  /** The pcc_tssgui branch: count the index rows per table in a loop, rank
      the counts and report the first. */
  method MostIndexedReport(rows: seq<IndexRow>) returns (p: Prompt)
    ensures p == MostIndexedAnswer(PccTableNames(rows))
  {
    var counts := CountOccurrences(PccTableNames(rows));
    var ranked := SortDesc(Items(counts));
    if ranked != [] {
      var (table, count) := ranked[0];
      return MostIndexedPrompt(table, count);
    }
    return NoPccIndexPrompt;
  }

  /** The java_abmf branch: the fixed message exactly when every java_abmf
      table of the metadata has an index row, the list of the others
      otherwise. */
  method ZeroIndexReport(md: Dict<TableMeta>, rows: seq<IndexRow>, dumps: Payload -> string) returns (p: Prompt)
    requires md.Valid()
    ensures p == ZeroIndexAnswer(md, rows, dumps)
    ensures p == AllIndexedPrompt <==>
      forall t | t in md.entries && StartsWith(Lower(t), "java_abmf.") ::
        exists row | row in rows && IsJavaRow(row) :: Lower(Qualify(row.schema, row.table)) == Lower(t)
    ensures p != AllIndexedPrompt ==> p == ZeroIndexPrompt(dumps(NameList(ZeroIndexTables(md, rows))))
  {
    var tables := ZeroIndexTables(md, rows);
    ZeroIndexTablesAreUnindexed(md, rows);
    if tables != [] {
      assert tables[0] in tables;
      return ZeroIndexPrompt(dumps(NameList(tables)));
    }
    return AllIndexedPrompt;
  }

  /** The metadata question: the entries whose name contains the word of
      "tables with <word>", or else every table name, serialised and cut to
      the prompt limit. */
  method AskAboutMetadata(q: string, l: string, md: Dict<TableMeta>, f: Fetched, dumps: Payload -> string)
    returns (r: Response)
    requires md.Valid()
    ensures r == Respond(MetadataBranch(l), q, md, f, dumps)
  {
    var json;
    var keyword := TablesWith(l);
    if keyword.Some? {
      KeywordAnswer(q, keyword.value, md, f, dumps);
      Answers(q, MetadataBranch(l), KeywordTables(keyword.value), md, f, dumps);
      json := dumps(Tables(FilterMetadata(md, keyword.value)));
    } else {
      Answers(q, MetadataBranch(l), AllTables, md, f, dumps);
      json := dumps(NameList(SummarizeMetadata(md)));
    }
    ghost var full := json;
    if |json| > MaxPromptLength {
      json := json[..MaxPromptLength] + TruncationMarker;
    }
    assert json == Truncate(full);
    return Llm(MetadataPrompt(json, q));
  }

  /** The prompt text, as the program writes it. */
  function Text(p: Prompt): string {
    match p
    case RecordCountPrompt(json) =>
      "Below is the approximate record count for tables in our PostgreSQL database:\n\n"
      + json + "\n\n"
      + "Based on the above data, please identify the top 10 tables with the highest record counts and provide any insights or recommendations for performance tuning."
    case DatabaseCountPrompt(n) =>
      "According to the metadata, there are " + NatToString(n) + " tables in the database."
    case SchemaCountPrompt(schema, n) =>
      "According to the metadata, there are " + NatToString(n) + " tables in the \"" + schema + "\" schema."
    case SlowQueryPrompt(json) =>
      "Below is performance data from pg_stat_statements for our PostgreSQL database:\n\n"
      + json + "\n\n"
      + "Based on the above data, please identify the top 10 slow queries by average execution time and provide specific performance tuning recommendations (for example, suggestions for adding indexes, rewriting queries, or adjusting configuration settings)."
    case FrequentSlowPrompt(json) =>
      "Below is performance data from pg_stat_statements showing frequently executed slow queries:\n\n"
      + json + "\n\n"
      + "Based on the above data, please identify the queries that are most frequently slow and suggest specific tuning recommendations."
    case ActivityPrompt(json) =>
      "Below is a list of currently active queries from pg_stat_activity:\n\n"
      + json + "\n\n"
      + "Based on the above data, please provide an analysis of the active queries and suggest any performance improvements."
    case MostIndexedPrompt(table, count) =>
      "Based on the index data for the pcc_tssgui schema, the table with the highest index count is:\n\n"
      + table + " with " + IntToString(count) + " indexes.\n\n"
      + "Please provide any recommendations for index optimization if applicable."
    case NoPccIndexPrompt =>
      "No index data found for the pcc_tssgui schema."
    case ZeroIndexPrompt(json) =>
      "Below is the list of tables in the java_abmf schema that have zero indexes according to the metadata:\n\n"
      + json + "\n\n"
      + "Based on this information, please provide any recommendations for indexing these tables if appropriate."
    case AllIndexedPrompt =>
      "All tables in the java_abmf schema have at least one index according to the metadata."
    case IndexPrompt(json) =>
      "Below is the index information from pg_indexes for our PostgreSQL database:\n\n"
      + json + "\n\n"
      + "Based on the above information, analyze the current index structure. Identify any indexes that are missing, redundant, or underutilized, and provide specific recommendations for index optimization."
    case MetadataPrompt(json, query) => MetadataText(json, query)
  }

  /** The prompt of the metadata question. */
  function MetadataText(json: string, query: string): string {
    MetadataIntro + json + "\n\n" + "User Query: " + query + "\n\n" + MetadataClosing
  }

  const MetadataIntro := "You are an expert database analyst. Below is the full PostgreSQL metadata (including columns, indexes, and constraints) in JSON format:\n\n"
  const MetadataClosing := "Based on the metadata, please provide a clear, concise answer."

  /** The metadata prompt carries the serialised metadata and the user's
      query verbatim. */
  lemma MetadataPromptCarriesQuery(json: string, q: string)
    ensures Contains(MetadataText(json, q), json)
    ensures Contains(MetadataText(json, q), q)
  {
    var intro, tail := MetadataIntro, MetadataClosing;
    var x := intro + json + "\n\n" + "User Query: ";
    ContainsInfix(intro, json, "\n\n");
    ContainsExtendRight(intro + json + "\n\n", json, "User Query: ");
    ContainsExtendRight(x, json, q);
    ContainsExtendRight(x + q, json, "\n\n");
    ContainsExtendRight(x + q + "\n\n", json, tail);
    ContainsInfix(x, q, "\n\n");
    ContainsExtendRight(x + q + "\n\n", q, tail);
  }

  /** Cutting the metadata bounds the prompt: beyond its fixed text and the
      query, it holds at most 4000 characters of metadata and the marker. */
  lemma MetadataPromptBounded(json: string, q: string)
    ensures |MetadataText(Truncate(json), q)| <= |MetadataText("", "")| + MaxPromptLength + |TruncationMarker| + |q|
  {
    MetadataTextLength(Truncate(json), q);
  }

  lemma MetadataTextLength(json: string, q: string)
    ensures |MetadataText(json, q)| == |MetadataText("", "")| + |json| + |q|
  {
  }

  // ---------------------------------------------------------------------
  // Properties of the cascade

  /** A query that is whitespace, "select" in any letter case and anything
      at all goes to the database unchanged, whatever keywords follow. */
  lemma SelectWins(spaces: string, select: string, rest: string, md: Dict<TableMeta>, f: Fetched, dumps: Payload -> string)
    requires forall k | 0 <= k < |spaces| :: IsSpace(spaces[k])
    requires Lower(select) == "select"
    requires md.Valid()
    ensures ClassifyAsWritten(spaces + select + rest) == DirectSql
    ensures Classify(spaces + select + rest) == DirectSql
    ensures Respond(ClassifyAsWritten(spaces + select + rest), spaces + select + rest, md, f, dumps) == Sql(spaces + select + rest)
  {
    SelectWhateverFollows(spaces, select, rest);
  }

  /** The "high record count" alternative adds nothing: every text that
      contains it contains "record count". */
  lemma RecordCountTestIsOnePhrase(l: string)
    ensures RecordCountRequest(l) <==> Contains(l, "record count")
  {
    if Contains(l, "high record count") {
      assert "high record count" == "high " + "record count";
      ContainsRight(l, "high ", "record count");
    }
  }

  /** The "indexes" alternative adds nothing: every text that contains it
      contains "index". */
  lemma IndexTestIsOnePhrase(l: string)
    ensures IndexRequest(l) <==> Contains(l, "index")
  {
    if Contains(l, "indexes") {
      assert "indexes" == "index" + "es";
      ContainsLeft(l, "index", "es");
    }
  }

  /** The correction changes the answer only for the requests the two
      schema-specific index branches serve, and sends them to those branches
      or to a performance branch tested before them. */
  lemma CorrectionOnlyRedirectsSchemaIndexRequests(q: string)
    ensures Classify(q) != ClassifyAsWritten(q) ==>
      && ClassifyAsWritten(q).SchemaTableCount?
      && SchemaIndexRequest(Lower(q))
      && Classify(q) in {SlowQueries, FrequentSlowQueries, ActiveQueries, MostIndexedTable, UnindexedTables}
  {
  }

  /** A query that starts with a letter other than s is not a select. */
  lemma NotSelect(q: string)
    requires |q| > 0 && 'a' <= q[0] <= 'z' && q[0] != 's'
    ensures !StartsWithSelect(q)
  {
    RunEndAt(q, 0, 0, IsSpace);
    assert Lower(q[0..])[0] == q[0];
  }

  const FrequentSlowExample := "frequent" + " " + "slow quer" + "ies"

  lemma FrequentSlowExampleIsLowerCase()
    ensures Lower(FrequentSlowExample) == FrequentSlowExample
  {
    LowerCaseConcat("frequent", " ");
    LowerCaseConcat("frequent" + " ", "slow quer");
    LowerCaseConcat("frequent" + " " + "slow quer", "ies");
  }

  lemma FrequentSlowExampleMentions()
    ensures Contains(FrequentSlowExample, "slow quer")
    ensures Contains(FrequentSlowExample, "frequent") && Contains(FrequentSlowExample, "slow")
  {
    var q := FrequentSlowExample;
    ContainsInfix("frequent" + " ", "slow quer", "ies");
    assert "slow quer" == "slow" + " quer";
    ContainsLeft(q, "slow", " quer");
    ContainsAt("frequent", "frequent", 0);
    ContainsExtendRight("frequent", "frequent", " ");
    ContainsExtendRight("frequent" + " ", "frequent", "slow quer");
    ContainsExtendRight("frequent" + " " + "slow quer", "frequent", "ies");
  }

  /** The query has no 'c', so neither the record-count test nor the schema
      phrase can match it, and it starts with 'f', so it is no select. */
  lemma FrequentSlowExampleMisses()
    ensures !StartsWithSelect(FrequentSlowExample) && !RecordCountRequest(FrequentSlowExample)
    ensures SchemaPhrase(FrequentSlowExample).None?
  {
    var q := FrequentSlowExample;
    assert 'c' !in "frequent" && 'c' !in "slow quer" && 'c' !in "ies";
    assert 'c' !in q;
    MissingCharNotContained(q, "record count", 'c');
    MissingCharNotContained(q, "high record count", 'c');
    SchemaPhraseNeedsSchema(q);
    MissingCharNotContained(q, "schema", 'c');
    assert ("frequent" + " ")[0] == 'f';
    assert ("frequent" + " " + "slow quer")[0] == 'f';
    NotSelect(q);
  }

  /** "frequent slow queries" passes the frequent-and-slow test, but the
      plain slow-query test comes first and answers it. */
  lemma FrequentSlowQueriesGoToSlowQueries()
    ensures FrequentSlowRequest(Lower(FrequentSlowExample))
    ensures Classify(FrequentSlowExample) == SlowQueries
    ensures ClassifyAsWritten(FrequentSlowExample) == SlowQueries
  {
    FrequentSlowExampleIsLowerCase();
    FrequentSlowExampleMentions();
    FrequentSlowExampleMisses();
  }

  /** The two schema-specific index requests always pass the general index
      test too, yet the index branches send each to its own schema-specific
      branch, never to the general index report. */
  lemma SchemaIndexBranchesBeforeIndexReport(l: string)
    ensures PccIndexRequest(l) ==> IndexRequest(l) && IndexBranch(l) == MostIndexedTable
    ensures !PccIndexRequest(l) && JavaZeroIndexRequest(l) ==> IndexRequest(l) && IndexBranch(l) == UnindexedTables
  {
    if JavaZeroIndexRequest(l) {
      assert "zero index" == "zero " + "index";
      ContainsRight(l, "zero ", "index");
    }
  }

  // ---------------------------------------------------------------------
  // The schema-count test shadows the schema-specific index branches

  /** The example query of the java_abmf zero-index branch, in two parts. */
  const JavaHead := "list a table " + "which has got " + "zero index" + "es "
  const JavaExample := JavaHead + "in" + " " + "java_abmf" + " " + "schema"

  lemma JavaHeadIsLowerCase()
    ensures Lower(JavaHead) == JavaHead
  {
    LowerCaseConcat("list a table ", "which has got ");
    LowerCaseConcat("list a table " + "which has got ", "zero index");
    LowerCaseConcat("list a table " + "which has got " + "zero index", "es ");
  }

  lemma JavaExampleIsLowerCase()
    ensures Lower(JavaExample) == JavaExample
  {
    JavaHeadIsLowerCase();
    LowerCaseConcat(JavaHead, "in");
    LowerCaseConcat(JavaHead + "in", " ");
    LowerCaseConcat(JavaHead + "in" + " ", "java_abmf");
    LowerCaseConcat(JavaHead + "in" + " " + "java_abmf", " ");
    LowerCaseConcat(JavaHead + "in" + " " + "java_abmf" + " ", "schema");
  }

  /** The query asks for the java_abmf zero-index tables and contains the
      phrase "in java_abmf schema". */
  lemma JavaExampleMentions()
    ensures JavaZeroIndexRequest(JavaExample) && SchemaPhrase(JavaExample).Some?
  {
    var q := JavaExample;
    var x5 := JavaHead + "in" + " ";
    SchemaPhraseOf(JavaHead, " ", "java_abmf", " ");
    SchemaPhraseFound(q, |JavaHead|);
    ContainsInfix("list a table " + "which has got ", "zero index", "es ");
    ContainsExtendRight(JavaHead, "zero index", "in");
    ContainsExtendRight(JavaHead + "in", "zero index", " ");
    ContainsExtendRight(x5, "zero index", "java_abmf");
    ContainsExtendRight(x5 + "java_abmf", "zero index", " ");
    ContainsExtendRight(x5 + "java_abmf" + " ", "zero index", "schema");
    ContainsInfix(x5, "java_abmf", " ");
    ContainsExtendRight(x5 + "java_abmf" + " ", "java_abmf", "schema");
  }

  lemma JavaHeadLacks(c: char)
    requires c == 'u' || c == 'q' || c == 'p'
    ensures c !in JavaHead
  {
    assert c !in "list a table " && c !in "which has got ";
    assert c !in "zero index" && c !in "es ";
  }

  lemma JavaExampleLacks(c: char)
    requires c == 'u' || c == 'q' || c == 'p'
    ensures c !in JavaExample
  {
    JavaHeadLacks(c);
    assert c !in "in" && c !in " " && c !in "java_abmf" && c !in "schema";
  }

  /** The query has no 'u', 'q' or 'p' and starts with 'l', so it passes
      none of the tests before the zero-index branch. */
  lemma JavaExampleMisses()
    ensures !StartsWithSelect(JavaExample) && !RecordCountRequest(JavaExample)
    ensures !SlowRequest(JavaExample) && !FrequentSlowRequest(JavaExample) && !ActiveRequest(JavaExample)
    ensures !PccIndexRequest(JavaExample)
  {
    var q := JavaExample;
    JavaExampleLacks('u');
    JavaExampleLacks('q');
    JavaExampleLacks('p');
    MissingCharNotContained(q, "record count", 'u');
    MissingCharNotContained(q, "high record count", 'u');
    MissingCharNotContained(q, "slow quer", 'q');
    MissingCharNotContained(q, "frequent", 'q');
    MissingCharNotContained(q, "active query", 'q');
    MissingCharNotContained(q, "pg_stat_activity", 'p');
    MissingCharNotContained(q, "pcc_tssgui", 'p');
    assert ("list a table " + "which has got ")[0] == 'l';
    assert ("list a table " + "which has got " + "zero index")[0] == 'l';
    assert JavaHead[0] == 'l';
    assert (JavaHead + "in" + " " + "java_abmf" + " ")[0] == 'l';
    NotSelect(q);
  }

  /** As written, the example query of the java_abmf branch is answered with
      a table count: the zero-index branch never sees it. */
  lemma JavaExampleAsWritten()
    ensures JavaZeroIndexRequest(Lower(JavaExample))
    ensures ClassifyAsWritten(JavaExample).SchemaTableCount?
  {
    JavaExampleIsLowerCase();
    JavaExampleMentions();
    JavaExampleMisses();
  }

  /** With the correction, the same query reaches the zero-index branch. */
  lemma JavaExampleCorrected()
    ensures Classify(JavaExample) == UnindexedTables
  {
    JavaExampleIsLowerCase();
    JavaExampleMentions();
    JavaExampleMisses();
  }

  /** The example query of the pcc_tssgui index branch. */
  const PccExample := "list the table " + "in" + " " + "pcc_tssgui" + " " + "schema" + " which has " + "more" + " " + "index" + "es"

  lemma PccExampleIsLowerCase()
    ensures Lower(PccExample) == PccExample
  {
    var x := "list the table ";
    LowerCaseConcat(x, "in");
    x := x + "in";
    LowerCaseConcat(x, " ");
    x := x + " ";
    LowerCaseConcat(x, "pcc_tssgui");
    x := x + "pcc_tssgui";
    LowerCaseConcat(x, " ");
    x := x + " ";
    LowerCaseConcat(x, "schema");
    x := x + "schema";
    LowerCaseConcat(x, " which has ");
    x := x + " which has ";
    LowerCaseConcat(x, "more");
    x := x + "more";
    LowerCaseConcat(x, " ");
    x := x + " ";
    LowerCaseConcat(x, "index");
    x := x + "index";
    LowerCaseConcat(x, "es");
  }

  /** The query contains the phrase "in pcc_tssgui schema". */
  lemma PccExampleHasSchemaPhrase()
    ensures SchemaPhrase(PccExample).Some?
  {
    var x1 := "list the table ";
    var x6 := x1 + "in" + " " + "pcc_tssgui" + " " + "schema";
    SchemaPhraseOf(x1, " ", "pcc_tssgui", " ");
    SchemaPhraseFound(x6, |x1|);
    SchemaPhraseExtend(x6, " which has ");
    SchemaPhraseExtend(x6 + " which has ", "more");
    SchemaPhraseExtend(x6 + " which has " + "more", " ");
    SchemaPhraseExtend(x6 + " which has " + "more" + " ", "index");
    SchemaPhraseExtend(x6 + " which has " + "more" + " " + "index", "es");
  }

  /** The query passes the test of the pcc_tssgui index branch. */
  lemma PccExampleMentions()
    ensures PccIndexRequest(PccExample)
  {
    var x3 := "list the table " + "in" + " ";
    var x6 := x3 + "pcc_tssgui" + " " + "schema";
    ContainsInfix(x3, "pcc_tssgui", " ");
    ContainsExtendRight(x3 + "pcc_tssgui" + " ", "pcc_tssgui", "schema");
    ContainsExtendRight(x6, "pcc_tssgui", " which has ");
    ContainsExtendRight(x6 + " which has ", "pcc_tssgui", "more");
    ContainsExtendRight(x6 + " which has " + "more", "pcc_tssgui", " ");
    ContainsExtendRight(x6 + " which has " + "more" + " ", "pcc_tssgui", "index");
    ContainsExtendRight(x6 + " which has " + "more" + " " + "index", "pcc_tssgui", "es");
    ContainsInfix(x6 + " which has ", "more", " ");
    ContainsExtendRight(x6 + " which has " + "more" + " ", "more", "index");
    ContainsExtendRight(x6 + " which has " + "more" + " " + "index", "more", "es");
    ContainsInfix(x6 + " which has " + "more" + " ", "index", "es");
  }

  /** The query has no "rd", so it cannot contain "record count". */
  lemma PccExampleNoRecordCount()
    ensures !RecordCountRequest(PccExample)
  {
    var x := "list the table ";
    MissingCharNotContained(x, "rd", 'd');
    MissingCharNotContained("in", "rd", 'd');
    PairNotContainedConcat(x, "in", "rd");
    x := x + "in";
    MissingCharNotContained(" ", "rd", 'd');
    PairNotContainedConcat(x, " ", "rd");
    x := x + " ";
    MissingCharNotContained("pcc_tssgui", "rd", 'd');
    PairNotContainedConcat(x, "pcc_tssgui", "rd");
    x := x + "pcc_tssgui";
    MissingCharNotContained(" ", "rd", 'd');
    PairNotContainedConcat(x, " ", "rd");
    x := x + " ";
    MissingCharNotContained("schema", "rd", 'd');
    PairNotContainedConcat(x, "schema", "rd");
    x := x + "schema";
    MissingCharNotContained(" which has ", "rd", 'd');
    PairNotContainedConcat(x, " which has ", "rd");
    x := x + " which has ";
    MissingCharNotContained("more", "rd", 'd');
    PairNotContainedConcat(x, "more", "rd");
    x := x + "more";
    MissingCharNotContained(" ", "rd", 'd');
    PairNotContainedConcat(x, " ", "rd");
    x := x + " ";
    MissingCharNotContained("index", "rd", 'r');
    PairNotContainedConcat(x, "index", "rd");
    x := x + "index";
    MissingCharNotContained("es", "rd", 'd');
    PairNotContainedConcat(x, "es", "rd");
    x := x + "es";
    assert x == PccExample;
    assert "record count" == "reco" + "rd" + " count";
    assert "high record count" == "high reco" + "rd" + " count";
    if Contains(x, "record count") {
      ContainsLeft(x, "reco" + "rd", " count");
      ContainsRight(x, "reco", "rd");
    }
    if Contains(x, "high record count") {
      ContainsLeft(x, "high reco" + "rd", " count");
      ContainsRight(x, "high reco", "rd");
    }
  }

  /** The query starts with 'l' and has no 'q' and no 'y', so it passes
      none of the tests before the schema phrase other than the pcc_tssgui
      one. */
  lemma PccExampleMisses()
    ensures !StartsWithSelect(PccExample) && !RecordCountRequest(PccExample)
    ensures !SlowRequest(PccExample) && !FrequentSlowRequest(PccExample) && !ActiveRequest(PccExample)
  {
    var q := PccExample;
    assert 'q' !in q && 'y' !in q;
    MissingCharNotContained(q, "slow quer", 'q');
    MissingCharNotContained(q, "frequent", 'q');
    MissingCharNotContained(q, "active query", 'y');
    MissingCharNotContained(q, "pg_stat_activity", 'y');
    assert q[0] == 'l';
    NotSelect(q);
    PccExampleNoRecordCount();
  }

  /** As written, the example query of the pcc_tssgui branch never reaches
      the index ranking either: it passes that branch's test, but the
      schema-count test answers it first. */
  lemma PccExampleAsWritten()
    ensures PccIndexRequest(Lower(PccExample))
    ensures ClassifyAsWritten(PccExample).SchemaTableCount?
  {
    PccExampleIsLowerCase();
    PccExampleHasSchemaPhrase();
    PccExampleMentions();
    PccExampleMisses();
  }

  /** With the correction, the same query reaches the index ranking. */
  lemma PccExampleCorrected()
    ensures Classify(PccExample) == MostIndexedTable
  {
    PccExampleIsLowerCase();
    PccExampleMentions();
    PccExampleMisses();
  }
}
