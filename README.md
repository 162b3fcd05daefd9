# ybmetadata_ai: metadata aggregation and the natural-language query cascade

`ybmetadata_ai.py` is a command-line assistant for a PostgreSQL database. It
reads the catalog: columns, indexes, constraints, statistics and approximate
record counts. It merges the per-table data into one dictionary keyed by
`schema.table`. For each user question, it either passes the question to the
database as SQL or builds a prompt for a language model.

This project models the part between the database reads and the language
model:

- **Metadata** (`metadata.dfy`). This covers `get_metadata`, which groups
  column rows by qualified name, and `get_full_metadata`, which merges
  columns, indexes and constraints. It also covers `find_table_metadata`,
  `filter_metadata` and `summarize_metadata`.
- **Dictionary loops** (`dicts.dfy`). These are the three ways the program
  fills a Python dict:
  - `setdefault(k, []).append(v)` in a row loop;
  - `d[k] = d.get(k, 0) + 1` in a row loop;
  - a dict comprehension.

  A dict is an insertion-ordered `Dict` value: a key sequence plus a map.
  The loops are methods proved against specification functions.
- **Patterns** (`patterns.dfy`). These are scanners for the three regular
  expressions of `process_natural_language_query`:
  - `^\s*select` (case-insensitive);
  - `in\s+["']?(\w+)["']?\s+schema`;
  - `tables\s+with\s+(\w+)`.

  Each scanner is tied to a description of the strings its pattern accepts,
  in both directions. So the captured word is the one the regex engine
  returns.
- **Classifier** (`classifier.dfy`). This is `process_natural_language_query`:
  - the first-match-wins cascade of tests on the lower-cased query;
  - the data shaping in its branches: the top ten record counts, the count of
    tables in a schema, the most indexed `pcc_tssgui` table, the `java_abmf`
    tables without an index, and the 4000-character cut of the metadata
    payload;
  - the prompt texts.

  The database reads are an input record (`Fetched`), and `json.dumps` is an
  uninterpreted function parameter `dumps`.
- **Helpers** (`strings.dfy`, `sequences.dfy`). `strings.dfy` holds ASCII
  `str.lower()`, `startswith`, `endswith`, `in` and `str(n)`. `sequences.dfy`
  holds list filters, first-occurrence order, and the stable descending sort
  behind `sorted(..., key=..., reverse=True)`.

The method `Classifier.ProcessNaturalLanguageQuery` runs the cascade test by
test, in the program's order, returning at the first test that holds. Its
contract ties the answer to two functions:

- `ClassifyAsWritten`, which says which branch answers;
- `Respond`, which says what that branch returns.

The lemmas state what the branches promise.

The cascade has one defect, listed under Findings. The schema-count test at
line 284 matches the example queries of the two schema-specific index
branches, so those branches are never reached for their own examples. The
method keeps that behaviour. `Classify` is the evidently intended cascade,
in which the schema count gives way to those two requests; the lemmas
`Classifier.JavaExampleCorrected` and `Classifier.PccExampleCorrected` show
that it sends both examples to their branches, and
`Classifier.CorrectionOnlyRedirectsSchemaIndexRequests` proves that this is
the only difference between the two.

`find_table_metadata` matches a dotted name against the whole qualified
name, and an undotted name against any key whose lower-cased form ends with
`"." +` the lower-cased name (`Metadata.NameMatches`).

## Model

| member | source | states |
|---|---|---|
| Dicts.GroupRows | ybmetadata_ai.py:44-49 | the setdefault-append loop yields one key per distinct name, in order of first occurrence, each holding every value paired with it, in row order |
| Dicts.CountOccurrences | ybmetadata_ai.py:332-335 | the get-plus-one loop yields one key per distinct name, in order of first occurrence, each holding its number of occurrences |
| Dicts.FromPairsLastWins | ybmetadata_ai.py:202 | in the dict comprehension of the record counts, each key holds the value of the last row with that key |
| Metadata.GetMetadata | ybmetadata_ai.py:44-50 | keys are the distinct qualified names of the column rows in row order; each holds that table's columns in row order, and none is empty |
| Metadata.GetFullMetadata | ybmetadata_ai.py:112-134 | keys are exactly those of the column map, in the same order; columns are the table's column rows; indexes are the index rows whose qualified name equals the key case-insensitively; constraints are the constraint rows with exactly that name, or [] when there are none |
| Metadata.MergedAll | ybmetadata_ai.py:117-133 | once every table is merged, every entry's constraints are its exact-name constraint rows, [] for a table with none |
| Metadata.IndexesFor | ybmetadata_ai.py:130-131 | an index is listed exactly when some index row names the table case-insensitively; the list is no longer than the rows |
| Metadata.IndexesForAppend | ybmetadata_ai.py:130-131 | the index list keeps row order: it distributes over concatenation of the index rows |
| Metadata.FirstMatch | ybmetadata_ai.py:59-67 | the position of the first key that matches, or -1 when no key matches |
| Metadata.FindTableMetadata | ybmetadata_ai.py:52-67 | returns the first (key, value) entry of the map, in dict order, whose name matches; a dotted query must equal the name case-insensitively, an undotted one must end it after a dot; None when nothing matches |
| Metadata.LookupByQualifiedName | ybmetadata_ai.py:59-62 | looking a table up by its own qualified name finds it, or an earlier key spelled the same up to letter case |
| Metadata.LookupByTableName | ybmetadata_ai.py:64-66 | looking up a bare table name finds the first key that ends with "." + that name, case-insensitively |
| Metadata.FilterMetadata | ybmetadata_ai.py:238-243 | keeps exactly the entries whose lower-cased name contains the lower-cased keyword, with their values, in dict order |
| Metadata.SummarizeMetadata | ybmetadata_ai.py:245-249 | the list is the dict's keys in dict order, so every table name occurs once |
| Sequences.SortDescHead | ybmetadata_ai.py:336-338 | the stable descending sort starts with the first element of greatest count |
| Sequences.TopKeepsLargest | ybmetadata_ai.py:274 | an element the top-n slice leaves out counts no more than any kept one, and is left out only when n are kept |
| Sequences.DistinctKeepsFirstOccurrenceOrder | ybmetadata_ai.py:332-336 | dict keys filled by insertion come in order of first occurrence |
| Patterns.StartsWithSelectIffPattern | ybmetadata_ai.py:268 | the select scanner accepts exactly the strings made of whitespace and then "select" in any letter case |
| Patterns.SelectIgnoresCase | ybmetadata_ai.py:268 | the select test gives the same answer on the query and on its lower-case form |
| Patterns.SchemaPhraseSound | ybmetadata_ai.py:284 | every capture of the schema scanner comes from a match of `in\s+["']?(\w+)["']?\s+schema` at that position |
| Patterns.SchemaPhraseComplete | ybmetadata_ai.py:284 | every match of the schema pattern at a position yields the scanner's capture there |
| Patterns.SchemaPhraseNeedsSchema | ybmetadata_ai.py:284 | the schema pattern never matches a text without "schema" |
| Patterns.SchemaMatchFrom | ybmetadata_ai.py:284 | re.search's leftmost match: the first position where the pattern matches, none before it |
| Patterns.TablesWithSound | ybmetadata_ai.py:377 | every capture of the tables-with scanner comes from a match of `tables\s+with\s+(\w+)` with the greedy word |
| Patterns.TablesWithComplete | ybmetadata_ai.py:377 | every such match yields the scanner's capture |
| Patterns.TablesWithMatchFrom | ybmetadata_ai.py:377 | the first position where the tables-with pattern matches, none before it |
| Strings.NatToStringRoundTrip | ybmetadata_ai.py:289 | the rendered table count reads back as the count |
| Strings.IntToStringRoundTrip | ybmetadata_ai.py:341 | the rendered index count, sign included, reads back as the count |
| Classifier.TopTableCountsRanked | ybmetadata_ai.py:273-274 | the record-count payload holds min(10, number of tables) pairs, no table twice, in non-increasing count order, each a (table, count) entry of the counts map |
| Classifier.RecordCountsKeepLargest | ybmetadata_ai.py:274 | a table left out of the top ten has no more records than any table in it, and tables are left out only when ten are kept |
| Classifier.TablesInSchemaCounts | ybmetadata_ai.py:287-293 | the schema branch counts every table for "all" or "entire", otherwise the tables whose lower-case name starts with the lower-case schema and a dot |
| Classifier.PccTableNamesAreIndexedTables | ybmetadata_ai.py:331-334 | the names counted are exactly the qualified names of the index rows whose schema is pcc_tssgui in any letter case |
| Classifier.MostIndexedIsFirstMaximum | ybmetadata_ai.py:336-345 | the reported table has the most pcc_tssgui index rows, and among tables with as many it is the one met first; there is none only when there are no such rows |
| Classifier.MostIndexedReport | ybmetadata_ai.py:329-346 | the count-rank-report loop returns the answer that MostIndexedIsFirstMaximum characterises |
| Classifier.ZeroIndexTablesAreUnindexed | ybmetadata_ai.py:350-353 | lists each java_abmf table of the metadata once, exactly when no java_abmf index row names it case-insensitively |
| Classifier.ZeroIndexReport | ybmetadata_ai.py:349-363 | the java_abmf branch returns the fixed all-indexed prompt exactly when every java_abmf table of the metadata has a java_abmf index row naming it case-insensitively, and the prompt listing the zero-index tables otherwise |
| Classifier.Truncate | ybmetadata_ai.py:386-388 | a payload of at most 4000 characters is kept verbatim; a longer one becomes its first 4000 characters followed by the truncation marker |
| Classifier.TruncateIdempotent | ybmetadata_ai.py:386-388 | cutting an already cut payload changes nothing |
| Classifier.MetadataPromptCarriesQuery | ybmetadata_ai.py:390-395 | the metadata prompt contains the serialised metadata and the user's query verbatim |
| Classifier.MetadataPromptBounded | ybmetadata_ai.py:386-395 | the metadata prompt is at most its fixed text, 4000 characters, the marker and the query long |
| Classifier.MetadataTextLength | ybmetadata_ai.py:390-395 | the metadata prompt is its fixed text plus the payload plus the query |
| Classifier.ProcessNaturalLanguageQuery | ybmetadata_ai.py:251-396 | the answer is the answer of the branch the cascade, in the program's order, selects for the query |
| Classifier.AnswerLater | ybmetadata_ai.py:298-326 | after the schema test: the slow, frequent-and-slow and active branches in that order, then the index branches |
| Classifier.AnswerIndexQuestion | ybmetadata_ai.py:328-374 | the pcc_tssgui, java_abmf and general index branches in that order, then the metadata question |
| Classifier.AskAboutMetadata | ybmetadata_ai.py:377-396 | the keyword-filtered or summarised metadata, serialised and cut to 4000 characters, in the metadata prompt with the query |
| Classifier.SelectWins | ybmetadata_ai.py:265-269 | whitespace, "select" in any letter case and anything at all is answered ("sql", query) with the query unchanged, whatever keywords follow, under both cascades |
| Classifier.RecordCountTestIsOnePhrase | ybmetadata_ai.py:272 | the record-count test holds exactly when the query contains "record count" |
| Classifier.IndexTestIsOnePhrase | ybmetadata_ai.py:366 | the general index test holds exactly when the query contains "index" |
| Classifier.FrequentSlowQueriesGoToSlowQueries | ybmetadata_ai.py:298-316 | "frequent slow queries" passes the frequent-and-slow test but is answered by the slow-query branch tested before it |
| Classifier.CorrectionOnlyRedirectsSchemaIndexRequests | ybmetadata_ai.py:284-363 | the corrected cascade differs from the written one only on queries the written one sends to the schema count and that are pcc_tssgui or java_abmf index requests |
| Classifier.JavaExampleAsWritten | ybmetadata_ai.py:284-295 | as written, the example query of the java_abmf branch is a zero-index request, yet it is answered with a schema table count |
| Classifier.JavaExampleCorrected | ybmetadata_ai.py:349-363 | with the correction, that query reaches the zero-index branch |
| Classifier.PccExampleAsWritten | ybmetadata_ai.py:284-295 | as written, the example query of the pcc_tssgui branch passes its test, yet it is answered with a schema table count |
| Classifier.PccExampleCorrected | ybmetadata_ai.py:328-346 | with the correction, that query reaches the index ranking |
| Classifier.SchemaIndexBranchesBeforeIndexReport | ybmetadata_ai.py:328-374 | a pcc_tssgui or java_abmf index request always passes the general index test, yet the index branches send it to its own schema-specific branch, never to the general index report |

## Left out

- Database I/O. The connection, the cursors and the catalog SQL of the `get_*` readers are not modelled; their rows are inputs, so the ORDER BY of each query is whatever order the input sequences have.
- `execute_sql_query` and the OpenAI call `generate_openai_response` are not modelled. The model stops at the ("sql", query) or ("llm", prompt) pair.
- `main`'s read loop, its printing and the global API key are not modelled; they are user interface.
- `json.dumps(..., indent=2)` is an uninterpreted function `dumps` over the values it serialises. Its formatting, and so the actual length of a payload, is not modelled; the 4000-character cut is modelled on its output.
- The float columns of the statistics rows (`mean_time`, `total_time`) only pass through to serialisation and are left out of the row types.
- Regular expressions are modelled only as the three fixed patterns, on ASCII text: `\s` is space, tab, newline, vertical tab, form feed, carriage return and the separators `\x1c` to `\x1f`; `\w` is ASCII letters, digits and underscore. The non-ASCII characters that Python's Unicode `\s`, `\w` and `str.lower()` accept are not modelled.
- Classifier.Text: the prompt of each branch is a `Prompt` value naming its template and the data in it; `Text` spells out each template as the program writes it, but no lemma is stated about the templates other than the metadata prompt.

## Findings

| source | as written | input that shows it | evidently intended | confidence | as-written member | corrected member |
|---|---|---|---|---|---|---|
| ybmetadata_ai.py:284-295 | the schema-count test `in\s+["']?(\w+)["']?\s+schema` runs before the two schema-specific index branches and matches any query containing "in <word> schema" | "list a table which has got zero indexes in java_abmf schema", the example query of the java_abmf branch (line 348) | that query reaches the zero-index branch (lines 349-363), as its own example states | not executed | Classifier.JavaExampleAsWritten | Classifier.JavaExampleCorrected |
| ybmetadata_ai.py:284-295 | the same schema-count test also runs before the pcc_tssgui index branch | "list the table in pcc_tssgui schema which has more indexes", the example query of the pcc_tssgui branch (line 328) | that query reaches the index ranking (lines 329-346), as its own example states | not executed | Classifier.PccExampleAsWritten | Classifier.PccExampleCorrected |
