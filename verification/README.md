# SQL clause extractor

This project models the clause extractor of Orange's SQL data layer
(`Orange/data/sql/parser.py`) in Dafny. A SELECT statement arrives as its
top-level tokens, already produced and grouped by the tokenizer. Some tokens
are groups with children: a WHERE clause, an identifier, an identifier list.
The extractor does two things:

- `find_keywords` builds a table from each keyword of a fixed vocabulary to the
  offset of the token that holds it. In strict mode it rejects any keyword
  outside the vocabulary.
- The parser object answers queries over that table: the SELECT list as
  (expression, alias) pairs, the source clause after FROM, the body of the
  WHERE clause, and the statement without its LIMIT. Each answer is the text of
  a token range after `extract`. `extract` flattens the range to its leaves and
  replaces every whitespace leaf by one space.

Modules, one file each:

- `Wrappers` (`wrappers.dfy`): `Option` and `Result`.
- `Tokens` (`tokens.dfy`): the token tree the tokenizer hands over, its
  `flatten` and its text.
- `Extraction` (`extract.dfy`): `extract`. The method `Extract` and its
  in-place loop `BlankWhitespace` are proved against the function `Normalized`.
- `Keywords` (`keywords.dfy`): `find_keywords` and the exceptions. The method
  `FindKeywords` is proved against the function `Table`.
- `SqlParser` (`sql_parser.dfy`): the keyword vocabulary, the constructor and
  the queries. It also holds the positional pairing of `fields_with_types`.
- `Scenarios` (`scenarios.dfy`): concrete statements.

Python exceptions become `Result.Failure` values:

- `ValueError("Unsupported keyword …")` is `UnsupportedKeyword`.
- A `KeyError` on the keyword table is `MissingKeyword`.
- The `AttributeError` from asking a leaf token for `.tokens` is `NotAGroup`.

Python slices whose start lies past their stop are empty, and the model does
the same.

## Behaviour worth knowing

- The keyword table keeps the LAST occurrence of a keyword. Each match is
  stored under its key, so a later match overwrites an earlier one (lines 96
  and 99). One consequence: `from_` stops at the earliest *last* occurrence
  among the terminating keywords. A terminator that occurs twice can
  therefore appear inside the source clause. `FromClauseStopsAtTerminators`
  states exactly what holds: every terminator inside the clause occurs again
  later. `DuplicateLimitTable` shows the table keeping the second LIMIT of
  `FROM t LIMIT 1 LIMIT`.
- `extract` replaces each whitespace leaf on its own (lines 105-107). It does
  not collapse runs. A newline leaf followed by a spaces leaf gives two spaces
  (`AdjacentWhitespaceKept`).
- No query trims its result (lines 71, 77 and 84). The whitespace leaves next
  to a clause stay in the text as single spaces. For example, the source
  clause of `SELECT a FROM t GROUP BY a` is `" t "`, not `"t"`.

## Model

| member | source | states |
|---|---|---|
| `Tokens.Upper` | Orange/data/sql/parser.py:92 | upper-casing keeps the length and upper-cases each character in place |
| `Tokens.Value` | Orange/data/sql/parser.py:41 | a leaf's text is its own text; a group's text is the text of its children |
| `Tokens.Flatten` | Orange/data/sql/parser.py:104 | flattening a token range yields only leaves |
| `Tokens.FlattenAppend` | Orange/data/sql/parser.py:104 | flattening distributes over concatenation of ranges |
| `Tokens.FlattenLeaves` | Orange/data/sql/parser.py:104 | a range of leaves flattens to itself |
| `Tokens.FlattenGroup` | Orange/data/sql/parser.py:104 | a group flattens to the leaves of its children |
| `Tokens.JoinFlatten` | Orange/data/sql/parser.py:104 | the leaves of a range spell the same text as the range itself, the text a group's `value` reads (line 41) |
| `Tokens.JoinAppend` | Orange/data/sql/parser.py:108 | the text of a concatenation is the concatenation of the texts |
| `Extraction.Normalized` | Orange/data/sql/parser.py:103-108 | the list `extract` returns has one leaf per leaf of the flattening |
| `Extraction.Render` | Orange/data/sql/parser.py:103-108 | the text of `extract` on an empty range is empty; on a single leaf it is one space for whitespace and the leaf's text otherwise |
| `Extraction.RenderBaseCases` | Orange/data/sql/parser.py:103-108 | the text of `extract` on an empty range is empty, and on a single leaf is one space for whitespace and the leaf's own text otherwise |
| `Extraction.BlankWhitespace` | Orange/data/sql/parser.py:105-107 | the loop leaves every whitespace leaf of the list as a single space and every other leaf as it was |
| `Extraction.Extract` | Orange/data/sql/parser.py:103-108 | `extract` returns the normalised flattening of its range |
| `Extraction.ExtractKeepsLeaves` | Orange/data/sql/parser.py:103-108 | same leaf count and order as the flattening; whitespace leaves become `" "`, other leaves are unchanged |
| `Extraction.ExtractIdempotent` | Orange/data/sql/parser.py:103-108 | applying `extract` to its own result changes nothing |
| `Extraction.ExtractAppend` | Orange/data/sql/parser.py:103-108 | extracting `a + b` gives the extraction of `a` followed by that of `b` |
| `Extraction.RenderAppend` | Orange/data/sql/parser.py:103-108 | the text of an extracted concatenation is the concatenation of the texts |
| `Extraction.RenderIdempotent` | Orange/data/sql/parser.py:103-108 | applying `extract` again to the leaf list `extract` returned gives the same text |
| `Extraction.AdjacentWhitespaceKept` | Orange/data/sql/parser.py:105-107 | a newline leaf followed by a spaces leaf renders as two spaces, because runs are not collapsed |
| `Keywords.Mark` | Orange/data/sql/parser.py:95-99 | the key a token records is always in the vocabulary |
| `Keywords.Rejects` | Orange/data/sql/parser.py:90-92 | a rejected token records no key; a Keyword leaf is rejected exactly when it records no key |
| `Keywords.Table` | Orange/data/sql/parser.py:87-100 | every key of the table is in the vocabulary, and every offset is a valid index |
| `Keywords.TableRecordsLastOccurrences` | Orange/data/sql/parser.py:95-99 | each key maps to a token that records it, and no later token records it again; every recorded key is in the table |
| `Keywords.LastOccurrencesDetermineTable` | Orange/data/sql/parser.py:88-100 | any map meeting that last-occurrence description equals the table |
| `Keywords.TableEntryPointsAtKeyword` | Orange/data/sql/parser.py:95-99 | an entry points at a Keyword or DML leaf whose upper-cased text is the key, or, for WHERE, at a WHERE group |
| `Keywords.FindKeywords` | Orange/data/sql/parser.py:87-100 | fails exactly in strict mode when some Keyword leaf is outside the vocabulary, naming the first such keyword in upper case; a non-strict call never fails; on success the result is the last-occurrence table |
| `SqlParser.Create` | Orange/data/sql/parser.py:16-20 | construction uses strict mode with the whole vocabulary; it succeeds exactly when no token is rejected, and then keeps the tokens and their table; otherwise it names the first rejected keyword |
| `SqlParser.Between` | Orange/data/sql/parser.py:71 | a slice whose start is past its stop is empty; otherwise it holds the tokens from start to stop, in order |
| `SqlParser.MinOffset` | Orange/data/sql/parser.py:68-69 | the result is at most the default, at most every recorded offset of the given keys, and equal to one of them or to the default |
| `SqlParser.ClauseEnd` | Orange/data/sql/parser.py:68-69 | the source clause ends at the earliest recorded terminator, or at the end of the statement |
| `SqlParser.ClauseEndUnique` | Orange/data/sql/parser.py:68-69 | only one offset meets that description |
| `SqlParser.FromClause` | Orange/data/sql/parser.py:66-71 | raises a missing-key error without FROM; otherwise renders the tokens strictly after FROM up to any offset that meets the clause-end description, empty when the end comes first |
| `SqlParser.FromClauseStopsAtTerminators` | Orange/data/sql/parser.py:66-71 | a terminating keyword inside the source clause always occurs again later, so a terminator that occurs once never lies inside |
| `SqlParser.WhereClause` | Orange/data/sql/parser.py:73-77 | absent exactly when there is no WHERE entry; for a WHERE group, the first child's text followed by the result is the group's text, and a group without children gives the empty text; a WHERE recorded at a leaf raises |
| `SqlParser.SqlWithoutLimit` | Orange/data/sql/parser.py:79-84 | the whole statement without LIMIT; otherwise the text before the LIMIT keyword, which followed by the text from LIMIT on is the whole statement's text |
| `SqlParser.ColumnSplitsAtLastAs` | Orange/data/sql/parser.py:33-41 | without an AS child both components are the identifier's raw text; otherwise the texts before and after the last AS child |
| `SqlParser.ParseColumns` | Orange/data/sql/parser.py:31-41 | one pair per identifier, in order; raises exactly when some identifier is a leaf |
| `SqlParser.GetIdentifiers` | Orange/data/sql/parser.py:29 | the identifier list's children, without whitespace and commas |
| `SqlParser.GetIdentifiersAppend` | Orange/data/sql/parser.py:29 | the identifiers of two ranges of children are those of the first followed by those of the second, so order and repeats are kept |
| `SqlParser.GetIdentifiersSingle` | Orange/data/sql/parser.py:29 | a single child is kept exactly when it is neither whitespace nor a comma |
| `SqlParser.Candidates` | Orange/data/sql/parser.py:26-29 | an identifier stands for itself; an identifier list stands for `get_identifiers` of its children, so order and repeats are kept |
| `SqlParser.SelectListColumns` | Orange/data/sql/parser.py:24-29 | absent exactly when the region holds no identifier or identifier list; otherwise the columns of the first one, raising exactly when one of its identifiers is a leaf |
| `SqlParser.Fields` | Orange/data/sql/parser.py:22-29 | raises without SELECT or FROM; absent exactly when no identifier or identifier list lies strictly between them; otherwise the columns of the first one |
| `SqlParser.PairFieldTypes` | Orange/data/sql/parser.py:55-62 | without parsed fields, one row per column with the quoted name as expression; otherwise rows zipped with fields, as long as the shorter, each taking its field's expression |
| `Scenarios.DuplicateLimitTable` | Orange/data/sql/parser.py:95-99 | the table of `FROM t LIMIT 1 LIMIT` maps LIMIT to the second occurrence |
| `Scenarios.FetchFirstRejected` | Orange/data/sql/parser.py:90-93 | in `SELECT a FROM t FETCH FIRST 5 ROWS ONLY`, FETCH is the first keyword strict mode rejects |

## Left out

- Tokenizing and grouping the SQL string (`sqlparse.parse`, lines 1-3 and 17) come from a foreign library. The model takes the top-level tokens as its input. It does not capture the library's token-type hierarchy: a token is a leaf of one of five kinds or a group of one of four kinds.
- Keyword matching (`Token.match`) is modelled as "Keyword or DML leaf whose upper-cased text is in the vocabulary". Upper-casing covers ASCII letters only; Python's Unicode case mapping is not modelled.
- `get_identifiers` belongs to the tokenizer library. It is modelled as dropping whitespace leaves and comma punctuation from the list's children.
- `fields_with_types` (lines 43-64) is modelled only through its positional pairing (`PairFieldTypes`). Left out are creating, querying and dropping the temporary table, the commit, and the `print`. The database's rows are a parameter. The constant empty fourth element of each yielded tuple is dropped, and so is an exception from `self.fields` inside the generator.
- `extract` rewrites the value of leaf objects that the parser's own token tree shares. The model rewrites a fresh array of leaf values, so that aliasing is not captured. No modelled query can observe it: every query renormalises its leaves, and an identifier's raw text is fixed when the statement is parsed.
- `parse_columns` is a generator. The model builds its list eagerly, which is what `fields` does with `list(...)`.
- Exception messages are not modelled, apart from the upper-cased keyword that `UnsupportedKeyword` carries.
