# Natural-language-to-SQL chart dashboard: a Dafny model of its core

The dashboard is made of two parts:

- **A React page.** A user types a question and presses Ask. The page shows the SQL the
  back end produced, the result (as a chart or as raw JSON) and a one-sentence explanation.
- **A Django view.** It builds a prompt from the live MySQL schema, asks a language model for
  a statement, pulls the statement out of the reply with a regular expression, runs it,
  turns the rows into dicts and asks the model to summarise them.

This project models the logic in between, with the I/O removed.

Front end (`frontend/src/App.jsx`):

- `JsValues`: JavaScript values, `typeof`, a row as an ordered key/value list, and
  `Number()` on integers (NaN is `None`).
- `ResultClassifier`: `isChartable`, `getLabelKey`, `getValueKey`, and which output section
  the page shows.
- `ChartAdapter`: `chartData`, the scatter and bubble point lists with their column-count
  notices, the bubble radius clamp, and the chart-kind switch of `renderChart`.
- `QueryPanel`: the state hooks, the Ask button's `disabled` guard, and `handleAsk`. The
  panel is a class whose fields the handler updates step by step.

Back end (`backend/api/views.py`):

- `SqlExtraction`: the search for `(SELECT|UPDATE|INSERT|DELETE)[\s\S]+?;` under
  `re.IGNORECASE`, as a leftmost-position search with a lazy scan to the first `;`, followed
  by `str.strip()`.
- `RowAssembly`: `[dict(zip(columns, row)) for row in rows]`. A dict is modelled as its pairs
  in insertion order.
- `SchemaText`: the schema string that `get_mysql_schema` grows in its nested loops, as a
  method with loop invariants proved against a specification function.
- `AskHandler`: `AskQuestionAPIView.post` with its early returns. The language model and
  the database are function parameters, and the method also returns the external calls it
  made, in order.

A result is chartable under a looser rule than "one string column and one number column".
The code asks only for a non-empty array whose first row has at least two keys and
whose first two values are not of type `"object"`. A result of two boolean columns, or
of a string and an `undefined`, is therefore charted. The model follows the code, and
`ChartableIff` states its rule.

## Model

| member | source | states |
|---|---|---|
| JsValues.TypeOf | frontend/src/App.jsx:69-70 | `typeof` is "object" exactly for null, objects and arrays; "string" and "number" exactly for strings and numbers |
| JsValues.Get | frontend/src/App.jsx:69 | `row[k]` is `undefined` for an absent key, and otherwise a value stored under `k` |
| JsValues.GetStored | frontend/src/App.jsx:66-70 | in a row with distinct keys, reading the key of pair i gives the value of pair i |
| JsValues.TrimJsStart | frontend/src/App.jsx:174 | `Number()` on a string first drops JavaScript whitespace from the front: the result is a suffix, and the dropped characters are all whitespace |
| JsValues.TrimJsEnd | frontend/src/App.jsx:174 | the same for the end of the string: the result is a prefix, and the dropped characters are all whitespace |
| ResultClassifier.IsChartable | frontend/src/App.jsx:64-72 | `isChartable()` holds only for an array with a first row of at least two keys |
| JsValues.TrimJsStartPadded | frontend/src/App.jsx:174 | leading whitespace before a non-whitespace character is removed, and nothing else |
| JsValues.TrimJsEndPadded | frontend/src/App.jsx:174 | trailing whitespace after a non-whitespace character is removed, and nothing else |
| JsValues.TrimPadded | frontend/src/App.jsx:174 | trimming a whitespace-padded string that starts and ends with non-whitespace gives back the string |
| JsValues.SignedNumeral | frontend/src/App.jsx:174 | a trimmed numeral made of an optional sign and decimal digits has the digits' value, negated for "-" |
| JsValues.NumberOfDigits | frontend/src/App.jsx:174 | `Number()` of an optionally signed run of decimal digits, padded with any whitespace, is its value |
| JsValues.NumeralNaN | frontend/src/App.jsx:174 | a trimmed numeral that is a lone sign, or that holds a character other than a digit or a leading sign, is NaN |
| JsValues.NumberOfSpaces | frontend/src/App.jsx:174 | `Number()` of the empty string or of whitespace only is 0 |
| JsValues.NumberNaN | frontend/src/App.jsx:174 | `Number()` of a string whose trimmed text is a lone sign, or holds a character other than a digit or a leading sign, is NaN, so the bubble radius falls back to 10 |
| JsValues.ToNumber | frontend/src/App.jsx:174 | `Number(n)` is `n`, `Number(true)` is 1 and `Number(false)` 0, `Number(null)` and `Number([])` are 0; undefined, objects and arrays of two or more elements give NaN; on a string it is the string conversion |
| ResultClassifier.ChartableIff | frontend/src/App.jsx:64-72 | a result is chartable exactly when it is a non-empty array whose first row has at least two keys and whose first two cells are none of null, object or array; null, undefined and `[]` are never chartable |
| ResultClassifier.GetLabelKey | frontend/src/App.jsx:74-77 | the label key is the first key when the first cell is a string, and the second key otherwise |
| ResultClassifier.GetValueKey | frontend/src/App.jsx:79-82 | the value key is the first key when the first cell is a number, and the second key otherwise |
| ResultClassifier.LabelValueSelection | frontend/src/App.jsx:74-82 | a string first cell gives label = key 0 and value = key 1; a number first cell swaps them; any other first cell makes both key 1 |
| ResultClassifier.OutputSection | frontend/src/App.jsx:286-301 | the chart section shows exactly for a chartable result, and the raw section exactly for a non-chartable non-empty array; a null or undefined result makes the raw-output test throw; `[]` shows neither |
| ChartAdapter.ChartDataOf | frontend/src/App.jsx:84-100 | built with `Pluck` (`result.map((row) => row[key])`): one dataset labelled with the value key and coloured with the eight-colour palette; labels and data have one entry per row in row order, `labels[i] = result[i][labelKey]` and `data[i] = result[i][valueKey]` |
| ChartAdapter.ChartDataColumns | frontend/src/App.jsx:84-100 | for rows sharing the first row's keys: with a string first column, labels are column 0 and data column 1; with a number first column, the other way round |
| ChartAdapter.BubbleRadius | frontend/src/App.jsx:174 | the radius always lies in [5, 20]; it is 10 when `Number()` is NaN, the number itself inside [5, 20], 5 below and 20 above |
| ChartAdapter.ScatterView | frontend/src/App.jsx:138-161 | the notice "Scatter chart requires 2 numeric fields." appears exactly when the first row has fewer than two keys; otherwise one point per row with x and y read from the first two keys, labelled with the value key |
| ChartAdapter.BubbleView | frontend/src/App.jsx:162-189 | the notice "Bubble chart requires 3 numeric fields." appears exactly when the first row has fewer than three keys; otherwise one bubble per row labelled with the third key, with x and y read from the first two keys and radius `BubbleRadius` of the third key's value: in [5, 20], and 10 for a NaN size |
| ChartAdapter.RenderChart | frontend/src/App.jsx:109-193 | for a chartable result a notice appears exactly for "bubble" with fewer than three keys, and it is the bubble notice; "scatter" draws exactly the scatter branch (one point per row) and "bubble" exactly the bubble branch; every other kind, unknown kinds included, draws the `chartData()` object with the component of its case (pie, doughnut, line, polar area, radar, and bar for "bar", "hbar" and anything else), horizontally exactly for "hbar" |
| ChartAdapter.DepartmentCountsExample | frontend/src/App.jsx:84-121 | a two-row department/count result is chartable and draws a bar chart of the counts labelled by department |
| QueryPanel.ErrorBanner | frontend/src/App.jsx:58 | the banner is "❌ " followed by the server's error message, or by "Something went wrong" when that message is absent or empty |
| QueryPanel.CanSubmit | frontend/src/App.jsx:237 | the Ask button is enabled only when no request is outstanding and the question is non-empty |
| QueryPanel.Submitted | frontend/src/App.jsx:46-50 | the state after the first half of `handleAsk`: loading, the button disabled, error, result, explanation and SQL cleared, question and chart kind kept |
| QueryPanel.Settled | frontend/src/App.jsx:52-61 | the state after the request settles: loading off in both cases; a success stores the three fields and keeps the error; a failure sets the banner and keeps result, explanation and SQL |
| QueryPanel.NoSubmitWhileAsking | frontend/src/App.jsx:237 | once a submission has started, the Ask button is disabled |
| QueryPanel.AskSucceeds | frontend/src/App.jsx:45-62 | after a success the result, explanation and SQL are the response's fields verbatim, the error is empty and loading is off; question and chart kind are untouched |
| QueryPanel.AskFails | frontend/src/App.jsx:45-62 | after a failure the error is the banner (never empty), loading is off, and result, explanation and SQL stay cleared |
| QueryPanel.ResubmittableAfterOutcome | frontend/src/App.jsx:237 | whatever the outcome, the same question can be submitted again |
| QueryPanel.Panel.constructor | frontend/src/App.jsx:37-43 | the state hooks start as "", [], "", "", false, "" and "bar" |
| QueryPanel.Panel.SetQuestion | frontend/src/App.jsx:231 | typing changes the question and nothing else |
| QueryPanel.Panel.SetVisualType | frontend/src/App.jsx:269 | the chart selector changes the chart kind and nothing else |
| QueryPanel.Panel.BeginAsk | frontend/src/App.jsx:45-50 | callable only when the button is enabled; sets loading and clears error, result, explanation and SQL, after which the button is disabled |
| QueryPanel.Panel.FinishAsk | frontend/src/App.jsx:52-61 | stores the response fields or the error banner, then clears loading |
| QueryPanel.Panel.HandleAsk | frontend/src/App.jsx:45-62 | a whole submission from an enabled button: the new state is the settled state of the submitted state, and the button is enabled again |
| SqlExtraction.FirstSemicolon | backend/api/views.py:82 | finds the first `;` at or after a position, and reports none only when there is none |
| SqlExtraction.MatchEndSpec | backend/api/views.py:82 | `MatchEnd`, the match tried at a position ends at the first `;` at least one character past the keyword, and there is no match there exactly when no position fits |
| SqlExtraction.SearchFromSpec | backend/api/views.py:82 | `SearchFrom` (and `Search`, which starts it at 0) returns the leftmost position that starts a match, and returns nothing only when no position does |
| SqlExtraction.SpaceRunEnd | backend/api/views.py:87 | the run of Python whitespace from a position ends at the first character that is not whitespace, or at the end of the string |
| SqlExtraction.SpaceRunStart | backend/api/views.py:87 | the run of Python whitespace before a position starts just after the last character that is not whitespace, or at the lower bound |
| SqlExtraction.StripSpec | backend/api/views.py:87 | `strip()` keeps one slice of the string: everything it drops before and after is whitespace, and the kept text neither starts nor ends with whitespace |
| SqlExtraction.StripUnchanged | backend/api/views.py:87 | a string that starts and ends with non-whitespace is left unchanged by `strip()` |
| SqlExtraction.KeywordLetters | backend/api/views.py:82-87 | a character that matches a keyword letter is neither whitespace nor `;` |
| SqlExtraction.OneAlternative | backend/api/views.py:82 | the four keywords start with different letters, even ignoring case, so at most one alternative matches at a position |
| SqlExtraction.MatchShape | backend/api/views.py:82-87 | the text of a match starts with a keyword, ends with `;`, has no `;` between keyword end + 1 and its last character, and is unchanged by `strip()` |
| SqlExtraction.ExtractSqlSpec | backend/api/views.py:82-87 | `ExtractSql` gives no statement exactly when no position starts a match; otherwise the statement is the leftmost match's text, unchanged by `strip()`, with the shape above |
| SqlExtraction.ExtractedShape | backend/api/views.py:82-87 | every extracted statement has the keyword / `;` shape |
| SqlExtraction.NoKeywordAt | backend/api/views.py:82 | a position whose character cannot start a keyword starts no match |
| SqlExtraction.LeftmostLazyExample | backend/api/views.py:82-87 | from "Q: select a; b;" the statement "select a;" is extracted, starting at the first keyword and stopping at the first `;` |
| SqlExtraction.SemicolonRightAfterKeywordExample | backend/api/views.py:82-85 | "SELECT;" holds no statement: at least one character must come between the keyword and the `;` |
| SqlExtraction.SemicolonAfterKeywordExample | backend/api/views.py:82-87 | "SELECT;;" yields itself: the one required character may itself be `;` |
| RowAssembly.Zip | backend/api/views.py:95 | `zip` pairs the columns with the row's values position by position, up to the shorter of the two |
| RowAssembly.Lookup | backend/api/views.py:95 | looking up a key gives nothing exactly when the key is absent |
| RowAssembly.SetItem | backend/api/views.py:95 | setting a present key keeps the key order; a new key goes last |
| RowAssembly.SetItemLookup | backend/api/views.py:95 | after `d[k] = v`, `k` maps to `v` and every other key to its old value |
| RowAssembly.UniqueKeysIff | backend/api/views.py:95 | a dict's keys are distinct exactly when its key list has no repeats |
| RowAssembly.SetItemUnique | backend/api/views.py:95 | setting an item keeps the keys distinct |
| RowAssembly.DictOf | backend/api/views.py:95 | `dict(pairs)` holds each key once |
| RowAssembly.DictOfLookup | backend/api/views.py:95 | in `dict(pairs)` each key maps to the value of its last pair, so a later repeated column wins |
| RowAssembly.DictOfKeys | backend/api/views.py:95 | the keys of `dict(pairs)` are the pair keys in order of first appearance |
| RowAssembly.FirstAppearancesMembers | backend/api/views.py:95 | the first-appearance list has the same members as the key list |
| RowAssembly.LastValueAt | backend/api/views.py:95 | the value of the last pair with a key is the one found |
| RowAssembly.FirstAppearancesOfDistinct | backend/api/views.py:95 | a key list without repeats is its own first-appearance list |
| RowAssembly.RowsToDicts | backend/api/views.py:94-95 | one dict per fetched row, in row order, each built from that row zipped with the columns |
| RowAssembly.RowDict | backend/api/views.py:95 | in a row's dict, `columns[j]` maps to `row[j]` for j below both lengths, unless a later zipped column repeats the name |
| RowAssembly.RowDictMissing | backend/api/views.py:95 | a name outside the zipped columns is absent from the row's dict |
| RowAssembly.DistinctColumns | backend/api/views.py:94-95 | with distinct column names, each row's dict maps the column at j to the row's value at j |
| RowAssembly.DistinctColumnKeys | backend/api/views.py:94-95 | with distinct column names, each row's dict has exactly the zipped columns as keys, in column order, for every row including an empty one |
| SchemaText.ColumnLinesSnoc | backend/api/views.py:41-42 | one more column appends one more "- name (type)" line |
| SchemaText.TablesTextAppend | backend/api/views.py:37-43 | the text of fully listed tables followed by more tables is the two texts joined |
| SchemaText.FirstFailure | backend/api/views.py:37-45 | when a table's columns cannot be listed, the text is the blocks of the tables before it followed by "# Error retrieving schema: " and the message, with nothing for later tables |
| SchemaText.BlockLines | backend/api/views.py:40-43 | the literal block text for a table of zero columns ("Table: t\nColumns:\n\n") and of one column |
| SchemaText.BlockLinesSnoc | backend/api/views.py:40-43 | a block with one more column is the header, the earlier column lines, that column's "- name (type)" line, then the blank line: so a block is the header, one line per column in order, then "\n" |
| SchemaText.TablesTextSnoc | backend/api/views.py:37-43 | one more listed table appends its header, its column lines and "\n" |
| SchemaText.AppendColumnLines | backend/api/views.py:41-42 | the inner loop appends the column lines, in order, to what was built before |
| SchemaText.GetMysqlSchema | backend/api/views.py:27-48 | the method's string is `SchemaOf` of the listing, that is the error line alone when the tables cannot be listed, and otherwise `TablesText`: the table blocks in order, or, at the first listing that fails, the text so far followed by the error line |
| AskHandler.RequestSql | backend/api/views.py:59-81 | the prompt embeds the schema text and the question in the fixed template, and the reply is the model's answer to that prompt |
| AskHandler.Post | backend/api/views.py:52-114 | a missing or empty question gives 400 "Question is required." with no call made; otherwise the schema is fetched and the model asked; a raising call gives 500 with its message; a reply without a statement gives 400 "Could not extract a valid SQL query." with nothing executed; only the extracted statement is executed; a statement with no result set gives 500; otherwise the rows become dicts and the answer is 200 with exactly the statement, the dicts and the explanation |

## Left out

- Rendering: JSX, styles, icons, the `key` re-render trick and the Chart.js components and
  their options. The model produces the data object each chart receives.
- Network and async plumbing. `axios.post` and `await` are not modelled. A request's outcome
  is an input to `QueryPanel.Panel.FinishAsk`: an answer body, or a rejection carrying the
  server's optional `error` field. A success body with missing fields, and a response that
  arrives after the component has gone, are not modelled.
- Floating point. `Number()` is modelled on integers only: an optional sign and decimal digits
  after JavaScript whitespace is trimmed. Fractions, exponents, hexadecimal (`0x`), binary (`0b`)
  and octal (`0o`) prefixes, `Infinity` and rounding read as NaN in this model. JavaScript gives
  `Number("0b11")` 3 and `Number("0o17")` 15, where the model gives NaN and so a bubble radius of 10.
- `Object.keys` order. The model takes the row's pair order. JavaScript puts
  integer-like keys first, and the model does not capture that.
- `typeof` of functions, symbols and bigints. These cannot occur in a JSON result.
- The language model and the database. `openai.ChatCompletion.create`, `pymysql.connect` and
  `cursor.execute`/`fetchall` are function parameters of `AskHandler.Post`, or inputs:
  `TableListing` is the outcome of `SHOW TABLES` and `SHOW COLUMNS`. Credentials, the system
  messages and the deployment name are not modelled.
- The explanation prompt and model call. `summarize` receives the result itself. The
  `repr` of the result inside the prompt text is not modelled.
- `connect` failing. When `pymysql.connect` itself fails, `finally: conn.close()` raises
  on an unbound name. This model treats every schema failure as a listing error.
- `AskHandler.Post`: it does not restate, per call, that the executed statement has the
  keyword / `;` shape. Instead it states that the executed statement is `ExtractSql` of the
  reply, and `SqlExtraction.ExtractedShape` proves the shape for every extracted statement.
- Non-string questions. A question given in the request as a number or another JSON value
  is outside `Option<string>`.
- Other files. `frontend/src/History.jsx`, `frontend/src/Navbar.jsx`, `frontend/src/main.jsx`
  and `backend/api/urls.py` are not part of this model: they hold browser storage,
  navigation and URL wiring.
- Case folding. It is modelled as Python's case-insensitive matching for the letters of the
  four keywords, including the non-ASCII characters U+0130, U+0131 and U+017F. No other
  Unicode case folding is modelled.
