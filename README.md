# isbn_list_csv: a Dafny model of the row pipeline and the OpenBD lookup

`isbn_list_csv.py` reads a CSV file of ISBNs, looks each one up on the
OpenBD API and prints a CSV of `isbn,title,publisher,PriceAmount` to
standard output. This project models the two parts of the script that hold
logic, and proves what they promise.

- **Row pipeline** (`main`, module `Pipeline`, file `pipeline.dfy`). The
  input file is a value `Input`. Either it cannot be opened, or it is the
  sequence of rows the CSV reader yields, plus a flag saying whether reading
  fails after the last of them. The lookup is a function parameter
  `fetch: string -> Book`. `ConvertList` is imperative, as in the source. It
  appends the fixed header to the output rows and then makes the header
  decision on the first row. The loop in `ProcessRemaining` then appends one
  row per non-empty later row. `ConvertList` is proved equal to the function `Run`.
  `Run` describes a whole run as one value: the identifiers looked up, in
  order, and how the run ends. A run ends either with the table written
  (exit status 0) or with `Exit1(reason)`, where status 1 is returned and
  nothing is written. The reason names the exception the handler caught:
  `open` failed, `StopIteration` on an empty file, `IndexError` on an empty
  first row, or a read error part way through. The lemmas about `Run` state
  the table's shape and order, how the header is handled, and all the exit
  cases.
- **Lookup** (`fetch_book_info`, module `BookInfo`, file `book_info.dfy`).
  The HTTP exchange is a value `Response`. Either the request failed, or a
  status code arrived with a body that did or did not decode as JSON. The
  decoded value is a `Json` datatype with null, booleans, integers, strings,
  lists and dicts. Python subscripting and truthiness are modelled kind by
  kind, because `not data`, `data[0]` and `x["key"]` behave differently for
  each kind. `LookUp` takes the source's branches in order and says which
  exit is taken. `FetchBookInfo` is the returned triple. The lemmas show that
  the triple is all-or-nothing: it is either empty, or the values at the three
  full paths below `data[0]`.
- **Text** (module `Text`, file `text.dfy`). `str.strip()` and `str.lower()`
  over ASCII, used by the header test and to trim identifiers.

Empty rows are skipped only after the first row. An empty first row falls
into the data branch, `process_row[0]` raises `IndexError`, and the handler
exits with status 1 writing nothing (isbn_list_csv.py:104-107, 120-122).
`Pipeline.ExitCases` states this case.

## Model

| member | source | states |
|---|---|---|
| `Pipeline.Run` | isbn_list_csv.py:91-122 | A written table starts with the fixed header row. A run that stops before reading a first row to process (the file does not open, is empty, or starts with an empty row) has looked nothing up |
| `Pipeline.ConvertList` | isbn_list_csv.py:91-122 | The run's lookups and its exit equal `Run`: the header row first, the first row dropped or processed, the later rows processed, and status 1 with nothing written when the read block raises |
| `Pipeline.ProcessRemaining` | isbn_list_csv.py:113-119 | The loop leaves the earlier output rows and lookups unchanged. It appends exactly `Records(rest)` and `Lookups(rest)`: one output row and one lookup per non-empty row, in order |
| `Pipeline.ProcessRow` | isbn_list_csv.py:116-119 | The identifier is the first cell stripped of whitespace, and the output row is `OutputRow` of the input row |
| `Pipeline.OutputRow` | isbn_list_csv.py:107-110 | An output row has four cells. The first is the trimmed identifier, and the other three are what the lookup returned for that identifier |
| `Pipeline.Processed` | isbn_list_csv.py:99-113 | A header first row is dropped and every later row kept. Otherwise every row, the first included, is kept |
| `Pipeline.NonEmpty` | isbn_list_csv.py:114-115 | The rows kept are no more than the input rows, and none of them is empty |
| `Pipeline.NonEmptyKeeps` | isbn_list_csv.py:114-115 | A row is kept if and only if it occurs in the input and is not empty |
| `Pipeline.NonEmptyAppend` | isbn_list_csv.py:113-115 | The rows kept from `a + b` are those kept from `a`, in order, followed by those kept from `b` |
| `Pipeline.RecordsCount` | isbn_list_csv.py:113-119 | `Records` and `Lookups` each give exactly one entry per non-empty row |
| `Pipeline.RecordsAppend` | isbn_list_csv.py:113-119 | Output rows for `a + b` are those for `a` followed by those for `b`: rows are appended in input order and earlier rows are never changed |
| `Pipeline.LookupsAppend` | isbn_list_csv.py:116-118 | Lookups for `a + b` are those for `a` followed by those for `b` |
| `Pipeline.PrefixStep` | isbn_list_csv.py:113-119 | Reading one more row adds at most one output row and one lookup, at the end |
| `Pipeline.MappedRows` | isbn_list_csv.py:113-119 | The reference definition of the loop's output has one row per non-empty input row |
| `Pipeline.MapRows` | isbn_list_csv.py:116-119 | Mapping rows through `OutputRow` keeps their number |
| `Pipeline.MapRowsCons` | isbn_list_csv.py:116-119 | Mapping a row followed by more rows gives that row's output row followed by theirs |
| `Pipeline.MappedRowsStep` | isbn_list_csv.py:113-119 | The reference definition, one input row at a time: an empty row adds nothing, any other row adds its output row in front |
| `Pipeline.RecordsAreMappedRows` | isbn_list_csv.py:113-119 | The loop's output rows equal the non-empty rows mapped through `OutputRow`, in order |
| `Pipeline.LookupsAreFirstColumn` | isbn_list_csv.py:116-119 | There is one lookup per output row, and the k-th lookup is the k-th output row's first cell |
| `Pipeline.ExitCases` | isbn_list_csv.py:95-122 | The table is written if and only if the file opens, its first row exists and is non-empty, and reading reaches the end. Each other case exits with status 1 for its reason, and with no lookups when the first row was never processed, including a read failure before any row. When reading fails after the first row, the lookups already made for the processed rows stay made |
| `Pipeline.TableShape` | isbn_list_csv.py:91-119 | The table starts with `["isbn","title","publisher","PriceAmount"]`. The first input row adds an output row if and only if it is not a header. Every later non-empty row adds one, in order. The length is 1 + (0 or 1) + the number of non-empty later rows |
| `Pipeline.RecordPosition` | isbn_list_csv.py:113-119 | A non-empty row's output row comes right after those of the non-empty rows before it |
| `Pipeline.WrittenTable` | isbn_list_csv.py:91-127 | A run that reads to the end writes the header row followed by the output rows of the processed rows |
| `Pipeline.ProcessedRecordPosition` | isbn_list_csv.py:99-119 | A non-empty later row's output row sits after the first row's (when that one is processed) and after those of the non-empty rows between them |
| `Pipeline.LaterRowPosition` | isbn_list_csv.py:113-119 | Every non-empty row after the first is processed, even one whose first cell reads "isbn", and its output row lands at the position fixed by the rows before it |
| `Pipeline.LookupsMatchTable` | isbn_list_csv.py:107-119 | When the table is written, the identifiers looked up are its first column below the header, in the same order |
| `Pipeline.LaterRowsOnlyAppend` | isbn_list_csv.py:113-119 | Reading more rows only appends output rows for them after the table the earlier rows produce |
| `Pipeline.LaterRowsOnlyAddLookups` | isbn_list_csv.py:113-118 | Reading more rows only appends their lookups after the earlier ones |
| `Pipeline.ProcessedAppend` | isbn_list_csv.py:99-113 | The header decision depends on the first row alone, so rows read later are simply appended to the processed rows |
| `Pipeline.HeaderRowIgnoresCase` | isbn_list_csv.py:101 | For every first row, `IsHeaderRow` (the test `IsHeaderCell` on its first cell) holds if and only if the row is non-empty and its first cell, trimmed, spells "isbn" or "id" in any mix of upper and lower case |
| `Pipeline.PaddedUpperCaseIsHeader` | isbn_list_csv.py:101 | `" ISBN\t"` is a header: the test strips whitespace and ignores case |
| `Pipeline.MixedCaseIdIsHeader` | isbn_list_csv.py:101 | `"Id"` is a header |
| `Pipeline.LowerCaseIsbnIsHeader` | isbn_list_csv.py:101 | `"isbn"` is a header |
| `Pipeline.LongerHeaderIsData` | isbn_list_csv.py:101-110 | `"ISBN Code"` is not a header, so that row is processed as data |
| `Pipeline.IdentifierIsData` | isbn_list_csv.py:101-107 | An ISBN is not a header, and stripping leaves it unchanged |
| `Pipeline.HeaderThenIdentifier` | isbn_list_csv.py:91-119 | A header row followed by one trimmed cell gives the header row and one output row for that cell, even when the cell itself reads "isbn" or "id": only the first row is tested |
| `Pipeline.IdentifierOnly` | isbn_list_csv.py:99-110 | A single identifier with no header gives the header row and one output row for it |
| `Pipeline.HeaderAndOneRow` | isbn_list_csv.py:91-119 | Input `isbn` then `9784000000000`, with a lookup returning T, P, 1000, gives exactly `[header, ["9784000000000","T","P","1000"]]` |
| `Pipeline.NoHeaderUnresolved` | isbn_list_csv.py:99-110 | Input `9784000000000` with no header, when the lookup returns the empty triple, gives `[header, ["9784000000000","","",""]]` |
| `Text.SkipSpace` | isbn_list_csv.py:107 | The first index at or after `i` not holding whitespace, or the end of the string |
| `Text.SkipSpaceBack` | isbn_list_csv.py:107 | The end of `s[lo..j]` after its trailing whitespace, whose last kept character is not whitespace |
| `Text.Strip` | isbn_list_csv.py:101 | The stripped string neither starts nor ends with whitespace |
| `Text.StripTrims` | isbn_list_csv.py:107 | `strip` returns the infix of its argument that starts after the leading whitespace, and everything it removes is whitespace |
| `Text.StripIdempotent` | isbn_list_csv.py:107 | Stripping an identifier twice gives the same result as stripping it once |
| `Text.SkippedAreSpaces` | isbn_list_csv.py:107 | Everything skipped at the front is whitespace |
| `Text.SkippedBackAreSpaces` | isbn_list_csv.py:107 | Everything skipped at the back is whitespace |
| `Text.LowerPointwise` | isbn_list_csv.py:101 | `Lower` keeps the length and lower-cases each character on its own with `LowerChar` |
| `Text.LowerIsWord` | isbn_list_csv.py:101 | Lower-casing gives a lower-case word exactly when the string spells that word in any mix of case |
| `BookInfo.FetchBookInfo` | isbn_list_csv.py:54-77 | The function never raises. A transport failure, an HTTP error status (400-599), a falsy body and a body whose first element is null each give `("","","")` |
| `BookInfo.LookUpExits` | isbn_list_csv.py:54-77 | `LookUp` takes the fetch-error exit if and only if the request failed or the status is 400-599 (`IsHttpError`, what `raise_for_status` rejects). It takes the no-data exit if and only if the decoded body is falsy or its first element is null. It takes the parse-error exit if and only if the body does not decode, or it is truthy and its first element is missing or lacks one of the three paths |
| `BookInfo.FalsyValues` | isbn_list_csv.py:65 | `not data` (the negation of `Truthy`) holds for null, false, 0, "", [] and {} and for no other value |
| `BookInfo.SubscriptSucceeds` | isbn_list_csv.py:65-73 | A key subscript succeeds only on a dict holding the key (otherwise KeyError or TypeError). `[0]` succeeds only on a non-empty list, giving its first element, or on a non-empty string, giving its first character (otherwise IndexError, KeyError on a dict, or TypeError) |
| `BookInfo.FoundIff` | isbn_list_csv.py:62-77 | A lookup succeeds if and only if the status passes `raise_for_status`, the body decodes, and all three full paths `data[0]["onix"]…` resolve. The triple is then exactly the three values found there |
| `BookInfo.AllOrNothing` | isbn_list_csv.py:70-77 | The result is the empty triple or the three path values together, never a partly filled triple |
| `BookInfo.WalkAppend` | isbn_list_csv.py:70-73 | `Walk`, a chain of subscripts that stops at the first failure: walking `p + q` is walking `p`, then `q` |
| `BookInfo.WalkNull` | isbn_list_csv.py:65-67 | Nothing can be subscripted below a null, so a null record never yields fields |
| `BookInfo.WalkKey` | isbn_list_csv.py:70-73 | Subscripting a dict by a key it holds continues from that key's value |
| `BookInfo.SampleTitle` | isbn_list_csv.py:70 | On a record of the served shape, the title path reads its title |
| `BookInfo.SamplePublisher` | isbn_list_csv.py:71 | On a record of the served shape, the imprint path reads its imprint name |
| `BookInfo.SamplePrice` | isbn_list_csv.py:73 | On a record of the served shape, the price path reads the first price's amount and fails on an empty price list |
| `BookInfo.CompleteRecord` | isbn_list_csv.py:70-74 | A complete record yields its title, its imprint name and the amount of its first price, and ignores later prices |
| `BookInfo.NoPriceNoFields` | isbn_list_csv.py:73-77 | A record with an empty price list yields the empty triple, even though it has a title and an imprint |
| `BookInfo.UnknownIdentifier` | isbn_list_csv.py:65-67 | The body `[null]` takes the "no data" exit and yields the empty triple |

## Left out

- Logging: the `CustomFormatter` millisecond timestamp, the 8-character UUID correlation id, the logger setup (isbn_list_csv.py:14-42) and the text of each log line. These depend on the clock, on randomness and on the logging library. The model records only which identifiers are logged as "Processing started" (the `lookups` of a run) and which of the three error exits `fetch_book_info` takes (`LookUp`).
- The HTTP request, its 10-second timeout and `response.json()` (isbn_list_csv.py:56-57, 63). These are network I/O and a foreign library, so they are the input `Response`. JSON floats, and JSON objects with repeated keys, are not modelled: `Num` holds integers and `Obj` is a map.
- CSV reading, opening the file and decoding its text (isbn_list_csv.py:97-98). The reader's output is the input `Input`. A failure to open the file, and a read error, appear as `Unopenable` and as the `fault` flag.
- Writing the table to standard output with `csv.writer` (isbn_list_csv.py:125-127). The model ends with the table that is written. Quoting and line endings are left to the library.
- Joining the two parts: `Pipeline` takes the lookup as a function `fetch` from identifiers to three strings. `BookInfo` returns the JSON values found. `csv.writer` writes `None` as an empty cell and any other value through `str()`; that conversion is not modelled, and neither is building the request URL from the identifier.
- ConvertList: the lookup is a pure function of the identifier, so the model does not capture two lookups of the same identifier getting different answers from the network.
- The command-line check on `sys.argv` (isbn_list_csv.py:84-86) is not modelled. It writes a usage line and exits with status 1.
- Text.Strip: models `str.strip()` with ASCII whitespace only (9-13, 28-31 and space). Unicode whitespace such as U+00A0 or U+3000 is not stripped.
- Text.Lower: models `str.lower()` on ASCII letters only. Other characters are unchanged.
