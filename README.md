# Error-code documentation scraper: a Dafny model of its extraction rules

The scraper reads three kinds of vendor documentation pages and turns each
into an ordered list of `{code, alias, description}` records:

- the libcurl error page, where every `span` whose text reads like
  `CURLE_UNSUPPORTED_PROTOCOL(1)` names one error and the next paragraph
  describes it;
- the Linux errno page, a table whose first two rows are a header and a
  legend and whose later rows hold number, name and description;
- the Windows system-error pages, a definition list whose entries carry the
  alias in bold and a nested list with the code text (`"1 (0x1)"`) and the
  description.

A collector parses every page of one source in URL order and concatenates
the records into one `ErrorDetails` value, which is then written as JSON.

This project models, in Dafny, everything between the parsed markup and
that value. The markup is abstracted into plain datatypes:

- a curl span is its text and the text of the paragraph that follows it;
- a Linux row is the list of its cell texts;
- a Windows entry is its bold alias and the paragraph texts of its nested
  terms.

Each absent element is an `Option`. The three regular expressions, Python's
`str.split()` and `int()` are written out character by character. Every
exception the extraction can raise is a `Failure` value:

- `AttributeError` for a lookup that found nothing;
- `IndexError` for a list indexed past its end;
- `ValueError` for `int()` on a non-integer.

The first element that fails fails the whole page, and the first page that
fails fails the whole collection, as an uncaught exception does.

Files (one module each):

- `records.dfy` (`Records`): the record shapes, the failures, and `MapAll`,
  the "apply to every element, stop at the first failure" rule that every
  per-page loop follows, with its lemmas.
- `text.dfy` (`Text`): whitespace, `split()[0]`, `strip()`, `int()` on an
  ASCII literal, and its inverse, the decimal rendering.
- `windows.dfy` (`Windows`): `convert_windows_error_codes` and
  `parse_windows_doc`.
- `linux.dfy` (`Linux`): `parse_linux_doc`.
- `curl.dfy` (`Curl`): the selection regex, the code and alias regexes, and
  `parse_curl_doc`.
- `collector.dfy` (`Collector`): `collect_error_codes` and the three
  per-source collection routines.

Each per-page loop and the collector loop is a method whose `ensures` ties
its result to a specification function (`WindowsRecords`, `LinuxRecords`,
`CurlRecords`, `Collected`). Lemmas then state what those functions promise.

Behaviours of the code that are easy to misread:

- The curl code is the leftmost parenthesised group of digits in the span
  text (`re.search(r"\(\d+\)", ...)`). When a selected text holds two such
  groups, this is not the group that the selection pattern ends with.
  `Curl.LeftmostGroupIsCode` shows a selected span whose two groups differ.
- After `CURLE`, the selection pattern `^CURLE.+\(\d+\)$` accepts any
  characters other than a newline. A selected span whose sixth character is
  not `_` or `A`-`Z` then fails the alias regex `^CURLE[_A-Z]+` with
  AttributeError (`Curl.SelectedSpanRecord`).
- Python's `$` also matches just before a final newline, so a span text
  ending in `"\n"` is selected too (`Curl.WithoutFinalNewline`).
- Aliases are copied as they are, empty or not. This covers a Windows bold
  text and a Linux name cell. Only curl aliases are always longer than
  `CURLE` (`Curl.CurlRecordsShape`).
- `str.split()` treats the separators U+001C..U+001F as whitespace, but
  `int()` does not skip them. A Windows code led by one still converts
  (`Windows.SeparatorLedCode`). A Linux number cell led by one raises
  ValueError (`Linux.SeparatorLedCell`).

## Model

| member | source | states |
|---|---|---|
| `Records.Present` | app.py:89 | a missing element is an AttributeError; a present one is passed on unchanged |
| `Records.MapAllSuccess` | app.py:84-92 | a loop of appends succeeds exactly when every element succeeds, and then keeps one result per element in element order |
| `Records.MapAllFailure` | app.py:84-92 | a failing loop fails with the error of the first failing element |
| `Text.ParseShowInt` | app.py:181 | `int(str(n)) == n` for every integer: the model of `int()` inverts decimal rendering |
| `Text.PyIntStripped` | app.py:121 | `int()` ignores the whitespace it skips on both sides of a word and reads the word alone |
| `Text.PyIntKeepsSeparator` | app.py:121 | the separators U+001C..U+001F are whitespace to `str.split()`, yet a number led by one is rejected by `int()` with ValueError |
| `Text.PyIntOfDigits` | app.py:91 | `int()` of a non-empty run of ASCII digits is the digits' decimal value |
| `Text.FirstTokenNone` | app.py:181 | `split()` yields no token exactly when the string is empty or all whitespace |
| `Text.FirstTokenOf` | app.py:181 | the first token of whitespace, a word, and then the end or whitespace and anything at all, is that word |
| `Text.FirstTokenSplits` | app.py:181 | conversely, a first token is a non-empty whitespace-free part of the string, preceded only by whitespace and followed by the end or whitespace |
| `Windows.ConvertFailures` | app.py:172-181 | the conversion raises IndexError exactly when the string is empty or all whitespace, and ValueError exactly when its first token is no integer literal; otherwise it returns that literal's value |
| `Windows.ConvertReadsFirstToken` | app.py:179-181 | the result depends only on the first token: whatever follows it after whitespace is ignored |
| `Windows.ConvertShownCode` | app.py:179-181 | a decimal code followed by a whitespace-led annotation converts back to the code |
| `Windows.ConvertExampleOne` | app.py:179 | `"1 (0x1)"` converts to 1 |
| `Windows.ConvertExample1300` | app.py:181 | `"1300 (0x514)"` converts to 1300 |
| `Windows.ConvertFailureExamples` | app.py:181 | `""` raises IndexError and `"0x1 (1)"` raises ValueError |
| `Windows.EntryRecord` | app.py:160-168 | an entry gives a record exactly when it has an alias, at least two nested terms with paragraphs and a convertible first term; the record is (converted first term, alias, second term). Each failure is stated in Python's evaluation order: a missing bold alias or a missing nested list raises AttributeError; an empty nested list raises IndexError; a first term without a paragraph raises AttributeError; a failing conversion passes on its own IndexError or ValueError; a single nested term raises IndexError; a second term without a paragraph raises AttributeError |
| `Windows.SeparatorLedCode` | app.py:181 | a code led by a separator U+001C..U+001F still converts, because `split()` skips it |
| `Windows.ParseWindowsDoc` | app.py:146-169 | the append loop over the top-level entries computes `WindowsRecords`; a page without a definition list raises AttributeError |
| `Windows.WindowsRecordsOrder` | app.py:157-169 | one record per top-level entry in document order, with alias, code and description taken from that entry; a failing page fails with its first failing entry's error |
| `Windows.SingleEntryPage` | app.py:159-168 | a page with one well-formed entry gives exactly that entry's record |
| `Windows.ErrorSuccessPage` | app.py:159-168 | the ERROR_SUCCESS entry with `"0 (0x0)"` gives code 0, alias ERROR_SUCCESS and its description |
| `Linux.RowRecord` | app.py:118-123 | a row gives a record exactly when it has three cells and an integer first cell; the record is (int(cell 0), cell 1, cell 2); an empty row or a short row raises IndexError, and a bad first cell raises ValueError, in Python's evaluation order |
| `Linux.ParseLinuxDoc` | app.py:102-124 | the append loop that skips indices 0 and 1 computes `LinuxRecords`; a missing table or table body raises AttributeError |
| `Linux.LinuxRecordsRows` | app.py:115-123 | a table of n >= 2 rows gives n - 2 records, the k-th from row k + 2 in row order, exactly when every data row is well formed; fewer rows give none |
| `Linux.HeaderRowsSkipped` | app.py:115-117 | the contents of the first two rows never affect the result |
| `Linux.WellFormedRow` | app.py:119-123 | a row holding a decimal number, a name and a description gives back exactly those three |
| `Linux.SeparatorLedCell` | app.py:121 | a number cell led by a separator U+001C..U+001F raises ValueError |
| `Curl.SelectedSpans` | app.py:82 | the selection keeps only spans whose text matches and never drops one that matches |
| `Curl.SelectedSpansSingle` | app.py:82 | a single span is kept exactly when its text matches |
| `Curl.SelectedSpansAppend` | app.py:82 | the selection of consecutive parts is the concatenation of their selections; with the single-span case, every matching span is kept once, in document order |
| `Curl.FindParenGroup` | app.py:86 | the search returns the leftmost index where `\(\d+\)` matches, or none when it matches nowhere |
| `Curl.GroupDigits` | app.py:87 | the digits taken out of a matched group are exactly the non-empty run of digits between its `(` and its `)` |
| `Curl.CurlAlias` | app.py:88 | the alias exists exactly when the text starts with CURLE and then `_` or A-Z; it is the longest such prefix, every character after CURLE is in `[_A-Z]`, and the next character of the text is not |
| `Curl.SpanRecord` | app.py:85-92 | a span gives a record exactly when a code group, an alias and a following paragraph exist (otherwise AttributeError); the code is the value of the leftmost group's digits |
| `Curl.ParseCurlDoc` | app.py:71-93 | the append loop over the selected spans computes `CurlRecords` |
| `Curl.SelectedHasCode` | app.py:82-86 | every selected text contains a `(digits)` group, so finding the code never fails on a selected span |
| `Curl.SelectedSpanRecord` | app.py:82-92 | a selected span gives a record exactly when the character after CURLE is `_` or A-Z and a paragraph follows; otherwise it raises AttributeError |
| `Curl.LabelRecord` | app.py:86-91 | the text `CURLE` + name + `(` + n + `)` + anything gives code n and alias `CURLE` + name |
| `Curl.LabelSelected` | app.py:82 | such a text with nothing after the number is selected |
| `Curl.UnsupportedProtocolSelected` | app.py:82 | `CURLE_UNSUPPORTED_PROTOCOL(1)` is selected |
| `Curl.UnsupportedProtocolRecord` | app.py:86-91 | that span gives code 1 and alias `CURLE_UNSUPPORTED_PROTOCOL` |
| `Curl.LeftmostGroupIsCode` | app.py:82-87 | a selected text with two parenthesised numbers takes its code from the first one |
| `Curl.CurlRecordsShape` | app.py:84-93 | one record per selected span in document order, each that span's record, with an alias that is longer than CURLE, starts with it, and is a prefix of its span's text |
| `Collector.CollectErrorCodes` | app.py:50-60 | the extend loop over the pages computes `Collected`: the concatenation of the per-page lists, or the first page failure |
| `Collector.CollectWindowsSystemErrorCodes` | app.py:127-143 | the Windows collection is the collector over the Windows page parser |
| `Collector.CollectLinuxSystemErrorCodes` | app.py:96-99 | the Linux collection is the collector over the Linux page parser |
| `Collector.CollectCurlErrorCodes` | app.py:65-68 | the curl collection is the collector over the curl page parser |
| `Collector.CollectedOrder` | app.py:57-60 | the collection starts empty, succeeds exactly when every page parses, and is then the concatenation of the page lists in URL order, with as many records as all pages together |
| `Collector.FlattenAt` | app.py:57-60 | record j of page k sits at position (records of pages before k) + j of the output |
| `Collector.FlattenLength` | app.py:60 | the output length is the sum of the per-page lengths |
| `Collector.CollectedFailure` | app.py:58-60 | a failing collection fails with the first failing page's error |
| `Collector.CollectedAppend` | app.py:57-60 | collecting two page lists one after the other equals collecting their concatenation |

## Left out

- HTTP fetching (`requests.get` with its 30-second timeouts): network I/O. Each parser receives the already fetched page as its argument.
- HTML parsing and tree navigation: a foreign library. The pages are given as the abstract datatypes above. For curl, spans whose `.string` is not a single text are never selected, so they are not represented.
- JSON serialisation and the file write in `collect_error_codes`: a library call and I/O. The model stops at the `ErrorDetails` value that would be written.
- `main`: its mapping of request exceptions to a logged error and exit status 1 is process plumbing. Network failures are not modelled, because pages arrive already fetched.
- The hard-coded URL lists and output file names: constants, not logic. The Windows collector accepts any number of pages, not exactly ten.
- `int()` is modelled for ASCII digits with an optional sign and surrounding whitespace. Underscores between digits and non-ASCII digits are not accepted, although Python's `int()` accepts them.
- Text.PyInt: has no digit limit. Since Python 3.11, `int()` raises ValueError on a literal of more than 4300 digits, and `str()` refuses such an integer too. That limit is a runtime setting, so `Text.ParseShowInt` holds only for integers within it.
- The regex `\d` is modelled as the ASCII digits. Python also matches other Unicode decimal digits.
