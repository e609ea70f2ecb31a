# Review analyser server: a Dafny model of its review store and request handling

The server keeps an in-memory list of customer reviews. Each review has a `ReviewId`, a `Location`,
a `Timestamp` and a `ReviewBody`. The server answers two kinds of request:

- **GET** lists reviews. It can filter them by location and by a date range
  (`start_date`, `end_date`, written `YYYY-MM-DD`). It attaches the sentiment analyser's scores to
  each review it returns and orders them by the `compound` score, highest first.
- **POST** submits a review. The `Location` and `ReviewBody` form fields are checked. A valid
  review gets a fresh id and the current time, and is appended to the list.

The model follows the code in `server.py`, including its aliasing:

- The GET handler starts from the stored list object itself. Each filter that is set replaces it
  with a new list. So with no filter set, the in-place sort reorders the stored list.
- The annotation loop writes a `sentiment` entry into the stored record objects themselves.
- `load_reviews` binds the server to a module-level list read at start-up, and POST appends to
  that same list. So `reset_reviews` rebinds the same object and discards nothing.

Files:

- `wrappers.dfy`: `Option` and `Result`.
- `sequences.dfy`: `Keep`, the order-preserving filter that the list comprehensions perform, with
  its lemmas; `Map`.
- `dates.dfy`: dates and timestamps; the chronological order on timestamps; midnight of a date;
  `ParseDate`, which models `strptime(s, '%Y-%m-%d')`.
- `stable_sort.dfy`: `SortDesc`, the stable descending sort used as the specification; the
  insertion-sort method `StableSortDesc` proved equal to it; lemmas that the result is ordered, a
  permutation and stable, and that the stable order is unique.
- `review_server.dfy`:
  - the `Review` record class, the `ReviewList` list class and the `Server` class;
  - the query as a function (`Query`) with the methods proved against it;
  - submission validation (`Validate`) and the POST method.

Behaviour of the code that the model keeps, some of it easy to miss:

- With no filter set, a query filters, annotates and sorts the live stored list and records, not
  copies. Sentiment scores stay on the stored records after the answer is sent.
- No lock guards the stored list.
- A malformed date is not caught. The `ValueError` escapes the handler, and the WSGI server turns
  it into a 500 response, not a client error. Here that outcome is `Failure(MalformedDate)`. No
  state changes, because the failure comes before annotation.
- Both submission errors are "400 Bad Request", with different messages. The missing-field check
  runs first.
- The end-date bound is midnight at the start of the end date. A review stamped later that day is
  excluded.
- Seed records are not checked against the valid-location list.

## Model

| member | source | states |
|---|---|---|
| `Sequences.Keep` | server.py:59-61 | the comprehension keeps exactly the elements satisfying the condition: every survivor is in the input and satisfies it, and every satisfying input element survives |
| `Sequences.KeepConcat` | server.py:59-76 | filtering preserves relative order: filtering a concatenation is the concatenation of the filtered parts |
| `Sequences.KeepCount` | server.py:59-76 | each element survives exactly as many times as it occurs in the input if it satisfies the condition, and otherwise not at all |
| `Dates.ParseDate` | server.py:65 | every date the parser accepts is a real calendar day: a year from 1 to 9999, a month from 1 to 12, and a day the month has in that year, leap years included |
| `Dates.MonthTokenMeaning` | server.py:65 | the `%m` directive accepts exactly the one- or two-digit spellings of 1 to 12, with or without a leading zero, and yields the number spelled |
| `Dates.DayTokenMeaning` | server.py:65 | the `%d` directive accepts exactly the one- or two-digit spellings of 1 to 31, with or without a leading zero, and also a space followed by one non-zero digit; it yields the number spelled |
| `Dates.ParseSpelled` | server.py:64-72 | four year digits, a dash, a `%m` token, a dash and a `%d` token parse to the date they spell when that day exists, and are rejected otherwise (so `2023-02-29` is rejected) |
| `Dates.ParseAcceptedSpells` | server.py:64-72 | every accepted string has that shape, with nothing left over, and spells the date it is parsed to |
| `Dates.ParseDateMeaning` | server.py:64-72 | a string is parsed to a date exactly when it spells that date and the day exists |
| `Dates.ParseUnpaddedDate` | server.py:65 | every real date with a one-digit month and day may be written unpadded, such as `2024-1-5`, and parses to itself |
| `Dates.ParseFormatRoundTrip` | server.py:72 | every valid date written `YYYY-MM-DD` parses back to itself |
| `Dates.NotAfter` | server.py:68-75 | the `datetime` comparison: one timestamp is at or before another exactly when they are equal or the first field that differs (year, month, day, hour, minute, second, in that order) is smaller |
| `Dates.NotAfterAntisymmetric` | server.py:68 | two timestamps, each at or before the other, are equal |
| `Dates.NotAfterTotalOrder` | server.py:75 | the timestamp comparison is total and transitive |
| `Dates.SameDayNotAfterMidnight` | server.py:71-76 | an instant on the end date is at or before that date's midnight exactly when it is 00:00:00 |
| `Dates.SameDayNotBeforeMidnight` | server.py:64-69 | every instant on the start date is at or after that date's midnight |
| `ReviewServer.ByLocation` | server.py:58-61 | the location filter returns only stored reviews whose `Location` equals the given string, and drops none that do |
| `ReviewServer.FromStart` | server.py:64-69 | the start filter returns only reviews stamped at or after 00:00:00 of the start date, and drops none that are |
| `ReviewServer.UntilEnd` | server.py:71-76 | the end filter returns only reviews stamped at or before 00:00:00 of the end date, and drops none that are |
| `ReviewServer.Select` | server.py:56-76 | the filter chain, with each unset filter skipped, returns exactly the stored reviews that pass every set filter |
| `ReviewServer.SelectKeepsOrder` | server.py:58-76 | the selection keeps the stored order: selecting from a concatenation concatenates the selections |
| `ReviewServer.SelectCount` | server.py:58-76 | a stored review is selected as often as it is stored when it matches, and never otherwise |
| `ReviewServer.EndDateBoundary` | server.py:71-76 | of the reviews stamped on the end date, the one stamped exactly at midnight is kept and every later one is dropped |
| `ReviewServer.SingleDayWindow` | server.py:64-76 | with the same start and end date, exactly the reviews stamped at that day's midnight (at the requested location, if any) are selected |
| `ReviewServer.IsSet` | server.py:58-71 | a request field counts as unset exactly when it is absent or the empty string, as Python's truth test treats it in the three filter guards (and in the submission check at line 107) |
| `ReviewServer.ParseCriteria` | server.py:50-72 | an absent or empty parameter means no filter; a set date that does not parse fails the query; otherwise the criteria are the location verbatim and the parsed dates |
| `ReviewServer.Query` | server.py:50-87 | a query fails exactly when a set start or end date is malformed |
| `ReviewServer.QueryCorrect` | server.py:56-87 | a successful query returns exactly the matching stored reviews, as often as they are stored; their `compound` scores never increase along the result; and reviews with equal scores keep their selected order |
| `ReviewServer.UnfilteredQueryKeepsAll` | server.py:56-87 | with no filter set, the query succeeds and returns every stored review exactly as often as it is stored |
| `ReviewServer.RankFromStoredScores` | server.py:87 | sorting the pairs of a record and its stored `compound` score, then keeping the records, gives the ranking by the analyser's score when every record carries that score |
| `StableSort.SortDescOrdered` | server.py:87 | the sort's keys never increase along its result |
| `StableSort.SortDescPermutation` | server.py:87 | the sort's result is a rearrangement of its input: same elements, same multiplicities |
| `StableSort.SortDescStable` | server.py:87 | for every key, the elements with that key appear in the result in the order they had in the input |
| `StableSort.StableOrderUnique` | server.py:87 | any arrangement in descending key order that keeps each key's elements in input order equals the modelled sort, so any stable sort (Timsort included) gives the same result |
| `StableSort.SortDescMap` | server.py:87 | sorting depends only on the keys: mapping the elements with a key-preserving function commutes with sorting |
| `StableSort.InsertAt` | server.py:87 | one pass of the insertion loop places the next element in the sorted prefix, after every element with an equal or larger key, and leaves the unsorted rest as it was |
| `StableSort.StableSortDesc` | server.py:87 | the insertion-sort loop returns exactly the stable descending sort of its input |
| `ReviewServer.ReviewList.SortByCompound` | server.py:87 | the list's new contents are its records sorted stably by the `compound` score stored on each, highest first |
| `ReviewServer.ReviewList.constructor` | server.py:59-76 | each comprehension builds a new list object holding the given records |
| `ReviewServer.ReviewList.Append` | server.py:125 | the list becomes its old contents with the new record added at the end |
| `ReviewServer.Server.Annotate` | server.py:78-85 | after the loop, every record in the working list carries the analyser's scores for its body |
| `ReviewServer.Server.Filter` | server.py:56-76 | the working list fails exactly when the query's dates fail to parse; it holds the selected records; with no filter set it is the stored list object itself, and otherwise a new list |
| `ReviewServer.Server.AnnotateAndSort` | server.py:78-87 | the working list ends up ranked by `compound` score, with the same records, each carrying its scores |
| `ReviewServer.Server.Get` | server.py:50-87 | the GET answer is `Query` of the stored records. On failure neither the list nor any record changes. On success every returned record carries its scores and unreturned records keep theirs. The stored list is reordered into the answer exactly when no filter is set, and is otherwise unchanged |
| `ReviewServer.Validate` | server.py:104-116 | a missing or empty `Location` or `ReviewBody` is `MissingField`, checked before the location; a location outside the two valid ones is `InvalidLocation`; otherwise both fields pass verbatim |
| `ReviewServer.Server.Post` | server.py:104-125 | a rejected submission leaves the store unchanged. An accepted one appends exactly one new record: the given id and time, the location and body verbatim, no sentiment. All earlier records are unchanged |
| `ReviewServer.Review.constructor` | server.py:118-123 | a new record holds the given id, location, timestamp and body, and no sentiment |
| `ReviewServer.Server.constructor` | server.py:25-29 | the server starts bound to the start-up list, with the given analyser |
| `ReviewServer.Server.LoadReviews` | server.py:28-29 | the server's list becomes the start-up list object itself |
| `ReviewServer.Server.ResetReviews` | server.py:31-32 | resetting rebinds the same start-up list, so the stored records, including appended ones, stay exactly as they were |

## Left out

- Sentiment analysis with NLTK's VADER analyser, and the lexicon downloads: the analyser is the
  server's `scorer`, an arbitrary pure function from text to four real scores. No range is
  assumed for the scores, and floating point is modelled by `real`.
- Reading the data set with pandas: the start-up list is a `ReviewList` given to the constructor.
  Its records are taken as well-formed, with timestamps already parsed. The model does not cover
  the error raised when a stored `Timestamp` string fails to parse with `%Y-%m-%d %H:%M:%S`.
- WSGI handling: reading `wsgi.input` and `CONTENT_LENGTH`, `parse_qs` decoding (only the first
  value of a parameter is used), status lines and headers, JSON encoding, and the serve loop. A
  request is modelled as already-decoded optional strings, and a response as a `Result`.
- `uuid.uuid4()` and `datetime.now()`: the id and the current time are parameters of `Post`. As a
  result, the model does not show that ids are unique.
- The `except Exception` branch of POST, which answers 500 to faults in foreign code.
- `ReviewServer.Server.Post`: does not model the 500 answer for failures in decoding the request
  body, because those happen in code outside the model.
- `Dates.ParseDate`: accepts ASCII digits only, while `strptime`'s `\d` also matches other Unicode
  decimal digits.
- Concurrency: the code has no lock. Atomic, serialised appends are not modelled.
- `adj_noun_pairs_count` and `stop_words`: they are never used.
