# abitur, modelled in Dafny

abitur is a Django site that tracks who has applied to two Moscow medical schools:
Pirogova, the Pirogov medical university (RSMU), and Sechenova, the Sechenov university.

A parser fetches a school's page and finds the link to the admission list, a PDF. It reads
the PDF's tables and walks their rows. Each list is numbered from 1 and the numbering
restarts at each new category, so a row whose number breaks the sequence opens the next
category bucket. From those buckets the parser derives the categories it reports:
- bvi, for applicants admitted without entrance exams;
- funded only, for applicants on the general list but not on the contract (paid) list;
- general.

The site stores the applicants with two checkboxes, `is_checked` and `is_winner`. It shows
per-school counters and filters the listing by application period. It keeps a fingerprint
of the list links: a string of Adler-32 checksums. That fingerprint tells it whether the
lists should be fetched again.

The model is in plain Dafny, one module per concern:

| file | module | what it holds |
|---|---|---|
| `wrappers.dfy` | `Wrappers` | `Option` and `Result` |
| `text.dfy` | `Text` | the Python `str` operations the code relies on: `lower()`, `title()`, `isdigit()`, `in`, `split`, `int()` with the white space it skips, `str()` of an integer, `encode()` to UTF-8 |
| `calendar.dfy` | `Calendar` | `datetime.date`: validity, `toordinal()`, the next day |
| `adler32.dfy` | `Adler32` | Adler-32 as section 2.2 of RFC 1950 defines it, and the byte-at-a-time loop of its section 9 |
| `utils.dfy` | `Utils` | abitur/utils.py |
| `models.dfy` | `Models` | abitur/models.py; `Student` is a class because the views update its checkboxes in place |
| `forms.dfy` | `Forms` | the period filter of abitur/forms.py |
| `parsers.dfy` | `Parsers` | abitur/parsers.py; the three registered parsers are one class `Parser` with a `variant` |
| `views.dfy` | `Views` | the decision logic of abitur/views.py |

How the model represents what it does not see:
- **Generators.** A generator that may raise part-way is a `Stream`: the items it yielded
  and the exception it stopped with, if any.
- **The school's page** is its list of anchors, each with its text and an optional `href`.
- **An extracted table** is its rows of cell texts, with row 0 as the header.
- **`date.today()`** is a parameter.
- **The database school** (`get_school`) is a parameter.
- **The result of fetching the links** is a parameter.

Places where the code does something a reader may not expect; the model follows the code in each, except for the first:
- **`table_rows` signature.** abitur/utils.py:19-23 declares `table_rows(pdf_file)` with
  `find_columns_index` built in. The parsers call it as `table_rows(file, self.find_columns)`
  (abitur/parsers.py:163 and abitur/parsers.py:207). As written, each of those calls raises
  TypeError, because the function takes one argument. The model does not follow the code
  here: it gives `Utils.TableRows` the column locator that the call sites pass. `find_columns_index` is
  Pirogova's locator, and Sechenova's locator always answers columns 1 and 2.
- **`check_sources` can return nothing.** When no fingerprint (or an empty one) is cached,
  `check_sources` returns `None`. The tuple assignment in `get_context` would then fail.
  `Views.CheckSources` returns `None` in that case.
- **Pirogova's general set.** Pirogova forms it as the symmetric difference `general ^ bvi`,
  not `general - bvi`. A reader may expect bvi applicants to be removed from the general
  list. `general ^ bvi` removes them only when every bvi applicant is on the general list;
  a bvi applicant missing from the general list is *added* to it.
  `Parsers.PirogovaBviOnlyAdded` and `Parsers.PirogovaSubsetIsDifference` show the two
  sides of this.
- **Running out of buckets.** A break in the numbering opens the next bucket only while
  there is one. A break in the last bucket indexes past the end of the bucket tuple and
  raises IndexError (`Parsers.ThirdRestartOverflows`).

## Model

| member | source | states |
|---|---|---|
| Adler32.Checksum | abitur/utils.py:40-41 | `zlib.adler32` of the bytes is s2 · 65536 + s1, with s1 = (1 + sum of the bytes) mod 65521 and s2 = (sum of the successive s1 values) mod 65521, as RFC 1950 defines it; it is below 2^32 |
| Adler32.FoldMatchesDefinition | abitur/utils.py:40-41 | updating the two sums one byte at a time gives s1 = (1 + Σb) mod 65521 and s2 = (Σ s1) mod 65521, the definition in RFC 1950 |
| Adler32.EmptyChecksum | abitur/utils.py:40-41 | the checksum of no bytes is 1 |
| Calendar.FirstDay | abitur/forms.py:28 | `toordinal()` of 1 January of year 1 is 1 |
| Calendar.OrdinalCountsDays | abitur/forms.py:28 | the next calendar day has the next ordinal, so "ordinal ≥ today's − 7" means "no earlier than seven days before today" |
| Text.LowerStr | abitur/parsers.py:55 | `lower()` keeps the length, leaves no upper-case letter, keeps each character's letter (the same upper-case form, cased exactly where the input was), and changes nothing when applied again |
| Text.TitleOfLower | abitur/parsers.py:55 | `title()` after `lower()` equals `title()` alone |
| Text.TitleTwice | abitur/parsers.py:55 | `title()` is idempotent |
| Text.Split | abitur/parsers.py:215 | `split('\n')` gives at least one part and no part contains the separator |
| Text.JoinSplit | abitur/parsers.py:215 | joining the parts of a split with the separator gives the text back |
| Text.SplitJoin | abitur/parsers.py:215 | splitting a join of separator-free parts gives the parts back |
| Text.Trim | abitur/parsers.py:131 | the text `int()` reads after skipping white space (TAB..CR and SPACE, not the separators FS..US) at both ends: a slice of the input, starting after its leading white space, that neither starts nor ends with white space |
| Text.AroundTrimmed | abitur/parsers.py:131 | what `int()` skips around that slice is white space only: the input is white space, the slice, white space |
| Text.TrimAround | abitur/parsers.py:131 | white space, then a text without white space at its ends, then white space, trims to that text |
| Text.PyInt | abitur/parsers.py:131 | `int(s)` in base 10, `None` for its ValueError; PyIntReads and PyIntAccepts state which texts it reads and as what |
| Text.PyIntReads | abitur/parsers.py:131 | any number `int(s)` returns is the signed value of a reading of s as white space, an optional sign, digit groups and white space |
| Text.PyIntAccepts | abitur/parsers.py:131 | every text of that shape is read as its signed value, so ValueError is raised exactly for the texts of no such shape |
| Text.SpaceSkipped | abitur/parsers.py:131 | `int(" 1")` is 1: a space before the number is skipped |
| Text.SeparatorNotSkipped | abitur/parsers.py:131 | `int("\x1c1")` raises ValueError: the separator FS (U+001C), which `isspace()` accepts, is not skipped |
| Text.PyIntOfDigits | abitur/parsers.py:131 | every text `isdigit()` accepts is one `int()` accepts, with its decimal value |
| Text.DecimalString | abitur/utils.py:41 | `str(n)` is all digits, has no leading zero, and has value n |
| Text.DecimalStringUnique | abitur/utils.py:41 | `str(n)` is the only text of digits without a leading zero whose value is n |
| Text.PyIntOfDecimal | abitur/utils.py:41 | `int(str(n)) == n` |
| Text.Utf8Char | abitur/utils.py:41 | a character encodes to the shortest UTF-8 sequence for its code point (1 byte below U+0080, 2 below U+0800, 3 below U+10000, else 4); the lead byte announces that length, the rest are continuation bytes, and together they carry the code point |
| Text.Utf8 | abitur/utils.py:41 | `encode()` yields at least one byte per character, and decoding its bytes gives the text back, so different links are hashed over different bytes |
| Utils.FundedSplit | abitur/utils.py:13-16 | the funded-only set and the rest are disjoint, their union is the general set, and they are general − contract and general ∩ contract |
| Utils.FindFunded | abitur/utils.py:10-16 | x is funded only iff it is on the general list and not the contract list; x is in the rest iff it is on both |
| Utils.FindFundedUsesSetsOnly | abitur/utils.py:11-12 | the result depends only on the sets of the two lists; a contract-only entry is in neither part |
| Utils.IndexOf | abitur/utils.py:29-30 | `list.index`: the first position holding the value, or an error iff the value is absent |
| Utils.FindColumnsIndex | abitur/utils.py:26-33 | the first name column and the first date column of the header row; ColumnNotFound iff either header is missing; IndexError for a table with no rows |
| Utils.TableRows | abitur/utils.py:19-23 | the generator itself; TableRowsShape, TableRowsContents and TableRowsAppend state what it yields |
| Utils.TableRowsShape | abitur/utils.py:19-23 | the stream fails iff some table's columns cannot be found; otherwise it yields as many items as the tables have rows, headers included; a first table without columns fails before yielding anything |
| Utils.TableRowsContents | abitur/utils.py:19-23 | when every table's columns are found, row i of table k is the item at position (rows of the tables before k) + i, paired with table k's columns |
| Utils.TableRowsAppend | abitur/utils.py:19-23 | tables whose columns are found contribute all their rows, in order, before the later tables are looked at |
| Utils.MakeDate | abitur/utils.py:36-37 | `strptime(s, '%d.%m.%Y')` returns only dates `datetime` can hold |
| Utils.MakeDateReads | abitur/utils.py:36-37 | a date is returned only for a text that is a day, a month and a year field joined by dots, and it is the date those fields name; with MakeDateFields, any other text is rejected |
| Utils.MakeDateFields | abitur/utils.py:36-37 | for well-formed day, month and year fields, the date they name if it is a real one and an error otherwise |
| Utils.MakeDateFormatDate | abitur/utils.py:36-37 | parsing a valid date written as zero-padded DD.MM.YYYY gives the same date back |
| Utils.LeapDay | abitur/utils.py:36-37 | "29.02.2020" is accepted |
| Utils.NotALeapYear | abitur/utils.py:36-37 | "29.02.2019" is rejected |
| Utils.NoThirtyFirstOfFebruary | abitur/utils.py:36-37 | "31.02.2020" is rejected |
| Utils.OneDigitFields | abitur/utils.py:36-37 | strptime also accepts one-digit days and months: "1.7.2020" is 1 July 2020 |
| Utils.MakeChecksum | abitur/utils.py:40-41 | the fingerprint of a link is all digits, has no leading zero and reads back as the Adler-32 of the link's UTF-8 bytes, so by Text.DecimalStringUnique it is exactly `str()` of that checksum |
| Utils.EmptyLinkChecksum | abitur/utils.py:40-41 | the fingerprint of the empty link is "1" |
| Models.Student.constructor | abitur/models.py:7-24 | a new applicant has the given fields and is neither checked nor a winner |
| Models.Select | abitur/models.py:42-71 | the filter keeps exactly the applicants of the school that carry the counter's flag |
| Models.SelectAppend | abitur/models.py:42-71 | the filter keeps the queryset's order: filtering two querysets put together gives the two filters one after the other |
| Models.SelectSubMultiset | abitur/models.py:42-71 | a filter selects each applicant at most as often as it occurs in the queryset |
| Models.Count | abitur/models.py:42-71 | `filter(...).count()`, the length of Select; CountAppend and CountOne fix its value |
| Models.SechCount | abitur/models.py:42-43 | Count of the Sechenova applicants |
| Models.SechBviCount | abitur/models.py:46-47 | Count of the Sechenova bvi applicants |
| Models.PirogovaCount | abitur/models.py:50-51 | Count of the Pirogova applicants |
| Models.PirogovaBviCount | abitur/models.py:54-55 | Count of the Pirogova bvi applicants |
| Models.SechFundedOnlyCount | abitur/models.py:58-59 | Count of the Sechenova funded-only applicants |
| Models.PirogovaFundedOnlyCount | abitur/models.py:62-63 | Count of the Pirogova funded-only applicants |
| Models.PirogovaWinnersCount | abitur/models.py:66-67 | Count of the Pirogova winners |
| Models.SechenovaWinnersCount | abitur/models.py:70-71 | Count of the Sechenova winners |
| Models.CountAppend | abitur/models.py:42-71 | a counter over two querysets put together is the sum of the two counts |
| Models.CountOne | abitur/models.py:42-71 | one applicant counts 1 iff it matches the school and the flag |
| Models.FlagCountWithinSchool | abitur/models.py:46-71 | the bvi, funded-only and winner counts of a school never exceed its applicant count |
| Models.SchoolCountsWithinTotal | abitur/models.py:42-51 | the Sechenova count plus the Pirogova count never exceed the total number of applicants |
| Models.Insert | abitur/models.py:29-30 | inserting into a newest-first listing gives a listing one longer, still newest first, holding only the new applicant and the old ones |
| Models.NewestFirst | abitur/models.py:29-30 | the default listing has the queryset's length, holds only its applicants, and is ordered by application date, most recent first |
| Models.InsertPermutes | abitur/models.py:29-30 | insertion adds exactly the one applicant |
| Models.NewestFirstPermutes | abitur/models.py:29-30 | the listing is a permutation of the queryset |
| Forms.CleanPeriod | abitur/forms.py:19-26 | the optional choice field cleans a missing or empty value to "" and keeps a listed choice; any other value makes the form invalid |
| Forms.PeriodCondition | abitur/forms.py:24-36 | `is_valid()`, which `get_period()` returns, yields a lower bound of today − 7 or today − 3 days, or today's month, or no condition |
| Forms.WeekAdmits | abitur/forms.py:27-28 | 'week' admits exactly the dates no earlier than seven days before today |
| Forms.MonthAdmits | abitur/forms.py:29-30 | 'month' admits exactly the dates in today's month number, whatever their year |
| Forms.AllAdmits | abitur/forms.py:31-32 | 'all' admits every date |
| Forms.DefaultAdmits | abitur/forms.py:24-33 | a missing, empty, 'default' or unlisted period admits exactly the dates no earlier than three days before today |
| Forms.DefaultWithinWeek | abitur/forms.py:28-33 | every date the default filter admits, the 'week' filter admits |
| Parsers.Registry.constructor | abitur/parsers.py:31 | the registry starts empty |
| Parsers.Registry.Register | abitur/parsers.py:34-36 | `register` appends the parser class and returns it unchanged |
| Parsers.BuildRegistry | abitur/parsers.py:150-246 | the registry lists Pirogova, Sechenova and Sechenova BVI, in the order they are defined |
| Parsers.NormalizeNameTwice | abitur/parsers.py:55 | normalizing a name a second time changes nothing |
| Parsers.MakeStudent | abitur/parsers.py:53-61 | the record fails iff the date does not parse; otherwise it has the normalized name, the parsed date, the school, and the category's bvi and funded-only flags |
| Parsers.CategoryRecords | abitur/parsers.py:49-61 | iterating a category and making each student; CategoryRecordsShape states what it yields |
| Parsers.CategoryRecordsShape | abitur/parsers.py:91-94 | a category yields one record per entry, in order, each `make_student` of its entry, and fails iff some entry's date does not parse |
| Parsers.FindAnchor | abitur/parsers.py:104-105 | the first anchor whose text matches, or none iff no anchor matches |
| Parsers.PirogovaRows | abitur/parsers.py:162-165 | the filter yields at most one row per input row |
| Parsers.PirogovaRowsKeep | abitur/parsers.py:162-165 | it yields only rows whose first cell is neither empty nor "№"; with no empty row it yields all such rows and passes the input's failure on; an empty row is IndexError |
| Parsers.PirogovaRowsAppend | abitur/parsers.py:162-165 | the filter works row by row, in order: the output for two runs of rows is the two outputs one after the other |
| Parsers.IsStart | abitur/parsers.py:235-237 | `start_predicate`; NothingBeforeStart and StartingBreakEndsAtOnce state its effect |
| Parsers.IsBreak | abitur/parsers.py:231-233 | `break_predicate`; NothingFromBreak and StartingBreakEndsAtOnce state its effect |
| Parsers.SechenovaFrom | abitur/parsers.py:204-218 | Sechenova's filter as a recursive definition; SechenovaYieldsNumbers states what it yields, StartedRow, SechenovaRowsAppend and NumberedRowYielded that every numbered row inside the window is yielded |
| Parsers.Unfold | abitur/parsers.py:214-215 | a row's replacement, the lines of its first cell or the row itself, is never empty |
| Parsers.SechenovaYieldsNumbers | abitur/parsers.py:204-218 | every row Sechenova's filter yields has an all-digit first cell; it fails only with IndexError or the input's failure |
| Parsers.SechenovaCleanRows | abitur/parsers.py:204-218 | the loop with its `go` flag yields what the recursive definition of the filter yields |
| Parsers.NothingBeforeStart | abitur/parsers.py:208-211 | non-empty rows before the first start row yield nothing |
| Parsers.NothingFromBreak | abitur/parsers.py:212-213 | once started, a break row ends the stream normally; nothing after it shows, a later failure included |
| Parsers.StartingBreakEndsAtOnce | abitur/parsers.py:232-237 | a row that is both a start row and a break row ("06.05.01 … особой") ends the stream before anything is yielded |
| Parsers.SechenovaRowsAppend | abitur/parsers.py:206-218 | once started, the filter works row by row, in order: on rows with no break and then any rows, the output is the two outputs one after the other, with the later rows' failure |
| Parsers.StartedRow | abitur/parsers.py:212-218 | once started, a row that is neither empty nor a break is yielded, unfolded, exactly when the first cell of its unfolded form is all digits; otherwise it yields nothing; it adds no failure |
| Parsers.StartRowStarts | abitur/parsers.py:208-211 | from the start row on the filter behaves as if already started |
| Parsers.WindowRowYielded | abitur/parsers.py:204-218 | from the start row on, with no break up to a given row, the output is what the rows before that row yield, then what it yields alone, then what the rows after it yield |
| Parsers.NumberedRowYielded | abitur/parsers.py:204-218 | for a row at any position after the start row with no break before it, the output is what the rows from the start to it yield, then what it yields alone, then what the rows after it yield |
| Parsers.MultiLineCellSplit | abitur/parsers.py:214-218 | at any position inside a started window, a multi-line first cell whose first line is a number comes out as the lines of that cell, right after what the rows before it yielded |
| Parsers.CleanRows | abitur/parsers.py:162-218 | each parser's `clean_rows` over `table_rows(file, self.find_columns)`; PirogovaRowsKeep, SechenovaYieldsNumbers and SechenovaLocatesAll state what it yields |
| Parsers.SechenovaLocatesAll | abitur/parsers.py:240-243 | for Sechenova, `table_rows` never fails, and the cleaned rows can fail only with IndexError |
| Parsers.Step | abitur/parsers.py:131-139 | one turn of the loop keeps the number of buckets and stays within them |
| Parsers.StepRule | abitur/parsers.py:131-139 | a row numbered `next` stays in the current bucket and counting goes on; any other number moves exactly one bucket on and resets the count to 2; moving past the last bucket is IndexError, a non-integer number is ValueError; on success the row's (name, date) goes to exactly one bucket; a row with an integer number that needs no bucket past the last succeeds iff it has both cells |
| Parsers.WellFormedStep | abitur/parsers.py:131-139 | for a row with an integer number and both cells, the turn stays, moves one bucket on with the count reset to 2, or is IndexError when no bucket is left; nothing else can happen |
| Parsers.Parse | abitur/parsers.py:125-141 | `parse_tables` up to `clean_categories`; ClassifyConcatenates, ClassifyErrors and Parser.ParseTables state its outcome |
| Parsers.Classify | abitur/parsers.py:130-139 | the loop over the rows keeps the number of buckets |
| Parsers.InvAtStart | abitur/parsers.py:126-128 | empty buckets with count 1 at bucket 0 meet the numbering invariant |
| Parsers.StepKeepsInv | abitur/parsers.py:131-139 | each turn keeps the invariant: `next` is one more than the size of the current bucket, and no later bucket has been started |
| Parsers.StepByBucketSize | abitur/parsers.py:131-136 | under the invariant, a row stays in the current bucket iff its number is one more than that bucket's size |
| Parsers.FlattenUpdate | abitur/parsers.py:139 | appending to the current bucket, with no later bucket started, appends to the concatenation of the buckets |
| Parsers.ClassifyErrors | abitur/parsers.py:130-139 | `parse_tables` raises only IndexError or ValueError |
| Parsers.ClassifyGrows | abitur/parsers.py:130-139 | buckets only grow at their ends, even when the loop stops with an exception |
| Parsers.ClassifyConcatenates | abitur/parsers.py:130-139 | when nothing is raised, each row goes to exactly one bucket: the buckets read in order are the entries before plus the (name, date) pairs of all the rows, in order |
| Parsers.ClassifySucceeds | abitur/parsers.py:130-139 | for rows with integer numbers and both cells, the loop raises nothing iff the breaks in the numbering fit in the buckets left, and otherwise raises IndexError |
| Parsers.EveryRowLands | abitur/parsers.py:125-141 | rows with integer numbers and both cells whose breaks fit in the buckets left raise nothing, and every one of their (name, date) pairs lands in the buckets, in order |
| Parsers.StepAppends | abitur/parsers.py:131-139 | a turn that raises nothing appends the row's pair after all entries so far |
| Parsers.RestartOpensNextBucket | abitur/parsers.py:131-136 | rows numbered 1, 2, 1 put two entries in the first bucket and one in the second |
| Parsers.ThirdRestartOverflows | abitur/parsers.py:133-135 | with two buckets, a third start of the numbering is IndexError and the buckets keep what they had |
| Parsers.CategorySets | abitur/parsers.py:167-264 | each parser's funded-only set is its general set minus the contract list, and the rest is their intersection; the two are disjoint and cover the general set |
| Parsers.SechenovaSplitIsFindFunded | abitur/parsers.py:220-224 | both Sechenova parsers split exactly as `find_funded` does |
| Parsers.PirogovaBothListsDropped | abitur/parsers.py:168 | an applicant on both Pirogova's general and bvi lists is in neither derived category |
| Parsers.PirogovaBviOnlyAdded | abitur/parsers.py:168-171 | a Pirogova bvi applicant missing from the general list is funded only, or in the rest if it has a contract entry |
| Parsers.PirogovaSubsetIsDifference | abitur/parsers.py:168 | when every bvi applicant is on the general list, the symmetric difference is the plain difference |
| Parsers.CategoryFlags | abitur/parsers.py:173-264 | only the funded_only category is flagged funded only; only Pirogova's bvi category, and both Sechenova BVI categories, are flagged bvi |
| Parsers.DistinctCount | abitur/parsers.py:46-47 | a list without repeats has as many items as its set |
| Parsers.TotalLen | abitur/parsers.py:88-89 | `len(parser)`, the sum of the categories' lengths; LengthAfterCleaning states its value |
| Parsers.Records | abitur/parsers.py:91-94 | iterating a parser; RecordsCount states whether it fails and how many records it yields, RecordsContents which record is where |
| Parsers.LengthAfterCleaning | abitur/parsers.py:88-89 | a parser's length is Pirogova's bvi list as stored, plus the size of the general set |
| Parsers.RecordsCount | abitur/parsers.py:88-94 | iterating a parser fails iff some stored date does not parse; otherwise it yields exactly as many records as its length |
| Parsers.RecordsAppend | abitur/parsers.py:91-94 | iterating the categories of two runs in turn yields the first run's records and, when that raises nothing, the second run's after them, ending as the second run ends |
| Parsers.RecordsContents | abitur/parsers.py:91-94 | when iterating raises nothing, the record at position (entries of the categories before k) + j is `make_student` of entry j of category k |
| Parsers.Enumerate | abitur/parsers.py:49-51 | iterating a category built from a set lists each member exactly once |
| Parsers.Parser.constructor | abitur/parsers.py:71-76 | a new parser has its variant's number of empty buckets, no categories and no link |
| Parsers.Parser.GetSource | abitur/parsers.py:103-110 | the link is the base URL plus the `href` of the first anchor with the link text, or the base URL alone when it has none; no such anchor raises and leaves the link unchanged |
| Parsers.Parser.Turn | abitur/parsers.py:131-139 | one turn of the loop updates the buckets, the bucket index and the expected number exactly as Step says, and leaves the buckets untouched when it raises |
| Parsers.Parser.ParseTables | abitur/parsers.py:125-141 | the buckets end as the row-by-row classification of the cleaned rows says; the exception is the first one raised; categories are rebuilt only when nothing was raised |
| Parsers.Parser.CleanCategories | abitur/parsers.py:167-264 | the categories, in dictionary order, are bvi (Pirogova only), then funded_only, then general, with the sets and flags of `CategoriesFit` |
| Views.UpdateWinner | abitur/views.py:25-33 | the winner mark is flipped and nothing else is touched |
| Views.UpdateWinnerTwice | abitur/views.py:28-31 | two winner updates restore the mark |
| Views.UpdateChecked | abitur/views.py:51-59 | the checked mark is cleared iff it was set and the tag is "i"; otherwise it is set |
| Views.UpdateCheckedTwice | abitur/views.py:55-58 | with any tag but "i" the checked mark ends set, however often the update runs |
| Views.JoinChecksums | abitur/views.py:83 | the joined fingerprint is all digits, at least one digit per link, and empty iff there are no links |
| Views.JoinChecksumsAppend | abitur/views.py:83 | the fingerprint of two runs of links is the two fingerprints one after the other |
| Views.UpdateChecksum | abitur/views.py:81-84 | the cache holds the in-order join of the fingerprints of the parsers' links |
| Views.TotalChecksum | abitur/views.py:149-156 | no fingerprint iff fetching the links raised ClientConnectionError; otherwise digits, at least one per link, empty iff there are no links; UpToDateAfterUpdate and CheckSources's if-and-only-if contracts pin the text to the in-order fingerprints of the links |
| Views.CheckSources | abitur/views.py:136-147 | the error alert iff there is no fresh fingerprint; the warning iff a non-empty cached one differs; the all-clear iff they are equal and non-empty; no alert iff nothing or "" is cached |
| Views.UpToDateAfterUpdate | abitur/views.py:136-156 | checking the links just stored gives the all-clear, unless there were no links |
| Views.ChangedLinkWarns | abitur/views.py:144-146 | one link whose fingerprint changed, whether or not its length changed, makes the page ask for an update |

## Left out

- Utils.TableRows: the TypeError that `table_rows(file, self.find_columns)` raises at abitur/parsers.py:163 and abitur/parsers.py:207 is not modelled; the model takes the two-argument signature the call sites use.
- abitur/crawler.py is not part of this model. It is concurrency and network I/O: asyncio
  tasks, an aiohttp session and a process pool, including its `gather` inside a loop.
- `Parser.run`, `get_page` and `_run` (abitur/parsers.py:78-101, 117-123) are left out:
  they are network fetches, executor dispatch and logging.
- `get_file` and camelot's `read_pdf` (abitur/parsers.py:112-115) are left out. They call
  foreign code, and the tables arrive as given grids of cell texts.
- BeautifulSoup parsing of the page in `get_source` (abitur/parsers.py:104-105) is left out.
  The page is its list of anchors, and `find('a', text=…)` is the first anchor whose text
  matches.
- `get_school` (abitur/utils.py:49-51) is an asynchronous database lookup, so the school is
  a parameter.
- `update_records` is left out: Django persistence. So are `save`,
  `get_object_or_404`, the cache, `render`, `redirect`, `messages` and `decode_request`'s
  error response.
- The request payload's tag is taken to be a string or missing. JSON values of other types
  are left out.
- The logging setup (abitur/parsers.py:13-20) is left out.
- Case mapping and the character classes cover ASCII and the basic Cyrillic block
  (U+0400-U+045F) only. This applies to `lower()`, `title()`, `isdigit()` and
  the digits and white space `int()` and `strptime` accept (white space outside ASCII,
  such as U+00A0, which `int()` also skips, is outside the model). Python's full Unicode tables are not modelled.
- A lone surrogate (U+D800-U+DFFF) cannot be a Dafny `char`, so the UnicodeEncodeError that
  `link.encode()` (abitur/utils.py:41) raises on one is outside the model.
- `CharField(max_length=100)` is not enforced: the database would reject a longer name.
- Forms.PeriodCondition: the OverflowError that `date.today() - timedelta(days=7)` raises
  within seven days of 1 January of year 1 is not modelled; the bound is the ordinal minus 7.
- Parsers.Parser.CleanCategories: Pirogova's bvi category holds the contents of the raw bvi
  list, where the source's category shares the list object itself. Nothing appends to the
  raw list after `clean_categories`, so no length or record differs; the sharing is not
  modelled.
- Parsers.Parser.ParseTables: the cleaned rows are computed in full before they are
  classified, where Python interleaves the two. The outcome is the same, because the
  generator's own exception can only come after every row it yielded.
- Parsers.Enumerate: the order in which a Python set is iterated is left open. Any order of
  the set's members is allowed, so the categories built from sets are specified by their
  members, not their order.
- The time-of-day part of the `datetime` that `strptime` returns is left out. Only the date
  is kept, which is all the `DateField` stores.
