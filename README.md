# ANNOOR site core in Dafny

This project models the logic of the ANNOOR Django site that belongs to the site itself. Three parts are covered:

- **Public views** (`sitecontent/views.py`):
  - the home page, with its settings row created on the first visit;
  - the services, projects and blog listings, with search, filters, an allow-listed sort and pagination by nine;
  - the blog detail page, with its previous, next and recent posts;
  - the contact view.
- **Contact form** (`sitecontent/forms.py`):
  - field validation and the honeypot;
  - the one-row CSV export;
  - the internal notification body;
  - the sending of the notification and of the optional copy to the sender.
- **Environment-driven settings** (`config/settings.py`):
  - the `DEBUG` and `SECURE_SSL_REDIRECT` flags;
  - the `ALLOWED_HOSTS` and `CSRF_TRUSTED_ORIGINS` lists;
  - the cookie flags;
  - the database choice.

Stored records are plain values, and each table is a sequence in storage order. A query string is a map, and so is the process environment. The mail transport is an object whose `Send` reports a scripted success or failure and records each attempt.

Modules, one per file:

- **`Wrappers`**: `Option` and `Result`.
- **`Strings`**: Python's `strip`, `split` and `join`, the `icontains` match, and text ordering.
- **`Sorting`**: filtering, a stable sort, and "the first k in order".
- **`Content`**: the records of `sitecontent/models.py` and their orderings.
- **`Digits`**: the Unicode decimal digits and the other digits, as Python's `int()` and `str.isdigit` see them.
- **`Pagination`**: Django's `Paginator(…, 9)` and `get_page`, and Python's `int()`.
- **`Csv`**: the `excel` dialect writer, and a reader used to state the round trip.
- **`Settings`**: the settings module.
- **`Views`**: the listings and the blog detail.
- **`HomeView`**: the home page and the settings table.
- **`ContactForm`**: validation, CSV, the mail body and sending.
- **`ContactView`**: the contact view.

The contact view ignores what `send_email` returns, and the model follows the code. A valid submission gets its CSV download even when the notification failed, although the code's own comments expect it to: `send_email` documents its boolean result (`sitecontent/forms.py:108`) and leaves the reporting of a failed send to the view (`sitecontent/forms.py:131`).

## Model

| member | source | states |
|---|---|---|
| Strings.LStripSpec | sitecontent/views.py:35 | `lstrip` removes exactly a leading run of whitespace and stops at the first other character |
| Strings.RStripSpec | sitecontent/forms.py:92 | `rstrip` removes exactly a trailing run of whitespace and stops at the last other character |
| Strings.StripSpec | sitecontent/views.py:35-36 | `strip` returns a contiguous piece of its input with only whitespace cut at each end and none left at either end |
| Strings.StripIdentity | sitecontent/views.py:35-36 | a string with no whitespace at either end is its own strip |
| Strings.StripIdempotent | sitecontent/views.py:35-36 | stripping twice is stripping once |
| Strings.Split | config/settings.py:14 | `split(sep)` gives at least one piece, no piece holds the separator, and joining the pieces with the separator gives the input back |
| Strings.SplitJoin | config/settings.py:14 | splitting a join of separator-free pieces gives back those pieces |
| Strings.SplitJoinLast | config/settings.py:14 | splitting separator-free pieces joined to a last piece gives the pieces followed by the split of the last piece |
| Strings.SplitConcat | config/settings.py:14 | splitting `a + sep + b` gives the pieces of `a` followed by the pieces of `b` |
| Strings.SplitNoSep | config/settings.py:14 | a string without the separator splits into itself alone |
| Strings.SplitPrefix | config/settings.py:14 | splitting `p + sep + t`, with `p` separator-free, gives `p` followed by the pieces of `t` |
| Strings.Lower | sitecontent/views.py:39-40 | case folding keeps the length |
| Strings.IContainsEmpty | sitecontent/views.py:38-41 | every text `icontains` the empty text, which is why a blank query must skip the filter to mean "everything" |
| Strings.LexLeTotal | sitecontent/models.py:62-63 | any two titles are comparable in the text ordering |
| Strings.LexLeTransitive | sitecontent/models.py:62-63 | the text ordering is transitive |
| Sorting.Filter | sitecontent/views.py:38-41 | a filter keeps every copy of each record the predicate accepts and no other record |
| Sorting.Insert | sitecontent/views.py:43-46 | inserting into a sorted list adds exactly that element |
| Sorting.SortBy | sitecontent/views.py:43-46 | `order_by` gives a permutation of its input |
| Sorting.SortBySorted | sitecontent/views.py:43-46 | under a total preorder, `order_by` gives a sorted list |
| Sorting.InsertSorted | sitecontent/views.py:43-46 | inserting into a sorted list keeps it sorted |
| Sorting.InsertAllAfter | sitecontent/views.py:43-46 | inserting an element above a bound keeps every element above that bound |
| Sorting.Take | sitecontent/views.py:15 | the slice `[:k]` is a prefix of length `min(k, len)`, so no record more often than stored |
| Sorting.TakeTopK | sitecontent/views.py:169 | a copy of a record left out of the first k of a sorted list means k are shown, none after it in the order |
| Sorting.Reflexive | sitecontent/views.py:156-165 | a total preorder relates every record to itself |
| Sorting.SortedFirstLeast | sitecontent/views.py:156-165 | `.first()` of a sorted list is least in the order |
| Sorting.Select | sitecontent/views.py:38-46 | filter then sort: the selected records with their multiplicities, exactly those accepted, in order |
| Sorting.TopK | sitecontent/views.py:15-18 | filter, sort and slice: at most k accepted records in order, none more often than stored, and a copy of an accepted record is left out only when k are shown and all precede it |
| Sorting.TopKFacts | sitecontent/views.py:15-18 | the first k of a sorted selection are accepted, sorted, and precede every accepted record left out |
| Content.ServiceLePreorder | sitecontent/models.py:62-63 | the service orderings (`title`, `-updated`) are total preorders |
| Content.ProjectLePreorder | sitecontent/views.py:86-95 | the five project orderings, including `-created` then `title`, are total preorders |
| Content.PostLePreorder | sitecontent/models.py:110-111 | the post orderings (`-pub_date`, `pub_date`, `title`) are total preorders |
| Content.PartnerLePreorder | sitecontent/models.py:45-46 | the partner ordering by name is a total preorder |
| Digits.DecimalZero | sitecontent/views.py:131-132 | a character that has a decimal value lies in a run of ten digits starting at a zero, and that zero lies outside the whitespace code points |
| Digits.DecimalValue | sitecontent/views.py:131-132 | a decimal value is below ten, and the ASCII digits have their usual values |
| Digits.DecimalPlacement | sitecontent/views.py:131-132 | no decimal digit is whitespace, and the only ASCII decimal digits are `0`..`9` |
| Digits.OtherDigitPlacement | sitecontent/views.py:131-132 | a digit that is not decimal (a superscript, say) lies outside ASCII and is not whitespace |
| Pagination.NumPages | sitecontent/views.py:99 | at least one page, exactly one for an empty list, enough pages of 9 for every item, and no page that would be empty when there are items |
| Pagination.ShowNat | sitecontent/views.py:98 | `str(n)` is a non-empty string of digits |
| Pagination.DigitsValueShowNat | sitecontent/views.py:98 | the digits of `str(n)` read back as `n` |
| Pagination.AsciiChar | sitecontent/views.py:101 | `int()` keeps every character below U+007F as it is |
| Pagination.AsciiCharSpec | sitecontent/views.py:101 | a decimal digit of any script becomes the ASCII digit of the same value, and a character that becomes ASCII whitespace, a sign, `_` or a digit is one `int()` accepts |
| Pagination.ToAsciiSpec | sitecontent/views.py:101 | the conversion to ASCII succeeds iff every character converts, keeps the length, and converts each character on its own |
| Pagination.LTrimSpec | sitecontent/views.py:101 | the leading cut removes exactly a run of ASCII whitespace |
| Pagination.RTrimSpec | sitecontent/views.py:101 | the trailing cut removes exactly a run of ASCII whitespace |
| Pagination.TrimAsciiCuts | sitecontent/views.py:101 | every character of the text is either ASCII whitespace or kept by the trim |
| Pagination.Ungroup | sitecontent/views.py:101 | removing single underscores between digits gives a non-empty string of digits, and leaves a plain digit string unchanged |
| Pagination.UngroupChars | sitecontent/views.py:101 | a string that ungroups holds only digits and underscores |
| Pagination.ParseDigits | sitecontent/views.py:101 | an accepted digit group is never negative, and a plain digit string reads as its value when it has at most 4300 digits and is refused when it has more |
| Pagination.NumeralChars | sitecontent/views.py:101 | a numeral that reads holds only digits, signs and underscores |
| Pagination.ParseInt | sitecontent/views.py:101 | `int()` accepts a string only when every character is whitespace (other than U+001C..U+001F), a sign, `_` or a decimal digit; the 4300-digit limit is stated by ParseIntNumeral and ParseIntDecimal |
| Pagination.AcceptedChars | sitecontent/views.py:101 | a string whose ASCII form reads as a numeral holds only characters `int()` accepts |
| Pagination.AsciiUnchanged | sitecontent/views.py:101 | ASCII text without whitespace at either end is neither converted nor trimmed |
| Pagination.ReadAsIs | sitecontent/views.py:101 | such text is read as a numeral directly |
| Pagination.SignedAscii | sitecontent/views.py:101 | a sign followed by ASCII digits is neither converted nor trimmed |
| Pagination.NumeralSigned | sitecontent/views.py:101 | after a `+` the digits are read as they are, after a `-` they are read and negated |
| Pagination.ParseIntNumeral | sitecontent/views.py:101 | `int()` of a string of ASCII digits is its value when it has at most 4300 digits and raises when it has more; `+` in front changes nothing, `-` in front negates the result |
| Pagination.ParseIntShowNat | sitecontent/views.py:98-101 | `int(str(n)) == n`, also with `+` or `-` in front, for every `n` of at most 4300 digits |
| Pagination.ToAsciiDecimal | sitecontent/views.py:101 | decimal digits of any script convert to ASCII digits of the same value |
| Pagination.ParseIntDecimal | sitecontent/views.py:101 | `int()` of a non-empty string of decimal digits of any script is their value when there are at most 4300 of them, and raises when there are more |
| Pagination.DigitsUnchanged | sitecontent/views.py:101 | a string of ASCII digits is not trimmed, and reads as its value when it has at most 4300 digits and is refused when it has more |
| Pagination.ParseIntUnderscore | sitecontent/views.py:101 | `int("1_000")` is 1000: single underscores between digits are dropped |
| Pagination.SeparatorRefused | sitecontent/views.py:100-103 | `int("\x1c2")` raises, although `str.strip` would remove the U+001C, so `?page=%1C2` shows page 1 |
| Pagination.GetPage | sitecontent/views.py:98-103 | `get_page` never fails: a missing number or one `int()` refuses gives page 1, an integer out of range the last page, any other integer that page |
| Pagination.OverlongPageIsFirst | sitecontent/views.py:98-103 | a page number of more than 4300 digits makes `int()` raise, so page 1 is shown |
| Pagination.PageItems | sitecontent/views.py:99-106 | page n is the n-th run of 9 items: full except the last, which runs to the end |
| Pagination.Paginate | sitecontent/views.py:139-140 | the page returned is a valid page of the list, and page 1 when no number is given |
| Pagination.PagesUpToPrefix | sitecontent/views.py:99-106 | pages 1..k read one after the other are the list's prefix up to the end of page k |
| Pagination.SliceJoin | sitecontent/views.py:99-106 | the prefix up to `i` and the slice from `i` to `j` make the prefix up to `j` |
| Pagination.PageSlice | sitecontent/views.py:99-106 | page k is the slice from the end of page k-1 to its own end |
| Pagination.PagesCoverList | sitecontent/views.py:99-106 | all pages read in order give back every item exactly once, in order |
| Pagination.DefaultPageIsFirst | sitecontent/views.py:98 | the default page parameter `"1"` selects page 1 |
| Csv.Escape | sitecontent/forms.py:78 | doubling the quotes never shortens a field |
| Csv.Writer.constructor | sitecontent/forms.py:77-78 | a new writer over an empty buffer holds no text |
| Csv.Writer.WriteRow | sitecontent/forms.py:79 | `writerow` appends exactly the formatted record, ended by CRLF, to the buffer |
| Csv.ParseBare | sitecontent/forms.py:78 | reading an unquoted field splits the input into the field and the rest |
| Csv.BareRoundTrip | sitecontent/forms.py:78 | a field that needs no quoting is read back unchanged when a delimiter or line end follows |
| Csv.QuotedRoundTrip | sitecontent/forms.py:78 | a field written with its quotes doubled is read back unchanged up to its closing quote |
| Csv.EscapeFront | sitecontent/forms.py:78 | quote doubling works character by character from the front |
| Csv.ReadDoubledQuote | sitecontent/forms.py:78 | inside a quoted field, a doubled quote is read as one quote |
| Csv.ReadPlainChar | sitecontent/forms.py:78 | inside a quoted field, any other character is read as itself |
| Csv.FieldRoundTrip | sitecontent/forms.py:78 | every field, quoted or not, is read back unchanged |
| Csv.QuotedFieldRoundTrip | sitecontent/forms.py:78 | a field holding a delimiter, quote or line break is quoted and read back unchanged |
| Csv.BareFieldRoundTrip | sitecontent/forms.py:78 | a plain field is written as is and read back unchanged |
| Csv.FieldsRoundTrip | sitecontent/forms.py:81-83 | a non-empty list of fields joined by commas is read back as that list |
| Csv.ParseFieldsCons | sitecontent/forms.py:81-83 | reading a field and a comma, then the remaining fields, reads the whole list |
| Csv.RecordRoundTrip | sitecontent/forms.py:79-83 | one written row, CRLF included, is read back as its fields |
| Csv.TableRoundTrip | sitecontent/forms.py:76-84 | the text of several written rows parses back to exactly those rows |
| Csv.ParseCons | sitecontent/forms.py:76-84 | reading one record and then the remaining text reads all the rows |
| Settings.EnvGet | config/settings.py:8 | `os.environ.get` gives the set value, or the default when unset |
| Settings.Debug | config/settings.py:9 | `DEBUG` is true iff the variable is set to `1`, `true` or `True` |
| Settings.SecureSslRedirect | config/settings.py:27-31 | `SECURE_SSL_REDIRECT` is true iff the variable is unset or set to `1`, `true` or `True` |
| Settings.StripNonEmpty | config/settings.py:12-16 | stripping and dropping empty pieces never adds pieces, and keeps exactly the non-empty strips of the pieces |
| Settings.StripNonEmptyAppend | config/settings.py:12-16 | the step works piece by piece: on two lists of pieces it gives the two results one after the other |
| Settings.ParseList | config/settings.py:12-23 | every host or origin kept is non-empty, has no whitespace at either end and holds no comma |
| Settings.StripKeeps | config/settings.py:13 | stripping only removes characters |
| Settings.StripNonEmptyClean | config/settings.py:12-16 | the stripped, non-empty pieces of a comma split are clean items |
| Settings.StripNonEmptyIdentity | config/settings.py:12-16 | clean items pass the strip and drop-empty step unchanged |
| Settings.ParseListMembers | config/settings.py:12-23 | an item is in the parsed list iff it is non-empty and the strip of some comma-separated piece |
| Settings.ParseListPiece | config/settings.py:12-23 | a text without commas parses to its strip, or to nothing when that is empty |
| Settings.ParseListComma | config/settings.py:12-23 | parsing `a,b` is parsing `a` followed by parsing `b` |
| Settings.ParseListJoin | config/settings.py:12-23 | a list of clean items written comma-separated parses back to that list, in order |
| Settings.ParseListIdempotent | config/settings.py:12-23 | writing a parsed list back with commas and parsing it again changes nothing |
| Settings.AllowedHosts | config/settings.py:12-16 | the parsed `ALLOWED_HOSTS` variable when set, otherwise `["localhost", "127.0.0.1"]`; every host clean |
| Settings.CsrfTrustedOrigins | config/settings.py:17-23 | the parsed `CSRF_TRUSTED_ORIGINS` variable when set, otherwise `["http://localhost", "http://127.0.0.1"]`; every origin clean |
| Settings.SelectDatabase | config/settings.py:80-97 | PostgreSQL iff `DB_ENGINE` is exactly `postgres`; otherwise SQLite at `db.sqlite3` under the project directory |
| Settings.Load | config/settings.py:8-33 | both cookies are secure iff `DEBUG` is off, `DEBUG` is as above, and the host and origin lists hold clean items |
| Settings.LoadDefaults | config/settings.py:8-120 | with nothing set: debugging off, the two local hosts and origins, redirect and secure cookies on, SQLite, the console mail backend |
| Settings.DefaultHosts | config/settings.py:14 | the default text `localhost,127.0.0.1` parses to `["localhost", "127.0.0.1"]` |
| Settings.DefaultOrigins | config/settings.py:19-21 | the default text `http://localhost,http://127.0.0.1` parses to `["http://localhost", "http://127.0.0.1"]` |
| Settings.DefaultList | config/settings.py:14 | two clean items written `a,b` parse to `[a, b]` |
| Views.Param | sitecontent/views.py:35-36 | a missing parameter reads as the empty string, and a parameter never has whitespace at either end |
| Views.ServiceOrderFor | sitecontent/views.py:43-46 | the order is `-updated` iff `sort` is `-updated`; otherwise by title |
| Views.ServicesList | sitecontent/views.py:32-48 | each service is listed as often as stored when it matches the stripped `q` (or `q` is blank), never otherwise, ordered by `-updated` or by title as `sort` asks |
| Views.ServicesBlankQueryKeepsAll | sitecontent/views.py:35-41 | a blank `q` lists every service |
| Views.ProjectOrderFor | sitecontent/views.py:86-95 | each allow-listed sort key gives its order; any other key gives `-created` then `title` |
| Views.ProjectsQuery | sitecontent/views.py:57-95 | exactly the projects matching `q` and each non-blank `client`, `location` and `year` filter, with their multiplicities, sorted by the chosen order |
| Views.ProjectsList | sitecontent/views.py:97-109 | a valid page of the query result, at most 9 projects, page 1 when no page is given |
| Views.YearValue | sitecontent/views.py:131-132 | a year filter applies iff the stripped `year` is a non-empty string of at most 4300 decimal digits of any script, and its value is what `int()` reads |
| Views.PostOrderFor | sitecontent/views.py:134-137 | `pub_date` and `title` are applied; `-pub_date` and any other key give the default `-pub_date` |
| Views.BlogQueryWith | sitecontent/views.py:122-137 | exactly the published posts matching `q` and the year, with their multiplicities, in the chosen order |
| Views.BlogPageOf | sitecontent/views.py:139-148 | a valid page of at most 9 posts, page 1 when no page is given, and `is_paginated` iff there is more than one page |
| Views.BlogList | sitecontent/views.py:121-150 | the page shown is a page of the filtered, ordered published posts; only published posts appear |
| Views.YearFilterAsWritten | sitecontent/views.py:131-132 | the code fails iff `isdigit()` accepts the year and `int()` refuses it or the year is outside 1..9999; otherwise it filters as intended |
| Views.YearRead | sitecontent/views.py:131-132 | on a string `isdigit()` accepts, `int()` succeeds iff every character is a decimal digit and there are at most 4300 of them, and then reads their value |
| Views.BlogListAsWritten | sitecontent/views.py:121-150 | whenever the code does not fail it shows what the intended listing shows |
| Views.SuperscriptYearFails | sitecontent/views.py:131-132 | `?year=²` makes the code fail, where the intended listing shows the unfiltered first page |
| Views.OverlongYearFails | sitecontent/views.py:131-132 | `?year=` with more than 4300 decimal digits makes the code fail, where the intended listing shows the unfiltered first page |
| Views.ArabicIndicYear | sitecontent/views.py:131-132 | `?year=٢٠٢٣` is read as 2023, and the code shows exactly what the intended listing shows |
| Views.ArabicIndicValue | sitecontent/views.py:131-132 | the Arabic-Indic digits `٢٠٢٣` are decimal digits worth 2023 |
| Views.YearZeroFails | sitecontent/views.py:131-132 | `?year=0` makes the code fail, where the intended listing shows the (empty) posts of year 0 |
| Views.YearParam | sitecontent/views.py:123-126 | a query holding only a year reads that year, a blank `q` and `sort`, and no page |
| Views.FirstBlogPage | sitecontent/views.py:121-140 | with no search, sort or page, the intended listing is the first page of the published posts the year keeps |
| Views.FindPublished | sitecontent/views.py:154 | a published post with the slug when one exists, and nothing (a 404) iff none exists |
| Views.First | sitecontent/views.py:159 | `.first()` is empty iff the list is, and otherwise the first record |
| Views.PrevPost | sitecontent/views.py:156-160 | `prev_post` is a published post strictly earlier than the date and no earlier than any other such post; none iff no such post |
| Views.NextPost | sitecontent/views.py:161-165 | `next_post` is a published post strictly later than the date and no later than any other such post; none iff no such post |
| Views.RecentPosts | sitecontent/views.py:166-170 | at most five published posts other than the current one, none more often than stored, newest first, and a copy of one is left out only when five no older than it are shown |
| Views.RecentTopFive | sitecontent/views.py:166-170 | the first five of the sorted selection have the properties above |
| Views.BlogDetail | sitecontent/views.py:153-181 | a 404 iff no published post has the slug; otherwise that post with its previous, next and recent posts as above |
| HomeView.HomeSettingsTable.constructor | sitecontent/views.py:14 | the table starts with the given rows |
| HomeView.HomeSettingsTable.FirstOrCreate | sitecontent/views.py:14 | the first row, with the table unchanged; or, on an empty table, a new row with every default, which is then the only row |
| HomeView.HomeServices | sitecontent/views.py:15 | at most six services by title, none more often than stored, and a copy of a service is left out only when six are shown that come no later |
| HomeView.HomeProjects | sitecontent/views.py:16 | at most six projects newest first, none more often than stored, and a copy of a project is left out only when six no older are shown |
| HomeView.HomePartners | sitecontent/views.py:17 | every partner, each as often as stored, by name |
| HomeView.HomePosts | sitecontent/views.py:18 | at most three published posts newest first, none more often than stored, and a copy of a published post is left out only when three no older are shown |
| HomeView.Home | sitecontent/views.py:13-29 | the settings shown are the table's first row after the call, a row is created only when the table was empty, and the lists are the four above |
| ContactForm.CleanCharField | sitecontent/forms.py:18-54 | a stripped value is accepted iff it is present when required, within `max_length` and free of NUL; an accepted value is kept as is, a refused one has errors |
| ContactForm.CleanEmailField | sitecontent/forms.py:24-28 | an address is accepted iff it is non-empty, has the address shape and holds no NUL |
| ContactForm.CleanHp | sitecontent/forms.py:69-72 | `clean_hp` accepts iff the honeypot is empty, then returns `""`; otherwise "Bot detected." |
| ContactForm.CleanHoneypot | sitecontent/forms.py:57 | the hidden field passes iff it is empty, and then cleans to `""` |
| ContactForm.Checkbox | sitecontent/forms.py:61-67 | the copy box is off when absent, and otherwise on iff its value is non-empty and not `false` in any case |
| ContactForm.Validate | sitecontent/forms.py:17-72 | `is_valid` iff every field passes; the cleaned data are then the stripped values and the box; otherwise the errors are non-empty |
| ContactForm.OverlongNameRefused | sitecontent/forms.py:18-19 | a name over 120 characters after strip is refused, and its first error is the length error |
| ContactForm.HoneypotRefused | sitecontent/forms.py:69-72 | a filled honeypot makes the form invalid with an error on `hp` |
| ContactForm.CsvTextRoundTrip | sitecontent/forms.py:76-84 | the CSV text parses back to exactly the header row and the submitted values in column order |
| ContactForm.WriteCsv | sitecontent/forms.py:77-83 | the buffer holds the header record followed by the values record |
| ContactForm.CsvBytes | sitecontent/forms.py:76-84 | `_csv_bytes` is the UTF-8 encoding of that text, and parsing it gives back the header and the submitted values |
| ContactForm.InternalLines | sitecontent/forms.py:89-99 | `From:` line, `Phone:` line right-stripped, `IP:` and `UA:` only when given, a blank line, then the message |
| ContactForm.ComposeInternalBody | sitecontent/forms.py:86-100 | the body is those lines joined by newlines |
| ContactForm.InternalBodyLines | sitecontent/forms.py:86-100 | when no header value holds a newline, splitting the body on newlines gives the header lines back, then the lines of the message |
| ContactForm.NoCharConcat | sitecontent/forms.py:91 | a character absent from two strings is absent from their concatenation |
| ContactForm.RStripKeeps | sitecontent/forms.py:92 | `rstrip` adds no character |
| ContactForm.SubjectLine | sitecontent/forms.py:111 | the subject is never empty, has no whitespace at either end, and is the stripped subject whenever that is non-empty |
| ContactForm.Inbox | sitecontent/forms.py:118 | the recipient is `CONTACT_INBOX` when configured, else `EMAIL_HOST_USER` |
| ContactForm.InternalMessage | sitecontent/forms.py:120-126 | the notification has that subject and body, goes to the inbox from `EMAIL_HOST_USER`, with reply-to `name <email>` and no attachment |
| ContactForm.CopyLines | sitecontent/forms.py:137-147 | the copy's thirteen lines: greeting, note, `Objet :`, `Nom :`, `Email :` and `Téléphone :` lines, `Message :`, the message and the signature, with blank lines between groups |
| ContactForm.CopyBody | sitecontent/forms.py:137-147 | the copy's body, written as one string, is those lines joined with newlines |
| ContactForm.CopyTail | sitecontent/forms.py:144-146 | the last four lines join to `Message :`, the message, a blank line and the signature |
| ContactForm.CopyHead | sitecontent/forms.py:138-139 | the first four lines join to the greeting, a blank line, the note and a blank line |
| ContactForm.CopyMessage | sitecontent/forms.py:148-159 | the copy goes only to the sender, from `EMAIL_HOST_USER`, with subject `[Copie] ` plus the subject line, the body above, and `contact.csv` (text/csv) as its one attachment |
| ContactForm.Transport.constructor | sitecontent/forms.py:129 | a new transport has sent nothing and holds its scripted outcomes |
| ContactForm.Used | sitecontent/forms.py:129 | after `n` sends, the script is what follows its first `n` entries |
| ContactForm.Transport.Send | sitecontent/forms.py:128-133 | a send succeeds iff the next outcome is not a failure, records the attempt, and consumes one outcome |
| ContactForm.SendCopy | sitecontent/forms.py:136-163 | the copy is attempted once, carrying the CSV bytes, whatever the outcome, and uses up one scripted outcome |
| ContactForm.SendEmail | sitecontent/forms.py:104-165 | True iff sending the notification raised nothing; the notification is always attempted first; the copy is attempted iff the notification succeeded and the box is ticked; earlier attempts are kept; one scripted outcome is used per attempt |
| ContactView.CsvDownload | sitecontent/views.py:199-202 | a `text/csv` attachment named `contact.csv` whose content parses back to the header and the submitted values |
| ContactView.Contact | sitecontent/views.py:184-207 | GET: the unbound form, nothing sent. Invalid POST: the form with its non-empty errors, nothing sent. Valid POST: the notification is attempted and the CSV download returned, whatever the send gave |
| ContactView.ContactAsWritten | sitecontent/views.py:184-207 | as above, except that a valid POST attempts the notification and then ends in a server error |
| ContactView.SubmissionAccepted | sitecontent/forms.py:18-57 | a submission of stripped values within their bounds, with a well-shaped address and no phone or honeypot, is valid |
| ContactView.SampleSubmissionAccepted | sitecontent/views.py:191 | the submission name `A`, address `a@b.c`, subject `S`, message `M` is valid |

## Left out

- SMTP delivery and Django's `EmailMessage` are not modelled.
  - The transport is an object with a scripted list of outcomes.
  - An exhausted script means success.
  - `fail_silently=True` on the copy means its outcome is recorded and never reported.
- The logging of a failed send (`sitecontent/forms.py:132`) is not modelled.
- `EMAIL_HOST_USER` and `CONTACT_INBOX` are not defined in `config/settings.py`. They are the `MailConfig` parameter, with `CONTACT_INBOX` optional.
- Byte-level UTF-8 is not modelled: bytes are the opaque, injective wrapper `Utf8(text)`.
- The `csv` writer is modelled for the `excel` dialect only:
  - comma delimiter;
  - double quote, doubled inside a quoted field;
  - `QUOTE_MINIMAL`;
  - CRLF line ends.
- Csv.TableRoundTrip: requires every row to hold at least one field. `writerow([])` writes an empty line that reads back as one empty field. The rows of this site always hold five fields.
- ContactForm.CleanEmailField: Django's `EmailValidator` is replaced by a shape check. The shape is a non-empty user part before the last `@`, and a domain that is `localhost` or holds a dot without starting or ending with one. The model leaves out the validator's character classes, IDNA handling, IP-literal domains and the 320-character limit.
- ContactForm.CleanCharField: the model does not take in Django's `ProhibitNullCharactersValidator` wording or other error message texts. Errors are symbolic values.
- `icontains` is modelled as a substring match after ASCII case folding. Folding beyond ASCII depends on the database backend.
- Sorting.SortBy: ties are modelled by a stable insertion sort. SQL leaves the order of equal keys unspecified, so the contracts promise only sortedness and a permutation.
- Pagination.ParseInt and Digits: the decimal digits and the other digits follow the Unicode 15.0 tables of Python 3.12. Other Python versions carry other tables.
- Pagination.ShowNat: Python's `str(n)` raises for a number of more than 4300 digits; the model renders every `n`. The views write no number but the default page `"1"`, and ParseIntShowNat states the round trip for at most 4300 digits.
- Pagination.ParseInt: the digit limit is the default of `sys.set_int_max_str_digits`; a deployment that changes it is not modelled.
- Pagination.ParseInt: the whitespace `int()` accepts is modelled on what Python does with each character. A non-ASCII space becomes a plain space; U+001C..U+001F stay as they are and are refused.
- Strings.LexLe: titles are ordered by code point, which is SQLite's `BINARY` collation. With `DB_ENGINE=postgres` (`config/settings.py:80-90`), PostgreSQL orders text by the database's locale collation. That collation is not modelled.
- Timestamps (`created`, `updated`) are integers. Dates are year, month and day with no calendar validity check.
- `prefetch_related` (`sitecontent/views.py:57`) changes no result and is not modelled.
- The `try/except` around `get_page` (`sitecontent/views.py:100-103`) is not modelled. `get_page` never raises, so the fallback branch cannot run.
- Slug uniqueness is a database constraint. Views.FindPublished takes the first published post with the slug.
- `service_detail`, `project_detail`, `partners_view` and `about` are one-line lookups or renders and are not modelled.
- Template rendering is not modelled. Response headers are limited to the content type and the attachment name.
- URL routing is not modelled. `sitecontent/urls.py:15` routes to `views.contact_thanks`, which `sitecontent/views.py` does not define.
- `sitecontent/models.py`, `admin.py`, `sitemaps.py` and `context_processors.py` are declarative. Only the record fields, default orderings and `HomeSettings` defaults are modelled. The admin's single-row guard is not.
- The management commands (`check_smtp`, `ensure_superuser`) and `docker/gunicorn.conf.py` are network, database and process configuration.
- The remaining settings entries are constant framework configuration: apps, middleware, templates, static files, CKEditor and i18n. `BASE_DIR` is a parameter.
- Multi-valued query parameters read their last value, as `QueryDict.get` does.

## Findings

| source | as written | input that shows it | evidently intended | confidence | as-written member | corrected member |
|---|---|---|---|---|---|---|
| sitecontent/views.py:199 | `form.to_csv_bytes()`, a method `ContactForm` does not define (it defines `_csv_bytes`) | any valid POST, e.g. name `A`, email `a@b.c`, subject `S`, message `M` (ContactView.SampleSubmissionAccepted): the notification is sent, then `AttributeError` gives a server error | return the CSV of `_csv_bytes()` as the `contact.csv` download | high, not executed | ContactView.ContactAsWritten | ContactView.Contact |
| sitecontent/views.py:131-132 | `if year.isdigit(): qs.filter(pub_date__year=int(year))` | `GET /blog/?year=²`: `isdigit()` is true for superscripts, circled digits and other digits that are not decimal, and `int()` raises `ValueError` (Views.SuperscriptYearFails, Views.YearRead); likewise `?year=` with 4297 zeros and `2023`, more digits than `int()` accepts (Views.OverlongYearFails) | filter only on a string of decimal digits `int()` accepts, and otherwise leave the list unfiltered | high, not executed | Views.BlogListAsWritten | Views.BlogList |
| sitecontent/views.py:131-132 | `pub_date__year=int(year)` for any digit string | `GET /blog/?year=0` (or a year above 9999): the year lookup cannot build the bounding dates and raises (Views.YearZeroFails) | an empty listing for a year no post can have | medium, not executed | Views.BlogListAsWritten | Views.BlogList |
