# Trade-registry scraper, modelled in Dafny

`scrape_and_print.py` looks companies up by their unified business number (統一編號)
on the Bureau of Foreign Trade's registry site. For each company it:

- solves the numeric captcha with an OCR engine;
- reads the basic-data card (`extract_basic_data`);
- reads the trade-grade history in a second browser (`fetch_grade_separately`,
  `extract_grade_data`);
- stores the results in three PostgreSQL tables: `company_basic`, `company_grade`
  and `scraping_errors`.

A batch runs over many companies and pauses every third company.

This project models that core and proves what it promises. The browser, the OCR
engine, the random pause length and the database's own failures are **oracles**:

- each browser step is given by what the page does (it raises, a banner appears,
  results show, and so on);
- each OCR pass either yields a text or raises;
- each database call takes a `fault` flag meaning "a statement raised and the
  transaction was rolled back".

Modules:

| file | module | models |
|---|---|---|
| py.dfy | `Py` | the Python builtins used: `str.isdigit`, `str.isspace`, `strip`, `split("\n")`, `in` on strings, slicing with clamping, filtered comprehensions |
| captcha.dfy | `Captcha` | `recognize_captcha`: digit filtering, the 3- to 4-digit policy, zero padding, the "000" fallback |
| basic.dfy | `Basic` | `extract_basic_data`: the `field_map` loop and the product-item loop |
| grades.dfy | `Grades` | `extract_grade_data`: the skipped title rows, the `len(td) >= 3` filter, the two regular expressions |
| store.dfy | `Store` | `save_data_to_postgres` and `log_error_to_db`, over a `Database` object holding the three tables |
| session.dfy | `Session` | `handle_captcha`, `click_grade_button`, `close_modal_dialog` |
| scraper.dfy | `Scraper` | the page loop, `fetch_grade_separately`, `extract_company_data`, `batch_process` |

Each loop of the source is a `method` with a `while` or `for` loop. Most are
proved against a specification function (`RecognizeCaptcha`, `ExtractBasicData`,
`ExtractGradeData`, `HandleCaptcha`, `InsertGrades`, `FetchGradeSeparately`,
`ExtractCompanyData`, `BatchProcess`), whose properties are stated as lemmas.
The others (`ClickGradeButton`, `PressCloseButton`, `CloseModalDialog`,
`QueryPage`, `AppendMapped`, `UpdateColumns`) state their properties directly in
their `ensures`.

The basic-data dict is keyed by an enumeration `BasicField`:

- `Label` gives the Chinese key the source uses;
- `ElementId` gives the page element it is read from;
- `Ordinal` gives its position in `field_mapping`.

The SQL columns are the enumeration `Column`.

A failure in the basic-data steps saves status "partial" only when the basic
dict is non-empty (scrape_and_print.py:808). That happens only when the error
came after `extract_basic_data` ran, namely while reading the card's HTML for
the PDF (`Scraper.PartialNeedsBasicCard`). A basic-data failure before the card
shows saves nothing, whatever grade records were fetched.

## Model

| member | source | states |
|---|---|---|
| Py.KeepDigits | scrape_and_print.py:127 | `"".join(filter(str.isdigit, s))` yields only digits, is no longer than `s`, and is `s` itself when `s` is all digits |
| Py.KeepDigitsCounts | scrape_and_print.py:127 | no digit is lost or invented: each digit occurs as often as in the input, and no other character occurs |
| Py.KeepDigitsAppend | scrape_and_print.py:127 | the digits keep their order: the digits of a concatenation are the digits of each piece, concatenated |
| Py.StripSpec | scrape_and_print.py:303 | `str.strip()` removes only whitespace, from both ends, and leaves a text that neither starts nor ends with whitespace |
| Py.StripIdempotent | scrape_and_print.py:303 | stripping twice is stripping once |
| Py.SplitJoin | scrape_and_print.py:336 | no part of `s.split(sep)` holds the separator, and joining the parts gives `s` back |
| Py.Prefix | scrape_and_print.py:131 | `s[:n]` clamps: its length is `min(len(s), n)` and it is a prefix of `s` |
| Captcha.PadZeros | scrape_and_print.py:147-148 | `ljust(3, "0")` keeps the text as its prefix and fills up to the width with '0' only |
| Captcha.AttemptCode | scrape_and_print.py:124-150 | one attempt: a raw reading with at least 3 digits gives its first 4 digits; otherwise an enhanced reading with at least 3 digits gives its first 4; otherwise the longer of the two (the raw one on a tie) padded to 3; it raises exactly when the raw pass raises, or when the raw pass is short and the enhanced pass raises; every code it returns is 3 or 4 digits |
| Captcha.SolvedCode | scrape_and_print.py:123-155 | the code returned is always 3 or 4 digits, and is either the fallback "000" or the code of one of the attempts |
| Captcha.SolvedByFirstReading | scrape_and_print.py:123-150 | the first attempt that does not raise decides the code |
| Captcha.AllRaiseGivesFallback | scrape_and_print.py:152-155 | when every attempt raises, the code is "000" |
| Captcha.RecognizeCaptcha | scrape_and_print.py:119-156 | the retry loop returns the solved code for `max_attempts > 0`, None when the loop never runs, and a 3- or 4-digit code whenever it returns one |
| Basic.BasicRecord | scrape_and_print.py:272-322 | the dict has an entry for every one of the 21 fields, whatever the page holds, each holding that field's value |
| Basic.MissingElementIsEmpty | scrape_and_print.py:304-306 | a field whose element is missing is stored as "" and not left out |
| Basic.ItemNeedsSpan | scrape_and_print.py:315-319 | a product item without a `span` is "", even when its element has text |
| Basic.MappedFallsBackOnText | scrape_and_print.py:302-303 | a `field_map` field other than the web site falls back on the element's own stripped text |
| Basic.WebsiteIsFirstHref | scrape_and_print.py:298-300 | the web site is the first anchor's `href`, not stripped |
| Basic.ValuesAreStripped | scrape_and_print.py:295-319 | every value but the web site is already stripped |
| Basic.StoreMapped | scrape_and_print.py:295-306 | the `field_map` loop stores exactly the fields it visits, with their values |
| Basic.StoreItems | scrape_and_print.py:309-319 | the product-item loop adds exactly its four fields to the dict |
| Basic.ExtractBasicData | scrape_and_print.py:272-322 | the two loops together give `BasicRecord` |
| Grades.LocalYear | scrape_and_print.py:338-342 | the 民國年 capture is all digits |
| Grades.LocalYearFound | scrape_and_print.py:338-342 | when a digit is followed by 年, the capture is the whole run of digits ending at the first such digit |
| Grades.LocalYearAbsent | scrape_and_print.py:338-342 | with no digit followed by 年, the capture is "" |
| Grades.WesternYear | scrape_and_print.py:343-347 | the 西元年 capture is "" or four digits |
| Grades.WesternYearSpec | scrape_and_print.py:343-347 | the capture is the leftmost four consecutive digits, and "" exactly when there are none |
| Grades.PeriodPartsSpec | scrape_and_print.py:336-337 | the two parts of the period cell contain no line break; without a break the first part is the stripped cell and the second is ""; with one, the cell starts with first part, break, second part, and the second part runs to the next break or the end |
| Grades.ParseGradeRow | scrape_and_print.py:335-357 | a record's 民國年 is "" or digits and its 西元年 is "" or four digits |
| Grades.KeptRows | scrape_and_print.py:330-335 | the rows that give a record are exactly those past the three title rows that have at least three cells, in table order |
| Grades.GradeTable | scrape_and_print.py:325-366 | one record per kept row, in order, read from that row; [] when the table is missing |
| Grades.GradeTableExample | scrape_and_print.py:330-335 | below three title rows, a three-cell row gives a record and a one-cell row gives none |
| Grades.ExtractGradeData | scrape_and_print.py:325-366 | the loop returns `GradeTable` |
| Store.AppendMapped | scrape_and_print.py:534-538 | the `field_mapping` loop appends one column per key of the dict other than 統一編號, in mapping order, each with placeholder `%s` and the dict's value as its parameter |
| Store.MappedColumns | scrape_and_print.py:534-538 | the appended columns are distinct and cover every field of the dict but 統一編號 |
| Store.BuildBasicUpsert | scrape_and_print.py:520-553 | the parallel lists have equal lengths; they start with company_id, fetch_date and status; the remaining columns are distinct and in mapping order; they describe exactly `SaveRow`; and the update list is every column but company_id |
| Store.UpdateColumns | scrape_and_print.py:547-551 | the `ON CONFLICT` update list is every column but the key, in order |
| Store.RowOfSpec | scrape_and_print.py:541-543 | the row written by the parallel lists has exactly their columns, each with the parameter at its position |
| Store.SaveRowSpec | scrape_and_print.py:520-538 | the saved row holds the id, the time, the status and exactly the dict's fields other than 統一編號, as texts |
| Store.GradeRowsFor | scrape_and_print.py:560-575 | one grade row per record, in order, each carrying the id and the save time |
| Store.SavePreservesConsistency | scrape_and_print.py:556-575 | a save keeps every row keyed by its own company_id and every grade row referencing an existing company |
| Store.LogPreservesConsistency | scrape_and_print.py:599-610 | logging keeps the tables consistent |
| Store.SaveWritesRow | scrape_and_print.py:541-556 | after a save, the company's row holds every written column with the written value |
| Store.SaveKeepsUnnamedColumns | scrape_and_print.py:544-553 | on conflict, columns the save does not name keep their old values |
| Store.SaveLeavesOthers | scrape_and_print.py:556-575 | other companies' rows and grade rows, and the error log, are unchanged by a save |
| Store.SaveReplacesGrades | scrape_and_print.py:559-575 | after a save, the company's grade rows are exactly the inserted ones, in order |
| Store.SaveIdempotent | scrape_and_print.py:541-575 | saving the same data twice gives the same tables as saving once |
| Store.LogTouchesOnlyStatus | scrape_and_print.py:599-610 | logging sets status 'error' and the fetch time, creates a bare row when there is none, changes no other column, row or grade row, and appends one error row |
| Store.LogIdFits | scrape_and_print.py:594-597 | the logged id fits VARCHAR(10): the id itself when it fits, otherwise its first ten characters |
| Store.Database.constructor | scrape_and_print.py:57-100 | fresh tables are empty and consistent |
| Store.InsertGrades | scrape_and_print.py:560-575 | the insert loop appends `GradeRowsFor` to the remaining rows |
| Store.UpsertBasic | scrape_and_print.py:541-556 | the upsert built from the parallel lists inserts `SaveRow`, or overwrites every column but the key |
| Store.SaveData | scrape_and_print.py:481-584 | it returns True exactly when there is a connection and nothing raised; then the tables become `Save`; on a failure they are unchanged; they stay consistent |
| Store.LogError | scrape_and_print.py:587-615 | with a connection the tables become `LogTransition` unless a statement raised, in which case they are unchanged; they stay consistent |
| Session.CaptchaVerdict | scrape_and_print.py:634-711 | the attempts used are at most `max_attempts`, and the refreshes at most the attempts used |
| Session.CaptchaVerdictSpec | scrape_and_print.py:634-711 | every attempt before the last one made was retryable; True comes only from results on the last attempt made, after one refresh per earlier attempt; stopping early takes results or a 查無資料 banner |
| Session.ResultsSucceed | scrape_and_print.py:671-677 | results after retryable attempts give True |
| Session.NoDataStops | scrape_and_print.py:663-665 | a 查無資料 banner gives False at once, and no later attempt is made |
| Session.AllRetryableFail | scrape_and_print.py:679-711 | without a decisive response every attempt is used, and False is returned |
| Session.HandleCaptcha | scrape_and_print.py:617-711 | the loop gives `CaptchaVerdict`; the id is refilled after each refresh exactly when `cid` is given; every code it types is 3 or 4 digits |
| Session.ClickGradeButton | scrape_and_print.py:369-426 | it stops at the first working try out of `max_retries + 1`; the script fallback runs exactly when every try fails, and then decides the result |
| Session.PressCloseButton | scrape_and_print.py:243-257 | it clicks the first XPath whose button can be clicked, or none when no button can be |
| Session.CloseModalDialog | scrape_and_print.py:240-269 | True at the first try whose backdrop goes; False after `max_attempts` tries when none goes; None when `max_attempts` is 0 |
| Scraper.QueryPage | scrape_and_print.py:732-759 | success exactly when one of three passes gets results, stopping at the first; a 查無資料 pass does not stop the loop; the error message is set only when the last pass raised and nothing succeeded |
| Scraper.FetchGradeSeparately | scrape_and_print.py:429-478 | the grade table when every step works, otherwise []; it never raises |
| Scraper.ExtractCompanyData | scrape_and_print.py:713-836 | the run ends as `OutcomeOf(run)` and leaves the tables as `Persisted` says: the early exit and the main handler only log; an error logs, and then saves "partial" when the basic dict is non-empty; otherwise it saves "success" |
| Scraper.FinalStatus | scrape_and_print.py:761-811 | the company's row ends with status "success", "partial" or "error", as the outcome calls for |
| Scraper.FailedRunKeepsData | scrape_and_print.py:761-811 | a run that saves nothing leaves the grade rows alone, and changes only the status and fetch time of the company's row |
| Scraper.SavedRunReplacesGrades | scrape_and_print.py:805-811 | a run that saves replaces the company's grade rows with the ones it fetched |
| Scraper.GradesNeverSetError | scrape_and_print.py:795-801 | whatever the grade fetch meets, the run's error message and basic dict are the same, so the grade failure handler never runs |
| Scraper.PartialNeedsBasicCard | scrape_and_print.py:767-809 | "partial" is written exactly when the basic card was read and an error followed |
| Scraper.NoResultsOnlyLogs | scrape_and_print.py:761-765 | when no page pass gets results, the run only logs "驗證碼處理失敗或查詢無結果" |
| Scraper.PauseLength | scrape_and_print.py:859 | a pause lasts 5 to 15 seconds |
| Scraper.PausesSpec | scrape_and_print.py:857-861 | pauses come in order after companies numbered by a multiple of three, never after the last company, one for every such company |
| Scraper.PauseCount | scrape_and_print.py:857-861 | a batch of `total > 0` companies has `(total - 1) / 3` pauses |
| Scraper.BatchProcess | scrape_and_print.py:839-871 | every company counts as a success or an error, the errors are the runs that raised, none is skipped, and the pauses follow `Pauses` |

## Left out

- Browser, OCR, file and network I/O are oracles. Left out: Selenium and the waits' timing, the screenshot and image preprocessing (`preprocess_captcha`), `save_html_to_pdf`, `setup_driver`'s search for a Chrome binary, `time.sleep`, logging, `main` and its argument parsing, and the diagnostics.
- `connect_to_postgres`, `create_tables` and `conn.close()` are left out. A connection is an existing `Store.Database`, or null when there is none; the constructor stands for the freshly created tables.
- Column widths other than the id truncation in `log_error_to_db` are not checked. A value that PostgreSQL would reject is one more reason for the `fault` flag. The `SERIAL` ids of `company_grade` and `scraping_errors` are left out: rows are kept in insertion order instead.
- `error_time DEFAULT CURRENT_TIMESTAMP`, `CURRENT_TIMESTAMP` in the log upsert and `datetime.now()` in the save are all the one `now` parameter of a call.
- Store.SaveData / Store.LogError: a `conn.rollback()` that itself raises (a lost connection, scrape_and_print.py:583,615) propagates to the caller. This is not modelled: the tables are unchanged in that case, which `fault` covers, but the call then raises instead of returning.
- Store.SaveData: a save keyed by an id longer than ten characters is not shown to fail. It succeeds in the model unless `fault` is set.
- Exceptions raised by `driver.refresh()` inside `handle_captcha`'s own handler are not modelled. They would escape `handle_captcha` into the page loop.
- Session.HandleCaptcha: an attempt that raises after typing its code is modelled like one that raises before; the codes listed are those of attempts that reached the page's response.
- Session.ClickGradeButton: the three waits before the click (backdrop gone, list shown, button clickable) are one flag, `buttonReady`.
- Basic: the page is given by field rather than by element id, and an anchor without an `href` is not modelled (Python would store None). Digits are the ASCII digits, while Python's `str.isdigit` and `\d` also accept other scripts' digits.
- Grades: every record has all five keys, so the `g.get(key, "")` defaults at scrape_and_print.py:568-572 never apply. Exceptions raised while reading one row (scrape_and_print.py:358-360) are not modelled: the row's cell texts are given.
- Scraper.BatchProcess: each company's run is given only by whether `extract_company_data` raised. That can come from `os.makedirs` or `create_tables` (scrape_and_print.py:715-718, before the handler), or from the main handler's own `log_error_to_db` when its rollback raises (scrape_and_print.py:820). The runs themselves are `Scraper.ExtractCompanyData`. The random pause comes from a draw, and its length is `5 + draw % 11`.
- Scraper.ExtractCompanyData: the main handler at scrape_and_print.py:813-820 is modelled only for an exception escaping `setup_driver`, given as `crash`. It is also reached when a rollback inside a log or save call raises (scrape_and_print.py:763,806,809,811); that path is not modelled. A driver that fails to start returns None, and each page pass then raises. The outcome it returns is for the model's sake; the Python function returns None.
- Scraper.QueryPage: the error message it sets on a failing last pass is never used, because the early exit logs its own message.
