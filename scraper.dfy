/** The scraping run: `extract_company_data` for one company, with its page
    loop and `fetch_grade_separately`, and `batch_process` over many. */
module Scraper {
  import opened Py
  import opened Captcha
  import opened Session
  import opened Basic
  import Grades
  import opened Store

  /** `max_page_attempts` */
  const MaxPageAttempts: nat := 3

  const QueryFailedPrefix: string := "無法成功提交查詢："
  const NoQueryMessage: string := "驗證碼處理失敗或查詢無結果"
  const BasicFailedPrefix: string := "獲取基本資料失敗："
  const CrashPrefix: string := "爬取過程中發生錯誤："
  const SuccessStatus: string := "success"
  const PartialStatus: string := "partial"

  /** One pass of the page loop: loading the query page or typing the id
      raises with a message, or the id is typed and `handle_captcha` runs
      (without `cid`, so the id is never refilled). */
  datatype PageAttempt = PageRaises(message: string) | PageLoaded(captcha: seq<CaptchaAttempt>)

  /** Enough oracle for a `handle_captcha` call with its defaults. */
  predicate ProperCaptcha(attempts: seq<CaptchaAttempt>) {
    |attempts| >= SubmitAttempts && forall i :: 0 <= i < SubmitAttempts ==> |attempts[i].ocr| >= DefaultAttempts
  }

  predicate ProperPage(p: PageAttempt) {
    p.PageLoaded? ==> ProperCaptcha(p.captcha)
  }

  /** A pass that gets the results list. */
  predicate PageWorks(p: PageAttempt) {
    p.PageLoaded? && ProperCaptcha(p.captcha) && CaptchaVerdict(p.captcha, 0, SubmitAttempts).ok
  }

  /** The page loop of `extract_company_data`: up to three passes, stopping
      at the first that gets results. A pass that ends in 查無資料 only makes
      `handle_captcha` return False, so the loop goes on. An exception on the
      last pass sets the error message, but only when no pass succeeded. */
  method QueryPage(pages: seq<PageAttempt>) returns (success: bool, tries: nat, failure: Option<string>)
    requires |pages| >= MaxPageAttempts
    requires forall i :: 0 <= i < MaxPageAttempts ==> ProperPage(pages[i])
    ensures success <==> exists j :: 0 <= j < MaxPageAttempts && PageWorks(pages[j])
    ensures 0 < tries <= MaxPageAttempts
    ensures success ==> PageWorks(pages[tries - 1])
    ensures forall j :: 0 <= j < tries - 1 ==> !PageWorks(pages[j])
    ensures !success ==> tries == MaxPageAttempts
    ensures failure.Some? <==> !success && pages[MaxPageAttempts - 1].PageRaises?
    ensures failure.Some? ==> failure.value == QueryFailedPrefix + pages[MaxPageAttempts - 1].message
  {
    success, failure := false, None;
    var attempt := 0;
    while attempt < MaxPageAttempts
      invariant attempt <= MaxPageAttempts
      invariant forall j :: 0 <= j < attempt ==> !PageWorks(pages[j])
      invariant failure == if attempt == MaxPageAttempts && pages[MaxPageAttempts - 1].PageRaises?
        then Some(QueryFailedPrefix + pages[MaxPageAttempts - 1].message) else None
    {
      match pages[attempt] {
        case PageRaises(message) =>
          if attempt == MaxPageAttempts - 1 {
            failure := Some(QueryFailedPrefix + message);
          }
        case PageLoaded(captcha) =>
          var ok, used, codes, refreshes, refills := HandleCaptcha(captcha, "", SubmitAttempts);
          if ok {
            return true, attempt + 1, None;
          }
      }
      attempt := attempt + 1;
    }
    tries := MaxPageAttempts;
  }

  /** What the second browser of `fetch_grade_separately` meets: whether it
      starts, loads the page and takes the id without raising; the captcha;
      the grade-button tries and the script fallback; the grade table; whether
      the grade card's HTML can be read for the PDF; the closing tries. */
  datatype GradeFetch = GradeFetch(
    started: bool,
    captcha: seq<CaptchaAttempt>,
    clicks: seq<ClickAttempt>,
    fallback: ScriptFallback,
    table: Option<Grades.Table>,
    cardRead: bool,
    closing: seq<CloseAttempt>)

  predicate ProperFetch(g: GradeFetch) {
    ProperCaptcha(g.captcha) && |g.clicks| >= GradeClickRetries + 1 && |g.closing| >= CloseAttempts
  }

  /** `click_grade_button` with its defaults shows the grade card. */
  predicate GradeCardShown(g: GradeFetch)
    requires ProperFetch(g)
  {
    (exists j :: 0 <= j <= GradeClickRetries && ClickWorks(g.clicks[j])) || FallbackWorks(g.fallback)
  }

  /** The list `fetch_grade_separately` returns: the grade table when every
      step works, and [] as soon as one fails or raises. */
  function FetchedGrades(g: GradeFetch): seq<Grades.GradeRecord>
    requires ProperFetch(g)
  {
    if g.started && CaptchaVerdict(g.captcha, 0, SubmitAttempts).ok && GradeCardShown(g) && g.cardRead
    then Grades.GradeTable(g.table)
    else []
  }

  /** `fetch_grade_separately(company_id, download_dir)`: it never raises. */
  method FetchGradeSeparately(g: GradeFetch) returns (grades: seq<Grades.GradeRecord>)
    requires ProperFetch(g)
    ensures grades == FetchedGrades(g)
  {
    if !g.started {
      return [];
    }
    var ok, used, codes, refreshes, refills := HandleCaptcha(g.captcha, "", SubmitAttempts);
    if !ok {
      return [];
    }
    var clicked, tries, fellBack := ClickGradeButton(g.clicks, g.fallback, GradeClickRetries);
    if !clicked {
      return [];
    }
    grades := Grades.ExtractGradeData(g.table);
    if !g.cardRead {
      return [];
    }
    var closed, closeTries, pressed := CloseModalDialog(g.closing, CloseAttempts);
  }

  /** What the main browser meets once the results list is shown: the basic
      button, its click or the card raises with a message; or the card shows,
      with the page's elements, whether reading its HTML for the PDF raises,
      and the closing tries. */
  datatype BasicStep =
    | BasicFails(message: string)
    | BasicShown(dom: Dom, cardError: Option<string>, closing: seq<CloseAttempt>)

  /** One company's run. `crash` is an exception escaping `setup_driver`,
      which the main handler catches; `trace` is the traceback it logs. A
      driver that fails to start is one whose page passes all raise. */
  datatype Run = Run(crash: Option<string>, pages: seq<PageAttempt>, basicStep: BasicStep, gradeFetch: GradeFetch, trace: string)

  predicate ProperRun(run: Run) {
    && |run.pages| >= MaxPageAttempts
    && (forall i :: 0 <= i < MaxPageAttempts ==> ProperPage(run.pages[i]))
    && ProperFetch(run.gradeFetch)
    && (run.basicStep.BasicShown? ==> |run.basicStep.closing| >= CloseAttempts)
  }

  /** How a run ends. */
  datatype Outcome =
    | Crashed(message: string)  // the main handler ran
    | NoResults                 // the page loop failed: the early exit
    | Scraped(basic: map<BasicField, string>, grades: seq<Grades.GradeRecord>, error: Option<string>)

  /** The basic-data dict a run ends with: {} unless the card was shown. */
  function BasicOf(step: BasicStep): map<BasicField, string> {
    match step
    case BasicFails(_) => map[]
    case BasicShown(dom, _, _) => BasicRecord(dom)
  }

  /** The error message a scraped run ends with: only the basic step sets one. */
  function BasicError(step: BasicStep): Option<string> {
    match step
    case BasicFails(m) => Some(BasicFailedPrefix + m)
    case BasicShown(_, cardError, _) => if cardError.Some? then Some(BasicFailedPrefix + cardError.value) else None
  }

  function OutcomeOf(run: Run): Outcome
    requires ProperRun(run)
  {
    if run.crash.Some? then Crashed(CrashPrefix + run.crash.value)
    else if !exists j :: 0 <= j < MaxPageAttempts && PageWorks(run.pages[j]) then NoResults
    else Scraped(BasicOf(run.basicStep), FetchedGrades(run.gradeFetch), BasicError(run.basicStep))
  }

  /** A log call: nothing changes when it raises. */
  function Logged(t: Tables, cid: string, message: string, trace: string, now: int, fault: bool): Tables {
    if fault then t else LogTransition(t, cid, message, trace, now)
  }

  /** A save call: nothing changes when it raises. */
  function Saved(t: Tables, basic: map<BasicField, string>, grades: seq<Grades.GradeRecord>,
                 cid: string, status: string, now: int, fault: bool): Tables {
    if fault then t else Save(t, basic, grades, cid, now, status)
  }

  /** What a run does to the tables: the early exit and the main handler
      only log; an error logs and then saves with status "partial" when the
      basic dict is non-empty; a run without error saves with "success". */
  function Persisted(t: Tables, cid: string, outcome: Outcome, trace: string, now: int,
                     logFault: bool, saveFault: bool): Tables {
    match outcome
    case Crashed(message) => Logged(t, cid, message, trace, now, logFault)
    case NoResults => Logged(t, cid, NoQueryMessage, "", now, logFault)
    case Scraped(basic, grades, error) =>
      if error.Some? then
        var logged := Logged(t, cid, error.value, "", now, logFault);
        if basic != map[] then Saved(logged, basic, grades, cid, PartialStatus, now, saveFault) else logged
      else Saved(t, basic, grades, cid, SuccessStatus, now, saveFault)
  }

  /** `extract_company_data(cid, download_dir, save_to_db)` at time `now`.
      `conn` is null when `save_to_db` is false or the connection failed;
      `logFault` and `saveFault` say whether the log and the save calls
      raise inside. The outcome is returned for the model's sake; the
      Python function returns None. */
  method ExtractCompanyData(conn: Database?, cid: string, run: Run, now: int, logFault: bool, saveFault: bool)
    returns (outcome: Outcome)
    requires ProperRun(run)
    requires conn != null ==> conn.Valid()
    modifies conn
    ensures outcome == OutcomeOf(run)
    ensures conn != null ==> conn.Valid()
    ensures conn != null ==> conn.Contents() == Persisted(old(conn.Contents()), cid, outcome, run.trace, now, logFault, saveFault)
  {
    if run.crash.Some? {
      outcome := Crashed(CrashPrefix + run.crash.value);
      LogError(conn, cid, outcome.message, run.trace, now, logFault);
      return;
    }
    var success, tries, failure := QueryPage(run.pages);
    if !success {
      LogError(conn, cid, NoQueryMessage, "", now, logFault);
      return NoResults;
    }

    var basic: map<BasicField, string> := map[];
    var errorOccurred := false;
    var errorMessage := "";
    match run.basicStep {
      case BasicFails(message) =>
        errorOccurred, errorMessage := true, BasicFailedPrefix + message;
      case BasicShown(dom, cardError, closing) =>
        basic := ExtractBasicData(dom);
        if cardError.Some? {
          errorOccurred, errorMessage := true, BasicFailedPrefix + cardError.value;
        } else {
          var closed, closeTries, pressed := CloseModalDialog(closing, CloseAttempts);
        }
    }

    var grades := FetchGradeSeparately(run.gradeFetch);

    if conn != null {
      if errorOccurred {
        LogError(conn, cid, errorMessage, "", now, logFault);
        if basic != map[] {
          var saved := SaveData(conn, basic, grades, cid, PartialStatus, now, saveFault);
        }
      } else {
        var saved := SaveData(conn, basic, grades, cid, SuccessStatus, now, saveFault);
      }
    }
    outcome := Scraped(basic, grades, if errorOccurred then Some(errorMessage) else None);
  }

  /** The status a run leaves on the company's row when neither database
      call raises. */
  function WrittenStatus(outcome: Outcome): string {
    match outcome
    case Scraped(basic, _, error) =>
      if error.None? then SuccessStatus else if basic != map[] then PartialStatus else ErrorStatus
    case _ => ErrorStatus
  }

  /** Every run leaves the company's row with the status its outcome
      calls for: "success", "partial" or "error". */
  lemma FinalStatus(t: Tables, cid: string, outcome: Outcome, trace: string, now: int)
    requires Consistent(t) && |cid| <= IdWidth
    ensures var t' := Persisted(t, cid, outcome, trace, now, false, false);
      && cid in t'.basic && Status in t'.basic[cid]
      && t'.basic[cid][Status] == Text(WrittenStatus(outcome))
      && WrittenStatus(outcome) in {SuccessStatus, PartialStatus, ErrorStatus}
  {
    assert Prefix(cid, IdWidth) == cid;
    match outcome
    case Crashed(message) =>
      LogTouchesOnlyStatus(t, cid, message, trace, now);
    case NoResults =>
      LogTouchesOnlyStatus(t, cid, NoQueryMessage, "", now);
    case Scraped(basic, grades, error) =>
      var status := WrittenStatus(outcome);
      var base := if error.Some? then LogTransition(t, cid, error.value, "", now) else t;
      if error.Some? {
        LogTouchesOnlyStatus(t, cid, error.value, "", now);
        LogPreservesConsistency(t, cid, error.value, "", now);
      }
      if error.None? || basic != map[] {
        var row := SaveRow(basic, cid, now, status);
        SaveRowSpec(basic, cid, now, status);
        SaveWritesRow(base, cid, row, GradeRowsFor(cid, grades, now));
      }
  }

  /** A run that saves nothing keeps the company's data: the grade rows are
      untouched and its row changes only in status and fetch time. */
  lemma FailedRunKeepsData(t: Tables, cid: string, outcome: Outcome, trace: string, now: int, logFault: bool, saveFault: bool)
    requires WrittenStatus(outcome) == ErrorStatus && |cid| <= IdWidth && cid in t.basic
    ensures var t' := Persisted(t, cid, outcome, trace, now, logFault, saveFault);
      && t'.grades == t.grades
      && forall c :: c != Status && c != FetchDate ==>
           (c in t'.basic[cid] <==> c in t.basic[cid]) && (c in t.basic[cid] ==> t'.basic[cid][c] == t.basic[cid][c])
  {
    assert Prefix(cid, IdWidth) == cid;
    var message := match outcome
      case Crashed(m) => m
      case NoResults => NoQueryMessage
      case Scraped(_, _, error) => if error.Some? then error.value else "";
    var stack := if outcome.Crashed? then trace else "";
    LogTouchesOnlyStatus(t, cid, message, stack, now);
  }

  /** A run that saves replaces the company's grade rows by the records it
      fetched, whether it saves as "success" or as "partial". */
  lemma SavedRunReplacesGrades(t: Tables, cid: string, outcome: Outcome, trace: string, now: int, logFault: bool)
    requires outcome.Scraped? && WrittenStatus(outcome) != ErrorStatus
    ensures var t' := Persisted(t, cid, outcome, trace, now, logFault, false);
      OfCompany(t'.grades, cid) == GradeRowsFor(cid, outcome.grades, now)
  {
    var status := WrittenStatus(outcome);
    var base := if outcome.error.Some? then Logged(t, cid, outcome.error.value, "", now, logFault) else t;
    GradeRowsForOwn(cid, outcome.grades, now, cid);
    SaveReplacesGrades(base, cid, SaveRow(outcome.basic, cid, now, status), GradeRowsFor(cid, outcome.grades, now));
  }

  /** The grade fetch never sets the error: whatever the second browser
      meets, a scraped run has the same error message and basic dict, so the
      handler for a failing grade fetch never runs. It holds by construction:
      `fetch_grade_separately` catches every exception, so the model gives it
      no way to raise, and `OutcomeOf` reads the grade fetch only for the
      grades. */
  lemma GradesNeverSetError(run: Run, g: GradeFetch)
    requires ProperRun(run) && ProperFetch(g)
    ensures var other := run.(gradeFetch := g);
      && ProperRun(other)
      && (OutcomeOf(run).Scraped? <==> OutcomeOf(other).Scraped?)
      && (OutcomeOf(run).Scraped? ==> OutcomeOf(run).error == OutcomeOf(other).error && OutcomeOf(run).basic == OutcomeOf(other).basic)
  {
  }

  /** "partial" is written only when the basic card was read and the error
      came after it: a run whose basic step fails before the card shows
      saves nothing, however many grade records it fetched. */
  lemma PartialNeedsBasicCard(run: Run)
    requires ProperRun(run)
    ensures WrittenStatus(OutcomeOf(run)) == PartialStatus <==>
      && OutcomeOf(run).Scraped?
      && run.basicStep.BasicShown? && run.basicStep.cardError.Some?
  {
    if run.basicStep.BasicShown? {
      assert BanNo in BasicRecord(run.basicStep.dom);
    }
  }

  /** The early exit: when no page pass gets results, the run only logs
      "驗證碼處理失敗或查詢無結果", whatever else the page would have shown. */
  lemma NoResultsOnlyLogs(run: Run, t: Tables, cid: string, now: int, logFault: bool, saveFault: bool)
    requires ProperRun(run) && run.crash.None?
    requires forall j :: 0 <= j < MaxPageAttempts ==> !PageWorks(run.pages[j])
    ensures OutcomeOf(run) == NoResults
    ensures Persisted(t, cid, OutcomeOf(run), run.trace, now, logFault, saveFault) == Logged(t, cid, NoQueryMessage, "", now, logFault)
  {
  }

  /** `batch_process` pauses after every third company but the last. */
  const PauseEvery: nat := 3
  const MinPause: nat := 5
  const MaxPause: nat := 15

  /** A pause after the company numbered `after` (from 1), for `seconds`. */
  datatype Pause = Pause(after: nat, seconds: nat)

  /** `random.randint(5, 15)`, given the draw. */
  function PauseLength(draw: nat): (seconds: nat)
    ensures MinPause <= seconds <= MaxPause
  {
    MinPause + draw % (MaxPause - MinPause + 1)
  }

  predicate PausesAfter(i: nat, total: nat) {
    i % PauseEvery == 0 && i < total
  }

  /** The pauses after the first `i` of `total` companies. */
  function Pauses(total: nat, draws: seq<nat>, i: nat): seq<Pause>
    requires i <= total <= |draws|
  {
    if i == 0 then []
    else
      var front := Pauses(total, draws, i - 1);
      if PausesAfter(i, total) then front + [Pause(i, PauseLength(draws[i - 1]))] else front
  }

  /** The pauses come after companies numbered by a multiple of three,
      never after the last company, in order, each for 5 to 15 seconds, and
      there is one for every such company. */
  lemma {:induction false} PausesSpec(total: nat, draws: seq<nat>, i: nat)
    requires i <= total <= |draws|
    ensures var ps := Pauses(total, draws, i);
      && (forall k :: 0 <= k < |ps| ==> 0 < ps[k].after <= i && PausesAfter(ps[k].after, total))
      && (forall k :: 0 <= k < |ps| ==> MinPause <= ps[k].seconds <= MaxPause)
      && (forall k, l :: 0 <= k < l < |ps| ==> ps[k].after < ps[l].after)
      && (forall n :: 0 < n <= i && PausesAfter(n, total) ==> exists k :: 0 <= k < |ps| && ps[k].after == n)
  {
    if i > 0 {
      PausesSpec(total, draws, i - 1);
      var front := Pauses(total, draws, i - 1);
      var ps := Pauses(total, draws, i);
      forall n | 0 < n <= i && PausesAfter(n, total)
        ensures exists k :: 0 <= k < |ps| && ps[k].after == n
      {
        if n == i {
          assert ps[|ps| - 1].after == n;
        } else {
          var k :| 0 <= k < |front| && front[k].after == n;
          assert ps[k] == front[k];
        }
      }
    }
  }

  /** Over a batch of `total > 0` companies there are `(total - 1) / 3`
      pauses. */
  lemma {:induction false} PauseCount(total: nat, draws: seq<nat>, i: nat)
    requires 0 < i <= total <= |draws|
    ensures |Pauses(total, draws, i)| == if i < total then i / PauseEvery else (total - 1) / PauseEvery
  {
    if i > 1 {
      PauseCount(total, draws, i - 1);
    }
  }

  /** The number of companies whose run let an exception out. */
  function Raised(escapes: seq<bool>): (n: nat)
    ensures n <= |escapes|
  {
    if escapes == [] then 0
    else Raised(escapes[..|escapes| - 1]) + (if escapes[|escapes| - 1] then 1 else 0)
  }

  /** `batch_process(company_ids, ...)`: `escapes[i]` says whether the
      `extract_company_data` call for the (i+1)-th company raised (only
      what it does before its own handler can), and `draws[i]` is the draw
      behind the pause after it. Every company is counted as a success or
      an error, none is skipped, and the pauses follow the schedule. */
  method BatchProcess(escapes: seq<bool>, draws: seq<nat>)
    returns (successCount: nat, errorCount: nat, skippedCount: nat, pauses: seq<Pause>)
    requires |draws| >= |escapes|
    ensures errorCount == Raised(escapes)
    ensures successCount + errorCount == |escapes|
    ensures skippedCount == 0
    ensures pauses == Pauses(|escapes|, draws, |escapes|)
  {
    successCount, errorCount, skippedCount, pauses := 0, 0, 0, [];
    var total := |escapes|;
    for i := 1 to total + 1
      invariant errorCount == Raised(escapes[..i - 1])
      invariant successCount + errorCount == i - 1
      invariant pauses == Pauses(total, draws, i - 1)
    {
      assert escapes[..i] == escapes[..i - 1] + [escapes[i - 1]];
      if escapes[i - 1] {
        errorCount := errorCount + 1;
      } else {
        successCount := successCount + 1;
      }
      if i % PauseEvery == 0 && i < total {
        pauses := pauses + [Pause(i, PauseLength(draws[i - 1]))];
      }
    }
    assert escapes[..total] == escapes;
  }
}
