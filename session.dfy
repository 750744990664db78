/** The retry loops that drive the query site: `handle_captcha`,
    `click_grade_button` and `close_modal_dialog`. The browser is an oracle:
    each attempt is given by what the page does during it. */
module Session {
  import opened Py
  import opened Captcha

  /** What the page does once a code has been submitted. */
  datatype Response =
    | Raised                // a lookup, the screenshot or the submit raises
    | Banner(text: string)  // an `alert-danger` banner with this text appears within 5 s
    | ResultsShown          // no banner, and `listContainer` appears within 10 s
    | ResultsTimeout        // no banner, and no `listContainer` within 10 s

  /** One attempt of `handle_captcha`: the OCR engine's readings for the
      `recognize_captcha` call, and the page's response. An attempt that
      raises types no code. */
  datatype CaptchaAttempt = CaptchaAttempt(ocr: seq<OcrAttempt>, response: Response)

  /** The banner text that ends `handle_captcha` at once. */
  const NoDataMarker: string := "查無資料"

  predicate NoData(r: Response) {
    r.Banner? && Contains(r.text, NoDataMarker)
  }

  /** A response after which another attempt follows, when one is left. */
  predicate Retryable(r: Response) {
    !r.ResultsShown? && !NoData(r)
  }

  /** How `handle_captcha` ends: its result, the attempts it made and the
      page refreshes it did. */
  datatype Verdict = Verdict(ok: bool, used: nat, refreshes: nat)

  /** The verdict of attempts `k` to `n - 1`, refreshes counted from `k`:
      results end it with True and a 查無資料 banner with False; any other
      banner or a results timeout refreshes the page and goes on; an
      exception does the same, except on the last attempt, where it ends
      with False. Falling out of the loop gives False. */
  function CaptchaVerdict(attempts: seq<CaptchaAttempt>, k: nat, n: nat): (v: Verdict)
    requires k <= n <= |attempts|
    ensures k <= v.used <= n
    ensures v.refreshes <= v.used - k
    decreases n - k
  {
    if k == n then Verdict(false, n, 0)
    else
      var r := attempts[k].response;
      if r.ResultsShown? then Verdict(true, k + 1, 0)
      else if NoData(r) then Verdict(false, k + 1, 0)
      else if r.Raised? && k == n - 1 then Verdict(false, n, 0)
      else
        var rest := CaptchaVerdict(attempts, k + 1, n);
        rest.(refreshes := rest.refreshes + 1)
  }

  /** Every attempt before the last one made was retryable; True comes only
      from results on the last attempt made, after a refresh for each
      earlier one; stopping before `n` attempts takes a decisive response. */
  lemma {:induction false} CaptchaVerdictSpec(attempts: seq<CaptchaAttempt>, k: nat, n: nat)
    requires k <= n <= |attempts|
    ensures var v := CaptchaVerdict(attempts, k, n);
      && (forall j :: k <= j < v.used - 1 ==> Retryable(attempts[j].response))
      && (v.ok ==> v.used > k && attempts[v.used - 1].response.ResultsShown? && v.refreshes == v.used - k - 1)
      && (v.used < n ==> v.used > k && !Retryable(attempts[v.used - 1].response))
    decreases n - k
  {
    if k < n {
      CaptchaVerdictSpec(attempts, k + 1, n);
    }
  }

  /** After retryable attempts, results on attempt `j` make `handle_captcha`
      return True, having refreshed once per earlier attempt. */
  lemma {:induction false} ResultsSucceed(attempts: seq<CaptchaAttempt>, k: nat, n: nat, j: nat)
    requires k <= j < n <= |attempts|
    requires forall i :: k <= i < j ==> Retryable(attempts[i].response)
    requires attempts[j].response.ResultsShown?
    ensures CaptchaVerdict(attempts, k, n) == Verdict(true, j + 1, j - k)
    decreases j - k
  {
    if k < j {
      ResultsSucceed(attempts, k + 1, n, j);
    }
  }

  /** After retryable attempts, a 查無資料 banner on attempt `j` makes
      `handle_captcha` return False at once: no later attempt is made. */
  lemma {:induction false} NoDataStops(attempts: seq<CaptchaAttempt>, k: nat, n: nat, j: nat)
    requires k <= j < n <= |attempts|
    requires forall i :: k <= i < j ==> Retryable(attempts[i].response)
    requires NoData(attempts[j].response)
    ensures CaptchaVerdict(attempts, k, n) == Verdict(false, j + 1, j - k)
    decreases j - k
  {
    if k < j {
      NoDataStops(attempts, k + 1, n, j);
    }
  }

  /** When no attempt is decisive, `handle_captcha` returns False after
      using them all, refreshing after each but a last one that raises. */
  lemma {:induction false} AllRetryableFail(attempts: seq<CaptchaAttempt>, k: nat, n: nat)
    requires k < n <= |attempts|
    requires forall i :: k <= i < n ==> Retryable(attempts[i].response)
    ensures var v := CaptchaVerdict(attempts, k, n);
      && !v.ok && v.used == n
      && v.refreshes == if attempts[n - 1].response.Raised? then n - k - 1 else n - k
    decreases n - k
  {
    if k < n - 1 {
      AllRetryableFail(attempts, k + 1, n);
    }
  }

  /** The default `max_attempts` of `handle_captcha`. */
  const SubmitAttempts: nat := 3

  /** `handle_captcha(driver, ..., cid, max_attempts)`. `cid` is "" when it
      is not supplied (Python's `None` and "" are both false): the id field
      is refilled after each refresh only when it is given. Each attempt
      that does not raise types the code `recognize_captcha` reads with its
      default three tries. */
  method HandleCaptcha(attempts: seq<CaptchaAttempt>, cid: string, maxAttempts: nat)
    returns (ok: bool, used: nat, codes: seq<string>, refreshes: nat, refills: nat)
    requires maxAttempts <= |attempts|
    requires forall i :: 0 <= i < maxAttempts ==> |attempts[i].ocr| >= DefaultAttempts
    ensures Verdict(ok, used, refreshes) == CaptchaVerdict(attempts, 0, maxAttempts)
    ensures refills == if cid != "" then refreshes else 0
    ensures |codes| <= used
    ensures forall i :: 0 <= i < |codes| ==> IsCaptchaCode(codes[i])
  {
    ok, used, codes, refreshes, refills := false, 0, [], 0, 0;
    var attempt := 0;
    while attempt < maxAttempts
      invariant attempt <= maxAttempts
      invariant var v0, v := CaptchaVerdict(attempts, 0, maxAttempts), CaptchaVerdict(attempts, attempt, maxAttempts);
        v0.ok == v.ok && v0.used == v.used && v0.refreshes == v.refreshes + refreshes
      invariant refills == if cid != "" then refreshes else 0
      invariant |codes| <= attempt
      invariant forall i :: 0 <= i < |codes| ==> IsCaptchaCode(codes[i])
    {
      var response := attempts[attempt].response;
      if response.Raised? {
        if attempt == maxAttempts - 1 {
          return false, maxAttempts, codes, refreshes, refills;
        }
      } else {
        var code := RecognizeCaptcha(attempts[attempt].ocr, DefaultAttempts);
        codes := codes + [code.value];
        if response.ResultsShown? {
          return true, attempt + 1, codes, refreshes, refills;
        }
        if response.Banner? && Contains(response.text, NoDataMarker) {
          return false, attempt + 1, codes, refreshes, refills;
        }
      }
      refreshes := refreshes + 1;
      if cid != "" {
        refills := refills + 1;
      }
      attempt := attempt + 1;
    }
    used := maxAttempts;
  }

  /** One try of `click_grade_button`: whether the backdrop goes, the list
      shows and the grade button becomes clickable in time; whether the
      plain click raises, and then whether the script click raises too; and
      whether the grade card then becomes visible in time. */
  datatype ClickAttempt = ClickAttempt(buttonReady: bool, clickRaises: bool, scriptClickRaises: bool, cardShown: bool)

  /** The last resort of `click_grade_button`: calling
      `kdbase_showPopGrade(cid)` directly. */
  datatype ScriptFallback = ScriptFallback(raises: bool, cardShown: bool)

  predicate ClickWorks(a: ClickAttempt) {
    a.buttonReady && (!a.clickRaises || !a.scriptClickRaises) && a.cardShown
  }

  predicate FallbackWorks(f: ScriptFallback) {
    !f.raises && f.cardShown
  }

  /** The default `max_retries` of `click_grade_button`. */
  const GradeClickRetries: nat := 2

  /** `click_grade_button(driver, cid, max_retries)`: up to `max_retries + 1`
      tries, and the script call only after all of them failed. */
  method ClickGradeButton(attempts: seq<ClickAttempt>, fallback: ScriptFallback, maxRetries: nat)
    returns (ok: bool, used: nat, fellBack: bool)
    requires maxRetries + 1 <= |attempts|
    ensures 0 < used <= maxRetries + 1
    ensures forall j :: 0 <= j < used - 1 ==> !ClickWorks(attempts[j])
    ensures fellBack <==> forall j :: 0 <= j <= maxRetries ==> !ClickWorks(attempts[j])
    ensures fellBack ==> used == maxRetries + 1 && ok == FallbackWorks(fallback)
    ensures !fellBack ==> ok && ClickWorks(attempts[used - 1])
  {
    var retry := 0;
    while retry <= maxRetries
      invariant retry <= maxRetries
      invariant forall j :: 0 <= j < retry ==> !ClickWorks(attempts[j])
    {
      var a := attempts[retry];
      if a.buttonReady && (!a.clickRaises || !a.scriptClickRaises) && a.cardShown {
        return true, retry + 1, false;
      }
      if retry == maxRetries {
        return !fallback.raises && fallback.cardShown, retry + 1, true;
      }
      retry := retry + 1;
    }
    assert false;
  }

  /** The buttons `close_modal_dialog` looks for, in order. Kept as
      documentation: a `CloseAttempt` gives one click outcome per entry. */
  const CloseButtonXPaths: seq<string> := [
    "//button[@data-dismiss='modal' and contains(., '關閉視窗')]",
    "//button[@data-dismiss='modal']",
    "//button[@aria-label='Close']",
    "//*[contains(text(),'×')]"]

  /** One try of `close_modal_dialog`: for each XPath, whether a clickable
      button is found in time and the script click on it does not raise;
      then whether the backdrop disappears in time. */
  datatype CloseAttempt = CloseAttempt(clicks: seq<bool>, backdropGone: bool)

  /** `pressed` is the first XPath whose button could be clicked, or None
      when none could. */
  predicate FirstPressed(clicks: seq<bool>, pressed: Option<nat>) {
    match pressed
    case None => forall j :: 0 <= j < |clicks| ==> !clicks[j]
    case Some(i) => i < |clicks| && clicks[i] && forall j :: 0 <= j < i ==> !clicks[j]
  }

  /** The loop over the XPaths: click the first button that can be clicked,
      then stop. */
  method PressCloseButton(clicks: seq<bool>) returns (pressed: Option<nat>)
    ensures FirstPressed(clicks, pressed)
  {
    for i := 0 to |clicks|
      invariant forall j :: 0 <= j < i ==> !clicks[j]
    {
      if clicks[i] {
        return Some(i);
      }
    }
    return None;
  }

  /** The default `max_attempts` of `close_modal_dialog`. */
  const CloseAttempts: nat := 3

  /** `close_modal_dialog(driver, max_attempts)`: the first try whose
      backdrop disappears returns True; False when none does, and None (the
      loop never runs) when `max_attempts` is 0. `pressed` is the button each
      try clicked. */
  method CloseModalDialog(attempts: seq<CloseAttempt>, maxAttempts: nat)
    returns (closed: Option<bool>, used: nat, pressed: seq<Option<nat>>)
    requires maxAttempts <= |attempts|
    ensures maxAttempts == 0 ==> closed == None && used == 0
    ensures maxAttempts > 0 ==> closed.Some? && 0 < used <= maxAttempts
    ensures closed.Some? ==> (closed.value <==> exists j :: 0 <= j < maxAttempts && attempts[j].backdropGone)
    ensures closed == Some(true) ==> attempts[used - 1].backdropGone
    ensures forall j :: 0 <= j < used - 1 ==> !attempts[j].backdropGone
    ensures closed == Some(false) ==> used == maxAttempts
    ensures |pressed| == used && forall j :: 0 <= j < used ==> FirstPressed(attempts[j].clicks, pressed[j])
  {
    pressed := [];
    var attempt := 0;
    while attempt < maxAttempts
      invariant attempt <= maxAttempts
      invariant maxAttempts > 0 ==> attempt < maxAttempts
      invariant |pressed| == attempt && forall j :: 0 <= j < attempt ==> FirstPressed(attempts[j].clicks, pressed[j])
      invariant forall j :: 0 <= j < attempt ==> !attempts[j].backdropGone
    {
      var p := PressCloseButton(attempts[attempt].clicks);
      pressed := pressed + [p];
      if attempts[attempt].backdropGone {
        return Some(true), attempt + 1, pressed;
      }
      if attempt == maxAttempts - 1 {
        return Some(false), attempt + 1, pressed;
      }
      attempt := attempt + 1;
    }
    return None, 0, pressed;
  }
}
