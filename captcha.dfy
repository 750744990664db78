/** `recognize_captcha`: turning the OCR engine's readings of a captcha image
    into the code typed into the query form. The OCR engine is an oracle: in
    each attempt it reads the raw image and, when needed, the enhanced image
    (greyscale, upscaled, contrast and sharpness boosted, thresholded), and
    each of the two readings either yields a text or raises. */
module Captcha {
  import opened Py

  datatype OcrPass = Raises | Reads(text: string)

  /** One pass of the retry loop: the reading of the raw image and the
      reading of the enhanced image (only consulted when the raw one is too
      short). */
  datatype OcrAttempt = OcrAttempt(raw: OcrPass, enhanced: OcrPass)

  /** A reading is accepted once it has this many digits ... */
  const MinCodeLength: nat := 3
  /** ... and is cut down to this many. */
  const MaxCodeLength: nat := 4
  /** Returned when the last attempt raises. */
  const FallbackCode: string := "000"
  /** The default `max_attempts`, the only value callers use. */
  const DefaultAttempts: nat := 3

  predicate IsCaptchaCode(s: string) {
    AllDigits(s) && MinCodeLength <= |s| <= MaxCodeLength
  }

  /** `s.ljust(width, "0")` */
  function PadZeros(s: string, width: nat): (r: string)
    ensures |r| == if |s| < width then width else |s|
    ensures r[..|s|] == s
    ensures forall k :: |s| <= k < |r| ==> r[k] == '0'
  {
    if |s| >= width then s else s + seq(width - |s|, _ => '0')
  }

  /** The digits of a reading that did not raise. */
  function DigitsOf(p: OcrPass): string
    requires p.Reads?
  {
    KeepDigits(p.text)
  }

  /** The body of one attempt: the code it returns, or None when it raises.
      A raw reading with enough digits wins outright and the enhanced reading
      is never taken; otherwise an enhanced reading with enough digits wins;
      otherwise the longer of the two (the raw one on a tie) is padded with
      zeros. Whatever is returned is a 3- or 4-digit code. */
  function AttemptCode(a: OcrAttempt): (r: Option<string>)
    ensures r.Some? ==> IsCaptchaCode(r.value)
    ensures r.None? <==> a.raw.Raises? || (|DigitsOf(a.raw)| < MinCodeLength && a.enhanced.Raises?)
    ensures a.raw.Reads? && |DigitsOf(a.raw)| >= MinCodeLength ==>
      r == Some(Prefix(DigitsOf(a.raw), MaxCodeLength))
    ensures a.raw.Reads? && |DigitsOf(a.raw)| < MinCodeLength && a.enhanced.Reads? && |DigitsOf(a.enhanced)| >= MinCodeLength ==>
      r == Some(Prefix(DigitsOf(a.enhanced), MaxCodeLength))
    ensures a.raw.Reads? && a.enhanced.Reads? && |DigitsOf(a.raw)| < MinCodeLength && |DigitsOf(a.enhanced)| < MinCodeLength ==>
      var d1, d2 := DigitsOf(a.raw), DigitsOf(a.enhanced);
      && r.Some? && |r.value| == MinCodeLength
      && (if |d2| > |d1| then r.value[..|d2|] == d2 else r.value[..|d1|] == d1)
      && forall k :: (if |d2| > |d1| then |d2| else |d1|) <= k < MinCodeLength ==> r.value[k] == '0'
  {
    match a.raw
    case Raises => None
    case Reads(rawText) =>
      var res := KeepDigits(rawText);
      if |res| >= MinCodeLength then Some(Prefix(res, MaxCodeLength))
      else
        match a.enhanced
        case Raises => None
        case Reads(enhancedText) =>
          var res2 := KeepDigits(enhancedText);
          if |res2| >= MinCodeLength then Some(Prefix(res2, MaxCodeLength))
          else
            var result := if |res2| > |res| then res2 else res;
            if |result| < MinCodeLength then Some(PadZeros(result, MinCodeLength)) else Some(result)
  }

  /** The code `recognize_captcha` returns when attempts `from` to `n - 1`
      remain: the code of the first attempt that does not raise, or the
      fallback code when they all raise. */
  function SolvedCode(ocr: seq<OcrAttempt>, from: nat, n: nat): (r: string)
    requires from < n <= |ocr|
    ensures IsCaptchaCode(r)
    ensures r == FallbackCode || exists k :: from <= k < n && AttemptCode(ocr[k]) == Some(r)
    decreases n - from
  {
    match AttemptCode(ocr[from])
    case Some(code) => code
    case None => if from == n - 1 then FallbackCode else SolvedCode(ocr, from + 1, n)
  }

  /** The first attempt that does not raise decides the code. */
  lemma {:induction false} SolvedByFirstReading(ocr: seq<OcrAttempt>, from: nat, n: nat, k: nat)
    requires from <= k < n <= |ocr|
    requires AttemptCode(ocr[k]).Some?
    requires forall j :: from <= j < k ==> AttemptCode(ocr[j]).None?
    ensures SolvedCode(ocr, from, n) == AttemptCode(ocr[k]).value
    decreases k - from
  {
    var first := AttemptCode(ocr[from]);
    if from < k {
      assert first.None? && from != n - 1;
      SolvedByFirstReading(ocr, from + 1, n, k);
      assert SolvedCode(ocr, from, n) == SolvedCode(ocr, from + 1, n);
    } else {
      assert SolvedCode(ocr, from, n) == first.value;
    }
  }

  /** When every attempt raises, the code is "000". */
  lemma {:induction false} AllRaiseGivesFallback(ocr: seq<OcrAttempt>, from: nat, n: nat)
    requires from < n <= |ocr|
    requires forall j :: from <= j < n ==> AttemptCode(ocr[j]).None?
    ensures SolvedCode(ocr, from, n) == FallbackCode
    decreases n - from
  {
    if from < n - 1 {
      AllRaiseGivesFallback(ocr, from + 1, n);
    }
  }

  /** `recognize_captcha(img, max_attempts)` with the OCR oracle giving the
      outcome of each attempt. With no attempt at all the Python loop falls
      through and the function returns None. */
  method RecognizeCaptcha(ocr: seq<OcrAttempt>, maxAttempts: nat) returns (code: Option<string>)
    requires maxAttempts <= |ocr|
    ensures maxAttempts == 0 ==> code == None
    ensures maxAttempts > 0 ==> code == Some(SolvedCode(ocr, 0, maxAttempts))
    ensures code.Some? ==> IsCaptchaCode(code.value)
  {
    var attempt := 0;
    while attempt < maxAttempts
      invariant attempt < maxAttempts || attempt == maxAttempts == 0
      invariant attempt < maxAttempts ==> SolvedCode(ocr, 0, maxAttempts) == SolvedCode(ocr, attempt, maxAttempts)
    {
      var result := AttemptCode(ocr[attempt]);
      if result.Some? {
        return result;
      }
      if attempt == maxAttempts - 1 {
        return Some(FallbackCode);
      }
      attempt := attempt + 1;
    }
    return None;
  }
}
