/** The validation the popup performs before it sends `updatePerformance`: `readPositiveInt`
    reads one text field, and the apply handler validates the three numeric fields in order,
    stopping at the first error, before it builds the settings object. The fields' text and
    the checkbox are parameters; the status line, the tab query and the message itself are
    not modelled. */
module Popup {
  import opened Seqs
  import opened Text
  import opened Controller

  /** What `readPositiveInt` returns: `{value}` or `{error}`. */
  datatype Reading = Value(value: int) | Error(message: string)

  /** The message of a rejected field. */
  function TooSmall(fieldName: string, min: int): string {
    fieldName + " must be at least " + IntToString(min)
  }

  /** `readPositiveInt` on a field whose text is `raw`: an empty (or all-whitespace) field
      reads as the fallback; otherwise the leading integer `parseInt` finds is accepted when it
      is at least `min`, and the field is rejected when there is none or it is smaller. */
  function ReadPositiveInt(raw: string, fallback: int, fieldName: string, min: int): (r: Reading)
    ensures Trim(raw) == [] ==> r == Value(fallback)
    ensures Trim(raw) != [] ==> (r.Value? <==> ParseInt(Trim(raw)).Some? && ParseInt(Trim(raw)).value >= min)
    ensures Trim(raw) != [] && r.Value? ==> r.value == ParseInt(Trim(raw)).value
    ensures r.Error? ==> r.message == TooSmall(fieldName, min)
  {
    var trimmed := Trim(raw);
    if trimmed == [] then Value(fallback)
    else
      match ParseInt(trimmed)
      case None => Error(TooSmall(fieldName, min))
      case Some(parsed) => if parsed < min then Error(TooSmall(fieldName, min)) else Value(parsed)
  }

  /** A value read from a non-empty field is never below the minimum; one below it can only be
      the fallback of an empty field. */
  lemma ReadingAtLeastMin(raw: string, fallback: int, fieldName: string, min: int)
    ensures var r := ReadPositiveInt(raw, fallback, fieldName, min);
      r.Value? ==> r.value >= min || (Trim(raw) == [] && r.value == fallback)
  {
  }

  /** A number printed into the field, optionally surrounded by spaces, reads back as itself
      when it is at least the minimum, and is rejected with the field's message when not. */
  lemma ReadsPrintedNumber(n: int, pad: nat, fallback: int, fieldName: string, min: int)
    ensures var raw := Spaces(pad) + IntToString(n) + Spaces(pad);
      ReadPositiveInt(raw, fallback, fieldName, min) == if n >= min then Value(n) else Error(TooSmall(fieldName, min))
  {
    var s := IntToString(n);
    var raw := Spaces(pad) + s + Spaces(pad);
    PrintedHasNoSpace(n);
    TrimPadded(Spaces(pad), s, Spaces(pad));
    ParseIntOfIntToString(n);
  }

  function Spaces(n: nat): (s: string)
    ensures |s| == n && forall i :: 0 <= i < n ==> s[i] == ' '
  {
    seq(n, i => ' ')
  }

  lemma PrintedHasNoSpace(n: int)
    ensures var s := IntToString(n);
      s != [] && !IsJsWhitespace(s[0]) && !IsJsWhitespace(s[|s| - 1])
  {
    var m: nat := if n < 0 then -n else n;
    var d := NatToString(m);
    assert IsDigit(d[|d| - 1]);
    if n < 0 {
      assert IntToString(n)[|IntToString(n)| - 1] == d[|d| - 1];
    }
  }

  /** `parseInt` reads the leading integer only: `"120ms"` is read as 120. */
  lemma ReadsLeadingDigits()
    ensures ReadPositiveInt("120ms", 50, "Processing delay", 1) == Value(120)
  {
    TrimUntouched("120ms");
    ParseOfDigitsThenUnit();
  }

  lemma ParseOfDigitsThenUnit()
    ensures ParseInt("120ms") == Some(120)
  {
    var digits, rest := "120", "ms";
    assert "120ms" == digits + rest;
    ParseIntIgnoresSuffix(digits, rest);
    assert DigitsValue(digits) == 120 by {
      assert digits[..2] == "12" && "12"[..1] == "1";
    }
  }

  /** Text with no leading number is rejected. */
  lemma RejectsNonNumbers()
    ensures ReadPositiveInt("fast", 5, "Batch size", 1) == Error("Batch size must be at least 1")
  {
    TrimUntouched("fast");
    NoNumberIn("fast");
    BatchSizeMessage();
  }

  /** Zero is rejected for a field whose minimum is 1. */
  lemma RejectsZero()
    ensures ReadPositiveInt("0", 5, "Batch size", 1) == Error("Batch size must be at least 1")
  {
    TrimUntouched("0");
    ParseIntOfIntToString(0);
    BatchSizeMessage();
  }

  lemma NoNumberIn(s: string)
    requires s != [] && !IsJsWhitespace(s[0]) && !IsDigit(s[0]) && s[0] != '-' && s[0] != '+'
    ensures ParseInt(s) == None
  {
    assert s[0..] == s;
  }

  lemma BatchSizeMessage()
    ensures TooSmall("Batch size", 1) == "Batch size must be at least 1"
  {
    assert IntToString(1) == "1";
  }

  /** What the apply handler does with the fields: the error shown, or the settings sent. */
  datatype Applied = Rejected(message: string) | Sent(settings: PerformanceSettings)

  /** The apply handler's validation: processing delay (fallback 50, minimum 1), then batch
      size (fallback 5, minimum 1), then throttle delay (fallback 500, minimum 50). */
  function ApplySettings(processingDelay: string, maxLinksPerBatch: string, throttleDynamicContent: bool,
                         throttleDelay: string): (r: Applied)
  {
    var pd := ReadPositiveInt(processingDelay, 50, "Processing delay", 1);
    if pd.Error? then Rejected(pd.message)
    else
      var mb := ReadPositiveInt(maxLinksPerBatch, 5, "Batch size", 1);
      if mb.Error? then Rejected(mb.message)
      else
        var td := ReadPositiveInt(throttleDelay, 500, "Throttle delay", 50);
        if td.Error? then Rejected(td.message)
        else Sent(PerformanceSettings(Some(pd.value), Some(mb.value), None, Some(td.value), Some(throttleDynamicContent)))
  }

  /** The handler reports the first invalid field in the order processing delay, batch size,
      throttle delay, whatever the later fields hold; it sends settings only when all three are
      valid. */
  lemma FirstErrorWins(pd: string, mb: string, on: bool, td: string)
    ensures var r := ApplySettings(pd, mb, on, td);
      var p := ReadPositiveInt(pd, 50, "Processing delay", 1);
      var m := ReadPositiveInt(mb, 5, "Batch size", 1);
      var t := ReadPositiveInt(td, 500, "Throttle delay", 50);
      && (p.Error? ==> r == Rejected(TooSmall("Processing delay", 1)))
      && (p.Value? && m.Error? ==> r == Rejected(TooSmall("Batch size", 1)))
      && (p.Value? && m.Value? && t.Error? ==> r == Rejected(TooSmall("Throttle delay", 50)))
      && (r.Sent? <==> p.Value? && m.Value? && t.Value?)
  {
  }

  /** The settings sent carry exactly the three validated numbers and the checkbox, and no
      `adaptivePerformance` key; typed-in numbers obey their minimums. */
  lemma SentSettings(pd: string, mb: string, on: bool, td: string)
    requires ApplySettings(pd, mb, on, td).Sent?
    ensures var s := ApplySettings(pd, mb, on, td).settings;
      && s.processingDelay == Some(ReadPositiveInt(pd, 50, "Processing delay", 1).value)
      && s.maxLinksPerBatch == Some(ReadPositiveInt(mb, 5, "Batch size", 1).value)
      && s.throttleDelay == Some(ReadPositiveInt(td, 500, "Throttle delay", 50).value)
      && s.throttleDynamicContent == Some(on) && s.adaptivePerformance.None?
      && s.processingDelay.value >= 1 && s.maxLinksPerBatch.value >= 1 && s.throttleDelay.value >= 50
  {
  }

  /** Empty fields send the defaults. */
  lemma EmptyFieldsSendDefaults(on: bool)
    ensures ApplySettings("", "", on, "") == Sent(PerformanceSettings(Some(50), Some(5), None, Some(500), Some(on)))
  {
  }

  /** Whatever the popup sends, the content script's configuration afterwards has a positive
      processing delay and batch size, a throttle delay of at least 50 ms, and its adaptive
      flag untouched. */
  lemma SentSettingsKeepConfigSane(c: Config, pd: string, mb: string, on: bool, td: string)
    requires ApplySettings(pd, mb, on, td).Sent?
    ensures var r := Updated(c, ApplySettings(pd, mb, on, td).settings);
      && r.processingDelay >= 1 && r.maxLinksPerBatch >= 1 && r.throttleDelay >= 50
      && r.throttleDynamicContent == on && r.adaptivePerformance == c.adaptivePerformance
  {
    SentSettings(pd, mb, on, td);
  }
}
