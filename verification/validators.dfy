/** The model-level year validator of reviews/validators.py. The current
    year, which the source reads from the clock on every call, is the
    parameter `now`. */
module Validators {
  import opened Text

  const YEAR_MESSAGE_PREFIX: string := "Year value cannot be later than "

  /** `validate_year`: `None` when the value passes, otherwise the message of
      the raised ValidationError, which names the current year. */
  function ValidateYear(value: int, now: int): Option<string>
  {
    if value > now then Some(YEAR_MESSAGE_PREFIX + IntToString(now)) else None
  }

  /** The validator rejects exactly the years after the current one; the
      current year itself and every earlier year, zero and negative ones
      included, pass; and the message carries the current year, which can be
      read back from it. */
  lemma ValidateYearContract(value: int, now: int)
    ensures ValidateYear(value, now).Some? <==> value > now
    ensures ValidateYear(now, now).None?
    ensures value <= now ==> ValidateYear(value, now).None?
    ensures ValidateYear(value, now).Some? ==>
      var msg := ValidateYear(value, now).value;
      |msg| > |YEAR_MESSAGE_PREFIX| &&
      msg[..|YEAR_MESSAGE_PREFIX|] == YEAR_MESSAGE_PREFIX &&
      ParseInt(msg[|YEAR_MESSAGE_PREFIX|..]) == Some(now)
  {
    if value > now {
      var msg := YEAR_MESSAGE_PREFIX + IntToString(now);
      assert msg[|YEAR_MESSAGE_PREFIX|..] == IntToString(now);
      IntToStringRoundTrip(now);
    }
  }
}
