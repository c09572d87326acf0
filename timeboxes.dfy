/**
 * The two time boxes of the registro form (hours and minutes, as text):
 * what they read back as, the stepper buttons that move them by an hour
 * or a quarter of an hour, and the filter that lets only digits be typed
 * into them.
 */
module TimeBoxes {
  import opened Core
  import opened Strings

  /** The two time boxes. */
  datatype TimeText = TimeText(horas: string, minutos: string)

  /** The whole minutes two boxes hold, when both parse. */
  function TotalMinutes(t: TimeText): Option<int> {
    match (TryParseInt(t.horas), TryParseInt(t.minutos))
    case (Some(h), Some(m)) => Some(h * 60 + m)
    case _ => None
  }

  /** Both boxes parse, the hours are not negative and the minutes lie in 0..59. */
  predicate InRange(t: TimeText) {
    && TryParseInt(t.horas).Some? && TryParseInt(t.minutos).Some?
    && TryParseInt(t.horas).value >= 0 && 0 <= TryParseInt(t.minutos).value < 60
  }


  // ---------------------------------------------------------------------
  // The stepper buttons
  // ---------------------------------------------------------------------

  /** `BtnIncreaseHours_Click`: one more hour (unchecked), or "1" when the box does not parse. */
  function HoursUp(h: string): string {
    match TryParseInt(h)
    case Some(v) => IntText(Step32(v, 1))
    case None => "1"
  }

  /** `BtnDecreaseHours_Click`: one hour less, never below 0; "0" when the box does not parse. */
  function HoursDown(h: string): string {
    match TryParseInt(h)
    case Some(v) => if v > 0 then IntText(v - 1) else "0"
    case None => "0"
  }

  /** `BtnIncreaseMinutes_Click`: 15 more minutes, carrying an hour at 60. */
  function MinutesUp(t: TimeText): TimeText {
    match TryParseInt(t.minutos)
    case None => t.(minutos := "15")
    case Some(m) =>
      var m' := Step32(m, 15);
      if m' >= 60 then TimeText(HoursUp(t.horas), IntText(m' - 60))
      else t.(minutos := IntText(m'))
  }

  /** `BtnDecreaseMinutes_Click`: 15 minutes less, borrowing an hour when there is one, else 0. */
  function MinutesDown(t: TimeText): TimeText {
    match TryParseInt(t.minutos)
    case None => t.(minutos := "0")
    case Some(m) =>
      var m' := Step32(m, -15);
      if m' < 0 then
        match TryParseInt(t.horas)
        case Some(h) =>
          if h > 0 then TimeText(HoursDown(t.horas), IntText(m' + 60))
          else t.(minutos := "0")
        case None => t.(minutos := "0")
      else t.(minutos := IntText(m'))
  }


  // ---------------------------------------------------------------------
  // The digit filter
  // ---------------------------------------------------------------------

  /** `Regex.IsMatch(text, "[^0-9]+")`: some character is not an ASCII digit. */
  predicate HasNonDigit(text: string) {
    text != [] && (!IsDigit(text[0]) || HasNonDigit(text[1..]))
  }

  lemma {:induction false} HasNonDigitIff(text: string)
    ensures HasNonDigit(text) <==> !AllDigits(text)
  {
    if text != [] {
      HasNonDigitIff(text[1..]);
      assert forall i :: 1 <= i < |text| ==> text[i] == text[1..][i - 1];
    }
  }

  /** `IsTextAllowed`: accepted exactly when every character is an ASCII digit. */
  function IsTextAllowed(text: string): (r: bool)
    ensures r <==> AllDigits(text)
  {
    HasNonDigitIff(text);
    !HasNonDigit(text)
  }
}

/**
 * What the time boxes promise: the quarter-hour buttons add or take exactly 15 minutes
 * (stopping at zero) and keep the minutes in 0..59, the hour button never
 * goes below zero, and text the digit filter allows parses to its value.
 */
module TimeBoxLaws {
  import opened Core
  import opened Strings
  import opened TimeBoxes

  // ---------------------------------------------------------------------
  // The stepper buttons
  // ---------------------------------------------------------------------

  /** "0" reads as 0 and "15" as 15. */
  lemma SmallTexts()
    ensures TryParseInt("0") == Some(0) && TryParseInt("15") == Some(15)
  {
    ParseIntTextInt32(0);
    ParseIntTextInt32(15);
    assert IntText(0) == "0";
    assert IntText(15) == "15";
  }

  /** The hour box never goes below 0 with the decrement button. */
  lemma HoursDownFloor(h: string)
    ensures TryParseInt(HoursDown(h)).Some? && TryParseInt(HoursDown(h)).value >= 0
    ensures TryParseInt(h).Some? && TryParseInt(h).value > 0 ==>
      TryParseInt(HoursDown(h)) == Some(TryParseInt(h).value - 1)
  {
    SmallTexts();
    if TryParseInt(h).Some? && TryParseInt(h).value > 0 {
      ParseIntTextInt32(TryParseInt(h).value - 1);
    }
  }

  /** In range, +15 adds exactly a quarter of an hour and stays in range. */
  lemma MinutesUpAddsQuarter(t: TimeText)
    requires InRange(t) && TryParseInt(t.horas).value < Int32Max
    ensures InRange(MinutesUp(t))
    ensures TotalMinutes(MinutesUp(t)).value == TotalMinutes(t).value + 15
  {
    var h, m := TryParseInt(t.horas).value, TryParseInt(t.minutos).value;
    if m + 15 >= 60 {
      CarryCase(t, h, m);
    } else {
      assert MinutesUp(t) == TimeText(t.horas, IntText(m + 15));
      ParseIntTextInt32(m + 15);
    }
  }

  lemma CarryCase(t: TimeText, h: Int32, m: Int32)
    requires TryParseInt(t.horas) == Some(h) && TryParseInt(t.minutos) == Some(m)
    requires 0 <= h < Int32Max && 45 <= m < 60
    ensures InRange(MinutesUp(t)) && TotalMinutes(MinutesUp(t)) == Some(h * 60 + m + 15)
  {
    CarryShape(t, h, m);
    ReadsAsTexts(TimeText(IntText(h + 1), IntText(m - 45)), h + 1, m - 45, h * 60 + m + 15);
  }

  lemma CarryShape(t: TimeText, h: Int32, m: Int32)
    requires TryParseInt(t.horas) == Some(h) && TryParseInt(t.minutos) == Some(m)
    requires 0 <= h < Int32Max && 45 <= m < 60
    ensures MinutesUp(t) == TimeText(IntText(h + 1), IntText(m - 45))
  {
    assert HoursUp(t.horas) == IntText(h + 1);
  }

  /** Boxes holding the texts of an hour count and a minute count in range are in range. */
  lemma TextsInRange(h: Int32, m: Int32)
    requires h >= 0 && 0 <= m < 60
    ensures InRange(TimeText(IntText(h), IntText(m)))
    ensures TotalMinutes(TimeText(IntText(h), IntText(m))) == Some(h * 60 + m)
  {
    ParseIntTextInt32(h);
    ParseIntTextInt32(m);
  }

  /** In range, −15 takes off a quarter of an hour, stopping at zero, and stays in range. */
  lemma MinutesDownSubtracts(t: TimeText)
    requires InRange(t)
    ensures InRange(MinutesDown(t))
    ensures TotalMinutes(MinutesDown(t)).value == Max(0, TotalMinutes(t).value - 15)
  {
    var h, m := TryParseInt(t.horas).value, TryParseInt(t.minutos).value;
    if m < 15 {
      if h > 0 {
        BorrowCase(t, h, m);
      } else {
        ClampCase(t, h, m);
      }
    } else {
      assert MinutesDown(t) == TimeText(t.horas, IntText(m - 15));
      ParseIntTextInt32(m - 15);
    }
  }

  lemma BorrowCase(t: TimeText, h: Int32, m: Int32)
    requires TryParseInt(t.horas) == Some(h) && TryParseInt(t.minutos) == Some(m)
    requires 0 < h && 0 <= m < 15
    ensures InRange(MinutesDown(t)) && TotalMinutes(MinutesDown(t)) == Some(h * 60 + m - 15)
  {
    BorrowShape(t, h, m);
    ReadsAsTexts(TimeText(IntText(h - 1), IntText(m + 45)), h - 1, m + 45, h * 60 + m - 15);
  }

  /** A pair of boxes equal to the texts of an hour count and a minute count in range. */
  lemma ReadsAsTexts(r: TimeText, h: Int32, m: Int32, total: int)
    requires h >= 0 && 0 <= m < 60 && total == h * 60 + m
    requires r == TimeText(IntText(h), IntText(m))
    ensures InRange(r) && TotalMinutes(r) == Some(total)
  {
    TextsInRange(h, m);
  }

  lemma BorrowShape(t: TimeText, h: Int32, m: Int32)
    requires TryParseInt(t.horas) == Some(h) && TryParseInt(t.minutos) == Some(m)
    requires 0 < h && 0 <= m < 15
    ensures MinutesDown(t) == TimeText(IntText(h - 1), IntText(m + 45))
  {
    assert HoursDown(t.horas) == IntText(h - 1);
  }

  lemma ClampCase(t: TimeText, h: Int32, m: Int32)
    requires TryParseInt(t.horas) == Some(h) && TryParseInt(t.minutos) == Some(m)
    requires h == 0 && 0 <= m < 15
    ensures MinutesDown(t) == TimeText(t.horas, "0")
    ensures InRange(MinutesDown(t)) && TotalMinutes(MinutesDown(t)) == Some(0)
  {
    SmallTexts();
  }

  /** A minute box that does not parse is reset: to "15" going up, to "0" going down. */
  lemma MinutesUnparsable(t: TimeText)
    requires TryParseInt(t.minutos).None?
    ensures MinutesUp(t) == TimeText(t.horas, "15") && MinutesDown(t) == TimeText(t.horas, "0")
    ensures TryParseInt(MinutesUp(t).minutos) == Some(15) && TryParseInt(MinutesDown(t).minutos) == Some(0)
  {
    SmallTexts();
  }
  // ---------------------------------------------------------------------
  // The digit filter
  // ---------------------------------------------------------------------

  /** What the steppers write is always allowed, and typed digits parse to their value. */
  lemma AllowedTextParses(text: string)
    requires IsTextAllowed(text) && text != [] && DigitsValue(text) <= Int32Max
    ensures TryParseInt(text) == Some(DigitsValue(text))
  {
    assert !IsNumberWhite(text[0]) && !IsNumberWhite(text[|text| - 1]);
    TrimNoop(text, IsNumberWhite);
  }

  lemma StepperTextAllowed(n: nat)
    ensures IsTextAllowed(IntText(n))
  {
  }
}
