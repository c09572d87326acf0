/**
 * The planning dialog (`TiempoEstimadoWindow`): an hours box and a minutes
 * box filled from the current estimate, steppers of one hour and of five
 * minutes, a digits-only input filter, and a save that accepts five
 * minutes or more. The boxes hold text; every handler reads them with
 * `int.TryParse`, whose failure leaves 0.
 */
module TiempoEstimado {
  import opened Core
  import opened Strings
  import TimeBoxes

  /** The hours the dialog opens with: `currentSeconds / 3600`. */
  function HorasDe(segundos: Int32): Int32 {
    Quot(segundos, 3600)
  }

  /** The minutes the dialog opens with: `(currentSeconds % 3600) / 60`. */
  function MinutosDe(segundos: Int32): Int32 {
    Quot(Rem(segundos, 3600), 60)
  }

  /** `TotalSeconds` as `Guardar_Click` computes it, in unchecked 32-bit arithmetic. */
  function Total(horas: string, minutos: string): Int32 {
    Wrap32(ParseOrZero(horas) * 3600 + ParseOrZero(minutos) * 60)
  }

  /** The dialog accepts a total of at least five minutes. */
  predicate Acepta(total: Int32) {
    total >= 300
  }

  /** `BtnIncreaseHours_Click`: one more hour, from 0 when the box does not parse. */
  function HorasMas(horas: string): string {
    IntText(Step32(ParseOrZero(horas), 1))
  }

  /** `BtnDecreaseHours_Click`: one hour less when there is one; otherwise the box is left as it is. */
  function HorasMenos(horas: string): string {
    var h := ParseOrZero(horas);
    if h > 0 then IntText(h - 1) else horas
  }

  /** `BtnIncreaseMinutes_Click`: five more minutes, carrying an hour at 60. */
  function MinutosMas(horas: string, minutos: string): (string, string) {
    var m := Step32(ParseOrZero(minutos), 5);
    if m >= 60 then (HorasMas(horas), IntText(m - 60)) else (horas, IntText(m))
  }

  /** `BtnDecreaseMinutes_Click`: five minutes less; below 0 the minutes become 55 and an hour goes, if there is one. */
  function MinutosMenos(horas: string, minutos: string): (string, string) {
    var m := Step32(ParseOrZero(minutos), -5);
    if m < 0 then (HorasMenos(horas), IntText(55)) else (horas, IntText(m))
  }

  // ---------------------------------------------------------------------
  // The dialog
  // ---------------------------------------------------------------------

  class TiempoEstimadoWindow {
    var horasText: string
    var minutosText: string
    var totalSeconds: Int32
    /** `DialogResult`: unset while the dialog runs. */
    var dialogResult: Option<bool>
    var abierta: bool

    /** Opens on `currentSeconds` split into whole hours and the minutes left over. */
    constructor(currentSeconds: Int32)
      ensures horasText == IntText(HorasDe(currentSeconds))
      ensures minutosText == IntText(MinutosDe(currentSeconds))
      ensures totalSeconds == 0 && dialogResult.None? && abierta
    {
      var horas := Quot(currentSeconds, 3600);
      var minutos := Quot(Rem(currentSeconds, 3600), 60);
      horasText := IntText(horas);
      minutosText := IntText(minutos);
      totalSeconds := 0;
      dialogResult := None;
      abierta := true;
    }

    /** `Guardar_Click`: stores the total; closes with a positive result only from five minutes up. */
    method Guardar()
      modifies this
      ensures totalSeconds == Total(old(horasText), old(minutosText))
      ensures horasText == old(horasText) && minutosText == old(minutosText)
      ensures Acepta(totalSeconds) ==> dialogResult == Some(true) && !abierta
      ensures !Acepta(totalSeconds) ==> dialogResult == old(dialogResult) && abierta == old(abierta)
    {
      var horas: int := ParseOrZero(horasText);
      var minutos: int := ParseOrZero(minutosText);
      totalSeconds := Wrap32(horas * 3600 + minutos * 60);
      if totalSeconds < 300 {
        return;
      }
      dialogResult := Some(true);
      abierta := false;
    }

    /** `Cancelar_Click`. */
    method Cancelar()
      modifies this
      ensures dialogResult == Some(false) && !abierta
      ensures horasText == old(horasText) && minutosText == old(minutosText) && totalSeconds == old(totalSeconds)
    {
      dialogResult := Some(false);
      abierta := false;
    }

    method BtnIncreaseHours()
      modifies this`horasText
      ensures horasText == HorasMas(old(horasText))
    {
      var horas := ParseOrZero(horasText);
      horas := Step32(horas, 1);
      horasText := IntText(horas);
    }

    method BtnDecreaseHours()
      modifies this`horasText
      ensures horasText == HorasMenos(old(horasText))
    {
      var horas := ParseOrZero(horasText);
      if horas > 0 {
        horas := horas - 1;
        horasText := IntText(horas);
      }
    }

    method BtnIncreaseMinutes()
      modifies this`horasText, this`minutosText
      ensures (horasText, minutosText) == MinutosMas(old(horasText), old(minutosText))
    {
      var minutos := ParseOrZero(minutosText);
      minutos := Step32(minutos, 5);
      if minutos >= 60 {
        minutos := minutos - 60;
        BtnIncreaseHours();
      }
      minutosText := IntText(minutos);
    }

    method BtnDecreaseMinutes()
      modifies this`horasText, this`minutosText
      ensures (horasText, minutosText) == MinutosMenos(old(horasText), old(minutosText))
    {
      var minutos := ParseOrZero(minutosText);
      minutos := Step32(minutos, -5);
      if minutos < 0 {
        minutos := 55;
        BtnDecreaseHours();
      }
      minutosText := IntText(minutos);
    }
  }

  // ---------------------------------------------------------------------
  // What the dialog promises
  // ---------------------------------------------------------------------

  /** Whole hours and the minutes left over make up the seconds, less the odd seconds. */
  lemma HorasYMinutos(segundos: int)
    requires segundos >= 0
    ensures 0 <= (segundos % 3600) / 60 < 60
    ensures (segundos / 3600) * 3600 + ((segundos % 3600) / 60) * 60 == segundos - segundos % 60
  {
    var h := segundos / 3600;
    var r := segundos % 3600;
    var m := r / 60;
    assert segundos == h * 3600 + r;
    assert r == m * 60 + r % 60;
    assert r % 60 == segundos % 60 by {
      assert segundos == (h * 60) * 60 + r;
    }
  }

  /**
   * A non-negative estimate opens as whole hours and 0..59 minutes, and
   * saving it unchanged gives it back rounded down to the minute.
   */
  lemma AperturaSeLee(segundos: Int32)
    requires segundos >= 0
    ensures var h := HorasDe(segundos);
      var m := MinutosDe(segundos);
      && h >= 0 && 0 <= m < 60
      && ParseOrZero(IntText(h)) == h && ParseOrZero(IntText(m)) == m
      && Total(IntText(h), IntText(m)) == segundos - segundos % 60
  {
    var h := HorasDe(segundos);
    var m := MinutosDe(segundos);
    assert h == segundos / 3600;
    assert m == (segundos % 3600) / 60 by {
      assert Rem(segundos, 3600) == segundos % 3600;
    }
    HorasYMinutos(segundos);
    ParseIntTextInt32(h);
    ParseIntTextInt32(m);
    assert h * 3600 + m * 60 == segundos - segundos % 60;
  }

  /**
   * For boxes holding at most 596523 hours and 0..59 minutes the total is
   * exact, and the dialog accepts it exactly when it is five minutes or more.
   */
  lemma GuardarMinimo(horas: string, minutos: string)
    requires TryParseInt(horas).Some? && 0 <= TryParseInt(horas).value <= 596522
    requires TryParseInt(minutos).Some? && 0 <= TryParseInt(minutos).value < 60
    ensures var h := TryParseInt(horas).value;
      var m := TryParseInt(minutos).value;
      Total(horas, minutos) == h * 3600 + m * 60
      && (Acepta(Total(horas, minutos)) <==> h * 60 + m >= 5)
  {
  }

  /** Five more minutes from h:m, m in 0..59, adds five minutes to the time the boxes read. */
  lemma MinutosMasSuma(horas: string, minutos: string)
    requires TryParseInt(horas).Some? && 0 <= TryParseInt(horas).value < Int32Max
    requires TryParseInt(minutos).Some? && 0 <= TryParseInt(minutos).value < 60
    ensures var (h', m') := MinutosMas(horas, minutos);
      var h := TryParseInt(horas).value;
      var m := TryParseInt(minutos).value;
      && TryParseInt(h').Some? && TryParseInt(m').Some?
      && 0 <= TryParseInt(m').value < 60
      && TryParseInt(h').value * 60 + TryParseInt(m').value == h * 60 + m + 5
  {
    var h := TryParseInt(horas).value;
    var m := TryParseInt(minutos).value;
    if m + 5 >= 60 {
      ParseIntTextInt32(h + 1);
      ParseIntTextInt32(m + 5 - 60);
    } else {
      ParseIntTextInt32(m + 5);
    }
  }

  /**
   * Five fewer minutes: from five minutes up they are subtracted; below
   * five the minutes become 55 and the hours drop by one when positive,
   * so 0 h 0 min becomes 0 h 55 min.
   */
  lemma MinutosMenosResta(horas: string, minutos: string)
    requires TryParseInt(minutos).Some? && 0 <= TryParseInt(minutos).value < 60
    ensures var (h', m') := MinutosMenos(horas, minutos);
      var m := TryParseInt(minutos).value;
      && (m >= 5 ==> h' == horas && TryParseInt(m') == Some(m - 5))
      && (m < 5 ==> TryParseInt(m') == Some(55) && h' == HorasMenos(horas))
  {
    var m := TryParseInt(minutos).value;
    if m >= 5 {
      ParseIntTextInt32(m - 5);
    } else {
      ParseIntTextInt32(55);
    }
  }

  /** The hour decrement never goes below 0: a positive count drops by one, anything else is kept. */
  lemma HorasMenosNoNegativo(horas: string)
    ensures var h := ParseOrZero(horas);
      && (h > 0 ==> ParseOrZero(HorasMenos(horas)) == h - 1)
      && (h <= 0 ==> HorasMenos(horas) == horas)
      && (h >= 0 ==> ParseOrZero(HorasMenos(horas)) >= 0)
  {
    var h := ParseOrZero(horas);
    if h > 0 {
      ParseIntTextInt32(h - 1);
    }
  }

  /** One hour up then one down gives the hours back, as canonical text. */
  lemma HorasIdaYVuelta(horas: string)
    requires 0 <= ParseOrZero(horas) < Int32Max
    ensures HorasMenos(HorasMas(horas)) == IntText(ParseOrZero(horas))
  {
    ParseIntTextInt32(ParseOrZero(horas) + 1);
  }

  /** Five minutes up then five down gives the boxes back, as canonical text, below 55 minutes. */
  lemma MinutosIdaYVuelta(horas: string, minutos: string)
    requires TryParseInt(minutos).Some? && 0 <= TryParseInt(minutos).value < 55
    ensures MinutosMenos(MinutosMas(horas, minutos).0, MinutosMas(horas, minutos).1)
      == (horas, IntText(TryParseInt(minutos).value))
  {
    ParseIntTextInt32(TryParseInt(minutos).value + 5);
  }

  /** `NumberValidationTextBox` rejects typed text exactly when it has a non-digit character. */
  lemma FiltroDeDigitos(text: string)
    ensures TimeBoxes.HasNonDigit(text) <==> !TimeBoxes.IsTextAllowed(text)
    ensures TimeBoxes.HasNonDigit(text) <==> exists i :: 0 <= i < |text| && !IsDigit(text[i])
  {
    TimeBoxes.HasNonDigitIff(text);
  }
}
