/**
 * The client's work item (`Registro`): its two enumerations, the names the
 * enumerations print and parse as, and the computed properties the views
 * bind to (labels, clock texts, remaining time, priority level, type code,
 * padded number, task counts).
 */
module Registros {
  import opened Core
  import opened Strings
  import opened Dtos
  import opened Tasks

  datatype TipoRegistro = Requerimiento | Incidente

  datatype EstadoRegistro = Pendiente | EnEspera | EnProceso | Pausado | Cerrado

  datatype Registro = Registro(
    id: string,
    numero: Int32,
    tipo: TipoRegistro,
    titulo: string,
    descripcion: string,
    creadoPor: string,
    asignadoA: Option<string>,
    fechaCreacion: DateTime,
    fechaAsignacion: Option<DateTime>,
    fechaCierre: Option<DateTime>,
    estado: EstadoRegistro,
    tiempoTranscurrido: Int32,
    tiempoEstimado: Int32,
    proyecto: Option<string>,
    empresa: Option<string>,
    contacto: Option<string>,
    telefono: Option<string>,
    prioridad: Option<string>,
    adjuntos: Option<string>,
    nombreAsignado: Option<string>,
    tareas: seq<Tarea>,
    taskCountFromDb: Int32,
    totalPesoAdjuntosKb: Int32,
    adjuntosEliminados: seq<string>,
    adjuntosTareasEliminados: seq<string>)

  // ---------------------------------------------------------------------
  // Enumeration names (`ToString` and `Enum.TryParse(..., ignoreCase: true)`)
  // ---------------------------------------------------------------------

  /** `EstadoRegistro.ToString()`. */
  function EstadoName(e: EstadoRegistro): string {
    match e
    case Pendiente => "Pendiente"
    case EnEspera => "EnEspera"
    case EnProceso => "EnProceso"
    case Pausado => "Pausado"
    case Cerrado => "Cerrado"
  }

  /** `TipoRegistro.ToString()`. */
  function TipoName(t: TipoRegistro): string {
    match t
    case Requerimiento => "Requerimiento"
    case Incidente => "Incidente"
  }

  /**
   * `Enum.TryParse<EstadoRegistro>(s, true, out e)` on names: surrounding
   * white space is skipped and letters compare without case.
   */
  function ParseEstadoName(s: string): (r: Option<EstadoRegistro>)
    ensures r.Some? ==> EqualsIgnoreCase(Trim(s), EstadoName(r.value))
    ensures r.None? ==> forall e :: !EqualsIgnoreCase(Trim(s), EstadoName(e))
  {
    var v := Trim(s);
    if EqualsIgnoreCase(v, "Pendiente") then Some(Pendiente)
    else if EqualsIgnoreCase(v, "EnEspera") then Some(EnEspera)
    else if EqualsIgnoreCase(v, "EnProceso") then Some(EnProceso)
    else if EqualsIgnoreCase(v, "Pausado") then Some(Pausado)
    else if EqualsIgnoreCase(v, "Cerrado") then Some(Cerrado)
    else None
  }

  /** `Enum.TryParse<TipoRegistro>(s, true, out t)` on names. */
  function ParseTipoName(s: string): (r: Option<TipoRegistro>)
    ensures r.Some? ==> EqualsIgnoreCase(Trim(s), TipoName(r.value))
    ensures r.None? ==> forall t :: !EqualsIgnoreCase(Trim(s), TipoName(t))
  {
    var v := Trim(s);
    if EqualsIgnoreCase(v, "Requerimiento") then Some(Requerimiento)
    else if EqualsIgnoreCase(v, "Incidente") then Some(Incidente)
    else None
  }

  /** No two states share a name, even ignoring case. */
  lemma EstadoNamesDistinct(a: EstadoRegistro, b: EstadoRegistro)
    ensures EqualsIgnoreCase(EstadoName(a), EstadoName(b)) ==> a == b
  {
    if a != b && |EstadoName(a)| == |EstadoName(b)| {
      assert ToUpper(EstadoName(a))[0] != ToUpper(EstadoName(b))[0];
    }
  }

  /** A state's name in any case parses as that state. */
  lemma ParseEstadoNameAnyCase(x: string, e: EstadoRegistro)
    requires EqualsIgnoreCase(x, EstadoName(e))
    ensures ParseEstadoName(x) == Some(e)
  {
    var n := EstadoName(e);
    assert ToUpper(x)[0] == ToUpper(n)[0];
    assert ToUpper(x)[|x| - 1] == ToUpper(n)[|n| - 1];
    UpperLetterNotWhite(x[0]);
    UpperLetterNotWhite(x[|x| - 1]);
    TrimNoop(x, IsWhiteSpace);
    EstadoNamesDistinct(ParseEstadoName(x).value, e);
  }

  /** Printing a state and parsing it back gives the state. */
  lemma EstadoNameRoundTrip(e: EstadoRegistro)
    ensures ParseEstadoName(EstadoName(e)) == Some(e)
  {
    var n := EstadoName(e);
    TrimNoop(n, IsWhiteSpace);
    EstadoNamesDistinct(ParseEstadoName(n).value, e);
  }

  /** Printing a type and parsing it back gives the type. */
  lemma TipoNameRoundTrip(t: TipoRegistro)
    ensures ParseTipoName(TipoName(t)) == Some(t)
  {
    var n := TipoName(t);
    TrimNoop(n, IsWhiteSpace);
  }

  // ---------------------------------------------------------------------
  // State labels
  // ---------------------------------------------------------------------

  /** `EstadoTexto`: the label shown for a state. */
  function EstadoTexto(e: EstadoRegistro): string {
    match e
    case Pendiente => "Por Planificar"
    case EnEspera => "En Espera"
    case EnProceso => "En Curso"
    case Pausado => "En Pausa"
    case Cerrado => "Completado"
  }

  /** `EstadoAbreviado`: the two-letter code shown for a state. */
  function EstadoAbreviado(e: EstadoRegistro): string {
    match e
    case Pendiente => "PP"
    case EnEspera => "EE"
    case EnProceso => "EC"
    case Pausado => "PA"
    case Cerrado => "C"
  }

  /** Different states never share a label. */
  lemma EstadoTextoInjective(a: EstadoRegistro, b: EstadoRegistro)
    ensures EstadoTexto(a) == EstadoTexto(b) ==> a == b
  {
    if a != b && |EstadoTexto(a)| == |EstadoTexto(b)| {
      assert EstadoTexto(a)[3] != EstadoTexto(b)[3];
    }
  }

  /** Different states never share a code. */
  lemma EstadoAbreviadoInjective(a: EstadoRegistro, b: EstadoRegistro)
    ensures EstadoAbreviado(a) == EstadoAbreviado(b) ==> a == b
  {
    if a != b && |EstadoAbreviado(a)| == |EstadoAbreviado(b)| {
      assert EstadoAbreviado(a)[0] != EstadoAbreviado(b)[0] || EstadoAbreviado(a)[1] != EstadoAbreviado(b)[1];
    }
  }

  /** `TipoTexto`. */
  function TipoTexto(t: TipoRegistro): string {
    if t == Requerimiento then "Requerimiento" else "Incidente"
  }

  // ---------------------------------------------------------------------
  // Clock texts and remaining time
  // ---------------------------------------------------------------------

  /** `$"{t / 3600:D2}:{(t % 3600) / 60:D2}"` with C#'s truncating `/` and `%`. */
  function ClockText(t: int): string {
    FormatD(Quot(t, 3600), 2) + ":" + FormatD(Quot(Rem(t, 3600), 60), 2)
  }

  /**
   * For a non-negative number of seconds the clock text is the whole hours
   * (at least two digits), a colon, and the minutes left over (exactly two
   * digits, below 60); the seconds dropped are fewer than a minute.
   */
  lemma ClockTextLayout(t: int)
    requires t >= 0
    ensures var s := ClockText(t);
      && |s| >= 5 && s[|s| - 3] == ':'
      && AllDigits(s[..|s| - 3]) && DigitsValue(s[..|s| - 3]) == t / 3600
      && AllDigits(s[|s| - 2..]) && DigitsValue(s[|s| - 2..]) == (t % 3600) / 60 < 60
      && 0 <= t - (t / 3600 * 3600 + (t % 3600) / 60 * 60) < 60
  {
    var h, m := t / 3600, (t % 3600) / 60;
    assert Quot(t, 3600) == h;
    assert Rem(t, 3600) == t % 3600;
    assert Quot(Rem(t, 3600), 60) == m;
    FormatDReads(h, 2);
    FormatDFixedWidth(m, 2);
    var hs, ms := FormatD(h, 2), FormatD(m, 2);
    var s := ClockText(t);
    assert s == hs + ":" + ms;
    assert s[..|s| - 3] == hs;
    assert s[|s| - 2..] == ms;
  }

  /** `TiempoFormateado`: the time worked as a clock. */
  function TiempoFormateado(r: Registro): string {
    ClockText(r.tiempoTranscurrido)
  }

  /** `TiempoComparativo`: the time worked, then ` / ` and the estimate when there is one. */
  function TiempoComparativo(r: Registro): (s: string)
    ensures StartsWith(s, TiempoFormateado(r))
    ensures |s| > |TiempoFormateado(r)| <==> r.tiempoEstimado > 0
    ensures r.tiempoEstimado > 0 ==> s[|TiempoFormateado(r)|..] == " / " + ClockText(r.tiempoEstimado)
  {
    var worked := ClockText(r.tiempoTranscurrido);
    if r.tiempoEstimado > 0 then
      var e := " / " + ClockText(r.tiempoEstimado);
      assert (worked + e)[..|worked|] == worked && (worked + e)[|worked|..] == e;
      worked + e
    else
      assert worked[..|worked|] == worked;
      worked
  }

  /** `TiempoRestante = Math.Max(0, TiempoEstimado - TiempoTranscurrido)`, the subtraction unchecked. */
  function TiempoRestante(r: Registro): (n: Int32)
    ensures n >= 0
    ensures Int32Min <= r.tiempoEstimado - r.tiempoTranscurrido <= Int32Max ==> n == Max(0, r.tiempoEstimado - r.tiempoTranscurrido)
    ensures n == 0 || n == Wrap32(r.tiempoEstimado - r.tiempoTranscurrido)
  {
    Max(0, Wrap32(r.tiempoEstimado - r.tiempoTranscurrido))
  }

  /** `TiempoRestanteFormateado`. */
  function TiempoRestanteFormateado(r: Registro): string {
    ClockText(TiempoRestante(r))
  }

  // ---------------------------------------------------------------------
  // Priority level
  // ---------------------------------------------------------------------

  /** The priority text the level is computed on: trimmed and upper-cased, null as empty. */
  function PrioridadNorm(p: Option<string>): string {
    ToUpper(Trim(if p.Some? then p.value else ""))
  }

  /** `PrioridadNivel`: the first matching group, checked from the highest down. */
  function PrioridadNivel(prioridad: Option<string>): (n: int)
    ensures 0 <= n <= 4
  {
    var p := PrioridadNorm(prioridad);
    if Contains(p, "CRIT") || Contains(p, "CRI") then 4
    else if Contains(p, "ALT") || Contains(p, "HIGH") || Contains(p, "URG") then 3
    else if Contains(p, "NORM") || Contains(p, "MED") then 2
    else if Contains(p, "MEN") || Contains(p, "LOW") || Contains(p, "BAJ") then 1
    else 0
  }

  /**
   * What each level means: level 4 exactly when the text holds CRI (the
   * CRIT test adds nothing, since CRIT contains CRI), and each lower level
   * exactly when no higher group matched and one of its own words occurs.
   */
  lemma PrioridadLevels(prioridad: Option<string>)
    ensures var p := PrioridadNorm(prioridad);
      var hi := Contains(p, "CRI");
      var alt := Contains(p, "ALT") || Contains(p, "HIGH") || Contains(p, "URG");
      var med := Contains(p, "NORM") || Contains(p, "MED");
      var low := Contains(p, "MEN") || Contains(p, "LOW") || Contains(p, "BAJ");
      && (PrioridadNivel(prioridad) == 4 <==> hi)
      && (PrioridadNivel(prioridad) == 3 <==> !hi && alt)
      && (PrioridadNivel(prioridad) == 2 <==> !hi && !alt && med)
      && (PrioridadNivel(prioridad) == 1 <==> !hi && !alt && !med && low)
      && (PrioridadNivel(prioridad) == 0 <==> !hi && !alt && !med && !low)
  {
    var p := PrioridadNorm(prioridad);
    if Contains(p, "CRIT") {
      ContainsPrefix(p, "CRIT", 3);
      assert "CRIT"[..3] == "CRI";
    }
  }

  /** Surrounding white space in the priority text does not change the level. */
  lemma PrioridadIgnoresPadding(p: string)
    ensures PrioridadNivel(Some(Trim(p))) == PrioridadNivel(Some(p))
  {
    TrimIdempotent(p, IsWhiteSpace);
  }

  // ---------------------------------------------------------------------
  // Type code and number
  // ---------------------------------------------------------------------

  /** The `CodigoTipo` getter. */
  function CodigoTipo(r: Registro): string {
    if r.tipo == Requerimiento then "R" else "I"
  }

  /**
   * The `CodigoTipo` setter: blank text is ignored; otherwise the trimmed,
   * upper-cased text REQ or R selects Requerimiento, INC or I selects
   * Incidente, and anything else leaves the type alone.
   */
  function SetCodigoTipo(r: Registro, value: Option<string>): (r': Registro)
    ensures r' == r.(tipo := r'.tipo)
    ensures IsNullOrWhiteSpace(value) ==> r' == r
    ensures !IsNullOrWhiteSpace(value) && ToUpper(Trim(value.value)) in {"REQ", "R"} ==> r'.tipo == Requerimiento
    ensures !IsNullOrWhiteSpace(value) && ToUpper(Trim(value.value)) in {"INC", "I"} ==> r'.tipo == Incidente
    ensures !IsNullOrWhiteSpace(value) && ToUpper(Trim(value.value)) !in {"REQ", "R", "INC", "I"} ==> r' == r
  {
    if IsNullOrWhiteSpace(value) then r
    else
      var v := ToUpper(Trim(value.value));
      if v == "REQ" || v == "R" then r.(tipo := Requerimiento)
      else if v == "INC" || v == "I" then r.(tipo := Incidente)
      else r
  }

  /** Assigning the getter's own value to the setter changes nothing. */
  lemma CodigoTipoRoundTrip(r: Registro)
    ensures SetCodigoTipo(r, Some(CodigoTipo(r))) == r
  {
    var c := CodigoTipo(r);
    assert !IsWhiteSpace(c[0]);
    TrimNoop(c, IsWhiteSpace);
    assert ToUpper(c) == c;
  }

  /** `IdNumero`: "0000" for a number that is not positive, else the number padded to four digits. */
  function IdNumero(r: Registro): (s: string)
    ensures r.numero <= 0 ==> s == "0000"
    ensures r.numero > 0 ==> |s| >= 4 && AllDigits(s) && DigitsValue(s) == r.numero
    ensures 0 < r.numero < 10000 ==> |s| == 4
  {
    if r.numero > 0 then
      FormatDReads(r.numero, 4);
      FormatDPadded(r.numero);
      FormatD(r.numero, 4)
    else "0000"
  }

  lemma FormatDPadded(n: nat)
    ensures n < 10000 ==> |FormatD(n, 4)| == 4
  {
    if n < 10000 {
      FormatDFixedWidth(n, 4);
    }
  }

  // ---------------------------------------------------------------------
  // Task counts
  // ---------------------------------------------------------------------

  /** How many of the tasks are done (`Tareas.Count(t => t.Completada)`). */
  function CountCompleted(ts: seq<Tarea>): (n: nat)
    ensures n <= |ts|
  {
    if ts == [] then 0 else (if ts[0].completada then 1 else 0) + CountCompleted(ts[1..])
  }

  /** `TotalTareas`: the loaded tasks when there are any, else the count read from the store. */
  function TotalTareas(r: Registro): int {
    if |r.tareas| > 0 then |r.tareas| else r.taskCountFromDb
  }

  /** `TareasCompletadas`. */
  function TareasCompletadas(r: Registro): nat {
    CountCompleted(r.tareas)
  }
}
