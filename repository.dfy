/**
 * The pieces of the API's `BitacoraRepository` that are computation rather
 * than SQL: the attachment token builder, the tipo / estado / duration
 * mappings between the DTO and the table columns, the ids an insert or
 * update writes, the update / insert / soft-delete partition of
 * sub-registros, and the normalisation of the names whose evidence is
 * soft-deleted. Tables are values handed in and handed back.
 */
module Repository {
  import opened Core
  import opened Strings
  import opened Dtos

  // ---------------------------------------------------------------------
  // Attachment tokens
  // ---------------------------------------------------------------------

  /** One live `MEVIDENCIAS` row as the reader returns it (`ISNULL(iPesoKb, 0)`). */
  datatype EvidenceRow = EvidenceRow(
    rutaMini: Option<string>,
    rutaFull: Option<string>,
    pesoKb: Int32,
    nombre: Option<string>)

  /** A row yields a token when at least one of its two paths is not blank. */
  predicate HasPath(row: EvidenceRow) {
    !IsNullOrWhiteSpace(row.rutaMini) || !IsNullOrWhiteSpace(row.rutaFull)
  }

  /** The path part of a token: "mini|full" when both are present, otherwise the one that is. */
  function PathFields(row: EvidenceRow): (r: seq<string>)
    requires HasPath(row)
    ensures 1 <= |r| <= 2 && !IsBlank(r[0])
  {
    if !IsNullOrWhiteSpace(row.rutaMini) && !IsNullOrWhiteSpace(row.rutaFull) then
      [row.rutaMini.value, row.rutaFull.value]
    else if !IsNullOrWhiteSpace(row.rutaFull) then [row.rutaFull.value]
    else [row.rutaMini.value]
  }

  /** The size field, present only for a positive size. */
  function SizeFields(row: EvidenceRow): seq<string> {
    if row.pesoKb > 0 then [IntText(row.pesoKb)] else []
  }

  /** The name field, preceded by a "0" size when no size field was written. */
  function NameFields(row: EvidenceRow): seq<string> {
    if IsNullOrWhiteSpace(row.nombre) then []
    else (if row.pesoKb <= 0 then ["0"] else []) + [row.nombre.value]
  }

  /** The fields after the paths: the size, then the name. */
  function TailFields(row: EvidenceRow): seq<string> {
    SizeFields(row) + NameFields(row)
  }

  function Fields(row: EvidenceRow): seq<string>
    requires HasPath(row)
  {
    PathFields(row) + TailFields(row)
  }

  /** The token of one row: its fields joined with '|', or nothing for a row without a path. */
  function TokenOf(row: EvidenceRow): (r: Option<string>)
    ensures r.Some? <==> HasPath(row)
    ensures r.Some? ==> !IsBlank(r.value) && StartsWith(r.value, PathFields(row)[0])
  {
    if HasPath(row) then
      var f := Fields(row);
      JoinStartsWithFirst('|', f);
      var t := Join('|', f);
      NotBlankConcat(t[..|f[0]|], t[|f[0]|..]);
      assert t == t[..|f[0]|] + t[|f[0]|..];
      Some(t)
    else None
  }

  /** The tokens of the rows that have one, in reader order. */
  function Tokens(rows: seq<EvidenceRow>): (r: seq<string>)
    ensures |r| <= |rows|
    ensures forall i :: 0 <= i < |r| ==> !IsBlank(r[i])
  {
    if rows == [] then []
    else
      var last := rows[|rows| - 1];
      Tokens(rows[..|rows| - 1]) + (if HasPath(last) then [TokenOf(last).value] else [])
  }

  /** The `Adjuntos` text: the tokens joined with ';', or null when there is none. */
  function AdjuntosString(rows: seq<EvidenceRow>): (r: Option<string>)
    ensures r.None? <==> Tokens(rows) == []
  {
    var t := Tokens(rows);
    if t == [] then None else Some(Join(';', t))
  }

  /** The body of the reader loop for one row: builds the token by appending to a string. */
  method BuildToken(row: EvidenceRow) returns (value: Option<string>)
    ensures value == TokenOf(row)
  {
    value := None;
    if !IsNullOrWhiteSpace(row.rutaMini) && !IsNullOrWhiteSpace(row.rutaFull) {
      value := Some(row.rutaMini.value + "|" + row.rutaFull.value);
    } else if !IsNullOrWhiteSpace(row.rutaFull) {
      value := row.rutaFull;
    } else if !IsNullOrWhiteSpace(row.rutaMini) {
      value := row.rutaMini;
    }
    PathText(row);
    TokenIsJoin(row);
    if !IsNullOrWhiteSpace(value) {
      var v := value.value;
      if row.pesoKb > 0 {
        JoinSnoc('|', PathFields(row), IntText(row.pesoKb));
        v := v + "|" + IntText(row.pesoKb);
      }
      ghost var sized := PathFields(row) + SizeFields(row);
      assert v == Join('|', sized);
      if !IsNullOrWhiteSpace(row.nombre) {
        if row.pesoKb <= 0 {
          JoinSnoc('|', sized, "0");
          v := v + "|0";
          JoinSnoc('|', sized + ["0"], row.nombre.value);
        } else {
          JoinSnoc('|', sized, row.nombre.value);
        }
        v := v + "|" + row.nombre.value;
      }
      NamedFields(row, sized);
      FieldsAppended(row);
      assert v == Join('|', sized + NameFields(row));
      assert sized + NameFields(row) == Fields(row);
      value := Some(v);
    }
  }

  /** Appending the name after the size fields, with the "0" placeholder when there is no size. */
  lemma NamedFields(row: EvidenceRow, sized: seq<string>)
    ensures IsNullOrWhiteSpace(row.nombre) ==> sized + NameFields(row) == sized
    ensures !IsNullOrWhiteSpace(row.nombre) && row.pesoKb <= 0 ==> sized + ["0"] + [row.nombre.value] == sized + NameFields(row)
    ensures !IsNullOrWhiteSpace(row.nombre) && row.pesoKb > 0 ==> sized + [row.nombre.value] == sized + NameFields(row)
  {
  }

  /** The path text the reader starts from: present exactly for a row with a path, and then its joined path fields. */
  lemma PathText(row: EvidenceRow)
    ensures var v :=
      if !IsNullOrWhiteSpace(row.rutaMini) && !IsNullOrWhiteSpace(row.rutaFull) then
        Some(row.rutaMini.value + "|" + row.rutaFull.value)
      else if !IsNullOrWhiteSpace(row.rutaFull) then row.rutaFull
      else if !IsNullOrWhiteSpace(row.rutaMini) then row.rutaMini
      else None;
      && (HasPath(row) <==> !IsNullOrWhiteSpace(v))
      && (HasPath(row) ==> v.value == Join('|', PathFields(row)))
  {
    if !IsNullOrWhiteSpace(row.rutaMini) && !IsNullOrWhiteSpace(row.rutaFull) {
      NotBlankConcat(row.rutaMini.value, "|" + row.rutaFull.value);
      assert row.rutaMini.value + "|" + row.rutaFull.value == row.rutaMini.value + ("|" + row.rutaFull.value);
    }
  }

  lemma TokenIsJoin(row: EvidenceRow)
    ensures HasPath(row) ==> TokenOf(row) == Some(Join('|', Fields(row)))
  {
  }

  /** The fields in the order the reader appends them. */
  lemma FieldsAppended(row: EvidenceRow)
    requires HasPath(row)
    ensures Fields(row) == PathFields(row) + SizeFields(row) + NameFields(row)
  {
  }

  /** The reader loop: one token per row that has a path. */
  method CollectTokens(rows: seq<EvidenceRow>) returns (adjuntos: seq<string>)
    ensures adjuntos == Tokens(rows)
  {
    adjuntos := [];
    var i := 0;
    while i < |rows|
      invariant 0 <= i <= |rows|
      invariant adjuntos == Tokens(rows[..i])
    {
      var value := BuildToken(rows[i]);
      if value.Some? {
        adjuntos := adjuntos + [value.value];
      }
      assert rows[..i + 1][..i] == rows[..i];
      i := i + 1;
    }
    assert rows[..|rows|] == rows;
  }

  /**
   * `GetRegistroByIdAsync`: `Adjuntos` is set only when some token was built,
   * and then it holds the same text as `GetAdjuntosStringAsync` returns.
   */
  method LoadAdjuntos(rows: seq<EvidenceRow>, current: Option<string>) returns (adjuntos: Option<string>)
    ensures Tokens(rows) != [] ==> adjuntos == AdjuntosString(rows)
    ensures Tokens(rows) == [] ==> adjuntos == current
  {
    var tokens := CollectTokens(rows);
    adjuntos := current;
    if |tokens| > 0 {
      adjuntos := Some(Join(';', tokens));
    }
  }

  /** `GetAdjuntosStringAsync`: the joined tokens, or null when there are none. */
  method GetAdjuntosString(rows: seq<EvidenceRow>) returns (r: Option<string>)
    ensures r == AdjuntosString(rows)
    ensures r.Some? ==> !IsBlank(r.value)
  {
    var tokens := CollectTokens(rows);
    r := if |tokens| > 0 then Some(Join(';', tokens)) else None;
    if r.Some? {
      JoinStartsWithFirst(';', tokens);
      NotBlankConcat(r.value[..|tokens[0]|], r.value[|tokens[0]|..]);
      assert r.value == r.value[..|tokens[0]|] + r.value[|tokens[0]|..];
    }
  }

  /** None of the row's texts holds `c`. */
  predicate Avoids(row: EvidenceRow, c: char) {
    (row.rutaMini.Some? ==> c !in row.rutaMini.value)
    && (row.rutaFull.Some? ==> c !in row.rutaFull.value)
    && (row.nombre.Some? ==> c !in row.nombre.value)
  }

  /** The fields of a row avoid every character its texts avoid, apart from digits. */
  lemma FieldsAvoid(row: EvidenceRow, c: char)
    requires HasPath(row) && Avoids(row, c) && !IsDigit(c)
    ensures forall i :: 0 <= i < |Fields(row)| ==> c !in Fields(row)[i]
  {
    if row.pesoKb > 0 {
      assert AllDigits(IntText(row.pesoKb));
    }
  }

  /**
   * Splitting a token on '|' gives back its fields, when the paths and the
   * name hold no '|' themselves.
   */
  lemma TokenSplits(row: EvidenceRow)
    requires HasPath(row) && Avoids(row, '|')
    ensures Split(TokenOf(row).value, '|') == Fields(row)
  {
    FieldsAvoid(row, '|');
    SplitJoin('|', Fields(row));
  }

  /**
   * A non-blank name is always the last field, and the field before it is
   * a size: the stored size when positive, otherwise "0".
   */
  lemma NameFollowsSize(row: EvidenceRow)
    requires HasPath(row) && !IsNullOrWhiteSpace(row.nombre)
    ensures |Fields(row)| >= 2
    ensures Fields(row)[|Fields(row)| - 1] == row.nombre.value
    ensures TryParseInt(Fields(row)[|Fields(row)| - 2]) == Some(Max(row.pesoKb, 0))
  {
    var f := Fields(row);
    if row.pesoKb > 0 {
      assert f[|f| - 2] == IntText(row.pesoKb);
      ParseIntTextInt32(row.pesoKb);
    } else {
      assert f[|f| - 2] == "0" == IntText(0);
      ParseIntTextInt32(0);
    }
  }

  /** Every token is non-empty and avoids ';' when no row text holds one. */
  lemma {:induction false} TokensAvoid(rows: seq<EvidenceRow>)
    requires forall i :: 0 <= i < |rows| ==> Avoids(rows[i], ';')
    ensures forall i :: 0 <= i < |Tokens(rows)| ==> Tokens(rows)[i] != [] && ';' !in Tokens(rows)[i]
  {
    if rows != [] {
      var last := rows[|rows| - 1];
      TokensAvoid(rows[..|rows| - 1]);
      if HasPath(last) {
        FieldsAvoid(last, ';');
        JoinAvoids('|', Fields(last), ';');
      }
    }
  }

  /**
   * Splitting `Adjuntos` on ';' with empty entries removed, as every reader
   * of it does, gives back exactly the tokens.
   */
  lemma AdjuntosSplits(rows: seq<EvidenceRow>)
    requires forall i :: 0 <= i < |rows| ==> Avoids(rows[i], ';')
    ensures AdjuntosString(rows).Some? ==> SplitNonEmpty(AdjuntosString(rows).value, ';') == Tokens(rows)
  {
    TokensAvoid(rows);
    SplitNonEmptyJoin(';', Tokens(rows));
  }

  // ---------------------------------------------------------------------
  // Column mappings
  // ---------------------------------------------------------------------

  /** `Tipo == "Incidente" ? "I" : "R"`. */
  function TipoToDb(tipo: string): (r: string)
    ensures r == "I" || r == "R"
    ensures r == "I" <==> tipo == "Incidente"
  {
    if tipo == "Incidente" then "I" else "R"
  }

  /** `tipoDb == "I" ? "Incidente" : "Requerimiento"`. */
  function TipoFromDb(tipoDb: string): (r: string)
    ensures r == "Incidente" || r == "Requerimiento"
    ensures r == "Incidente" <==> tipoDb == "I"
  {
    if tipoDb == "I" then "Incidente" else "Requerimiento"
  }

  /** Writing a tipo and reading it back keeps "Incidente" and turns everything else into "Requerimiento". */
  lemma TipoRoundTrip(tipo: string, tipoDb: string)
    ensures TipoFromDb(TipoToDb(tipo)) == (if tipo == "Incidente" then tipo else "Requerimiento")
    ensures TipoToDb(TipoFromDb(tipoDb)) == (if tipoDb == "I" then tipoDb else "R")
  {
  }

  /** A NULL `Estado` column reads as "Pendiente". */
  function EstadoFromDb(estadoDb: Option<string>): (r: string)
    ensures estadoDb.None? ==> r == "Pendiente"
    ensures estadoDb.Some? ==> r == estadoDb.value
  {
    match estadoDb
    case None => "Pendiente"
    case Some(e) => e
  }

  /** Durations are stored in whole minutes: `seconds / 60`, truncated toward zero. */
  function MinutesToStore(seconds: Int32): (m: Int32)
    ensures seconds == m * 60 + Rem(seconds, 60)
    ensures Abs(m * 60) <= Abs(seconds)
  {
    Quot(seconds, 60)
  }

  /** Stored minutes are read back as `minutes * 60` in unchecked `int` arithmetic. */
  function SecondsFromStore(minutes: Int32): (s: Int32)
    ensures Int32Min <= minutes * 60 <= Int32Max ==> s == minutes * 60
  {
    Wrap32(minutes * 60)
  }

  /**
   * A duration written and read back loses its sub-minute seconds: the
   * result is `t - t % 60` with C#'s remainder, so `t - t % 60` for t >= 0.
   */
  lemma DurationRoundTrip(t: Int32)
    ensures SecondsFromStore(MinutesToStore(t)) == t - Rem(t, 60)
    ensures t >= 0 ==> SecondsFromStore(MinutesToStore(t)) == t - t % 60
  {
    var m := MinutesToStore(t);
    assert Int32Min <= m * 60 <= Int32Max;
  }

  /** `long.Parse` on a nullable string; `None` is the exception it throws. */
  function ParseLong(s: Option<string>): (r: Option<Int64>)
    ensures s.None? ==> r.None?
    ensures s.Some? ==> r == TryParseLong(s.value)
  {
    match s
    case None => None
    case Some(t) => TryParseLong(t)
  }

  datatype Parties = Parties(solicitante: Int64, responsable: Int64)

  /**
   * The requester and assignee ids an insert or update writes:
   * `long.Parse(CreadoPor)`, and `long.Parse(AsignadoA)` unless AsignadoA is
   * null or empty, in which case the requester. `None` is the parse
   * exception that aborts the transaction.
   */
  function PartiesOf(creadoPor: string, asignadoA: Option<string>): (r: Option<Parties>)
    ensures r.None? <==>
      TryParseLong(creadoPor).None? || (!IsNullOrEmpty(asignadoA) && ParseLong(asignadoA).None?)
    ensures r.Some? ==> TryParseLong(creadoPor) == Some(r.value.solicitante)
    ensures r.Some? && IsNullOrEmpty(asignadoA) ==> r.value.responsable == r.value.solicitante
    ensures r.Some? && !IsNullOrEmpty(asignadoA) ==> ParseLong(asignadoA) == Some(r.value.responsable)
  {
    match TryParseLong(creadoPor)
    case None => None
    case Some(solicitante) =>
      if IsNullOrEmpty(asignadoA) then Some(Parties(solicitante, solicitante))
      else
        match ParseLong(asignadoA)
        case None => None
        case Some(responsable) => Some(Parties(solicitante, responsable))
  }

  /** `!string.IsNullOrEmpty(s) && long.TryParse(s, out v)`, as an option. */
  function TryParseNonEmpty(s: Option<string>): (r: Option<Int64>)
    ensures r.Some? ==> !IsNullOrEmpty(s) && TryParseLong(s.value) == r
    ensures r.None? ==> IsNullOrEmpty(s) || TryParseLong(s.value).None?
  {
    if IsNullOrEmpty(s) then None else TryParseLong(s.value)
  }

  /**
   * The ids an inserted sub-registro gets: its own requester if it parses,
   * else the parent's, else 0; its own assignee if it parses, else the
   * requester. Nothing here throws.
   */
  function SubParties(sub: RegistroDto, parent: RegistroDto): (r: Parties)
    ensures TryParseNonEmpty(Some(sub.creadoPor)).Some? ==> Some(r.solicitante) == TryParseLong(sub.creadoPor)
    ensures TryParseNonEmpty(Some(sub.creadoPor)).None? && TryParseNonEmpty(Some(parent.creadoPor)).Some?
      ==> Some(r.solicitante) == TryParseLong(parent.creadoPor)
    ensures TryParseNonEmpty(Some(sub.creadoPor)).None? && TryParseNonEmpty(Some(parent.creadoPor)).None?
      ==> r.solicitante == 0
    ensures TryParseNonEmpty(sub.asignadoA).None? ==> r.responsable == r.solicitante
    ensures TryParseNonEmpty(sub.asignadoA).Some? ==> Some(r.responsable) == TryParseNonEmpty(sub.asignadoA)
  {
    var solicitante :=
      match TryParseNonEmpty(Some(sub.creadoPor))
      case Some(s) => s
      case None =>
        match TryParseNonEmpty(Some(parent.creadoPor))
        case Some(p) => p
        case None => 0;
    var responsable :=
      match TryParseNonEmpty(sub.asignadoA)
      case Some(a) => a
      case None => solicitante;
    Parties(solicitante, responsable)
  }

  // ---------------------------------------------------------------------
  // Sub-registro partition (SaveDetallesAsync)
  // ---------------------------------------------------------------------

  /** The columns an UPDATE of an existing child writes. */
  datatype ChildUpdate = ChildUpdate(
    id: Int64, titulo: string, estado: string, minEst: Int32, minReal: Int32,
    fechaInicio: Option<DateTime>, fechaFin: Option<DateTime>)

  /** The columns an INSERT of a new child writes, apart from the looked-up codes. */
  datatype ChildInsert = ChildInsert(
    tipo: string, titulo: string, descripcion: string, estado: string, parties: Parties,
    minEst: Int32, minReal: Int32, padre: Int64,
    fechaInicio: Option<DateTime>, fechaFin: Option<DateTime>)

  datatype SavePlan = SavePlan(updates: seq<ChildUpdate>, inserts: seq<ChildInsert>, softDeleted: set<Int64>)

  /**
   * The existing live child an incoming sub-registro refers to: its id is
   * not blank, parses as a `long`, and is a key of the existing children.
   */
  function MatchId(sub: RegistroDto, existing: map<Int64, string>): (r: Option<Int64>)
    ensures r.Some? <==>
      !IsBlank(sub.id) && TryParseLong(sub.id).Some? && TryParseLong(sub.id).value in existing
    ensures r.Some? ==> r.value in existing && TryParseLong(sub.id) == r
  {
    if IsBlank(sub.id) then None
    else
      match TryParseLong(sub.id)
      case None => None
      case Some(v) => if v in existing then Some(v) else None
  }

  function UpdateOf(sub: RegistroDto, id: Int64): ChildUpdate {
    ChildUpdate(id, sub.titulo, sub.estado, MinutesToStore(sub.tiempoEstimado),
      MinutesToStore(sub.tiempoTranscurrido), sub.fechaInicio, sub.fechaFin)
  }

  function InsertOf(sub: RegistroDto, parent: RegistroDto, bitacoraId: Int64): ChildInsert {
    ChildInsert(TipoToDb(parent.tipo), sub.titulo, sub.descripcion, sub.estado, SubParties(sub, parent),
      MinutesToStore(sub.tiempoEstimado), MinutesToStore(sub.tiempoTranscurrido), bitacoraId,
      sub.fechaInicio, sub.fechaFin)
  }

  /** The updates for the matched subs, in input order. */
  function Updates(subs: seq<RegistroDto>, existing: map<Int64, string>): seq<ChildUpdate> {
    if subs == [] then []
    else
      var last := subs[|subs| - 1];
      Updates(subs[..|subs| - 1], existing)
        + (match MatchId(last, existing) case Some(id) => [UpdateOf(last, id)] case None => [])
  }

  /** The inserts for the unmatched subs, in input order. */
  function Inserts(subs: seq<RegistroDto>, parent: RegistroDto, bitacoraId: Int64, existing: map<Int64, string>): seq<ChildInsert> {
    if subs == [] then []
    else
      var last := subs[|subs| - 1];
      Inserts(subs[..|subs| - 1], parent, bitacoraId, existing)
        + (if MatchId(last, existing).None? then [InsertOf(last, parent, bitacoraId)] else [])
  }

  /** The ids of the existing children some incoming sub matched. */
  function MatchedIds(subs: seq<RegistroDto>, existing: map<Int64, string>): set<Int64> {
    if subs == [] then {}
    else
      var last := subs[|subs| - 1];
      MatchedIds(subs[..|subs| - 1], existing)
        + (match MatchId(last, existing) case Some(id) => {id} case None => {})
  }

  /**
   * `SaveDetallesAsync`: walks the incoming subs once, updating the matched
   * ones and inserting the rest, then soft-deletes every existing child no
   * sub matched.
   */
  method SaveDetalles(bitacoraId: Int64, registro: RegistroDto, existing: map<Int64, string>)
    returns (plan: SavePlan)
    ensures plan.updates == Updates(registro.subRegistros, existing)
    ensures plan.inserts == Inserts(registro.subRegistros, registro, bitacoraId, existing)
    ensures plan.softDeleted == existing.Keys - MatchedIds(registro.subRegistros, existing)
  {
    var subs := registro.subRegistros;
    var updates: seq<ChildUpdate> := [];
    var inserts: seq<ChildInsert> := [];
    var processedIds: set<Int64> := {};
    var i := 0;
    while i < |subs|
      invariant 0 <= i <= |subs|
      invariant updates == Updates(subs[..i], existing)
      invariant inserts == Inserts(subs[..i], registro, bitacoraId, existing)
      invariant processedIds == MatchedIds(subs[..i], existing)
    {
      var sub := subs[i];
      SaveStep(subs, i, registro, bitacoraId, existing);
      var found := MatchId(sub, existing);
      if found.Some? {
        var subId := found.value;
        updates := updates + [UpdateOf(sub, subId)];
        processedIds := processedIds + {subId};
      } else {
        inserts := inserts + [InsertOf(sub, registro, bitacoraId)];
      }
      i := i + 1;
    }
    assert subs[..|subs|] == subs;
    var toSoftDelete := existing.Keys - processedIds;
    plan := SavePlan(updates, inserts, toSoftDelete);
  }

  /** One more sub extends each of the three accumulations by that sub's share. */
  lemma SaveStep(subs: seq<RegistroDto>, i: nat, parent: RegistroDto, bitacoraId: Int64, existing: map<Int64, string>)
    requires i < |subs|
    ensures var found := MatchId(subs[i], existing);
      && Updates(subs[..i + 1], existing)
         == Updates(subs[..i], existing) + (if found.Some? then [UpdateOf(subs[i], found.value)] else [])
      && Inserts(subs[..i + 1], parent, bitacoraId, existing)
         == Inserts(subs[..i], parent, bitacoraId, existing) + (if found.None? then [InsertOf(subs[i], parent, bitacoraId)] else [])
      && MatchedIds(subs[..i + 1], existing)
         == MatchedIds(subs[..i], existing) + (if found.Some? then {found.value} else {})
  {
    assert subs[..i + 1][..i] == subs[..i];
  }

  /** The ids a list of updates writes to. */
  function UpdatedIds(us: seq<ChildUpdate>): set<Int64> {
    if us == [] then {} else UpdatedIds(us[..|us| - 1]) + {us[|us| - 1].id}
  }

  /** Every incoming sub lands on exactly one side: updates and inserts together are as many as the subs. */
  lemma {:induction false} PartitionCounts(subs: seq<RegistroDto>, parent: RegistroDto, bitacoraId: Int64, existing: map<Int64, string>)
    ensures |Updates(subs, existing)| + |Inserts(subs, parent, bitacoraId, existing)| == |subs|
  {
    if subs != [] {
      PartitionCounts(subs[..|subs| - 1], parent, bitacoraId, existing);
    }
  }

  /** Every update names an existing child. */
  lemma {:induction false} UpdatesInExisting(subs: seq<RegistroDto>, existing: map<Int64, string>)
    ensures forall k :: 0 <= k < |Updates(subs, existing)| ==> Updates(subs, existing)[k].id in existing
  {
    if subs != [] {
      var init := subs[..|subs| - 1];
      UpdatesInExisting(init, existing);
      var m := MatchId(subs[|subs| - 1], existing);
      if m.Some? {
        assert Updates(subs, existing) == Updates(init, existing) + [UpdateOf(subs[|subs| - 1], m.value)];
      }
    }
  }

  /**
   * The matched ids are exactly the ids the updates write to, and all of
   * them are existing children; so the soft-deleted children are the
   * existing ones no update touches.
   */
  lemma {:induction false} MatchedAreUpdated(subs: seq<RegistroDto>, existing: map<Int64, string>)
    ensures MatchedIds(subs, existing) == UpdatedIds(Updates(subs, existing))
    ensures MatchedIds(subs, existing) <= existing.Keys
  {
    if subs != [] {
      var init := subs[..|subs| - 1];
      MatchedAreUpdated(init, existing);
      var m := MatchId(subs[|subs| - 1], existing);
      var u0 := Updates(init, existing);
      var u := Updates(subs, existing);
      if m.Some? {
        assert u == u0 + [UpdateOf(subs[|subs| - 1], m.value)];
        assert u[..|u| - 1] == u0;
      } else {
        assert u == u0;
      }
    }
  }

  /** Re-sending the existing children unchanged soft-deletes none of them. */
  lemma {:induction false} ResendKeepsAll(subs: seq<RegistroDto>, existing: map<Int64, string>)
    requires forall id :: id in existing ==> exists k :: 0 <= k < |subs| && MatchId(subs[k], existing) == Some(id)
    ensures existing.Keys - MatchedIds(subs, existing) == {}
  {
    forall id | id in existing
      ensures id in MatchedIds(subs, existing)
    {
      var k :| 0 <= k < |subs| && MatchId(subs[k], existing) == Some(id);
      MatchedIdsHas(subs, existing, k);
    }
  }

  lemma {:induction false} MatchedIdsHas(subs: seq<RegistroDto>, existing: map<Int64, string>, k: nat)
    requires k < |subs| && MatchId(subs[k], existing).Some?
    ensures MatchId(subs[k], existing).value in MatchedIds(subs, existing)
  {
    if k < |subs| - 1 {
      MatchedIdsHas(subs[..|subs| - 1], existing, k);
    }
  }

  // ---------------------------------------------------------------------
  // Evidence soft-delete by name
  // ---------------------------------------------------------------------

  /** `s` holds a string equal to `x` ignoring case. */
  predicate HasIgnoreCase(s: seq<string>, x: string) {
    s != [] && (EqualsIgnoreCase(s[0], x) || HasIgnoreCase(s[1..], x))
  }

  lemma {:induction false} HasIgnoreCaseIndex(s: seq<string>, x: string)
    ensures HasIgnoreCase(s, x) <==> exists i :: 0 <= i < |s| && EqualsIgnoreCase(s[i], x)
  {
    if s != [] {
      HasIgnoreCaseIndex(s[1..], x);
      if exists i :: 0 <= i < |s| && EqualsIgnoreCase(s[i], x) {
        var i :| 0 <= i < |s| && EqualsIgnoreCase(s[i], x);
        if i > 0 {
          assert s[1..][i - 1] == s[i];
        }
      }
      if HasIgnoreCase(s[1..], x) && !EqualsIgnoreCase(s[0], x) {
        var i :| 0 <= i < |s[1..]| && EqualsIgnoreCase(s[1..][i], x);
        assert s[i + 1] == s[1..][i];
      }
    }
  }

  /** The string at `k` is the first in `s` of its case-insensitive class. */
  predicate FirstOfClass(s: seq<string>, k: nat)
    requires k < |s|
  {
    forall m :: 0 <= m < k ==> !EqualsIgnoreCase(s[m], s[k])
  }

  /** `r` lists the strings of `s` at the increasing positions `pos`, each the first of its class there. */
  predicate KeptAt(s: seq<string>, r: seq<string>, pos: seq<nat>) {
    && |pos| == |r|
    && (forall i :: 0 <= i < |r| ==> pos[i] < |s| && s[pos[i]] == r[i] && FirstOfClass(s, pos[i]))
    && (forall i, j :: 0 <= i < j < |r| ==> pos[i] < pos[j])
  }

  /**
   * `Distinct(StringComparer.OrdinalIgnoreCase)`: keeps, in input order,
   * the first string of each case-insensitive class and drops the rest.
   */
  function DistinctIgnoreCase(s: seq<string>): (r: seq<string>)
    ensures exists pos: seq<nat> :: KeptAt(s, r, pos)
    ensures forall i, j :: 0 <= i < j < |r| ==> !EqualsIgnoreCase(r[i], r[j])
    ensures forall i :: 0 <= i < |s| ==> HasIgnoreCase(r, s[i])
  {
    if s == [] then
      assert KeptAt(s, [], []);
      []
    else
      var init := s[..|s| - 1];
      var last := s[|s| - 1];
      assert s == init + [last];
      var r := DistinctIgnoreCase(init);
      HasIgnoreCaseIndex(r, last);
      if HasIgnoreCase(r, last) then
        KeptSame(init, last, r);
        r
      else
        KeptAdded(init, last, r);
        r + [last]
  }

  /** A string of a class already kept adds nothing. */
  lemma KeptSame(init: seq<string>, last: string, r: seq<string>)
    requires exists pos: seq<nat> :: KeptAt(init, r, pos)
    requires forall i :: 0 <= i < |init| ==> HasIgnoreCase(r, init[i])
    requires HasIgnoreCase(r, last)
    ensures exists pos: seq<nat> :: KeptAt(init + [last], r, pos)
    ensures forall i :: 0 <= i < |init + [last]| ==> HasIgnoreCase(r, (init + [last])[i])
  {
    var pos: seq<nat> :| KeptAt(init, r, pos);
    KeptInLonger(init, init + [last], r, pos);
  }

  /** A string of a class not yet kept is kept, after the others. */
  lemma KeptAdded(init: seq<string>, last: string, r: seq<string>)
    requires exists pos: seq<nat> :: KeptAt(init, r, pos)
    requires forall i, j :: 0 <= i < j < |r| ==> !EqualsIgnoreCase(r[i], r[j])
    requires forall i :: 0 <= i < |init| ==> HasIgnoreCase(r, init[i])
    requires !HasIgnoreCase(r, last)
    ensures exists pos: seq<nat> :: KeptAt(init + [last], r + [last], pos)
    ensures forall i, j :: 0 <= i < j < |r + [last]| ==> !EqualsIgnoreCase((r + [last])[i], (r + [last])[j])
    ensures forall i :: 0 <= i < |init + [last]| ==> HasIgnoreCase(r + [last], (init + [last])[i])
  {
    var s := init + [last];
    var r' := r + [last];
    var pos: seq<nat> :| KeptAt(init, r, pos);
    KeptInLonger(init, s, r, pos);
    LastIsFirst(init, r, last);
    assert KeptAt(s, r', pos + [|init|]);
    HasIgnoreCaseIndex(r, last);
    forall i, j | 0 <= i < j < |r'| ensures !EqualsIgnoreCase(r'[i], r'[j]) {
      if j == |r| {
        assert r'[i] == r[i];
      }
    }
    forall i | 0 <= i < |s| ensures HasIgnoreCase(r', s[i]) {
      HasIgnoreCaseIndex(r', s[i]);
      if i < |init| {
        HasIgnoreCaseIndex(r, init[i]);
        var k :| 0 <= k < |r| && EqualsIgnoreCase(r[k], init[i]);
        assert r'[k] == r[k];
      } else {
        assert r'[|r|] == last;
      }
    }
  }

  /** What is kept from a prefix is still kept, at the same positions, from the whole. */
  lemma KeptInLonger(init: seq<string>, s: seq<string>, r: seq<string>, pos: seq<nat>)
    requires KeptAt(init, r, pos) && |init| <= |s| && init == s[..|init|]
    ensures KeptAt(s, r, pos) && forall i :: 0 <= i < |pos| ==> pos[i] < |init|
  {
    forall i | 0 <= i < |r|
      ensures s[pos[i]] == r[i] && FirstOfClass(s, pos[i])
    {
      assert s[pos[i]] == init[pos[i]];
      assert forall m :: 0 <= m < pos[i] ==> s[m] == init[m];
    }
  }

  /** A string whose class nothing in `r` belongs to is the first of its class after `init`, when `r` covers `init`. */
  lemma LastIsFirst(init: seq<string>, r: seq<string>, last: string)
    requires forall i :: 0 <= i < |init| ==> HasIgnoreCase(r, init[i])
    requires !HasIgnoreCase(r, last)
    ensures FirstOfClass(init + [last], |init|)
  {
    var s := init + [last];
    forall m | 0 <= m < |init|
      ensures !EqualsIgnoreCase(s[m], last)
    {
      HasIgnoreCaseIndex(r, init[m]);
      HasIgnoreCaseIndex(r, last);
      var k :| 0 <= k < |r| && EqualsIgnoreCase(r[k], init[m]);
      assert s[m] == init[m];
    }
  }

  /** The non-blank names, in order. */
  function NonBlankNames(names: seq<Option<string>>): (r: seq<string>)
    ensures forall i :: 0 <= i < |r| ==> !IsBlank(r[i])
    ensures forall i :: 0 <= i < |names| && !IsNullOrWhiteSpace(names[i]) ==> names[i].value in r
  {
    if names == [] then []
    else
      var rest := NonBlankNames(names[1..]);
      assert forall i :: 1 <= i < |names| ==> names[i] == names[1..][i - 1];
      if IsNullOrWhiteSpace(names[0]) then rest else [names[0].value] + rest
  }

  /** The names a soft-delete acts on: a null list is empty; blanks dropped; case-insensitive duplicates dropped. */
  function NormalizeNames(names: Option<seq<Option<string>>>): (r: seq<string>)
    ensures names.None? ==> r == []
    ensures forall i :: 0 <= i < |r| ==> !IsBlank(r[i])
    ensures forall i, j :: 0 <= i < j < |r| ==> !EqualsIgnoreCase(r[i], r[j])
    ensures names.Some? ==>
      (forall i :: 0 <= i < |names.value| && !IsNullOrWhiteSpace(names.value[i]) ==> HasIgnoreCase(r, names.value[i].value))
  {
    match names
    case None => []
    case Some(ns) =>
      var nb := NonBlankNames(ns);
      var r := DistinctIgnoreCase(nb);
      forall i | 0 <= i < |r| ensures !IsBlank(r[i]) {
        var k :| 0 <= k < |nb| && nb[k] == r[i];
      }
      forall i | 0 <= i < |ns| && !IsNullOrWhiteSpace(ns[i]) ensures HasIgnoreCase(r, ns[i].value) {
        var k :| 0 <= k < |nb| && nb[k] == ns[i].value;
      }
      r
  }

  /** One `MEVIDENCIAS` row as far as a soft-delete by name is concerned. */
  datatype StoredEvidence = StoredEvidence(
    bitacoraId: Int64,
    ruta: Option<string>,
    miniatura: Option<string>,
    nombre: Option<string>,
    eliminado: bool)

  /** A live row in scope whose name is one of the names. */
  predicate Targeted(e: StoredEvidence, nombres: seq<string>, inScope: Int64 -> bool) {
    inScope(e.bitacoraId) && e.nombre.Some? && e.nombre.value in nombres && !e.eliminado
  }

  /** The (path, thumbnail) pairs of the targeted rows, NULL read as "". */
  function TargetedPaths(table: seq<StoredEvidence>, nombres: seq<string>, inScope: Int64 -> bool): (r: seq<(string, string)>)
    ensures |r| <= |table|
  {
    if table == [] then []
    else
      (if Targeted(table[0], nombres, inScope) then
        [(match table[0].ruta case Some(p) => p case None => "",
          match table[0].miniatura case Some(p) => p case None => "")]
      else [])
      + TargetedPaths(table[1..], nombres, inScope)
  }

  /**
   * `SoftDeleteEvidenciasGeneralesAsync` / `SoftDeleteEvidenciasTareasAsync`:
   * returns the paths of the live rows in scope with one of the normalised
   * names and marks exactly those rows deleted. `inScope` says which
   * bitacora's rows are in reach (the registro itself, or its children).
   * With no name left the table is not touched and the result is empty.
   */
  function SoftDeleteByName(names: Option<seq<Option<string>>>, inScope: Int64 -> bool, table: seq<StoredEvidence>)
    : (r: (seq<(string, string)>, seq<StoredEvidence>))
    ensures NormalizeNames(names) == [] ==> r.0 == [] && r.1 == table
    ensures |r.1| == |table|
    ensures forall i :: 0 <= i < |table| ==>
      r.1[i] == (if Targeted(table[i], NormalizeNames(names), inScope) then table[i].(eliminado := true) else table[i])
    ensures r.0 == TargetedPaths(table, NormalizeNames(names), inScope)
  {
    var nombres := NormalizeNames(names);
    if nombres == [] then
      assert forall i :: 0 <= i < |table| ==> !Targeted(table[i], nombres, inScope);
      EmptyNamesNoPaths(table, inScope);
      ([], table)
    else
      (TargetedPaths(table, nombres, inScope),
       seq(|table|, i requires 0 <= i < |table| =>
         if Targeted(table[i], nombres, inScope) then table[i].(eliminado := true) else table[i]))
  }

  lemma {:induction false} EmptyNamesNoPaths(table: seq<StoredEvidence>, inScope: Int64 -> bool)
    ensures TargetedPaths(table, [], inScope) == []
  {
    if table != [] {
      EmptyNamesNoPaths(table[1..], inScope);
    }
  }
}
