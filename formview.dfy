/**
 * The registro edit form (`RegistroFormView`): how it fills its fields when
 * an existing registro is loaded (priority option, hours and minutes, the
 * attachment list decoded from the `Adjuntos` tokens, the root tasks), how
 * it keeps the root tasks sorted, the hour and minute stepper buttons, the
 * digit filter of the time boxes, and the guards of the task buttons.
 *
 * The form is an object whose fields are the controls' state; the file
 * system (`File.Exists` plus `FileInfo.Length`) is the `fileLength`
 * parameter, and the id and date a new task receives are parameters too.
 */
module FormView {
  import opened Core
  import opened Strings
  import opened Dtos
  import opened Tasks
  import opened Registros
  import opened Repository
  import opened Converters
  import opened StableSort
  import opened TimeBoxes

  // ---------------------------------------------------------------------
  // Attachment tokens
  // ---------------------------------------------------------------------

  /** What the load loop reads out of one token before it builds the item. */
  datatype DecodedToken = DecodedToken(
    thumbnailPath: string,
    originalPath: string,
    sizeKb: Int32,
    nombreArchivo: Option<string>)

  /**
   * A token with at least two '|'-fields: when the second field reads as an
   * `int` the layout is `full|kb|name`, otherwise `mini|full|kb|name`, where
   * a size that does not parse counts as 0. Missing trailing fields leave
   * their defaults.
   */
  function DecodeParts(parts: seq<string>): (d: DecodedToken)
    requires |parts| >= 2
    ensures d.thumbnailPath == parts[0]
    ensures d.originalPath == parts[0] || d.originalPath == parts[1]
    ensures d.nombreArchivo.Some? ==> |parts| >= 3 && d.nombreArchivo.value in parts[2..]
  {
    match TryParseInt(parts[1])
    case Some(s1) =>
      DecodedToken(parts[0], parts[0], s1, if |parts| >= 3 then Some(parts[2]) else None)
    case None =>
      // The token holds a '|', so the source's one-field fallback cannot apply.
      DecodedToken(parts[0], parts[1], if |parts| >= 3 then ParseOrZero(parts[2]) else 0,
                   if |parts| >= 4 then Some(parts[3]) else None)
  }

  /** The decoding step of `LoadRegistro` for one trimmed, non-empty token. */
  function DecodeToken(token: string): (d: DecodedToken)
    ensures '|' !in token ==> d == DecodedToken(token, token, 0, None)
    ensures '|' in token ==> d.thumbnailPath != token && d.originalPath != token
  {
    if '|' !in token then DecodedToken(token, token, 0, None)
    else
      var parts := Split(token, '|');
      SplitOnSeparator(token, '|');
      assert token == Join('|', parts);
      PieceOfJoin(parts, 0);
      PieceOfJoin(parts, 1);
      DecodeParts(parts)
  }

  /** A piece of a join of two or more pieces is shorter than the join. */
  lemma PieceOfJoin(parts: seq<string>, k: nat)
    requires |parts| >= 2 && k < |parts|
    ensures |parts[k]| < |Join('|', parts)|
  {
    if k == 0 {
      assert Join('|', parts) == parts[0] + ['|'] + Join('|', parts[1..]);
    } else if |parts| > 2 {
      PieceOfJoin(parts[1..], k - 1);
    }
  }

  /** `IsHttpUrl`: the path starts with "http://" or "https://", in any case. */
  predicate IsHttpUrl(path: string) {
    StartsWithIgnoreCase(path, "http://") || StartsWithIgnoreCase(path, "https://")
  }

  /** The name the form shows and remembers: the stored name, else the file name of the path. */
  function NameOfToken(d: DecodedToken): string {
    if !IsNullOrWhiteSpace(d.nombreArchivo) then d.nombreArchivo.value else GetFileName(d.originalPath)
  }

  /**
   * The item built for one token: the size is kb×1024 bytes for a positive
   * kb, else the length of a local file that exists, else 0; the shown
   * name falls back to the path itself when blank.
   */
  function AttachmentOfToken(token: string, fileLength: string -> Option<Int64>): (a: AttachmentItem)
    ensures a.fromServer && !a.isImage
    ensures a.filePath == a.originalPath == DecodeToken(token).originalPath
    ensures a.thumbnailPath == DecodeToken(token).thumbnailPath
    ensures DecodeToken(token).sizeKb > 0 ==> a.fileSize == DecodeToken(token).sizeKb * 1024
    ensures DecodeToken(token).sizeKb <= 0 && IsHttpUrl(a.originalPath) ==> a.fileSize == 0
    ensures !IsBlank(a.fileName)
      || (IsBlank(NameOfToken(DecodeToken(token))) && a.fileName == a.originalPath)
  {
    var d := DecodeToken(token);
    var size: Int64 :=
      if d.sizeKb > 0 then d.sizeKb * 1024
      else if !IsHttpUrl(d.originalPath) && fileLength(d.originalPath).Some? then fileLength(d.originalPath).value
      else 0;
    var name := NameOfToken(d);
    AttachmentItem(d.originalPath, if IsBlank(name) then d.originalPath else name,
                   size, d.originalPath, d.thumbnailPath, false, true)
  }

  /** The entries of `Adjuntos.Split(';')` that are not blank, trimmed. */
  function TrimmedEntries(raws: seq<string>): (r: seq<string>)
    ensures |r| <= |raws|
    ensures forall i :: 0 <= i < |r| ==> r[i] != []
  {
    if raws == [] then []
    else
      var t := Trim(raws[|raws| - 1]);
      TrimmedEntries(raws[..|raws| - 1]) + (if t == [] then [] else [t])
  }

  /** The tokens `LoadRegistro` decodes: none for a null or empty `Adjuntos`. */
  function Entries(adjuntos: Option<string>): seq<string> {
    if IsNullOrEmpty(adjuntos) then [] else TrimmedEntries(Split(adjuntos.value, ';'))
  }

  /** One server attachment per token, in order. */
  function ServerAttachments(tokens: seq<string>, fileLength: string -> Option<Int64>): (r: seq<AttachmentItem>)
    ensures |r| == |tokens|
    ensures forall i :: 0 <= i < |tokens| ==> r[i] == AttachmentOfToken(tokens[i], fileLength)
  {
    seq(|tokens|, i requires 0 <= i < |tokens| => AttachmentOfToken(tokens[i], fileLength))
  }

  /** The names remembered as already on the server: the non-blank ones, in order. */
  function ServerNames(tokens: seq<string>): (r: seq<string>)
    ensures |r| <= |tokens|
    ensures forall i :: 0 <= i < |r| ==> !IsBlank(r[i])
  {
    if tokens == [] then []
    else
      var name := NameOfToken(DecodeToken(tokens[|tokens| - 1]));
      ServerNames(tokens[..|tokens| - 1]) + (if IsBlank(name) then [] else [name])
  }

  /**
   * The attachment loop of `LoadRegistro`: split on ';', trim, skip the
   * empty entries, decode the rest, remember non-blank names.
   */
  method DecodeAdjuntos(adjuntos: Option<string>, fileLength: string -> Option<Int64>)
    returns (items: seq<AttachmentItem>, names: seq<string>)
    ensures items == ServerAttachments(Entries(adjuntos), fileLength)
    ensures names == ServerNames(Entries(adjuntos))
  {
    items, names := [], [];
    if IsNullOrEmpty(adjuntos) {
      return;
    }
    var files := Split(adjuntos.value, ';');
    var i := 0;
    ghost var toks: seq<string> := [];
    while i < |files|
      invariant 0 <= i <= |files|
      invariant toks == TrimmedEntries(files[..i])
      invariant items == ServerAttachments(toks, fileLength)
      invariant names == ServerNames(toks)
    {
      var token := Trim(files[i]);
      TrimmedStep(files, i);
      if token != [] {
        items, names := AppendToken(items, names, toks, token, fileLength);
        toks := toks + [token];
      }
      i := i + 1;
    }
    assert files[..i] == files;
  }

  /** The loop's body for one non-empty token: its item, and its name unless blank. */
  method AppendToken(items: seq<AttachmentItem>, names: seq<string>, ghost toks: seq<string>,
                     token: string, fileLength: string -> Option<Int64>)
    returns (items': seq<AttachmentItem>, names': seq<string>)
    requires items == ServerAttachments(toks, fileLength) && names == ServerNames(toks)
    ensures items' == ServerAttachments(toks + [token], fileLength)
    ensures names' == ServerNames(toks + [token])
  {
    var d := DecodeToken(token);
    var name := NameOfToken(d);
    names' := if IsBlank(name) then names else names + [name];
    items' := items + [AttachmentOfToken(token, fileLength)];
    TokenStep(toks, token, fileLength);
  }

  lemma TrimmedStep(files: seq<string>, i: nat)
    requires i < |files|
    ensures TrimmedEntries(files[..i + 1])
         == TrimmedEntries(files[..i]) + (if Trim(files[i]) == [] then [] else [Trim(files[i])])
  {
    assert files[..i + 1][..i] == files[..i];
  }

  /** Decoding one more token appends its item, and its name when that is not blank. */
  lemma TokenStep(toks: seq<string>, t: string, fileLength: string -> Option<Int64>)
    ensures ServerAttachments(toks + [t], fileLength) == ServerAttachments(toks, fileLength) + [AttachmentOfToken(t, fileLength)]
    ensures ServerNames(toks + [t]) == ServerNames(toks)
      + (if IsBlank(NameOfToken(DecodeToken(t))) then [] else [NameOfToken(DecodeToken(t))])
  {
    assert (toks + [t])[..|toks|] == toks;
  }

  // ---------------------------------------------------------------------
  // Reading back the repository's tokens
  // ---------------------------------------------------------------------

  /**
   * Every token the repository builds decodes to the row it came from: the
   * thumbnail (or only) path, the full (or only) path, the size when
   * positive, and the name when one was stored.
   */
  lemma DecodeRoundTrip(row: EvidenceRow)
    requires HasPath(row) && Avoids(row, '|') && FullNotNumber(row)
    ensures DecodeToken(TokenOf(row).value) == DecodedToken(
      PathFields(row)[0], LastPath(row), if row.pesoKb > 0 then row.pesoKb else 0,
      if IsNullOrWhiteSpace(row.nombre) then None else row.nombre)
  {
    TokenLayout(row);
    var f := Fields(row);
    if |f| >= 2 {
      DecodeOfSplit(TokenOf(row).value, f);
      if |PathFields(row)| == 1 {
        DecodeOnePath(row);
      } else {
        DecodeTwoPaths(row);
      }
    }
  }

  lemma DecodeOfSplit(t: string, f: seq<string>)
    requires '|' in t && Split(t, '|') == f
    ensures |f| >= 2 && DecodeToken(t) == DecodeParts(f)
  {
    SplitOnSeparator(t, '|');
  }

  /** The field after the paths, when there is one, reads as the size or as 0. */
  lemma TailFirstParses(row: EvidenceRow)
    requires TailFields(row) != []
    ensures TryParseInt(TailFields(row)[0]) == Some(if row.pesoKb > 0 then row.pesoKb else 0)
  {
    if row.pesoKb > 0 {
      ParseIntTextInt32(row.pesoKb);
    } else {
      ParseIntTextInt32(0);
      assert TailFields(row)[0] == "0" == IntText(0);
    }
  }

  lemma DecodeOnePath(row: EvidenceRow)
    requires HasPath(row) && |PathFields(row)| == 1 && |Fields(row)| >= 2
    ensures DecodeParts(Fields(row)) == DecodedToken(
      PathFields(row)[0], LastPath(row), if row.pesoKb > 0 then row.pesoKb else 0,
      if IsNullOrWhiteSpace(row.nombre) then None else row.nombre)
  {
    var f := Fields(row);
    assert f[1] == TailFields(row)[0];
    TailFirstParses(row);
    assert |f| >= 3 <==> !IsNullOrWhiteSpace(row.nombre);
    if |f| >= 3 {
      assert f[2] == row.nombre.value;
    }
  }

  lemma DecodeTwoPaths(row: EvidenceRow)
    requires HasPath(row) && |PathFields(row)| == 2 && FullNotNumber(row)
    ensures DecodeParts(Fields(row)) == DecodedToken(
      PathFields(row)[0], LastPath(row), if row.pesoKb > 0 then row.pesoKb else 0,
      if IsNullOrWhiteSpace(row.nombre) then None else row.nombre)
  {
    var f := Fields(row);
    assert f[1] == PathFields(row)[1];
    if |f| >= 3 {
      assert f[2] == TailFields(row)[0];
      TailFirstParses(row);
    } else {
      assert TailFields(row) == [];
    }
    assert |f| >= 4 <==> !IsNullOrWhiteSpace(row.nombre);
    if |f| >= 4 {
      assert f[3] == row.nombre.value;
    }
  }

  /**
   * The item loaded from a repository token carries the row's full (or
   * only) path and thumbnail, its positive size as bytes, and its stored
   * name.
   */
  lemma AttachmentRoundTrip(row: EvidenceRow, fileLength: string -> Option<Int64>)
    requires HasPath(row) && Avoids(row, '|') && FullNotNumber(row)
    ensures var a := AttachmentOfToken(TokenOf(row).value, fileLength);
      && a.filePath == a.originalPath == LastPath(row)
      && a.thumbnailPath == PathFields(row)[0]
      && a.fromServer
      && (row.pesoKb > 0 ==> a.fileSize == row.pesoKb * 1024)
      && (!IsNullOrWhiteSpace(row.nombre) ==> a.fileName == row.nombre.value)
  {
    DecodeRoundTrip(row);
  }

  /** A row the form reads back whole: a path, no separator in its texts, a token without padding. */
  predicate Readable(row: EvidenceRow) {
    HasPath(row) && Avoids(row, '|') && Avoids(row, ';') && FullNotNumber(row)
    && Trim(TokenOf(row).value) == TokenOf(row).value
  }

  /**
   * Loading the `Adjuntos` text the repository builds from readable rows
   * gives back one server item per row, in row order.
   */
  lemma LoadRoundTrip(rows: seq<EvidenceRow>, fileLength: string -> Option<Int64>)
    requires forall i :: 0 <= i < |rows| ==> HasPath(rows[i])
    requires forall i :: 0 <= i < |rows| ==> Readable(rows[i])
    ensures |ServerAttachments(Entries(AdjuntosString(rows)), fileLength)| == |rows|
    ensures forall i :: 0 <= i < |rows| ==>
      ServerAttachments(Entries(AdjuntosString(rows)), fileLength)[i]
        == AttachmentOfToken(TokenOf(rows[i]).value, fileLength)
  {
    EntriesOfTokens(rows);
  }

  lemma EntriesOfTokens(rows: seq<EvidenceRow>)
    requires forall i :: 0 <= i < |rows| ==> HasPath(rows[i])
    requires forall i :: 0 <= i < |rows| ==> Readable(rows[i])
    ensures Entries(AdjuntosString(rows)) == Tokens(rows)
    ensures |Tokens(rows)| == |rows|
    ensures forall i :: 0 <= i < |rows| ==> Tokens(rows)[i] == TokenOf(rows[i]).value
  {
    AllTokens(rows);
    var toks := Tokens(rows);
    if toks != [] {
      forall i | 0 <= i < |toks|
        ensures toks[i] != [] && Trim(toks[i]) == toks[i] && ';' !in toks[i]
      {
        TokenAvoids(rows[i], ';');
      }
      EntriesOfJoin(toks);
    }
  }

  /** Joining trimmed, non-empty, ';'-free tokens with ';' and loading the text gives the tokens back. */
  lemma EntriesOfJoin(toks: seq<string>)
    requires toks != []
    requires forall i :: 0 <= i < |toks| ==> toks[i] != [] && Trim(toks[i]) == toks[i] && ';' !in toks[i]
    ensures Entries(Some(Join(';', toks))) == toks
  {
    SplitJoin(';', toks);
    JoinStartsWithFirst(';', toks);
    TrimmedEntriesKeep(toks);
  }

  /** With a path in every row, there is one token per row. */
  lemma {:induction false} AllTokens(rows: seq<EvidenceRow>)
    requires forall i :: 0 <= i < |rows| ==> HasPath(rows[i])
    ensures |Tokens(rows)| == |rows|
    ensures forall i :: 0 <= i < |rows| ==> Some(Tokens(rows)[i]) == TokenOf(rows[i])
  {
    if rows != [] {
      var front := rows[..|rows| - 1];
      AllTokens(front);
      TokensSnoc(rows);
      forall i | 0 <= i < |rows|
        ensures Some(Tokens(rows)[i]) == TokenOf(rows[i])
      {
        TokenAt(rows, i);
      }
    }
  }

  /** The token at a position of the snoc'd list is the front's, or the last row's. */
  lemma TokenAt(rows: seq<EvidenceRow>, i: nat)
    requires rows != [] && HasPath(rows[|rows| - 1]) && i < |rows|
    requires |Tokens(rows[..|rows| - 1])| == |rows| - 1
    requires i < |rows| - 1 ==> Some(Tokens(rows[..|rows| - 1])[i]) == TokenOf(rows[..|rows| - 1][i])
    ensures |Tokens(rows)| == |rows| && Some(Tokens(rows)[i]) == TokenOf(rows[i])
  {
    var front, last := rows[..|rows| - 1], rows[|rows| - 1];
    TokensSnoc(rows);
    var toks := Tokens(rows);
    assert toks == Tokens(front) + [TokenOf(last).value];
    if i < |front| {
      assert front[i] == rows[i];
      assert toks[i] == Tokens(front)[i];
    } else {
      assert toks[i] == TokenOf(last).value;
    }
  }

  lemma TokensSnoc(rows: seq<EvidenceRow>)
    requires rows != [] && HasPath(rows[|rows| - 1])
    ensures Tokens(rows) == Tokens(rows[..|rows| - 1]) + [TokenOf(rows[|rows| - 1]).value]
  {
  }

  /** A token holds no character that the row's texts avoid, other than the field separator or a digit. */
  lemma TokenAvoids(row: EvidenceRow, c: char)
    requires HasPath(row) && Avoids(row, c) && c != '|' && !IsDigit(c)
    ensures c !in TokenOf(row).value
  {
    FieldsAvoid(row, c);
    JoinAvoids('|', Fields(row), c);
  }

  /** Trimmed, non-empty entries pass through the trimming unchanged. */
  lemma {:induction false} TrimmedEntriesKeep(toks: seq<string>)
    requires forall i :: 0 <= i < |toks| ==> toks[i] != [] && Trim(toks[i]) == toks[i]
    ensures TrimmedEntries(toks) == toks
  {
    if toks != [] {
      TrimmedEntriesKeep(toks[..|toks| - 1]);
      assert toks == toks[..|toks| - 1] + [toks[|toks| - 1]];
    }
  }

  /** Every entry that is not blank yields exactly one item, marked as coming from the server. */
  lemma {:induction false} OneItemPerEntry(raws: seq<string>, fileLength: string -> Option<Int64>)
    ensures |ServerAttachments(TrimmedEntries(raws), fileLength)| == NonBlankCount(raws)
    ensures forall a :: a in ServerAttachments(TrimmedEntries(raws), fileLength) ==> a.fromServer
  {
    if raws != [] {
      OneItemPerEntry(raws[..|raws| - 1], fileLength);
      TrimEmptyIffAll(raws[|raws| - 1], IsWhiteSpace);
    }
  }

  /** How many entries are not blank. */
  function NonBlankCount(raws: seq<string>): nat {
    if raws == [] then 0
    else NonBlankCount(raws[..|raws| - 1]) + (if IsBlank(raws[|raws| - 1]) then 0 else 1)
  }

  // ---------------------------------------------------------------------
  // Priority and time fields
  // ---------------------------------------------------------------------

  /** The four priority radio buttons. */
  datatype PrioridadOpcion = Critica | Alta | Normal | Menor

  /** The button `LoadRegistro` checks for a stored, non-empty priority. */
  function PrioridadRadio(p: string): PrioridadOpcion {
    var k := ToLower(Trim(p));
    if k == "critica" then Critica
    else if k == "alta" then Alta
    else if k == "menor" then Menor
    else Normal
  }

  /**
   * The button the form checks agrees with the level the assignment list
   * orders by: Critica is level 4, Alta 3, Menor 1, and a priority whose
   * level is 2 or 0 shows as Normal.
   */
  lemma PrioridadRadioLevel(p: string)
    ensures PrioridadRadio(p) == Critica ==> PrioridadNivel(Some(p)) == 4
    ensures PrioridadRadio(p) == Alta ==> PrioridadNivel(Some(p)) == 3
    ensures PrioridadRadio(p) == Menor ==> PrioridadNivel(Some(p)) == 1
    ensures PrioridadNivel(Some(p)) == 2 || PrioridadNivel(Some(p)) == 0 ==> PrioridadRadio(p) == Normal
  {
    var t := Trim(p);
    UpperOfLower(t);
    assert PrioridadNorm(Some(p)) == ToUpper(ToLower(t));
    var k := ToLower(t);
    if k == "critica" {
      CriticaLevel(p, ToUpper(k));
    } else if k == "alta" {
      AltaLevel(p, ToUpper(k));
    } else if k == "menor" {
      MenorLevel(p, ToUpper(k));
    }
  }

  lemma CriticaLevel(p: string, w: string)
    requires PrioridadNorm(Some(p)) == w && w == ToUpper("critica")
    ensures PrioridadNivel(Some(p)) == 4
  {
    assert w == "CRITICA";
    assert StartsWith(w, "CRI");
  }

  lemma AltaLevel(p: string, w: string)
    requires PrioridadNorm(Some(p)) == w && w == ToUpper("alta")
    ensures PrioridadNivel(Some(p)) == 3
  {
    assert w == "ALTA";
    assert StartsWith(w, "ALT");
    NotContainsChar(w, "CRIT", 0);
    NotContainsChar(w, "CRI", 0);
  }

  lemma MenorLevel(p: string, w: string)
    requires PrioridadNorm(Some(p)) == w && w == ToUpper("menor")
    ensures PrioridadNivel(Some(p)) == 1
  {
    assert w == "MENOR";
    MenorWords(w);
  }

  /** Which of the level words "MENOR" holds: only MEN. */
  lemma MenorWords(w: string)
    requires w == "MENOR"
    ensures Contains(w, "MEN")
    ensures !Contains(w, "CRIT") && !Contains(w, "CRI")
    ensures !Contains(w, "ALT") && !Contains(w, "HIGH") && !Contains(w, "URG")
    ensures !Contains(w, "NORM") && !Contains(w, "MED")
  {
    assert StartsWith(w, "MEN");
    NotContainsChar(w, "CRIT", 0);
    NotContainsChar(w, "CRI", 0);
    NotContainsChar(w, "ALT", 0);
    NotContainsChar(w, "HIGH", 0);
    NotContainsChar(w, "URG", 0);
    NotContainsChar(w, "MED", 2);
    assert !StartsWith(w, "NORM");
    assert w[1..] == "ENOR" && !StartsWith("ENOR", "NORM");
    assert w[1..][1..] == "NOR";
    ShortNotContains("NOR", "NORM");
  }

  /** A string with a character of `sub` missing does not contain `sub`. */
  lemma {:induction false} NotContainsChar(s: string, sub: string, j: nat)
    requires j < |sub| && sub[j] !in s
    ensures !Contains(s, sub)
  {
    if s != [] {
      NotContainsChar(s[1..], sub, j);
    }
  }

  /** A string shorter than `sub` does not contain it. */
  lemma {:induction false} ShortNotContains(s: string, sub: string)
    requires |s| < |sub|
    ensures !Contains(s, sub)
  {
    if s != [] {
      ShortNotContains(s[1..], sub);
    }
  }

  /** Upper-casing forgets an earlier lower-casing. */
  lemma UpperOfLower(s: string)
    ensures ToUpper(ToLower(s)) == ToUpper(s)
  {
    assert forall i :: 0 <= i < |s| ==> UpperChar(LowerChar(s[i])) == UpperChar(s[i]);
  }

  /** `LoadRegistro`'s split of the estimate: whole hours, then whole minutes past them. */
  function TimeFieldsOf(est: Int32): TimeText {
    TimeText(IntText(Horas(est)), IntText(Minutos(est)))
  }

  /**
   * The split of a non-negative estimate is in range and reads back as the
   * estimate's whole minutes, so saving the boxes drops only the seconds.
   */
  lemma TimeFieldsReadBack(est: Int32)
    requires est >= 0
    ensures InRange(TimeFieldsOf(est))
    ensures TotalMinutes(TimeFieldsOf(est)) == Some(est / 60)
  {
    SplitBounds(est);
    ParseIntTextInt32(Horas(est));
    ParseIntTextInt32(Minutos(est));
    WholeMinutes(est);
  }

  /** Whole hours and the minutes past them count the estimate's whole minutes. */
  lemma WholeMinutes(est: int)
    requires est >= 0
    ensures Horas(est) * 60 + Minutos(est) == est / 60
  {
    var h := est / 3600;
    var r := est % 3600;
    assert Horas(est) == h && Minutos(est) == r / 60;
    assert est == (h * 60) * 60 + r;
    assert est / 60 == h * 60 + r / 60;
  }
  // ---------------------------------------------------------------------
  // The task tree
  // ---------------------------------------------------------------------

  /** `GetAllTasks`: every task of the forest, each followed by its own sub-tasks (pre-order). */
  function AllTasks(roots: seq<Tarea>): (r: seq<Tarea>)
    ensures |r| >= |roots|
    decreases roots
  {
    if roots == [] then []
    else [roots[0]] + AllTasks(roots[0].subtareas) + AllTasks(roots[1..])
  }

  /** `x` is `t` or lies somewhere below it. */
  predicate InTree(x: Tarea, t: Tarea)
    decreases t, 1
  {
    x == t || InForest(x, t.subtareas)
  }

  /** `x` lies in one of the trees. */
  predicate InForest(x: Tarea, roots: seq<Tarea>)
    decreases roots, 0
  {
    exists i :: 0 <= i < |roots| && InTree(x, roots[i])
  }

  /** `GetAllTasks` yields exactly the tasks of the forest. */
  lemma {:induction false} AllTasksMembers(x: Tarea, roots: seq<Tarea>)
    ensures x in AllTasks(roots) <==> InForest(x, roots)
    decreases roots
  {
    if roots != [] {
      var head, rest := roots[0], roots[1..];
      AllTasksMembers(x, head.subtareas);
      AllTasksMembers(x, rest);
      assert x in AllTasks(roots) <==> InTree(x, head) || InForest(x, rest);
      if InForest(x, rest) {
        var i :| 0 <= i < |rest| && InTree(x, rest[i]);
        assert InTree(x, roots[i + 1]);
      }
      if InForest(x, roots) && !InTree(x, head) {
        var i :| 0 <= i < |roots| && InTree(x, roots[i]);
        assert InTree(x, rest[i - 1]);
      }
    }
  }

  /** The tasks of two forests side by side are those of the first, then those of the second. */
  lemma {:induction false} AllTasksConcat(a: seq<Tarea>, b: seq<Tarea>)
    ensures AllTasks(a + b) == AllTasks(a) + AllTasks(b)
  {
    if a == [] {
      assert a + b == b;
    } else {
      var ab := a + b;
      assert ab[0] == a[0] && ab[1..] == a[1..] + b;
      AllTasksConcat(a[1..], b);
      var x, y, z, w := [a[0]], AllTasks(a[0].subtareas), AllTasks(a[1..]), AllTasks(b);
      assert AllTasks(ab) == x + y + (z + w);
      assert AllTasks(a) == x + y + z;
      assert x + y + (z + w) == (x + y + z) + w;
    }
  }

  /** Every task sits at a level no deeper than `n`, all the way down. */
  predicate LevelsAtMost(t: Tarea, n: int)
    decreases t
  {
    t.nivel <= n && forall i :: 0 <= i < |t.subtareas| ==> LevelsAtMost(t.subtareas[i], n)
  }

  /**
   * `AddSubtask_Click`: refused on a task at level 2 or deeper; otherwise
   * a new removable task one level down is added and the task expanded.
   */
  function AddSubtaskClick(t: Tarea, id: string, today: DateTime): (r: Tarea)
    ensures t.nivel >= 2 ==> r == t
    ensures t.nivel < 2 ==> |r.subtareas| == |t.subtareas| + 1 && r.isExpanded && r.nivel == t.nivel
  {
    if t.nivel >= 2 then t
    else AddSubtarea(t, NewTarea(id, today).(nivel := t.nivel + 1)).(isExpanded := true)
  }

  /**
   * With consistent levels, the guard keeps every task at level 2 or less:
   * the form builds at most three levels.
   */
  lemma AddSubtaskKeepsDepth(t: Tarea, id: string, today: DateTime)
    requires LevelsConsistent(t) && LevelsAtMost(t, 2) && t.nivel >= 0
    ensures LevelsConsistent(AddSubtaskClick(t, id, today)) && LevelsAtMost(AddSubtaskClick(t, id, today), 2)
  {
    if t.nivel < 2 {
      var child := NewTarea(id, today).(nivel := t.nivel + 1);
      var added := AddSubtarea(t, child);
      AddLeafKeepsLevels(t, child);
      AddedAtMost(t, child, 2);
      assert AddSubtaskClick(t, id, today) == added.(isExpanded := true);
    }
  }

  /** Adding a leaf one level below a parent at level 1 or less keeps every level within `n`. */
  lemma AddedAtMost(parent: Tarea, child: Tarea, n: int)
    requires LevelsAtMost(parent, n) && child.subtareas == [] && parent.nivel < n
    ensures LevelsAtMost(AddSubtarea(parent, child), n)
  {
    var r := AddSubtarea(parent, child);
    var c := AsChildOf(parent, child);
    forall j | 0 <= j < |r.subtareas|
      ensures LevelsAtMost(r.subtareas[j], n)
    {
      var x := r.subtareas[j];
      assert Unflagged(x) in multiset(MapSeq(Unflagged, r.subtareas)) by {
        assert MapSeq(Unflagged, r.subtareas)[j] == Unflagged(x);
      }
      AtMostIgnoresFlags(x, n);
      if Unflagged(x) == Unflagged(c) {
        AtMostIgnoresFlags(c, n);
      } else {
        assert Unflagged(x) in multiset(MapSeq(Unflagged, parent.subtareas));
        var k :| 0 <= k < |parent.subtareas| && MapSeq(Unflagged, parent.subtareas)[k] == Unflagged(x);
        AtMostIgnoresFlags(parent.subtareas[k], n);
      }
    }
  }

  lemma AtMostIgnoresFlags(t: Tarea, n: int)
    ensures LevelsAtMost(t, n) <==> LevelsAtMost(Unflagged(t), n)
  {
  }

  /** `DeleteTask_Click` on a sub-task: a task that is not removable stays. */
  function DeleteSubtaskClick(parent: Tarea, i: nat): (r: Tarea)
    requires i < |parent.subtareas|
  {
    if !parent.subtareas[i].isRemovable then parent else RemoveSubtarea(parent, i)
  }

  /** `DeleteTask_Click` on a root task: removed and the roots re-sorted, unless it is not removable. */
  function DeleteRoot(roots: seq<Tarea>, i: nat): (r: seq<Tarea>)
    requires i < |roots|
  {
    if !roots[i].isRemovable then roots else SortedSiblings(roots[..i] + roots[i + 1..])
  }

  /** Sorting the roots keeps their number and, flags aside, the tasks themselves. */
  lemma SortKeepsTasks(s: seq<Tarea>)
    ensures |SortedSiblings(s)| == |s|
    ensures multiset(MapSeq(Unflagged, SortedSiblings(s))) == multiset(MapSeq(Unflagged, s))
  {
    SortedSiblingsSpec(s, []);
  }

  /** A task that is not removable survives the delete button, among the roots or the sub-tasks. */
  lemma DeleteKeepsFixed(roots: seq<Tarea>, i: nat, j: nat)
    requires i < |roots| && j < |roots| && !roots[j].isRemovable
    ensures Unflagged(roots[j]) in multiset(MapSeq(Unflagged, DeleteRoot(roots, i)))
    ensures |DeleteRoot(roots, i)| == if roots[i].isRemovable then |roots| - 1 else |roots|
  {
    assert MapSeq(Unflagged, roots)[j] == Unflagged(roots[j]);
    if roots[i].isRemovable {
      var rest := roots[..i] + roots[i + 1..];
      SortKeepsTasks(rest);
      RemoveAtUnflagged(roots, i);
      assert Unflagged(roots[j]) != Unflagged(roots[i]) by {
        assert Unflagged(roots[j]).isRemovable != Unflagged(roots[i]).isRemovable;
      }
      StaysAfterRemoval(Unflagged(roots[j]), Unflagged(roots[i]),
        multiset(MapSeq(Unflagged, rest)), multiset(MapSeq(Unflagged, roots)));
    }
  }

  /** Taking one element out of a bag keeps every other element in it. */
  lemma StaysAfterRemoval(x: Tarea, y: Tarea, a: multiset<Tarea>, b: multiset<Tarea>)
    requires x in b && b == a + multiset{y} && x != y
    ensures x in a
  {
    assert b[x] == a[x] + multiset{y}[x];
  }

  lemma DeleteSubtaskKeepsFixed(parent: Tarea, i: nat, j: nat)
    requires i < |parent.subtareas| && j < |parent.subtareas| && !parent.subtareas[j].isRemovable
    ensures Unflagged(parent.subtareas[j]) in multiset(MapSeq(Unflagged, DeleteSubtaskClick(parent, i).subtareas))
  {
    assert MapSeq(Unflagged, parent.subtareas)[j] == Unflagged(parent.subtareas[j]);
    if parent.subtareas[i].isRemovable {
      var x, y := Unflagged(parent.subtareas[j]), Unflagged(parent.subtareas[i]);
      assert x != y by {
        assert x.isRemovable != y.isRemovable;
      }
      var r := RemoveSubtarea(parent, i);
      assert x in multiset(MapSeq(Unflagged, r.subtareas)) + multiset{y};
    }
  }

  /** `AddTask_Click`: a new removable task joins the roots, which are re-sorted. */
  function AddRoot(roots: seq<Tarea>, id: string, today: DateTime): seq<Tarea> {
    SortedSiblings(roots + [NewTarea(id, today)])
  }

  lemma AddRootKeeps(roots: seq<Tarea>, id: string, today: DateTime)
    ensures |AddRoot(roots, id, today)| == |roots| + 1
    ensures multiset(MapSeq(Unflagged, AddRoot(roots, id, today)))
         == multiset(MapSeq(Unflagged, roots)) + multiset{Unflagged(NewTarea(id, today))}
  {
    SortKeepsTasks(roots + [NewTarea(id, today)]);
    MapSeqAppend(Unflagged, roots, NewTarea(id, today));
  }

  /**
   * The root tasks right after loading: the loaded ones with the first made
   * non-removable, or a single non-removable blank task when none was loaded.
   */
  function InitialTasks(loaded: seq<Tarea>, id: string, today: DateTime): (r: seq<Tarea>)
    ensures |r| >= 1 && !r[0].isRemovable
  {
    if |loaded| > 0 then loaded[0 := loaded[0].(isRemovable := false)]
    else [NewTarea(id, today).(isRemovable := false)]
  }

  /**
   * After loading, the roots are sorted by start, flagged at the ends, hold
   * the loaded tasks (or the one default task), and one of them cannot be
   * removed.
   */
  lemma LoadedTasks(loaded: seq<Tarea>, id: string, today: DateTime)
    ensures var r := SortedSiblings(InitialTasks(loaded, id, today));
      && |r| == (if loaded == [] then 1 else |loaded|)
      && SortedBy(r, StartKey)
      && multiset(MapSeq(Unflagged, r)) == multiset(MapSeq(Unflagged, InitialTasks(loaded, id, today)))
      && (exists j :: 0 <= j < |r| && !r[j].isRemovable)
      && (loaded == [] ==> r[0].descripcion == "" && r[0].isFirstChild && r[0].isLastChild)
  {
    var init := InitialTasks(loaded, id, today);
    var r := SortedSiblings(init);
    SortedSiblingsSpec(init, []);
    assert MapSeq(Unflagged, init)[0] == Unflagged(init[0]);
    assert Unflagged(init[0]) in multiset(MapSeq(Unflagged, r));
    var j :| 0 <= j < |r| && MapSeq(Unflagged, r)[j] == Unflagged(init[0]);
    assert !r[j].isRemovable;
  }

  // ---------------------------------------------------------------------
  // The form
  // ---------------------------------------------------------------------

  /** The state of the controls `LoadRegistro`, the task buttons and the steppers write. */
  class RegistroForm {
    var horasText: string
    var minutosText: string
    var prioridad: Option<PrioridadOpcion>
    var adjuntos: seq<AttachmentItem>
    var serverNames: seq<string>
    var serverAttachmentSizeBytes: Int64
    var tareas: seq<Tarea>

    /**
     * A blank form: no option checked, no attachment, and the one default
     * task that cannot be removed. `id` and `today` are what that task receives.
     */
    constructor (id: string, today: DateTime)
      ensures horasText == "" && minutosText == "" && prioridad.None?
      ensures adjuntos == [] && serverNames == [] && serverAttachmentSizeBytes == 0
      ensures tareas == SortedSiblings(InitialTasks([], id, today))
    {
      horasText, minutosText := "", "";
      prioridad := None;
      adjuntos, serverNames := [], [];
      serverAttachmentSizeBytes := 0;
      tareas := SortedSiblings(InitialTasks([], id, today));
    }

    /**
     * `LoadRegistro`, for the fields modelled: the server attachment total,
     * the priority option (left alone when the registro has none), the two
     * time boxes, the decoded attachments and the remembered names, and
     * the root tasks. `newId` and `today` are what a default task receives.
     */
    method LoadRegistro(r: Registro, newId: string, today: DateTime, fileLength: string -> Option<Int64>)
      modifies this
      ensures serverAttachmentSizeBytes == if r.totalPesoAdjuntosKb > 0 then r.totalPesoAdjuntosKb * 1024 else 0
      ensures prioridad == if IsNullOrEmpty(r.prioridad) then old(prioridad) else Some(PrioridadRadio(r.prioridad.value))
      ensures TimeText(horasText, minutosText) == TimeFieldsOf(r.tiempoEstimado)
      ensures adjuntos == ServerAttachments(Entries(r.adjuntos), fileLength)
      ensures serverNames == ServerNames(Entries(r.adjuntos))
      ensures tareas == SortedSiblings(InitialTasks(r.tareas, newId, today))
    {
      serverAttachmentSizeBytes := if r.totalPesoAdjuntosKb > 0 then r.totalPesoAdjuntosKb * 1024 else 0;
      serverNames := [];
      LoadPrioridad(r.prioridad);
      horasText := IntText(Horas(r.tiempoEstimado));
      minutosText := IntText(Minutos(r.tiempoEstimado));
      adjuntos := [];
      var items, names := DecodeAdjuntos(r.adjuntos, fileLength);
      adjuntos := items;
      serverNames := serverNames + names;
      LoadTareas(r.tareas, newId, today);
    }

    /** The priority part of `LoadRegistro`: the matching option is checked, none when the text is null or empty. */
    method LoadPrioridad(p: Option<string>)
      modifies this`prioridad
      ensures prioridad == if IsNullOrEmpty(p) then old(prioridad) else Some(PrioridadRadio(p.value))
    {
      if !IsNullOrEmpty(p) {
        prioridad := Some(PrioridadRadio(p.value));
      }
    }

    /** The task part of `LoadRegistro`: copy the loaded roots, fix the first (or add a default), sort. */
    method LoadTareas(loaded: seq<Tarea>, newId: string, today: DateTime)
      modifies this`tareas
      ensures tareas == SortedSiblings(InitialTasks(loaded, newId, today))
    {
      tareas := [];
      if |loaded| > 0 {
        var k := 0;
        while k < |loaded|
          invariant 0 <= k <= |loaded| && tareas == loaded[..k]
        {
          tareas := tareas + [loaded[k]];
          k := k + 1;
        }
        assert tareas == loaded;
        tareas := tareas[0 := tareas[0].(isRemovable := false)];
      } else {
        tareas := [NewTarea(newId, today).(isRemovable := false)];
      }
      SortRootTasks();
    }

    /** `SortRootTasks`: the roots in stable start order, flagged at the two ends. */
    method SortRootTasks()
      modifies this`tareas
      ensures tareas == SortedSiblings(old(tareas))
    {
      tareas := SortSiblings(tareas);
    }

    /** `AddTask_Click`. */
    method AddTask(id: string, today: DateTime)
      modifies this`tareas
      ensures tareas == AddRoot(old(tareas), id, today)
    {
      tareas := tareas + [NewTarea(id, today)];
      SortRootTasks();
    }

    /** `DeleteTask_Click` on the root at `i`. */
    method DeleteTask(i: nat)
      requires i < |tareas|
      modifies this`tareas
      ensures tareas == DeleteRoot(old(tareas), i)
    {
      if !tareas[i].isRemovable {
        return;
      }
      tareas := tareas[..i] + tareas[i + 1..];
      SortRootTasks();
    }

    /** `BtnIncreaseHours_Click`. */
    method IncreaseHours()
      modifies this`horasText
      ensures horasText == HoursUp(old(horasText))
    {
      var h := TryParseInt(horasText);
      if h.Some? {
        horasText := IntText(Step32(h.value, 1));
      } else {
        horasText := "1";
      }
    }

    /** `BtnDecreaseHours_Click`. */
    method DecreaseHours()
      modifies this`horasText
      ensures horasText == HoursDown(old(horasText))
    {
      var h := TryParseInt(horasText);
      if h.Some? && h.value > 0 {
        horasText := IntText(h.value - 1);
      } else {
        horasText := "0";
      }
    }

    /** `BtnIncreaseMinutes_Click`: the carry goes through the hour button. */
    method IncreaseMinutes()
      modifies this`horasText, this`minutosText
      ensures TimeText(horasText, minutosText) == MinutesUp(old(TimeText(horasText, minutosText)))
    {
      var p := TryParseInt(minutosText);
      if p.Some? {
        var m := Step32(p.value, 15);
        if m >= 60 {
          m := m - 60;
          IncreaseHours();
        }
        minutosText := IntText(m);
      } else {
        minutosText := "15";
      }
    }

    /** `BtnDecreaseMinutes_Click`: the borrow goes through the hour button. */
    method DecreaseMinutes()
      modifies this`horasText, this`minutosText
      ensures TimeText(horasText, minutosText) == MinutesDown(old(TimeText(horasText, minutosText)))
    {
      var p := TryParseInt(minutosText);
      if p.Some? {
        var m := Step32(p.value, -15);
        if m < 0 {
          var h := TryParseInt(horasText);
          if h.Some? && h.value > 0 {
            DecreaseHours();
            m := m + 60;
          } else {
            m := 0;
          }
        }
        minutosText := IntText(m);
      } else {
        minutosText := "0";
      }
    }
  }
}
