/**
 * A task of a registro (`TareaRegistro`) and its sub-tasks.
 *
 * The client keeps tasks as mutable objects with a parent back-reference;
 * here a task is a value and its sub-tasks are the values it holds, so the
 * parent of a task is the task whose `subtareas` contain it. A property
 * setter becomes a function from the old task to the new one, and the
 * cascades the setters trigger (the date drag, the sync of the attachment
 * list, the sort and roll-up after a change of the children) are spelled
 * out inside that function.
 */
module Tasks {
  import opened Core
  import opened Strings
  import opened Dtos
  import opened StableSort

  datatype Tarea = Tarea(
    id: string,
    descripcion: string,
    completada: bool,
    archivosAdjuntos: Option<string>,
    archivosList: seq<AttachmentItem>,
    adjuntosEliminados: seq<string>,
    tiempoEstimado: Int32,
    tiempoTranscurrido: Int32,
    fechaInicio: Option<DateTime>,
    fechaFin: Option<DateTime>,
    subtareas: seq<Tarea>,
    isSubtask: bool,
    nivel: Int32,
    isRemovable: bool,
    isExpanded: bool,
    isLastChild: bool,
    isFirstChild: bool)

  /** A new task: both dates are today, removable and expanded, at level 0. */
  function NewTarea(id: string, today: DateTime): (t: Tarea)
    ensures t.fechaInicio == t.fechaFin == Some(today) && DatesOrdered(t)
    ensures t.subtareas == [] && t.archivosList == [] && t.archivosAdjuntos.None?
    ensures t.isRemovable && t.isExpanded && !t.isSubtask && t.nivel == 0
  {
    Tarea(id, "", false, None, [], [], 0, 0, Some(today), Some(today), [],
          false, 0, true, true, false, false)
  }

  // ---------------------------------------------------------------------
  // Dates
  // ---------------------------------------------------------------------

  /** When both dates are set the start is not after the end. */
  predicate DatesOrdered(t: Tarea) {
    t.fechaInicio.Some? && t.fechaFin.Some? ==> t.fechaInicio.value <= t.fechaFin.value
  }

  /**
   * The `FechaInicio` setter. Assigning a start later than the end drags the
   * end along (through the `FechaFin` setter, whose own check then finds the
   * dates equal and stops).
   */
  function SetFechaInicio(t: Tarea, v: Option<DateTime>): (r: Tarea)
    ensures r.fechaInicio == v
    ensures r == t.(fechaInicio := v, fechaFin := r.fechaFin)
    // the end only ever moves forward, and only onto the new start
    ensures r.fechaFin != t.fechaFin ==>
      r.fechaFin == v && v.Some? && t.fechaFin.Some? && t.fechaFin.value < v.value
    // any real change leaves the dates ordered; assigning the same value keeps them as they were
    ensures DatesOrdered(r) <==> (t.fechaInicio != v || DatesOrdered(t))
  {
    if t.fechaInicio == v then t
    else if v.Some? && t.fechaFin.Some? && v.value > t.fechaFin.value then t.(fechaInicio := v, fechaFin := v)
    else t.(fechaInicio := v)
  }

  /** The `FechaFin` setter. An end earlier than the start drags the start back. */
  function SetFechaFin(t: Tarea, v: Option<DateTime>): (r: Tarea)
    ensures r.fechaFin == v
    ensures r == t.(fechaFin := v, fechaInicio := r.fechaInicio)
    ensures r.fechaInicio != t.fechaInicio ==>
      r.fechaInicio == v && v.Some? && t.fechaInicio.Some? && v.value < t.fechaInicio.value
    ensures DatesOrdered(r) <==> (t.fechaFin != v || DatesOrdered(t))
  {
    if t.fechaFin == v then t
    else if v.Some? && t.fechaInicio.Some? && v.value < t.fechaInicio.value then t.(fechaFin := v, fechaInicio := v)
    else t.(fechaFin := v)
  }

  /** Setting the start and then the end (or the other way round) to an ordered pair yields exactly that pair. */
  lemma SetBothDates(t: Tarea, s: DateTime, e: DateTime)
    requires s <= e
    ensures SetFechaFin(SetFechaInicio(t, Some(s)), Some(e)).fechaInicio == Some(s)
    ensures SetFechaFin(SetFechaInicio(t, Some(s)), Some(e)).fechaFin == Some(e)
    ensures SetFechaInicio(SetFechaFin(t, Some(e)), Some(s)).fechaInicio == Some(s)
    ensures SetFechaInicio(SetFechaFin(t, Some(e)), Some(s)).fechaFin == Some(e)
  {
  }

  // ---------------------------------------------------------------------
  // Estimated time as hours and minutes
  // ---------------------------------------------------------------------

  /** Whole hours of the estimate (C# `/` truncates). */
  function Horas(est: int): int { Quot(est, 3600) }

  /** Whole minutes past the hours. */
  function Minutos(est: int): int { Quot(Rem(est, 3600), 60) }

  lemma SplitBounds(est: int)
    requires est >= 0
    ensures 0 <= Minutos(est) < 60 && Horas(est) >= 0
    ensures Horas(est) * 3600 + Minutos(est) * 60 <= est < Horas(est) * 3600 + Minutos(est) * 60 + 60
  {
  }

  /** The `HorasEstimadas` getter. */
  function HorasEstimadas(t: Tarea): string { IntText(Horas(t.tiempoEstimado)) }

  /** The `MinutosEstimados` getter. */
  function MinutosEstimados(t: Tarea): string { IntText(Minutos(t.tiempoEstimado)) }

  /**
   * The `HorasEstimadas` setter: text that `int.TryParse` rejects is ignored;
   * otherwise the estimate becomes h hours plus the current whole minutes,
   * in unchecked 32-bit arithmetic (wrapping once equals wrapping each step).
   */
  function SetHorasEstimadas(t: Tarea, value: string): (r: Tarea)
    ensures r == t.(tiempoEstimado := r.tiempoEstimado)
    ensures TryParseInt(value).None? ==> r == t
  {
    match TryParseInt(value)
    case None => t
    case Some(h) => t.(tiempoEstimado := Wrap32(h * 3600 + Minutos(t.tiempoEstimado) * 60))
  }

  /** The `MinutosEstimados` setter: the current whole hours plus m minutes. */
  function SetMinutosEstimados(t: Tarea, value: string): (r: Tarea)
    ensures r == t.(tiempoEstimado := r.tiempoEstimado)
    ensures TryParseInt(value).None? ==> r == t
  {
    match TryParseInt(value)
    case None => t
    case Some(m) => t.(tiempoEstimado := Wrap32(Horas(t.tiempoEstimado) * 3600 + m * 60))
  }

  lemma HoursMinutesOf(h: int, m: int)
    requires h >= 0 && 0 <= m < 60
    ensures Horas(h * 3600 + m * 60) == h && Minutos(h * 3600 + m * 60) == m
    ensures (h * 3600 + m * 60) % 60 == 0
  {
    var est := h * 3600 + m * 60;
    assert est == h * 3600 + m * 60 && 0 <= m * 60 < 3600;
    assert est / 3600 == h;
    assert est % 3600 == m * 60;
    assert est == (h * 60 + m) * 60;
  }

  /**
   * Setting the hours to h (in range) reads back as h, keeps the minutes,
   * and drops the seconds below a minute.
   */
  lemma SetHorasReadsBack(t: Tarea, value: string, h: int)
    requires TryParseInt(value) == Some(h) && h >= 0 && t.tiempoEstimado >= 0
    requires h * 3600 + 3599 <= Int32Max
    ensures HorasEstimadas(SetHorasEstimadas(t, value)) == IntText(h)
    ensures MinutosEstimados(SetHorasEstimadas(t, value)) == MinutosEstimados(t)
    ensures SetHorasEstimadas(t, value).tiempoEstimado % 60 == 0
  {
    SetHorasEstimate(t, value, h);
  }

  /** The estimate after setting the hours to h: h hours, the same minutes, whole minutes. */
  lemma SetHorasEstimate(t: Tarea, value: string, h: int)
    requires TryParseInt(value) == Some(h) && h >= 0 && t.tiempoEstimado >= 0
    requires h * 3600 + 3599 <= Int32Max
    ensures var v := SetHorasEstimadas(t, value).tiempoEstimado;
      Horas(v) == h && Minutos(v) == Minutos(t.tiempoEstimado) && v % 60 == 0
  {
    var est := t.tiempoEstimado;
    HoursValue(est, h);
    SetHorasParsed(t, value, h);
  }

  lemma SetHorasParsed(t: Tarea, value: string, h: int)
    requires TryParseInt(value) == Some(h)
    ensures SetHorasEstimadas(t, value).tiempoEstimado == Wrap32(h * 3600 + Minutos(t.tiempoEstimado) * 60)
  {
  }

  lemma HoursValue(est: int, h: int)
    requires 0 <= est && 0 <= h && h * 3600 + 3599 <= Int32Max
    ensures var v := h * 3600 + Minutos(est) * 60;
      Int32Min <= v <= Int32Max && Horas(v) == h && Minutos(v) == Minutos(est) && v % 60 == 0
  {
    SplitBounds(est);
    HoursMinutesOf(h, Minutos(est));
  }

  /** Setting the minutes to m (0..59) reads back as m and keeps the hours. */
  lemma SetMinutosReadsBack(t: Tarea, value: string, m: int)
    requires TryParseInt(value) == Some(m) && 0 <= m < 60
    requires 0 <= t.tiempoEstimado <= Int32Max - 3540
    ensures HorasEstimadas(SetMinutosEstimados(t, value)) == HorasEstimadas(t)
    ensures MinutosEstimados(SetMinutosEstimados(t, value)) == IntText(m)
    ensures SetMinutosEstimados(t, value).tiempoEstimado % 60 == 0
  {
    SetMinutosEstimate(t, value, m);
  }

  /** The estimate after setting the minutes to m (0..59): same hours, m minutes, whole minutes. */
  lemma SetMinutosEstimate(t: Tarea, value: string, m: int)
    requires TryParseInt(value) == Some(m) && 0 <= m < 60
    requires 0 <= t.tiempoEstimado <= Int32Max - 3540
    ensures var v := SetMinutosEstimados(t, value).tiempoEstimado;
      Horas(v) == Horas(t.tiempoEstimado) && Minutos(v) == m && v % 60 == 0
  {
    var h := Horas(t.tiempoEstimado);
    MinutesValue(t.tiempoEstimado, m);
    var r := SetMinutosEstimados(t, value);
    assert r.tiempoEstimado == h * 3600 + m * 60;
  }

  lemma MinutesValue(est: int, m: int)
    requires 0 <= m < 60 && 0 <= est <= Int32Max - 3540
    ensures var v := Horas(est) * 3600 + m * 60;
      Int32Min <= v <= Int32Max && Horas(v) == Horas(est) && Minutos(v) == m && v % 60 == 0
  {
    SplitBounds(est);
    HoursMinutesOf(Horas(est), m);
  }

  // ---------------------------------------------------------------------
  // Attachments: the `ArchivosAdjuntos` text and the `ArchivosList` items
  // ---------------------------------------------------------------------

  /**
   * The item the setter builds for one path. `fileLength` is the length of
   * an existing, readable file and `None` otherwise (the setter then keeps 0).
   */
  function AttachmentOf(f: string, fileLength: string -> Option<Int64>): (a: AttachmentItem)
    ensures a.filePath == f && a.originalPath == f && a.fromServer
    ensures a.fileName == GetFileName(f)
  {
    var size: Int64 := match fileLength(f) case Some(n) => n case None => 0;
    AttachmentItem(f, GetFileName(f), size, f, "", false, true)
  }

  /** One item per path, in order. */
  function Attachments(files: seq<string>, fileLength: string -> Option<Int64>): (r: seq<AttachmentItem>)
    ensures |r| == |files|
    ensures forall i :: 0 <= i < |files| ==> r[i] == AttachmentOf(files[i], fileLength)
  {
    seq(|files|, i requires 0 <= i < |files| => AttachmentOf(files[i], fileLength))
  }

  /** The `FilePath` of every item. */
  function FilePaths(list: seq<AttachmentItem>): (r: seq<string>)
    ensures |r| == |list|
    ensures forall i :: 0 <= i < |list| ==> r[i] == list[i].filePath
  {
    seq(|list|, i requires 0 <= i < |list| => list[i].filePath)
  }

  /** What the list's change handler writes into the text: null for no item, else the paths joined by ';'. */
  function SyncedText(list: seq<AttachmentItem>): (r: Option<string>)
    ensures r.None? <==> list == []
  {
    if |list| > 0 then Some(Join(';', FilePaths(list))) else None
  }

  /** The segments the setter keeps: none for null or "", else the non-empty ';'-pieces. */
  function ArchivosSegments(v: Option<string>): seq<string> {
    if IsNullOrEmpty(v) then [] else SplitNonEmpty(v.value, ';')
  }

  /**
   * Assigning `ArchivosAdjuntos`: an equal value changes nothing; otherwise
   * the list is rebuilt from the segments, and since every change of the
   * list rewrites the text, the text ends as the list's joined paths.
   */
  function WithArchivosAdjuntos(t: Tarea, v: Option<string>, fileLength: string -> Option<Int64>): (r: Tarea)
    ensures r == t.(archivosAdjuntos := r.archivosAdjuntos, archivosList := r.archivosList)
  {
    if t.archivosAdjuntos == v then t
    else
      var list := Attachments(ArchivosSegments(v), fileLength);
      t.(archivosAdjuntos := SyncedText(list), archivosList := list)
  }

  /**
   * The setter step by step: assign the text, clear the list, then add one
   * item per segment; after the clear and after every addition the list's
   * change handler rewrites the text from the list.
   */
  method SetArchivosAdjuntos(t: Tarea, v: Option<string>, fileLength: string -> Option<Int64>) returns (r: Tarea)
    ensures r == WithArchivosAdjuntos(t, v, fileLength)
  {
    if t.archivosAdjuntos == v {
      return t;
    }
    var text := v;
    var list: seq<AttachmentItem> := [];
    text := SyncedText(list);
    if !IsNullOrEmpty(v) {
      list, text := AddFiles(SplitNonEmpty(v.value, ';'), fileLength);
    }
    r := t.(archivosAdjuntos := text, archivosList := list);
  }

  /** The `foreach` of the setter, starting from the cleared list. */
  method AddFiles(files: seq<string>, fileLength: string -> Option<Int64>)
    returns (list: seq<AttachmentItem>, text: Option<string>)
    ensures list == Attachments(files, fileLength) && text == SyncedText(list)
  {
    list, text := [], None;
    var i := 0;
    while i < |files|
      invariant 0 <= i <= |files|
      invariant list == Attachments(files[..i], fileLength)
      invariant text == SyncedText(list)
    {
      var item := AttachmentOf(files[i], fileLength);
      AttachmentsSnoc(files, i, fileLength);
      list := list + [item];
      text := SyncedText(list);
      i := i + 1;
    }
    assert files[..i] == files;
  }

  lemma AttachmentsSnoc(files: seq<string>, i: nat, fileLength: string -> Option<Int64>)
    requires i < |files|
    ensures Attachments(files[..i + 1], fileLength) == Attachments(files[..i], fileLength) + [AttachmentOf(files[i], fileLength)]
  {
    var a := Attachments(files[..i + 1], fileLength);
    var b := Attachments(files[..i], fileLength) + [AttachmentOf(files[i], fileLength)];
    forall k | 0 <= k < |a| ensures a[k] == b[k] {
      assert files[..i + 1][k] == files[k];
    }
  }

  /**
   * After assigning v, the text is the ';'-join of v's non-empty segments
   * (null when there is none), the list holds one server item per segment,
   * and splitting the text again yields the same segments.
   */
  lemma ArchivosSync(t: Tarea, v: Option<string>, fileLength: string -> Option<Int64>)
    requires t.archivosAdjuntos != v
    ensures var r := WithArchivosAdjuntos(t, v, fileLength);
      var segs := ArchivosSegments(v);
      && r.archivosAdjuntos == (if segs == [] then None else Some(Join(';', segs)))
      && |r.archivosList| == |segs|
      && (forall i :: 0 <= i < |segs| ==> r.archivosList[i].filePath == segs[i] && r.archivosList[i].fromServer)
      && ArchivosSegments(r.archivosAdjuntos) == segs
  {
    var segs := ArchivosSegments(v);
    var list := Attachments(segs, fileLength);
    assert FilePaths(list) == segs;
    SegmentsRejoin(v);
  }

  /** Joining the non-empty segments and splitting again gives the same segments. */
  lemma SegmentsRejoin(v: Option<string>)
    ensures var segs := ArchivosSegments(v);
      ArchivosSegments(if segs == [] then None else Some(Join(';', segs))) == segs
  {
    var segs := ArchivosSegments(v);
    if segs != [] {
      SplitNonEmptyPieces(v.value, ';');
      SplitNonEmptyJoin(';', segs);
      assert Join(';', segs) != [] by {
        JoinStartsWithFirst(';', segs);
      }
    }
  }

  // ---------------------------------------------------------------------
  // Ordering the children
  // ---------------------------------------------------------------------

  /** `FechaInicio ?? DateTime.MaxValue`: undated tasks sort last. */
  function StartKey(t: Tarea): seq<int> {
    [if t.fechaInicio.Some? then t.fechaInicio.value else MaxDate]
  }

  /** The flags the sort writes: first only at index 0, last only at the last index. */
  function WithEndFlags(s: seq<Tarea>): (r: seq<Tarea>)
    ensures |r| == |s|
    ensures forall j :: 0 <= j < |s| ==>
      r[j] == s[j].(isFirstChild := j == 0, isLastChild := j == |s| - 1)
  {
    seq(|s|, j requires 0 <= j < |s| => s[j].(isFirstChild := j == 0, isLastChild := j == |s| - 1))
  }

  /** A task with the two position flags cleared, to compare tasks regardless of position. */
  function Unflagged(t: Tarea): Tarea {
    t.(isFirstChild := false, isLastChild := false)
  }

  /** The children as `SortChildren` leaves them. */
  function SortedSiblings(s: seq<Tarea>): seq<Tarea> {
    WithEndFlags(SortBy(s, StartKey))
  }

  /** `s` with the element at `from` taken out and put back at `to` (`ObservableCollection.Move`). */
  function MoveItem<T>(s: seq<T>, from: nat, to: nat): (r: seq<T>)
    requires from < |s| && to < |s|
    ensures |r| == |s| && multiset(r) == multiset(s)
    ensures to <= from ==> r[..to] == s[..to] && r[to] == s[from]
  {
    var rest := s[..from] + s[from + 1..];
    assert s == s[..from] + [s[from]] + s[from + 1..];
    assert multiset(s) == multiset(rest) + multiset{s[from]};
    assert rest == rest[..to] + rest[to..];
    assert multiset(rest[..to] + [s[from]] + rest[to..]) == multiset(rest[..to]) + multiset(rest[to..]) + multiset{s[from]};
    rest[..to] + [s[from]] + rest[to..]
  }

  /** `IndexOf`: the first position holding `x`, or -1. */
  function IndexOfId(s: seq<nat>, x: nat): (r: int)
    ensures -1 <= r
    ensures r == -1 <==> x !in s
    ensures r >= 0 ==> r < |s| && s[r] == x && x !in s[..r]
  {
    if s == [] then -1
    else if s[0] == x then 0
    else
      var tail := s[1..];
      var k := IndexOfId(tail, x);
      assert s == [s[0]] + tail;
      if k == -1 then -1
      else
        assert s[..k + 1] == [s[0]] + tail[..k];
        k + 1
  }

  /**
   * `SortChildren` (and the form's `SortRootTasks`, which is the same code):
   * compute the stable order, then walk it, setting each task's flags and
   * moving it from where it is now to its place. Tasks are objects, so a
   * task is identified here by its position in the input: `order` is the
   * collection as identities, and `first`/`last` hold each task's two flags.
   */
  method SortSiblings(s: seq<Tarea>) returns (r: seq<Tarea>)
    ensures r == SortedSiblings(s)
  {
    var n := |s|;
    if n == 0 {
      return [];
    }
    var sorted := SortedPositions(s);
    var first := seq(n, k requires 0 <= k < n => s[k].isFirstChild);
    var last := seq(n, k requires 0 <= k < n => s[k].isLastChild);
    var order;
    order, first, last := PlaceAll(sorted, first, last);
    r := seq(n, j requires 0 <= j < n => s[order[j]].(isFirstChild := first[order[j]], isLastChild := last[order[j]]));
    FlaggedOrder(s, sorted, first, last, r);
  }

  /**
   * The loop of `SortChildren`: for each position i of the stable order,
   * flag the task that belongs there and move it from where the collection
   * holds it now to i. The collection starts as the identities in input order.
   */
  method PlaceAll(sorted: seq<nat>, first0: seq<bool>, last0: seq<bool>)
    returns (order: seq<nat>, first: seq<bool>, last: seq<bool>)
    requires |first0| == |last0| == |sorted| && Distinct(sorted)
    requires multiset(sorted) == multiset(Range(|sorted|))
    requires forall j :: 0 <= j < |sorted| ==> sorted[j] < |sorted|
    ensures order == sorted && |first| == |last| == |sorted|
    ensures forall j :: 0 <= j < |sorted| ==> first[sorted[j]] == (j == 0) && last[sorted[j]] == (j == |sorted| - 1)
  {
    var n := |sorted|;
    first, last := first0, last0;
    order := Range(n);
    var i := 0;
    while i < n
      invariant 0 <= i <= n && |first| == n && |last| == n && |order| == n
      invariant multiset(order) == multiset(sorted)
      invariant order[..i] == sorted[..i]
      invariant forall j :: 0 <= j < i ==> first[sorted[j]] == (j == 0) && last[sorted[j]] == (j == n - 1)
    {
      var item := sorted[i];
      FlagStep(sorted, first, last, i);
      last := last[item := i == n - 1];
      first := first[item := i == 0];
      order := MoveInto(order, sorted, i);
      i := i + 1;
    }
    assert order[..n] == order && sorted[..n] == sorted;
  }

  /**
   * One move of the walk: find where the collection holds the task that
   * belongs at position i and move it there, unless it is already there.
   */
  method MoveInto(order: seq<nat>, sorted: seq<nat>, i: nat) returns (moved: seq<nat>)
    requires i < |sorted| == |order| && Distinct(sorted)
    requires multiset(order) == multiset(sorted) && order[..i] == sorted[..i]
    ensures |moved| == |order| && moved[..i + 1] == sorted[..i + 1]
    ensures multiset(moved) == multiset(sorted)
  {
    var oldIndex := IndexOfId(order, sorted[i]);
    PlaceStep(order, sorted, i);
    moved := order;
    if oldIndex != i {
      moved := MoveItem(order, oldIndex, i);
    }
  }

  /** Flagging the task at step i keeps the flags of the tasks already placed. */
  lemma FlagStep(sorted: seq<nat>, first: seq<bool>, last: seq<bool>, i: nat)
    requires i < |sorted| == |first| == |last| && Distinct(sorted)
    requires forall j :: 0 <= j < |sorted| ==> sorted[j] < |sorted|
    requires forall j :: 0 <= j < i ==> first[sorted[j]] == (j == 0) && last[sorted[j]] == (j == |sorted| - 1)
    ensures var first' := first[sorted[i] := i == 0];
      var last' := last[sorted[i] := i == |sorted| - 1];
      forall j :: 0 <= j <= i ==> first'[sorted[j]] == (j == 0) && last'[sorted[j]] == (j == |sorted| - 1)
  {
  }

  /** Reading the tasks in the sorted order, with the flags the walk wrote, gives the flagged sorted children. */
  lemma FlaggedOrder(s: seq<Tarea>, sorted: seq<nat>, first: seq<bool>, last: seq<bool>, r: seq<Tarea>)
    requires |sorted| == |s| == |first| == |last| == |r| && |SortBy(s, StartKey)| == |s|
    requires forall j :: 0 <= j < |s| ==> sorted[j] < |s|
    requires forall j :: 0 <= j < |s| ==> SortBy(s, StartKey)[j] == s[sorted[j]]
    requires forall j :: 0 <= j < |s| ==> first[sorted[j]] == (j == 0) && last[sorted[j]] == (j == |s| - 1)
    requires forall j :: 0 <= j < |s| ==>
      r[j] == s[sorted[j]].(isFirstChild := first[sorted[j]], isLastChild := last[sorted[j]])
    ensures r == SortedSiblings(s)
  {
  }

  /**
   * The positions of the tasks in the order `OrderBy` lists them: each
   * position once, and reading the tasks at these positions gives the
   * stably sorted tasks.
   */
  function SortedPositions(s: seq<Tarea>): (p: seq<nat>)
    requires |s| > 0
    ensures |p| == |s| && multiset(p) == multiset(Range(|s|)) && Distinct(p)
    ensures forall j :: 0 <= j < |s| ==> p[j] < |s|
    ensures |SortBy(s, StartKey)| == |s|
    ensures forall j :: 0 <= j < |s| ==> SortBy(s, StartKey)[j] == s[p[j]]
  {
    var at := (k: nat) => if k < |s| then s[k] else s[0];
    var key := (k: nat) => StartKey(at(k));
    SortedRange(|s|, key);
    SortedIds(s, at, key, SortBy(Range(|s|), key));
    SortBy(Range(|s|), key)
  }

  /** Reading the tasks at the sorted positions gives the tasks sorted. */
  lemma SortedIds(s: seq<Tarea>, at: nat -> Tarea, key: nat -> seq<int>, sorted: seq<nat>)
    requires forall k :: 0 <= k < |s| ==> at(k) == s[k]
    requires forall k :: key(k) == StartKey(at(k))
    requires sorted == SortBy(Range(|s|), key)
    requires |sorted| == |s| && forall j :: 0 <= j < |s| ==> sorted[j] < |s|
    ensures |SortBy(s, StartKey)| == |s|
    ensures forall j :: 0 <= j < |s| ==> SortBy(s, StartKey)[j] == s[sorted[j]]
  {
    SortedIdsMap(s, at, key);
    var m := MapSeq(at, sorted);
    forall j | 0 <= j < |s| ensures SortBy(s, StartKey)[j] == s[sorted[j]] {
      assert m[j] == at(sorted[j]);
    }
  }

  /** Sorting the positions 0..n-1 lists each of them once. */
  lemma SortedRange(n: nat, key: nat -> seq<int>)
    ensures var sorted: seq<nat> := SortBy<nat>(Range(n), key);
      && |sorted| == n && multiset(sorted) == multiset(Range(n)) && Distinct(sorted)
      && forall j :: 0 <= j < n ==> sorted[j] < n
  {
    var sorted: seq<nat> := SortBy<nat>(Range(n), key);
    SortByPermutes<nat>(Range(n), key);
    PermutationDistinct(sorted, Range(n));
    forall j | 0 <= j < n ensures sorted[j] < n {
      assert sorted[j] in multiset(Range(n));
    }
  }

  lemma SortedIdsMap(s: seq<Tarea>, at: nat -> Tarea, key: nat -> seq<int>)
    requires forall k :: 0 <= k < |s| ==> at(k) == s[k]
    requires forall k :: key(k) == StartKey(at(k))
    ensures MapSeq(at, SortBy(Range(|s|), key)) == SortBy(s, StartKey)
  {
    SortByMap(Range(|s|), at, StartKey, key);
    assert MapSeq(at, Range(|s|)) == s;
  }

  /**
   * One step of the walk: the next task in the stable order is at or after
   * the current position, and moving it there extends the sorted prefix.
   */
  lemma PlaceStep(order: seq<nat>, sorted: seq<nat>, i: nat)
    requires i < |sorted| == |order| && Distinct(sorted)
    requires multiset(order) == multiset(sorted) && order[..i] == sorted[..i]
    ensures var k := IndexOfId(order, sorted[i]);
      && i <= k < |order|
      && var moved := if k != i then MoveItem(order, k, i) else order;
      && moved[..i + 1] == sorted[..i + 1]
      && multiset(moved) == multiset(sorted) && |moved| == |order|
  {
    NextNotPlaced(order, sorted, i);
    var k := IndexOfId(order, sorted[i]);
    MovedPrefix(order, sorted, i, k);
  }

  lemma NextNotPlaced(order: seq<nat>, sorted: seq<nat>, i: nat)
    requires i < |sorted| == |order| && Distinct(sorted)
    requires multiset(order) == multiset(sorted) && order[..i] == sorted[..i]
    ensures i <= IndexOfId(order, sorted[i]) < |order|
  {
    assert sorted[i] in multiset(order) by {
      assert sorted[i] in sorted;
    }
    assert sorted[i] !in order[..i] by {
      assert forall j :: 0 <= j < i ==> order[..i][j] == sorted[j] != sorted[i];
    }
  }

  lemma MovedPrefix(order: seq<nat>, sorted: seq<nat>, i: nat, k: nat)
    requires i <= k < |order| == |sorted| && order[k] == sorted[i]
    requires multiset(order) == multiset(sorted) && order[..i] == sorted[..i]
    ensures var moved := if k != i then MoveItem(order, k, i) else order;
      && moved[..i + 1] == sorted[..i + 1]
      && multiset(moved) == multiset(sorted) && |moved| == |order|
  {
    var moved := if k != i then MoveItem(order, k, i) else order;
    assert moved[..i + 1] == moved[..i] + [moved[i]];
    assert sorted[..i + 1] == sorted[..i] + [sorted[i]];
  }

  /**
   * The sorted children are in start order, flagged only at the two ends,
   * hold the same tasks as before, and tasks with equal starts keep their
   * relative order.
   */
  lemma SortedSiblingsSpec(s: seq<Tarea>, k: seq<int>)
    ensures |SortedSiblings(s)| == |s|
    ensures SortedBy(SortedSiblings(s), StartKey)
    ensures forall j :: 0 <= j < |s| ==>
      (SortedSiblings(s)[j].isFirstChild <==> j == 0) && (SortedSiblings(s)[j].isLastChild <==> j == |s| - 1)
    ensures multiset(MapSeq(Unflagged, SortedSiblings(s))) == multiset(MapSeq(Unflagged, s))
    ensures WithKey(MapSeq(Unflagged, SortedSiblings(s)), StartKey, k) == WithKey(MapSeq(Unflagged, s), StartKey, k)
  {
    var sorted := SortBy(s, StartKey);
    SortByPermutes(s, StartKey);
    SortBySorted(s, StartKey);
    var r := SortedSiblings(s);
    assert forall j :: 0 <= j < |r| ==> StartKey(r[j]) == StartKey(sorted[j]);
    SortByMap(s, Unflagged, StartKey, StartKey);
    assert MapSeq(Unflagged, r) == MapSeq(Unflagged, sorted);
    SortByPermutes(MapSeq(Unflagged, s), StartKey);
    SortByStable(MapSeq(Unflagged, s), StartKey, k);
  }

  // ---------------------------------------------------------------------
  // Rolling the children up into the parent
  // ---------------------------------------------------------------------

  /** The earliest start among the children that have one (LINQ `Min` over nullable values). */
  function MinStart(cs: seq<Tarea>): (r: Option<DateTime>)
    ensures r.None? <==> forall i :: 0 <= i < |cs| ==> cs[i].fechaInicio.None?
    ensures r.Some? ==> exists i :: 0 <= i < |cs| && cs[i].fechaInicio == r
    ensures r.Some? ==> forall i :: 0 <= i < |cs| && cs[i].fechaInicio.Some? ==> r.value <= cs[i].fechaInicio.value
  {
    if cs == [] then None
    else
      var rest := MinStart(cs[1..]);
      assert forall i :: 1 <= i < |cs| ==> cs[i] == cs[1..][i - 1];
      match cs[0].fechaInicio
      case None => rest
      case Some(d) => if rest.Some? && rest.value < d then rest else Some(d)
  }

  /** The latest end among the children that have one. */
  function MaxEnd(cs: seq<Tarea>): (r: Option<DateTime>)
    ensures r.None? <==> forall i :: 0 <= i < |cs| ==> cs[i].fechaFin.None?
    ensures r.Some? ==> exists i :: 0 <= i < |cs| && cs[i].fechaFin == r
    ensures r.Some? ==> forall i :: 0 <= i < |cs| && cs[i].fechaFin.Some? ==> cs[i].fechaFin.value <= r.value
  {
    if cs == [] then None
    else
      var rest := MaxEnd(cs[1..]);
      assert forall i :: 1 <= i < |cs| ==> cs[i] == cs[1..][i - 1];
      match cs[0].fechaFin
      case None => rest
      case Some(d) => if rest.Some? && rest.value > d then rest else Some(d)
  }

  /** The sum of the children's estimates, as a mathematical integer. */
  function SumEstimates(cs: seq<Tarea>): int {
    if cs == [] then 0 else cs[0].tiempoEstimado + SumEstimates(cs[1..])
  }

  lemma {:induction false} SumEstimatesAppend(a: seq<Tarea>, b: seq<Tarea>)
    ensures SumEstimates(a + b) == SumEstimates(a) + SumEstimates(b)
  {
    if a == [] {
      assert a + b == b;
    } else {
      assert (a + b)[1..] == a[1..] + b;
      SumEstimatesAppend(a[1..], b);
    }
  }

  /**
   * `UpdateParentAggregates`: with no child nothing changes; otherwise the
   * start becomes the earliest child start and then the end the latest child
   * end (each through its setter, so each may drag the other date), and the
   * estimate becomes the children's total. LINQ's `Sum` over `int` is
   * checked: when the total leaves the 32-bit range it throws after the
   * dates were written, and the estimate keeps its value.
   */
  function UpdateParentAggregates(t: Tarea): (r: Tarea)
    ensures r.subtareas == t.subtareas
    ensures r == t.(fechaInicio := r.fechaInicio, fechaFin := r.fechaFin, tiempoEstimado := r.tiempoEstimado)
    ensures t.subtareas == [] ==> r == t
  {
    if t.subtareas == [] then t
    else
      var total := SumEstimates(t.subtareas);
      RolledDates(t).(tiempoEstimado := if Int32Min <= total <= Int32Max then total else t.tiempoEstimado)
  }

  /** The two date assignments of the roll-up, each through its setter. */
  function RolledDates(t: Tarea): (r: Tarea)
    ensures r == t.(fechaInicio := r.fechaInicio, fechaFin := r.fechaFin)
  {
    var cs := t.subtareas;
    var a := if MinStart(cs).Some? then SetFechaInicio(t, MinStart(cs)) else t;
    if MaxEnd(cs).Some? then SetFechaFin(a, MaxEnd(cs)) else a
  }

  /**
   * When some child has an ordered pair of dates, the parent spans its
   * children exactly: it starts at the earliest child start, ends at the
   * latest child end, and its estimate is their sum when that fits.
   */
  lemma AggregatesSpanChildren(t: Tarea, c: nat)
    requires c < |t.subtareas|
    requires t.subtareas[c].fechaInicio.Some? && t.subtareas[c].fechaFin.Some? && DatesOrdered(t.subtareas[c])
    ensures var r := UpdateParentAggregates(t);
      && r.fechaInicio == MinStart(t.subtareas) && r.fechaFin == MaxEnd(t.subtareas)
      && DatesOrdered(r)
      && (forall i :: 0 <= i < |t.subtareas| && t.subtareas[i].fechaInicio.Some? ==>
            r.fechaInicio.value <= t.subtareas[i].fechaInicio.value)
      && (forall i :: 0 <= i < |t.subtareas| && t.subtareas[i].fechaFin.Some? ==>
            t.subtareas[i].fechaFin.value <= r.fechaFin.value)
      && (Int32Min <= SumEstimates(t.subtareas) <= Int32Max ==> r.tiempoEstimado == SumEstimates(t.subtareas))
  {
    var cs := t.subtareas;
    assert MinStart(cs).value <= cs[c].fechaInicio.value;
    assert cs[c].fechaFin.value <= MaxEnd(cs).value;
  }

  /** A parent with no child dates keeps its own dates. */
  lemma AggregatesKeepUndated(t: Tarea)
    requires forall i :: 0 <= i < |t.subtareas| ==> t.subtareas[i].fechaInicio.None? && t.subtareas[i].fechaFin.None?
    ensures UpdateParentAggregates(t).fechaInicio == t.fechaInicio
    ensures UpdateParentAggregates(t).fechaFin == t.fechaFin
  {
  }

  // ---------------------------------------------------------------------
  // Changing the children
  // ---------------------------------------------------------------------

  /**
   * Adding a child (`Subtareas.Add` and its change handler): the child is
   * marked as a sub-task one level below the parent (unchecked `+ 1`), then
   * the children are sorted and rolled up into the parent.
   */
  function AddSubtarea(parent: Tarea, child: Tarea): (r: Tarea)
    ensures |r.subtareas| == |parent.subtareas| + 1
    ensures r == parent.(subtareas := r.subtareas, fechaInicio := r.fechaInicio,
                         fechaFin := r.fechaFin, tiempoEstimado := r.tiempoEstimado)
    ensures SortedBy(r.subtareas, StartKey)
    ensures multiset(MapSeq(Unflagged, r.subtareas))
         == multiset(MapSeq(Unflagged, parent.subtareas)) + multiset{Unflagged(AsChildOf(parent, child))}
  {
    var c := AsChildOf(parent, child);
    var cs := parent.subtareas + [c];
    SortedSiblingsSpec(cs, []);
    MapSeqAppend(Unflagged, parent.subtareas, c);
    UpdateParentAggregates(parent.(subtareas := SortedSiblings(cs)))
  }

  /** What the change handler does to a newly added child. */
  function AsChildOf(parent: Tarea, child: Tarea): (c: Tarea)
    ensures c.isSubtask
    ensures parent.nivel < Int32Max ==> c.nivel == parent.nivel + 1
    ensures c == child.(isSubtask := true, nivel := c.nivel)
  {
    child.(isSubtask := true, nivel := Wrap32(parent.nivel + 1))
  }

  /**
   * Removing the child at `i`: the rest are re-sorted and rolled up. With no
   * child left both steps return at once, so the parent keeps its dates and
   * estimate.
   */
  function RemoveSubtarea(parent: Tarea, i: nat): (r: Tarea)
    requires i < |parent.subtareas|
    ensures |r.subtareas| == |parent.subtareas| - 1
    ensures r == parent.(subtareas := r.subtareas, fechaInicio := r.fechaInicio,
                         fechaFin := r.fechaFin, tiempoEstimado := r.tiempoEstimado)
    ensures r.subtareas == [] ==> r == parent.(subtareas := [])
    ensures multiset(MapSeq(Unflagged, r.subtareas)) + multiset{Unflagged(parent.subtareas[i])}
         == multiset(MapSeq(Unflagged, parent.subtareas))
  {
    var cs := parent.subtareas;
    var rest := cs[..i] + cs[i + 1..];
    SortedSiblingsSpec(rest, []);
    RemoveAtUnflagged(cs, i);
    UpdateParentAggregates(parent.(subtareas := SortedSiblings(rest)))
  }

  lemma RemoveAtUnflagged(cs: seq<Tarea>, i: nat)
    requires i < |cs|
    ensures multiset(MapSeq(Unflagged, cs[..i] + cs[i + 1..])) + multiset{Unflagged(cs[i])}
         == multiset(MapSeq(Unflagged, cs))
  {
    var front, back := cs[..i], cs[i + 1..];
    assert cs == (front + [cs[i]]) + back;
    MapSeqConcat(Unflagged, front + [cs[i]], back);
    MapSeqAppend(Unflagged, front, cs[i]);
    MapSeqConcat(Unflagged, front, back);
  }

  /** Every child sits exactly one level below its parent, all the way down. */
  predicate LevelsConsistent(t: Tarea)
    decreases t
  {
    forall i :: 0 <= i < |t.subtareas| ==>
      t.subtareas[i].nivel == t.nivel + 1 && LevelsConsistent(t.subtareas[i])
  }

  /**
   * Adding a task without children keeps every level consistent (the
   * handler re-levels only the added task, not its own children).
   */
  lemma AddLeafKeepsLevels(parent: Tarea, child: Tarea)
    requires LevelsConsistent(parent) && child.subtareas == [] && parent.nivel < Int32Max
    ensures LevelsConsistent(AddSubtarea(parent, child))
  {
    AddSubtareaShape(parent, child);
    LeafAddedLevels(parent, child, AddSubtarea(parent, child));
  }

  /** A parent of the shape `AddSubtarea` returns for a leaf has consistent levels. */
  lemma LeafAddedLevels(parent: Tarea, child: Tarea, r: Tarea)
    requires LevelsConsistent(parent) && child.subtareas == [] && parent.nivel < Int32Max
    requires r.nivel == parent.nivel
    requires r.subtareas == WithEndFlags(SortBy(parent.subtareas + [AsChildOf(parent, child)], StartKey))
    ensures LevelsConsistent(r)
  {
    ChildrenOf(parent);
    SortedLevels(parent.subtareas, AsChildOf(parent, child), parent.nivel + 1);
    LevelsFromChildren(r);
  }

  /** The added task's parent keeps its level and holds the old children and the new one, sorted and flagged. */
  lemma AddSubtareaShape(parent: Tarea, child: Tarea)
    ensures AddSubtarea(parent, child).nivel == parent.nivel
    ensures AddSubtarea(parent, child).subtareas
         == WithEndFlags(SortBy(parent.subtareas + [AsChildOf(parent, child)], StartKey))
  {
  }

  /** A consistent leaf at level `n` joins children at level `n`: sorted and flagged, all are still at `n`. */
  lemma SortedLevels(ps: seq<Tarea>, c: Tarea, n: int)
    requires EachConsistentAt(ps, n) && c.subtareas == [] && c.nivel == n
    ensures EachConsistentAt(WithEndFlags(SortBy(ps + [c], StartKey)), n)
  {
    var cs := ps + [c];
    assert EachConsistentAt(cs, n) by {
      assert LevelsConsistent(c);
      forall i | 0 <= i < |cs| ensures cs[i].nivel == n && LevelsConsistent(cs[i]) {
        if i < |ps| {
          assert cs[i] == ps[i];
        }
      }
    }
    var sorted := SortBy(cs, StartKey);
    SortByPermutes(cs, StartKey);
    ChildrenAtPermuted(cs, sorted, n);
    var flagged := WithEndFlags(sorted);
    forall j | 0 <= j < |flagged| ensures flagged[j].nivel == n && LevelsConsistent(flagged[j]) {
      FlagsKeepLevels(sorted[j], j == 0, j == |sorted| - 1);
    }
  }

  /** The children of a consistent task all sit one level below it, consistently. */
  lemma ChildrenOf(t: Tarea)
    requires LevelsConsistent(t)
    ensures EachConsistentAt(t.subtareas, t.nivel + 1)
  {
  }

  /** A task whose children all sit one level below it, consistently, is consistent. */
  lemma LevelsFromChildren(t: Tarea)
    requires EachConsistentAt(t.subtareas, t.nivel + 1)
    ensures LevelsConsistent(t)
  {
  }

  /** Every task of `kids` is at level `n`, with consistent levels below it. */
  predicate EachConsistentAt(kids: seq<Tarea>, n: int) {
    forall j :: 0 <= j < |kids| ==> kids[j].nivel == n && LevelsConsistent(kids[j])
  }

  /** Reordering the tasks keeps them all at their level. */
  lemma ChildrenAtPermuted(a: seq<Tarea>, b: seq<Tarea>, n: int)
    requires EachConsistentAt(a, n) && multiset(a) == multiset(b)
    ensures EachConsistentAt(b, n)
  {
    forall i | 0 <= i < |b| ensures b[i].nivel == n && LevelsConsistent(b[i]) {
      assert b[i] in multiset(a);
      var j :| 0 <= j < |a| && a[j] == b[i];
    }
  }

  /** The position flags do not take part in the levels. */
  lemma FlagsKeepLevels(t: Tarea, first: bool, last: bool)
    ensures t.(isFirstChild := first, isLastChild := last).nivel == t.nivel
    ensures LevelsConsistent(t.(isFirstChild := first, isLastChild := last)) <==> LevelsConsistent(t)
  {
  }

  lemma LevelsIgnoreFlags(t: Tarea)
    ensures LevelsConsistent(t) <==> LevelsConsistent(Unflagged(t))
    ensures Unflagged(t).nivel == t.nivel
  {
  }
}
