/**
 * The client's `DatabaseService`: the base address and the query of the
 * registro list, the mappings between a `Registro` (with its tree of
 * tasks) and the transfer object, and the pairing of client and server
 * tasks when task evidence is uploaded. The HTTP calls themselves are
 * left out; what they send is returned as a value.
 */
module DbService {
  import opened Core
  import opened Strings
  import opened Dtos
  import opened Tasks
  import opened Registros
  import opened StableSort

  // ---------------------------------------------------------------------
  // Base address and the registro query
  // ---------------------------------------------------------------------

  /**
   * The constructor's base address: a blank setting is refused (the
   * constructor throws), any other gets a trailing '/' when it lacks one.
   */
  function BaseAddress(configured: Option<string>): (r: Option<string>)
    ensures r.None? <==> IsNullOrWhiteSpace(configured)
    ensures r.Some? ==> r.value != [] && r.value[|r.value| - 1] == '/'
    ensures r.Some? ==> StartsWith(r.value, configured.value) && |r.value| <= |configured.value| + 1
  {
    if IsNullOrWhiteSpace(configured) then None
    else if configured.value != [] && configured.value[|configured.value| - 1] == '/' then configured
    else Some(configured.value + "/")
  }

  /** Normalising an address a second time changes nothing. */
  lemma BaseAddressIdempotent(configured: Option<string>)
    ensures BaseAddress(configured).Some? ==> BaseAddress(BaseAddress(configured)) == BaseAddress(configured)
  {
    var r := BaseAddress(configured);
    if r.Some? {
      NotBlankConcat(configured.value, "/");
    }
  }

  const QueryPath: string := "registros?"

  /** `GetRegistrosInternal`'s address: each filter is added only when it is not empty. */
  function RegistrosQuery(creadoPor: Option<string>, asignadoA: Option<string>): (url: string)
    ensures StartsWith(url, QueryPath)
    ensures url == QueryPath <==> IsNullOrEmpty(creadoPor) && IsNullOrEmpty(asignadoA)
  {
    QueryPath
      + (if IsNullOrEmpty(creadoPor) then "" else "creadoPor=" + creadoPor.value + "&")
      + (if IsNullOrEmpty(asignadoA) then "" else "asignadoA=" + asignadoA.value)
  }

  /** The value of `key` among '&'-separated pieces: the first piece of the form `key=value`. */
  function QueryValue(pieces: seq<string>, key: string): (r: Option<string>)
    ensures r.Some? ==> key + "=" + r.value in pieces
    ensures r.None? ==> forall p :: p in pieces ==> !StartsWith(p, key + "=")
  {
    if pieces == [] then None
    else if StartsWith(pieces[0], key + "=") then
      assert pieces[0] == key + "=" + pieces[0][|key| + 1..];
      Some(pieces[0][|key| + 1..])
    else
      QueryValue(pieces[1..], key)
  }

  /** Reading a filter back out of a query address. */
  function QueryFilter(url: string, key: string): Option<string>
    requires StartsWith(url, QueryPath)
  {
    QueryValue(Split(url[|QueryPath|..], '&'), key)
  }

  /** The filter a query was built from, with an empty one read as absent. */
  function GivenFilter(v: Option<string>): Option<string> {
    if IsNullOrEmpty(v) then None else v
  }

  /**
   * Reading the two filters back from the address gives the ones it was
   * built from, as long as the values hold no '&'.
   */
  lemma QueryRoundTrip(creadoPor: Option<string>, asignadoA: Option<string>)
    requires creadoPor.Some? ==> '&' !in creadoPor.value
    requires asignadoA.Some? ==> '&' !in asignadoA.value
    ensures QueryFilter(RegistrosQuery(creadoPor, asignadoA), "creadoPor") == GivenFilter(creadoPor)
    ensures QueryFilter(RegistrosQuery(creadoPor, asignadoA), "asignadoA") == GivenFilter(asignadoA)
  {
    var url := RegistrosQuery(creadoPor, asignadoA);
    var c := if IsNullOrEmpty(creadoPor) then [] else ["creadoPor=" + creadoPor.value];
    var a := if IsNullOrEmpty(asignadoA) then [] else ["asignadoA=" + asignadoA.value];
    var pieces := QueryPieces(c, a);
    assert url[|QueryPath|..] == Join('&', pieces) by {
      QueryTail(creadoPor, asignadoA);
    }
    SplitJoin('&', pieces);
    QueryLookups(creadoPor, asignadoA, pieces);
  }

  /** The '&'-pieces of a query's tail. */
  function QueryPieces(c: seq<string>, a: seq<string>): seq<string> {
    if c == [] then (if a == [] then [""] else a)
    else c + (if a == [] then [""] else a)
  }

  lemma QueryTail(creadoPor: Option<string>, asignadoA: Option<string>)
    ensures
      var c := if IsNullOrEmpty(creadoPor) then [] else ["creadoPor=" + creadoPor.value];
      var a := if IsNullOrEmpty(asignadoA) then [] else ["asignadoA=" + asignadoA.value];
      RegistrosQuery(creadoPor, asignadoA)[|QueryPath|..] == Join('&', QueryPieces(c, a))
  {
    var cs := if IsNullOrEmpty(creadoPor) then "" else "creadoPor=" + creadoPor.value + "&";
    var as_ := if IsNullOrEmpty(asignadoA) then "" else "asignadoA=" + asignadoA.value;
    assert (QueryPath + cs + as_)[|QueryPath|..] == cs + as_;
  }

  lemma QueryLookups(creadoPor: Option<string>, asignadoA: Option<string>, pieces: seq<string>)
    requires
      var c := if IsNullOrEmpty(creadoPor) then [] else ["creadoPor=" + creadoPor.value];
      var a := if IsNullOrEmpty(asignadoA) then [] else ["asignadoA=" + asignadoA.value];
      pieces == QueryPieces(c, a)
    ensures QueryValue(pieces, "creadoPor") == GivenFilter(creadoPor)
    ensures QueryValue(pieces, "asignadoA") == GivenFilter(asignadoA)
  {
    if !IsNullOrEmpty(creadoPor) {
      var p := "creadoPor=" + creadoPor.value;
      assert p[..|"creadoPor="|] == "creadoPor=";
      assert p[|"creadoPor"| + 1..] == creadoPor.value;
      assert !StartsWith(p, "asignadoA=") by {
        assert p[0] == 'c';
      }
      assert pieces[1..] == (if IsNullOrEmpty(asignadoA) then [""] else ["asignadoA=" + asignadoA.value]);
    }
    if !IsNullOrEmpty(asignadoA) {
      var q := "asignadoA=" + asignadoA.value;
      assert q[..|"asignadoA="|] == "asignadoA=";
      assert q[|"asignadoA"| + 1..] == asignadoA.value;
      assert !StartsWith(q, "creadoPor=") by {
        assert q[0] == 'a';
      }
    }
  }

  // ---------------------------------------------------------------------
  // Tipo and Estado as read from a transfer object
  // ---------------------------------------------------------------------

  /** `MapToRegistro`'s type: a type name in any case, else Requerimiento. */
  function TipoFromDto(s: string): (t: TipoRegistro)
    ensures forall k :: EqualsIgnoreCase(Trim(s), TipoName(k)) ==> t == k
    ensures (forall k :: !EqualsIgnoreCase(Trim(s), TipoName(k))) ==> t == Requerimiento
  {
    match ParseTipoName(s)
    case Some(k) =>
      TipoNamesDistinct(k);
      k
    case None => Requerimiento
  }

  /** Requerimiento and Incidente differ even ignoring case. */
  lemma TipoNamesDistinct(k: TipoRegistro)
    ensures forall j :: EqualsIgnoreCase(TipoName(k), TipoName(j)) ==> k == j
  {
    forall j | k != j
      ensures !EqualsIgnoreCase(TipoName(k), TipoName(j))
    {
      assert |TipoName(k)| != |TipoName(j)|;
    }
  }

  /**
   * `MapToRegistro`'s state: the text with its spaces removed is tried as
   * a state name in any case; failing that, "En Proceso" in any case is
   * EnProceso and anything else Pendiente.
   */
  function EstadoFromDto(s: string): (e: EstadoRegistro)
    ensures forall k :: EqualsIgnoreCase(Trim(RemoveSpaces(s)), EstadoName(k)) ==> e == k
    ensures (forall k :: !EqualsIgnoreCase(Trim(RemoveSpaces(s)), EstadoName(k))) ==> e == Pendiente
  {
    match ParseEstadoName(RemoveSpaces(s))
    case Some(k) =>
      assert forall j :: EqualsIgnoreCase(Trim(RemoveSpaces(s)), EstadoName(j)) ==> j == k by {
        forall j | EqualsIgnoreCase(Trim(RemoveSpaces(s)), EstadoName(j)) ensures j == k {
          EstadoNamesDistinct(k, j);
        }
      }
      k
    case None =>
      if EqualsIgnoreCase(s, "En Proceso") then
        ProcesoFallbackUnused(s);
        EnProceso
      else Pendiente
  }

  /**
   * The "En Proceso" fallback of `MapToRegistro` never decides anything:
   * text equal to it ignoring case already reads as EnProceso once its
   * spaces are removed.
   */
  lemma ProcesoFallbackUnused(s: string)
    requires EqualsIgnoreCase(s, "En Proceso")
    ensures ParseEstadoName(RemoveSpaces(s)) == Some(EnProceso)
  {
    RemoveSpacesIgnoresCase(s, "En Proceso");
    ProcesoSpelling("En", "Proceso", "En Proceso");
    ParseEstadoNameAnyCase(RemoveSpaces(s), EnProceso);
  }

  lemma ProcesoSpelling(a: string, b: string, text: string)
    requires a == "En" && b == "Proceso" && text == "En Proceso"
    ensures RemoveSpaces(text) == EstadoName(EnProceso)
  {
    assert text == a + " " + b;
    SpacedLabel(a, b);
    assert a + b == EstadoName(EnProceso);
  }

  /** A state sent by its name comes back as the same state. */
  lemma EstadoDtoRoundTrip(e: EstadoRegistro)
    ensures EstadoFromDto(EstadoName(e)) == e
  {
    RemoveSpacesNone(EstadoName(e));
    EstadoNameRoundTrip(e);
  }

  /** A type sent by its name comes back as the same type. */
  lemma TipoDtoRoundTrip(t: TipoRegistro)
    ensures TipoFromDto(TipoName(t)) == t
  {
    TipoNameRoundTrip(t);
  }

  // ---------------------------------------------------------------------
  // Tasks from transfer objects (`MapToTareaList`)
  // ---------------------------------------------------------------------

  /** The completion a transfer object's state stands for. */
  predicate DoneText(estado: string) {
    estado == "Cerrado" || estado == "Finalizado"
  }

  /**
   * The task `MapToTareaList` builds for one object before its children
   * are added: a new task (dated `today`, at level `nivel`) whose
   * properties are then assigned in the initializer's order, through
   * their setters. `fileLength` stands for the file system the
   * attachment setter reads.
   */
  function LoadedNode(d: RegistroDto, nivel: Int32, fileLength: string -> Option<Int64>, today: DateTime): (t: Tarea)
    ensures t.id == d.id && t.descripcion == d.titulo && t.completada == DoneText(d.estado)
    ensures t.subtareas == [] && t.nivel == nivel && !t.isSubtask
    ensures t.tiempoEstimado == d.tiempoEstimado && t.tiempoTranscurrido == d.tiempoTranscurrido
    ensures t.fechaFin == d.fechaFin
    // the start is kept unless a later start than the end was dragged back onto it
    ensures t.fechaInicio != d.fechaInicio ==>
      t.fechaInicio == d.fechaFin && d.fechaInicio.Some? && d.fechaFin.Some? && d.fechaFin.value < d.fechaInicio.value
  {
    var t0 := NewTarea(d.id, today).(nivel := nivel, descripcion := d.titulo, completada := DoneText(d.estado));
    var t1 := WithArchivosAdjuntos(t0, d.adjuntos, fileLength);
    var eliminados := if d.adjuntosEliminados.Some? then d.adjuntosEliminados.value else [];
    var t2 := t1.(adjuntosEliminados := eliminados, tiempoEstimado := d.tiempoEstimado,
                  tiempoTranscurrido := d.tiempoTranscurrido);
    SetFechaFin(SetFechaInicio(t2, d.fechaInicio), d.fechaFin)
  }

  /**
   * Adding the mapped children one by one (`Subtareas.Add`, after
   * `IsSubtask = true`, which the add handler sets again anyway).
   */
  function AddAll(parent: Tarea, subs: seq<Tarea>): (r: Tarea)
    ensures |r.subtareas| == |parent.subtareas| + |subs|
    ensures r == parent.(subtareas := r.subtareas, fechaInicio := r.fechaInicio,
                         fechaFin := r.fechaFin, tiempoEstimado := r.tiempoEstimado)
    decreases |subs|
  {
    if subs == [] then parent else AddAll(AddSubtarea(parent, subs[0]), subs[1..])
  }

  /**
   * `MapToTareaList` for one object and its descendants. `fixLevels`
   * chooses between the code as written (`false`: every task is built
   * at level 0, so a child's level is set from a parent still at 0) and
   * the corrected code (`true`: every task is built at its own level
   * `nivel` before its children are added).
   */
  function MapToTareaWith(d: RegistroDto, nivel: Int32, fixLevels: bool,
                          fileLength: string -> Option<Int64>, today: DateTime): (t: Tarea)
    ensures t.nivel == (if fixLevels then nivel else 0)
    decreases d
  {
    AddAll(LoadedNode(d, if fixLevels then nivel else 0, fileLength, today),
           LoadChildren(d.subRegistros, Wrap32(nivel + 1), fixLevels, fileLength, today))
  }

  /** The recursive call on the children's objects, each mapped at level `nivel`. */
  function LoadChildren(ds: seq<RegistroDto>, nivel: Int32, fixLevels: bool,
                        fileLength: string -> Option<Int64>, today: DateTime): (r: seq<Tarea>)
    ensures |r| == |ds|
    ensures forall i :: 0 <= i < |ds| ==> r[i] == MapToTareaWith(ds[i], nivel, fixLevels, fileLength, today)
    decreases ds
  {
    seq(|ds|, i requires 0 <= i < |ds| => MapToTareaWith(ds[i], nivel, fixLevels, fileLength, today))
  }

  /** `MapToTareaList` as written: levels are not carried down. */
  function MapToTareaAsWritten(d: RegistroDto, fileLength: string -> Option<Int64>, today: DateTime): (t: Tarea)
    ensures t.nivel == 0
  {
    MapToTareaWith(d, 0, false, fileLength, today)
  }

  /** `MapToTareaList` with each task built at its own level; the rest of the model loads tasks with it. */
  function MapToTarea(d: RegistroDto, nivel: Int32, fileLength: string -> Option<Int64>, today: DateTime): (t: Tarea)
    ensures t.nivel == nivel
  {
    MapToTareaWith(d, nivel, true, fileLength, today)
  }

  /** The tasks of a registro, top level at level 0, in the objects' order. */
  function MapToTareaList(ds: seq<RegistroDto>, fileLength: string -> Option<Int64>, today: DateTime): (r: seq<Tarea>)
    ensures |r| == |ds|
    ensures forall i :: 0 <= i < |ds| ==> r[i] == MapToTarea(ds[i], 0, fileLength, today)
  {
    seq(|ds|, i requires 0 <= i < |ds| => MapToTarea(ds[i], 0, fileLength, today))
  }

  /**
   * A loaded task mirrors its object: same id, the title as description,
   * the completion its state stands for, and its children matched one to
   * one with the object's children (in any order), each marked as a
   * sub-task and mirroring the object it is matched with.
   */
  ghost predicate MirrorsDto(t: Tarea, d: RegistroDto)
    decreases t, 0
  {
    && t.id == d.id && t.descripcion == d.titulo && t.completada == DoneText(d.estado)
    && ChildrenMirror(t.subtareas, d.subRegistros)
  }

  ghost predicate ChildrenMirror(cs: seq<Tarea>, ds: seq<RegistroDto>)
    decreases cs, 1
  {
    |cs| == |ds| && exists p :: Rearranges(p, |ds|) && MirrorsVia(cs, ds, p)
  }

  /** The task at `i` is a sub-task mirroring the object at `p[i]`. */
  ghost predicate MirrorsVia(cs: seq<Tarea>, ds: seq<RegistroDto>, p: seq<nat>)
    decreases cs, 0
  {
    |p| == |cs| && forall i :: 0 <= i < |cs| ==> p[i] < |ds| && cs[i].isSubtask && MirrorsDto(cs[i], ds[p[i]])
  }

  /** A property of children that the first/last flags do not affect. */
  ghost predicate FlagBlind(P: Tarea -> bool) {
    forall x :: P(Unflagged(x)) == P(x)
  }

  /** Adding a child keeps a flag-blind property of all children when the added child has it. */
  lemma AddSubtareaKeeps(parent: Tarea, child: Tarea, P: Tarea -> bool)
    requires FlagBlind(P)
    requires forall i :: 0 <= i < |parent.subtareas| ==> P(parent.subtareas[i])
    requires P(AsChildOf(parent, child))
    ensures forall i :: 0 <= i < |AddSubtarea(parent, child).subtareas| ==> P(AddSubtarea(parent, child).subtareas[i])
  {
    var r := AddSubtarea(parent, child);
    var c := AsChildOf(parent, child);
    forall j | 0 <= j < |r.subtareas|
      ensures P(r.subtareas[j])
    {
      var x := r.subtareas[j];
      assert Unflagged(x) in multiset(MapSeq(Unflagged, r.subtareas)) by {
        assert MapSeq(Unflagged, r.subtareas)[j] == Unflagged(x);
      }
      assert P(Unflagged(x)) == P(x);
      if Unflagged(x) == Unflagged(c) {
        assert P(Unflagged(c)) == P(c);
      } else {
        assert Unflagged(x) in multiset(MapSeq(Unflagged, parent.subtareas));
        var k :| 0 <= k < |parent.subtareas| && MapSeq(Unflagged, parent.subtareas)[k] == Unflagged(x);
        assert P(Unflagged(parent.subtareas[k])) == P(parent.subtareas[k]);
      }
    }
  }

  /** Adding a run of children keeps a flag-blind property that each added child has. */
  lemma {:induction false} AddAllKeeps(parent: Tarea, subs: seq<Tarea>, P: Tarea -> bool)
    requires FlagBlind(P)
    requires forall i :: 0 <= i < |parent.subtareas| ==> P(parent.subtareas[i])
    requires forall j :: 0 <= j < |subs| ==> P(AsChildOf(parent, subs[j]))
    ensures forall i :: 0 <= i < |AddAll(parent, subs).subtareas| ==> P(AddAll(parent, subs).subtareas[i])
    decreases |subs|
  {
    if subs != [] {
      var p1 := AddSubtarea(parent, subs[0]);
      AddStepKeeps(parent, subs, P);
      AddAllKeeps(p1, subs[1..], P);
      assert AddAll(parent, subs) == AddAll(p1, subs[1..]);
    }
  }

  /** After the first child is added, the property holds of the children and of the rest to add. */
  lemma AddStepKeeps(parent: Tarea, subs: seq<Tarea>, P: Tarea -> bool)
    requires subs != [] && FlagBlind(P)
    requires forall i :: 0 <= i < |parent.subtareas| ==> P(parent.subtareas[i])
    requires forall j :: 0 <= j < |subs| ==> P(AsChildOf(parent, subs[j]))
    ensures var p1 := AddSubtarea(parent, subs[0]);
      && (forall i :: 0 <= i < |p1.subtareas| ==> P(p1.subtareas[i]))
      && (forall j :: 0 <= j < |subs[1..]| ==> P(AsChildOf(p1, subs[1..][j])))
  {
    var p1 := AddSubtarea(parent, subs[0]);
    AddSubtareaKeeps(parent, subs[0], P);
    var rest := subs[1..];
    assert p1.nivel == parent.nivel;
    forall j | 0 <= j < |rest|
      ensures P(AsChildOf(p1, rest[j]))
    {
      assert rest[j] == subs[j + 1];
      assert AsChildOf(p1, rest[j]) == AsChildOf(parent, subs[j + 1]);
    }
  }

  /** Both mappings, as written and corrected, mirror the object tree. */
  lemma {:induction false} LoadMirrors(d: RegistroDto, nivel: Int32, fixLevels: bool,
                                       fileLength: string -> Option<Int64>, today: DateTime)
    ensures MirrorsDto(MapToTareaWith(d, nivel, fixLevels, fileLength, today), d)
    decreases d, 2
  {
    NodeMirrors(d, nivel, fixLevels, fileLength, today);
  }

  lemma {:induction false} NodeMirrors(d: RegistroDto, nivel: Int32, fixLevels: bool,
                                       fileLength: string -> Option<Int64>, today: DateTime)
    ensures MirrorsDto(AddAll(LoadedNode(d, if fixLevels then nivel else 0, fileLength, today),
                              LoadChildren(d.subRegistros, Wrap32(nivel + 1), fixLevels, fileLength, today)), d)
    decreases d, 1
  {
    var below := Wrap32(nivel + 1);
    ChildrenMirrorObjects(d.subRegistros, below, fixLevels, fileLength, today);
    KidsMirror(LoadedNode(d, if fixLevels then nivel else 0, fileLength, today),
               LoadChildren(d.subRegistros, below, fixLevels, fileLength, today), d);
  }

  lemma {:induction false} ChildrenMirrorObjects(ds: seq<RegistroDto>, nivel: Int32, fixLevels: bool,
                                                 fileLength: string -> Option<Int64>, today: DateTime)
    ensures PairwiseMirror(LoadChildren(ds, nivel, fixLevels, fileLength, today), ds)
    decreases ds, 0
  {
    forall j | 0 <= j < |ds|
      ensures MirrorsDto(LoadChildren(ds, nivel, fixLevels, fileLength, today)[j], ds[j])
    {
      LoadMirrors(ds[j], nivel, fixLevels, fileLength, today);
    }
  }

  /** No loaded child is repeated: objects with distinct ids load into children with distinct ids. */
  lemma MirrorKeepsDistinctIds(cs: seq<Tarea>, ds: seq<RegistroDto>)
    requires ChildrenMirror(cs, ds)
    requires forall i, j :: 0 <= i < j < |ds| ==> ds[i].id != ds[j].id
    ensures forall i, j :: 0 <= i < j < |cs| ==> cs[i].id != cs[j].id
  {
    var p :| Rearranges(p, |ds|) && MirrorsVia(cs, ds, p);
    var ids := seq(|cs|, i requires 0 <= i < |cs| => ds[p[i]].id);
    forall i | 0 <= i < |cs|
      ensures cs[i].id == ids[i]
    {
      assert MirrorsDto(cs[i], ds[p[i]]);
    }
    forall i, j | 0 <= i < j < |cs|
      ensures ids[i] != ids[j]
    {
      assert p[i] != p[j];
    }
  }

  /** Each task mirrors the object at its own position. */
  ghost predicate PairwiseMirror(kids: seq<Tarea>, ds: seq<RegistroDto>) {
    |kids| == |ds| && forall j :: 0 <= j < |kids| ==> MirrorsDto(kids[j], ds[j])
  }

  /** A node built from an object, with children that each mirror their object, mirrors the object. */
  lemma KidsMirror(node: Tarea, kids: seq<Tarea>, d: RegistroDto)
    requires node.id == d.id && node.descripcion == d.titulo && node.completada == DoneText(d.estado)
    requires node.subtareas == [] && PairwiseMirror(kids, d.subRegistros)
    ensures MirrorsDto(AddAll(node, kids), d)
  {
    var r := AddAll(node, kids).subtareas;
    AddAllMultiset(node, kids);
    assert MapSeq(Unflagged, node.subtareas) == [];
    var p := MultisetRearranges(MapSeq(Unflagged, r), AddedChildren(node, kids));
    forall i | 0 <= i < |r|
      ensures r[i].isSubtask && MirrorsDto(r[i], d.subRegistros[p[i]])
    {
      assert Unflagged(r[i]) == Unflagged(AsChildOf(node, kids[p[i]]));
      MirrorIgnoresMarks(kids[p[i]], r[i], d.subRegistros[p[i]]);
    }
    assert MirrorsVia(r, d.subRegistros, p);
  }

  /** The children `subs` as `AddSubtarea` stores them under `parent`, position flags cleared. */
  function AddedChildren(parent: Tarea, subs: seq<Tarea>): (r: seq<Tarea>)
    ensures |r| == |subs|
    ensures forall j :: 0 <= j < |subs| ==> r[j] == Unflagged(AsChildOf(parent, subs[j]))
  {
    seq(|subs|, j requires 0 <= j < |subs| => Unflagged(AsChildOf(parent, subs[j])))
  }

  /** Adding a run of children adds each of them once, whatever order the sorting leaves. */
  lemma {:induction false} AddAllMultiset(parent: Tarea, subs: seq<Tarea>)
    ensures multiset(MapSeq(Unflagged, AddAll(parent, subs).subtareas))
         == multiset(MapSeq(Unflagged, parent.subtareas)) + multiset(AddedChildren(parent, subs))
    decreases |subs|
  {
    if subs == [] {
      assert AddedChildren(parent, subs) == [];
    } else {
      var p1 := AddSubtarea(parent, subs[0]);
      AddAllMultiset(p1, subs[1..]);
      assert AddAll(parent, subs) == AddAll(p1, subs[1..]);
      AddedStep(parent, p1, subs);
    }
  }

  /** Only the parent's level decides how the children are stored, so the first step leaves the rest as they were. */
  lemma AddedStep(parent: Tarea, p1: Tarea, subs: seq<Tarea>)
    requires subs != [] && p1.nivel == parent.nivel
    ensures AddedChildren(parent, subs) == [Unflagged(AsChildOf(parent, subs[0]))] + AddedChildren(p1, subs[1..])
  {
    var rest := AddedChildren(p1, subs[1..]);
    forall j | 0 <= j < |rest|
      ensures rest[j] == AddedChildren(parent, subs)[j + 1]
    {
      assert subs[1..][j] == subs[j + 1];
    }
  }

  /** Mirroring reads only the id, description, completion and children of a task. */
  lemma MirrorIgnoresMarks(x: Tarea, y: Tarea, d: RegistroDto)
    requires x.id == y.id && x.descripcion == y.descripcion && x.completada == y.completada
    requires x.subtareas == y.subtareas
    ensures MirrorsDto(x, d) == MirrorsDto(y, d)
  {
  }

  /** Every level below the root holds the same number `v`. */
  predicate AllBelowAt(t: Tarea, v: int)
    decreases t
  {
    ChildrenAt(t.subtareas, v)
  }

  predicate ChildrenAt(cs: seq<Tarea>, v: int)
    decreases cs
  {
    forall i :: 0 <= i < |cs| ==> cs[i].nivel == v && AllBelowAt(cs[i], v)
  }

  /**
   * As written, every task below the top is at level 1, however deep it
   * sits: a child's level is set while its parent is still at 0.
   */
  lemma {:induction false} AsWrittenLevels(d: RegistroDto, nivel: Int32, fileLength: string -> Option<Int64>, today: DateTime)
    ensures AllBelowAt(MapToTareaWith(d, nivel, false, fileLength, today), 1)
    decreases d, 1
  {
    var below := Wrap32(nivel + 1);
    ChildrenAsWritten(d.subRegistros, below, fileLength, today);
    KidsAtOne(LoadedNode(d, 0, fileLength, today), LoadChildren(d.subRegistros, below, false, fileLength, today));
  }

  lemma {:induction false} ChildrenAsWritten(ds: seq<RegistroDto>, nivel: Int32, fileLength: string -> Option<Int64>, today: DateTime)
    ensures EachBelowAt(LoadChildren(ds, nivel, false, fileLength, today), 1)
    decreases ds, 0
  {
    forall j | 0 <= j < |ds|
      ensures AllBelowAt(LoadChildren(ds, nivel, false, fileLength, today)[j], 1)
    {
      AsWrittenLevels(ds[j], nivel, fileLength, today);
    }
  }

  /** Below every task of `kids` all levels are `v`. */
  predicate EachBelowAt(kids: seq<Tarea>, v: int) {
    forall j :: 0 <= j < |kids| ==> AllBelowAt(kids[j], v)
  }

  /** A task at level 1 with every level below it at 1 too. */
  predicate AtOne(x: Tarea) {
    x.nivel == 1 && AllBelowAt(x, 1)
  }

  /** Children added under a parent at level 0 land at level 1. */
  lemma KidsAtOne(node: Tarea, kids: seq<Tarea>)
    requires node.subtareas == [] && node.nivel == 0
    requires EachBelowAt(kids, 1)
    ensures AllBelowAt(AddAll(node, kids), 1)
  {
    AtOneFlagBlind();
    KidsAtOneAdded(node, kids);
    AddAllKeeps(node, kids, AtOne);
    AtOneChildren(AddAll(node, kids));
  }

  lemma AtOneFlagBlind()
    ensures FlagBlind(AtOne)
  {
    forall x: Tarea
      ensures AtOne(Unflagged(x)) == AtOne(x)
    {
      assert Unflagged(x).subtareas == x.subtareas;
    }
  }

  lemma KidsAtOneAdded(node: Tarea, kids: seq<Tarea>)
    requires node.nivel == 0 && EachBelowAt(kids, 1)
    ensures forall j :: 0 <= j < |kids| ==> AtOne(AsChildOf(node, kids[j]))
  {
    forall j | 0 <= j < |kids|
      ensures AtOne(AsChildOf(node, kids[j]))
    {
      assert AsChildOf(node, kids[j]).subtareas == kids[j].subtareas;
    }
  }

  lemma AtOneChildren(t: Tarea)
    requires forall i :: 0 <= i < |t.subtareas| ==> AtOne(t.subtareas[i])
    ensures AllBelowAt(t, 1)
  {
  }

  /**
   * The discrepancy: an object whose every child has children of its own
   * loads into a tree whose levels are not consistent; its grandchildren
   * sit at level 1, below the form's limit of 2, so the form lets a
   * fourth level be added under them.
   */
  lemma AsWrittenLevelsBroken(d: RegistroDto, fileLength: string -> Option<Int64>, today: DateTime)
    requires d.subRegistros != []
    requires forall j :: 0 <= j < |d.subRegistros| ==> d.subRegistros[j].subRegistros != []
    ensures var t := MapToTareaAsWritten(d, fileLength, today);
      && |t.subtareas| > 0 && |t.subtareas[0].subtareas| > 0
      && t.subtareas[0].subtareas[0].nivel == 1
      && !LevelsConsistent(t)
  {
    var t := MapToTareaAsWritten(d, fileLength, today);
    LoadMirrors(d, 0, false, fileLength, today);
    AsWrittenLevels(d, 0, fileLength, today);
    MirrorKeepsDepth(t, d);
    GrandchildAtOne(t);
  }

  /** A tree mirroring an object whose children all have children has a grandchild under its first child. */
  lemma MirrorKeepsDepth(t: Tarea, d: RegistroDto)
    requires MirrorsDto(t, d) && d.subRegistros != []
    requires forall j :: 0 <= j < |d.subRegistros| ==> d.subRegistros[j].subRegistros != []
    ensures |t.subtareas| > 0 && |t.subtareas[0].subtareas| > 0
  {
    var p :| Rearranges(p, |d.subRegistros|) && MirrorsVia(t.subtareas, d.subRegistros, p);
    var j := p[0];
    assert MirrorsDto(t.subtareas[0], d.subRegistros[j]);
    assert ChildrenMirror(t.subtareas[0].subtareas, d.subRegistros[j].subRegistros);
    assert d.subRegistros[j].subRegistros != [];
  }

  /** With every level below the top at 1, a grandchild is at 1 and the levels are not consistent. */
  lemma GrandchildAtOne(t: Tarea)
    requires AllBelowAt(t, 1) && |t.subtareas| > 0 && |t.subtareas[0].subtareas| > 0
    ensures t.subtareas[0].subtareas[0].nivel == 1 && !LevelsConsistent(t)
  {
    var x := t.subtareas[0];
    assert x.nivel == 1 && AllBelowAt(x, 1);
    assert ChildrenAt(x.subtareas, 1);
    assert x.subtareas[0].nivel == 1;
  }

  /** The object tree is at most `k` levels deep below its root. */
  predicate DepthAtMost(d: RegistroDto, k: nat)
    decreases d
  {
    forall i :: 0 <= i < |d.subRegistros| ==> k > 0 && DepthAtMost(d.subRegistros[i], k - 1)
  }

  /**
   * The corrected mapping puts every child exactly one level below its
   * parent, as long as the levels stay within 32 bits.
   */
  lemma {:induction false} LoadKeepsLevels(d: RegistroDto, nivel: Int32, k: nat,
                                           fileLength: string -> Option<Int64>, today: DateTime)
    requires DepthAtMost(d, k) && nivel as int + k <= Int32Max
    ensures LevelsConsistent(MapToTarea(d, nivel, fileLength, today))
    decreases d, 1
  {
    if d.subRegistros == [] {
      assert LoadChildren(d.subRegistros, Wrap32(nivel + 1), true, fileLength, today) == [];
    } else {
      var first := d.subRegistros[0];
      assert k > 0;
      var below: Int32 := nivel + 1;
      ChildrenKeepLevels(d.subRegistros, below, k - 1, fileLength, today);
      KidsOneBelow(LoadedNode(d, nivel, fileLength, today), LoadChildren(d.subRegistros, below, true, fileLength, today));
    }
  }

  lemma {:induction false} ChildrenKeepLevels(ds: seq<RegistroDto>, nivel: Int32, k: nat,
                                              fileLength: string -> Option<Int64>, today: DateTime)
    requires forall j :: 0 <= j < |ds| ==> DepthAtMost(ds[j], k)
    requires nivel as int + k <= Int32Max
    ensures EachConsistentAt(LoadChildren(ds, nivel, true, fileLength, today), nivel)
    decreases ds, 0
  {
    forall j | 0 <= j < |ds|
      ensures LevelsConsistent(LoadChildren(ds, nivel, true, fileLength, today)[j])
    {
      LoadKeepsLevels(ds[j], nivel, k, fileLength, today);
    }
  }

  /** A task at level `n` with consistent levels below it, as a property of children. */
  function ConsistentAt(n: int): Tarea -> bool {
    (x: Tarea) => x.nivel == n && LevelsConsistent(x)
  }

  /** Consistent children one level below their parent stay so once added. */
  lemma KidsOneBelow(node: Tarea, kids: seq<Tarea>)
    requires node.subtareas == [] && node.nivel < Int32Max
    requires EachConsistentAt(kids, node.nivel + 1)
    ensures LevelsConsistent(AddAll(node, kids))
  {
    var n := node.nivel + 1;
    ConsistentAtFlagBlind(n);
    KidsOneBelowAdded(node, kids);
    AddAllKeeps(node, kids, ConsistentAt(n));
    ConsistentChildren(AddAll(node, kids));
  }

  lemma ConsistentAtFlagBlind(n: int)
    ensures FlagBlind(ConsistentAt(n))
  {
    forall x: Tarea
      ensures ConsistentAt(n)(Unflagged(x)) == ConsistentAt(n)(x)
    {
      LevelsIgnoreFlags(x);
    }
  }

  lemma KidsOneBelowAdded(node: Tarea, kids: seq<Tarea>)
    requires node.nivel < Int32Max && EachConsistentAt(kids, node.nivel + 1)
    ensures forall j :: 0 <= j < |kids| ==> ConsistentAt(node.nivel + 1)(AsChildOf(node, kids[j]))
  {
    forall j | 0 <= j < |kids|
      ensures ConsistentAt(node.nivel + 1)(AsChildOf(node, kids[j]))
    {
      assert AsChildOf(node, kids[j]) == kids[j].(isSubtask := true);
      LevelsIgnoreSubtaskMark(kids[j]);
    }
  }

  lemma ConsistentChildren(t: Tarea)
    requires forall i :: 0 <= i < |t.subtareas| ==> ConsistentAt(t.nivel + 1)(t.subtareas[i])
    ensures LevelsConsistent(t)
  {
  }

  lemma LevelsIgnoreSubtaskMark(t: Tarea)
    ensures LevelsConsistent(t.(isSubtask := true)) == LevelsConsistent(t)
  {
  }

  // ---------------------------------------------------------------------
  // Tasks to transfer objects (`MapSubtasksToRegistroDtoList`)
  // ---------------------------------------------------------------------

  /**
   * One task as a transfer object: the description goes out as the title,
   * completion as "Cerrado" or "Pendiente", and type, creator and assignee
   * come from the registro; every other field keeps its default.
   */
  function TareaToDto(t: Tarea, parent: Registro): (d: RegistroDto)
    ensures d.id == t.id && d.titulo == t.descripcion && d.descripcion == ""
    ensures d.estado == (if t.completada then "Cerrado" else "Pendiente")
    ensures DoneText(d.estado) <==> t.completada
    ensures |d.subRegistros| == |t.subtareas|
    ensures forall i :: 0 <= i < |t.subtareas| ==> d.subRegistros[i] == TareaToDto(t.subtareas[i], parent)
    decreases t
  {
    RegistroDto(
      t.id, 0, TipoName(parent.tipo), t.descripcion, "", parent.creadoPor, parent.asignadoA,
      0, None, None, t.fechaInicio, t.fechaFin,
      if t.completada then "Cerrado" else "Pendiente",
      t.tiempoTranscurrido, t.tiempoEstimado,
      None, None, None, None, None, t.archivosAdjuntos, None,
      seq(|t.subtareas|, i requires 0 <= i < |t.subtareas| => TareaToDto(t.subtareas[i], parent)),
      0, 0, Some(t.adjuntosEliminados), None)
  }

  /**
   * Two task trees agree on id, description and completion at every
   * depth, their children matched one to one in some order.
   */
  ghost predicate SameTasks(a: Tarea, b: Tarea)
    decreases a, 0
  {
    && a.id == b.id && a.descripcion == b.descripcion && a.completada == b.completada
    && SameChildren(a.subtareas, b.subtareas)
  }

  /** The tasks of `as_` are those of `bs` rearranged, each agreeing with its partner. */
  ghost predicate SameChildren(as_: seq<Tarea>, bs: seq<Tarea>)
    decreases as_, 1
  {
    |as_| == |bs| && exists p :: Rearranges(p, |bs|) && SameVia(as_, bs, p)
  }

  ghost predicate SameVia(as_: seq<Tarea>, bs: seq<Tarea>, p: seq<nat>)
    decreases as_, 0
  {
    |p| == |as_| && forall i :: 0 <= i < |as_| ==> p[i] < |bs| && SameTasks(as_[i], bs[p[i]])
  }

  lemma {:induction false} MirrorsOwnDto(x: Tarea, t: Tarea, parent: Registro)
    requires MirrorsDto(x, TareaToDto(t, parent))
    ensures SameTasks(x, t)
    decreases x, 1
  {
    ChildrenOwnDtos(x.subtareas, t.subtareas, TareaToDto(t, parent).subRegistros, parent);
  }

  lemma {:induction false} ChildrenOwnDtos(xs: seq<Tarea>, ts: seq<Tarea>, ds: seq<RegistroDto>, parent: Registro)
    requires |ds| == |ts| && forall i :: 0 <= i < |ts| ==> ds[i] == TareaToDto(ts[i], parent)
    requires ChildrenMirror(xs, ds)
    ensures SameChildren(xs, ts)
    decreases xs, 0
  {
    var p :| Rearranges(p, |ds|) && MirrorsVia(xs, ds, p);
    forall i | 0 <= i < |xs|
      ensures SameTasks(xs[i], ts[p[i]])
    {
      MirrorsOwnDto(xs[i], ts[p[i]], parent);
    }
    assert SameVia(xs, ts, p);
  }

  /**
   * Saving a task and loading it back keeps its id, description and
   * completion at every depth (children come back sorted by start).
   */
  lemma TareaRoundTrip(t: Tarea, parent: Registro, nivel: Int32, fileLength: string -> Option<Int64>, today: DateTime)
    ensures SameTasks(MapToTarea(TareaToDto(t, parent), nivel, fileLength, today), t)
  {
    LoadMirrors(TareaToDto(t, parent), nivel, true, fileLength, today);
    MirrorsOwnDto(MapToTarea(TareaToDto(t, parent), nivel, fileLength, today), t, parent);
  }

  /** A task without children and with ordered dates comes back with its own dates, times and texts. */
  lemma LeafRoundTrip(t: Tarea, parent: Registro, nivel: Int32, fileLength: string -> Option<Int64>, today: DateTime)
    requires t.subtareas == [] && DatesOrdered(t)
    ensures var r := MapToTarea(TareaToDto(t, parent), nivel, fileLength, today);
      && r.id == t.id && r.descripcion == t.descripcion && r.completada == t.completada
      && r.tiempoEstimado == t.tiempoEstimado && r.tiempoTranscurrido == t.tiempoTranscurrido
      && r.fechaInicio == t.fechaInicio && r.fechaFin == t.fechaFin && r.subtareas == []
  {
    var d := TareaToDto(t, parent);
    assert d.subRegistros == [];
    var node := LoadedNode(d, nivel, fileLength, today);
    assert MapToTarea(d, nivel, fileLength, today) == AddAll(node, []);
  }

  // ---------------------------------------------------------------------
  // Registros
  // ---------------------------------------------------------------------

  /**
   * `MapToRegistro`: every field copied, the type and state read from
   * their text, missing deletion lists as empty, the tasks mapped; the
   * contact and telephone are not read.
   */
  function MapToRegistro(dto: RegistroDto, fileLength: string -> Option<Int64>, today: DateTime): (r: Registro)
    ensures r.tipo == TipoFromDto(dto.tipo) && r.estado == EstadoFromDto(dto.estado)
    ensures r.contacto.None? && r.telefono.None?
    ensures |r.tareas| == |dto.subRegistros|
    ensures forall i :: 0 <= i < |r.tareas| ==> r.tareas[i].nivel == 0
  {
    Registro(
      dto.id, dto.numero, TipoFromDto(dto.tipo), dto.titulo, dto.descripcion, dto.creadoPor, dto.asignadoA,
      dto.fechaCreacion, dto.fechaAsignacion, dto.fechaCierre, EstadoFromDto(dto.estado),
      dto.tiempoTranscurrido, dto.tiempoEstimado, dto.proyecto, dto.empresa, None, None,
      dto.prioridad, dto.adjuntos, dto.nombreAsignado,
      MapToTareaList(dto.subRegistros, fileLength, today),
      dto.taskCountFromDb, dto.totalPesoAdjuntosKb,
      if dto.adjuntosEliminados.Some? then dto.adjuntosEliminados.value else [],
      if dto.adjuntosTareasEliminados.Some? then dto.adjuntosTareasEliminados.value else [])
  }

  /** `MapToRegistroDto`: type and state go out by name, the tasks as sub-registros. */
  function MapToRegistroDto(r: Registro): (d: RegistroDto)
    ensures d.tipo == TipoName(r.tipo) && d.estado == EstadoName(r.estado)
    ensures |d.subRegistros| == |r.tareas|
    ensures forall i :: 0 <= i < |r.tareas| ==> d.subRegistros[i] == TareaToDto(r.tareas[i], r)
  {
    RegistroDto(
      r.id, r.numero, TipoName(r.tipo), r.titulo, r.descripcion, r.creadoPor, r.asignadoA,
      r.fechaCreacion, r.fechaAsignacion, r.fechaCierre, None, None, EstadoName(r.estado),
      r.tiempoTranscurrido, r.tiempoEstimado, r.proyecto, r.empresa, r.contacto, r.telefono,
      r.prioridad, r.adjuntos, None,
      seq(|r.tareas|, i requires 0 <= i < |r.tareas| => TareaToDto(r.tareas[i], r)),
      0, r.totalPesoAdjuntosKb, Some(r.adjuntosEliminados), Some(r.adjuntosTareasEliminados))
  }

  /**
   * Saving a registro and loading it back gives the same registro, except
   * that the contact, telephone, assignee name and task count are not
   * carried, and the tasks agree at every depth on id, description and
   * completion.
   */
  lemma RegistroRoundTrip(r: Registro, fileLength: string -> Option<Int64>, today: DateTime)
    ensures var back := MapToRegistro(MapToRegistroDto(r), fileLength, today);
      && back == r.(contacto := None, telefono := None, nombreAsignado := None, taskCountFromDb := 0,
                    tareas := back.tareas)
      && |back.tareas| == |r.tareas|
      && forall i :: 0 <= i < |r.tareas| ==> SameTasks(back.tareas[i], r.tareas[i])
  {
    EstadoDtoRoundTrip(r.estado);
    TipoDtoRoundTrip(r.tipo);
    var d := MapToRegistroDto(r);
    var back := MapToRegistro(d, fileLength, today);
    forall i | 0 <= i < |r.tareas|
      ensures SameTasks(back.tareas[i], r.tareas[i])
    {
      TareaRoundTrip(r.tareas[i], r, 0, fileLength, today);
    }
  }

  // ---------------------------------------------------------------------
  // Uploading task evidence (`UploadEvidenciasTareasAsync`)
  // ---------------------------------------------------------------------

  /** What the upload reads from outside: which paths are web addresses, and which files exist. */
  datatype UploadEnv = UploadEnv(isHttpUrl: string -> bool, fileExists: string -> bool)

  /** One form posted for a server task: the paths of the files it carries. */
  datatype Upload = Upload(serverTaskId: string, paths: seq<string>)

  /** A path that goes into a form: not blank, not a web address, and an existing file. */
  predicate Sendable(p: string, env: UploadEnv) {
    !IsBlank(p) && !env.isHttpUrl(p) && env.fileExists(p)
  }

  /** The paths of a list that go into a form, in order. */
  function SendablePaths(paths: seq<string>, env: UploadEnv): (r: seq<string>)
    ensures forall p :: p in r <==> p in paths && Sendable(p, env)
    ensures |r| <= |paths|
  {
    if paths == [] then []
    else (if Sendable(paths[0], env) then [paths[0]] else []) + SendablePaths(paths[1..], env)
  }

  lemma {:induction false} SendablePathsSnoc(paths: seq<string>, p: string, env: UploadEnv)
    ensures SendablePaths(paths + [p], env) == SendablePaths(paths, env) + (if Sendable(p, env) then [p] else [])
  {
    if paths != [] {
      assert (paths + [p])[1..] == paths[1..] + [p];
      SendablePathsSnoc(paths[1..], p, env);
    }
  }

  /** The form of one task pair: none for a blank server id, no attachments or nothing to send. */
  function PairForm(client: Tarea, server: Tarea, env: UploadEnv): (r: seq<Upload>)
    ensures |r| <= 1
    ensures r != [] ==> r[0].serverTaskId == server.id && !IsBlank(server.id) && r[0].paths != []
    ensures r != [] ==> forall p :: p in r[0].paths ==> Sendable(p, env)
  {
    if IsBlank(server.id) || IsNullOrWhiteSpace(client.archivosAdjuntos) then []
    else
      var paths := SendablePaths(SplitNonEmpty(client.archivosAdjuntos.value, ';'), env);
      if paths == [] then [] else [Upload(server.id, paths)]
  }

  /**
   * The forms posted for the first `k` pairs: for each pair, first those of
   * its sub-tasks (only when both tasks have some), then its own.
   */
  function UploadsUpTo(client: seq<Tarea>, server: seq<Tarea>, k: nat, env: UploadEnv): seq<Upload>
    requires k <= |client| && k <= |server|
    decreases client, k
  {
    if k == 0 then [] else UploadsUpTo(client, server, k - 1, env) + PairUploads(client[k - 1], server[k - 1], env)
  }

  function PairUploads(client: Tarea, server: Tarea, env: UploadEnv): seq<Upload>
    decreases client
  {
    (if client.subtareas != [] && server.subtareas != [] then TaskUploads(client.subtareas, server.subtareas, env) else [])
      + PairForm(client, server, env)
  }

  /** Tasks are paired by position, up to the shorter list. */
  function TaskUploads(client: seq<Tarea>, server: seq<Tarea>, env: UploadEnv): seq<Upload>
    decreases client, |client| + 1
  {
    UploadsUpTo(client, server, if |client| < |server| then |client| else |server|, env)
  }

  /** The loop over one task's attachment list. */
  method FormPaths(adjuntos: string, env: UploadEnv) returns (paths: seq<string>)
    ensures paths == SendablePaths(SplitNonEmpty(adjuntos, ';'), env)
  {
    var archivos := SplitNonEmpty(adjuntos, ';');
    paths := [];
    var i := 0;
    while i < |archivos|
      invariant 0 <= i <= |archivos|
      invariant paths == SendablePaths(archivos[..i], env)
    {
      var ruta := archivos[i];
      assert archivos[..i + 1] == archivos[..i] + [ruta];
      SendablePathsSnoc(archivos[..i], ruta, env);
      if IsBlank(ruta) || env.isHttpUrl(ruta) || !env.fileExists(ruta) {
        i := i + 1;
        continue;
      }
      paths := paths + [ruta];
      i := i + 1;
    }
    assert archivos[..i] == archivos;
  }

  /**
   * `UploadEvidenciasTareasAsync`: with a blank registro id nothing is
   * sent; otherwise client and server tasks are paired by position up to
   * the shorter list, and each pair sends its sub-tasks' forms and then
   * its own.
   */
  method UploadEvidenciasTareas(bitacoraId: string, client: seq<Tarea>, server: seq<Tarea>, env: UploadEnv)
    returns (uploads: seq<Upload>)
    ensures uploads == if IsBlank(bitacoraId) then [] else TaskUploads(client, server, env)
    decreases client, 0
  {
    uploads := [];
    if IsBlank(bitacoraId) || client == [] || server == [] {
      return;
    }
    var total := if |client| < |server| then |client| else |server|;
    for i := 0 to total
      invariant uploads == UploadsUpTo(client, server, i, env)
    {
      var own := UploadPair(bitacoraId, client[i], server[i], env);
      uploads := uploads + own;
    }
  }

  /** One pair of the loop: the sub-tasks' forms (when both sides have some), then the pair's own. */
  method UploadPair(bitacoraId: string, c: Tarea, s: Tarea, env: UploadEnv) returns (own: seq<Upload>)
    requires !IsBlank(bitacoraId)
    ensures own == PairUploads(c, s, env)
    decreases c, 1
  {
    own := [];
    if c.subtareas != [] && s.subtareas != [] {
      own := UploadEvidenciasTareas(bitacoraId, c.subtareas, s.subtareas, env);
    }
    if !IsBlank(s.id) && !IsNullOrWhiteSpace(c.archivosAdjuntos) {
      var paths := FormPaths(c.archivosAdjuntos.value, env);
      if paths != [] {
        own := own + [Upload(s.id, paths)];
      }
    }
  }

  /** Extra tasks on the longer side are never paired. */
  lemma UploadsIgnoreExtra(client: seq<Tarea>, server: seq<Tarea>, more: seq<Tarea>, env: UploadEnv)
    requires |client| <= |server|
    ensures TaskUploads(client, server + more, env) == TaskUploads(client, server, env)
    ensures TaskUploads(server + more, client, env) == TaskUploads(server, client, env)
  {
    var k := |client|;
    assert (server + more)[..k] == server[..k];
    UploadsUpToPrefix(client, server + more, client, server, k, env);
    UploadsUpToPrefix(server + more, client, server, client, k, env);
  }

  /** The forms for the first `k` pairs depend only on the first `k` tasks of each side. */
  lemma {:induction false} UploadsUpToPrefix(a: seq<Tarea>, b: seq<Tarea>, a': seq<Tarea>, b': seq<Tarea>, k: nat, env: UploadEnv)
    requires k <= |a| && k <= |b| && k <= |a'| && k <= |b'|
    requires a[..k] == a'[..k] && b[..k] == b'[..k]
    ensures UploadsUpTo(a, b, k, env) == UploadsUpTo(a', b', k, env)
    decreases k
  {
    if k > 0 {
      assert a[..k - 1] == a'[..k - 1] && b[..k - 1] == b'[..k - 1];
      assert a[k - 1] == a[..k][k - 1] && a'[k - 1] == a'[..k][k - 1];
      assert b[k - 1] == b[..k][k - 1] && b'[k - 1] == b'[..k][k - 1];
      UploadsUpToPrefix(a, b, a', b', k - 1, env);
    }
  }

  /** Every form names a non-blank server task and carries only sendable paths. */
  lemma {:induction false} UploadsWellFormed(client: seq<Tarea>, server: seq<Tarea>, k: nat, env: UploadEnv)
    requires k <= |client| && k <= |server|
    ensures forall u :: u in UploadsUpTo(client, server, k, env) ==> WellFormedUpload(u, env)
    decreases client, k
  {
    if k > 0 {
      UploadsWellFormed(client, server, k - 1, env);
      var c, s := client[k - 1], server[k - 1];
      var inner := if c.subtareas != [] && s.subtareas != [] then TaskUploads(c.subtareas, s.subtareas, env) else [];
      if c.subtareas != [] && s.subtareas != [] {
        UploadsWellFormed(c.subtareas, s.subtareas,
          if |c.subtareas| < |s.subtareas| then |c.subtareas| else |s.subtareas|, env);
      }
      assert UploadsUpTo(client, server, k, env) == UploadsUpTo(client, server, k - 1, env) + inner + PairForm(c, s, env);
    }
  }

  /** A form names a non-blank server task and carries only sendable paths, at least one. */
  predicate WellFormedUpload(u: Upload, env: UploadEnv) {
    !IsBlank(u.serverTaskId) && u.paths != [] && forall p :: p in u.paths ==> Sendable(p, env)
  }
}
