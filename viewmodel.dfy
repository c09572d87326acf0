/**
 * The list view model (`RegistroViewModel`): the loaded registros, the five
 * per-state counters, the state filter, the registro being timed, and the
 * start / pause / close / status-update operations that move registros
 * between states and accumulate their elapsed time.
 *
 * `Registro` is a class in the client and the view model holds references:
 * the loaded list, the filtered view and `RegistroActivo` may all point at
 * the same object, and a registro fetched from the API is a fresh object
 * that is not in the list. The model keeps that sharing explicit: every
 * object ever created sits in the arena `objetos`, and the list, the view,
 * the active registro and the timer's captured variables are positions in
 * it (`Ref`). Elapsed seconds since the clock started are parameters; the
 * API, the socket notifications and the toasts are left out.
 */
module ViewModel {
  import opened Core
  import opened Dtos
  import opened Registros
  import opened StableSort

  /** A reference to a `Registro` object: its position in the arena. */
  type Ref = nat

  /**
   * The running `DispatcherTimer` and what its tick handler captured:
   * the one started by a status update (the list item `regLocal`), by the
   * auto-resume of a load (the base time and id), or by a start (the base
   * time, the id and the list item found for it).
   */
  datatype Cronometro =
    | Parado
    | DeEstado(regLocal: Ref)
    | DeCarga(base: Int32, id: string)
    | DeInicio(base: Int32, id: string, enLista: Option<Ref>)

  /** `CountPlanificar`, `CountEnEspera`, `CountCurso`, `CountPausado`, `CountCompletados`, `CountTodos`. */
  datatype Contadores = Contadores(planificar: nat, enEspera: nat, curso: nat, pausado: nat, completados: nat, todos: nat)

  /**
   * The view model's state: the arena, `_todosRegistros`, `Registros`, the
   * counters, `EstadoFiltroActual`, `RegistroActivo`, whether
   * `_inicioTiempo` is set, the time the active registro had when its clock
   * started, and the timer.
   */
  datatype Vista = Vista(
    objetos: seq<Registro>,
    todos: seq<Ref>,
    visibles: seq<Ref>,
    contadores: Contadores,
    filtro: Option<EstadoRegistro>,
    activo: Option<Ref>,
    midiendo: bool,
    base: Int32,
    cronometro: Cronometro)

  predicate RefsBelow(refs: seq<Ref>, n: nat) {
    forall i :: 0 <= i < |refs| ==> refs[i] < n
  }

  predicate CronometroBelow(c: Cronometro, n: nat) {
    match c
    case Parado => true
    case DeEstado(r) => r < n
    case DeCarga(_, _) => true
    case DeInicio(_, _, e) => e.Some? ==> e.value < n
  }

  /** Every reference points at an object, and the list holds each object once. */
  predicate Valid(v: Vista) {
    && RefsBelow(v.todos, |v.objetos|)
    && RefsBelow(v.visibles, |v.objetos|)
    && (v.activo.Some? ==> v.activo.value < |v.objetos|)
    && CronometroBelow(v.cronometro, |v.objetos|)
    && Distinct(v.todos)
  }

  // ---------------------------------------------------------------------
  // Counters and filter
  // ---------------------------------------------------------------------

  /** `_todosRegistros.Count(r => r.Estado == e)`. */
  function Contar(objs: seq<Registro>, refs: seq<Ref>, e: EstadoRegistro): (n: nat)
    requires RefsBelow(refs, |objs|)
    ensures n <= |refs|
  {
    if refs == [] then 0
    else Contar(objs, refs[..|refs| - 1], e) + (if objs[refs[|refs| - 1]].estado == e then 1 else 0)
  }

  /** `ActualizarContadores`. */
  function ContadoresDe(objs: seq<Registro>, refs: seq<Ref>): Contadores
    requires RefsBelow(refs, |objs|)
  {
    Contadores(Contar(objs, refs, Pendiente), Contar(objs, refs, EnEspera), Contar(objs, refs, EnProceso),
      Contar(objs, refs, Pausado), Contar(objs, refs, Cerrado), |refs|)
  }

  /** Every registro is in exactly one state, so the five counters add up to `CountTodos`. */
  lemma {:induction false} ContadoresSuman(objs: seq<Registro>, refs: seq<Ref>)
    requires RefsBelow(refs, |objs|)
    ensures var c := ContadoresDe(objs, refs);
      c.planificar + c.enEspera + c.curso + c.pausado + c.completados == c.todos
  {
    if refs != [] {
      ContadoresSuman(objs, refs[..|refs| - 1]);
    }
  }

  /** `_todosRegistros.Where(r => r.Estado == e)`, as references, in list order. */
  function Where(objs: seq<Registro>, refs: seq<Ref>, e: EstadoRegistro): (r: seq<Ref>)
    requires RefsBelow(refs, |objs|)
    ensures RefsBelow(r, |objs|) && |r| == Contar(objs, refs, e)
  {
    if refs == [] then []
    else
      var last := refs[|refs| - 1];
      Where(objs, refs[..|refs| - 1], e) + (if objs[last].estado == e then [last] else [])
  }

  /** `FiltrarPorEstado`'s new `Registros`: the whole list without a filter. */
  function Filtrar(objs: seq<Registro>, refs: seq<Ref>, filtro: Option<EstadoRegistro>): (r: seq<Ref>)
    requires RefsBelow(refs, |objs|)
    ensures RefsBelow(r, |objs|)
    ensures filtro.None? ==> r == refs
    ensures filtro.Some? ==> |r| == Contar(objs, refs, filtro.value)
  {
    match filtro
    case None => refs
    case Some(e) => Where(objs, refs, e)
  }

  /** `a` is `b` with some elements left out, the rest in the same order. */
  predicate Subsequence(a: seq<Ref>, b: seq<Ref>)
    decreases |b|
  {
    if a == [] then true
    else if b == [] then false
    else if a[|a| - 1] == b[|b| - 1] then Subsequence(a[..|a| - 1], b[..|b| - 1])
    else Subsequence(a, b[..|b| - 1])
  }

  /** Adding an element at the end of `b` keeps `a` a subsequence. */
  lemma {:induction false} SubsequenceOfSnoc(a: seq<Ref>, b: seq<Ref>, x: Ref)
    requires Subsequence(a, b)
    ensures Subsequence(a, b + [x])
    decreases |a| + |b|, 1
  {
    var bx := b + [x];
    assert bx[..|bx| - 1] == b;
    if a != [] && a[|a| - 1] == x {
      SubsequenceDropLast(a, b);
    }
  }

  /** Leaving out the last element of a subsequence keeps it a subsequence. */
  lemma {:induction false} SubsequenceDropLast(a: seq<Ref>, b: seq<Ref>)
    requires Subsequence(a, b) && a != []
    ensures Subsequence(a[..|a| - 1], b)
    decreases |a| + |b|, 0
  {
    var a', b', y := a[..|a| - 1], b[..|b| - 1], b[|b| - 1];
    assert b == b' + [y];
    if a[|a| - 1] == y {
      SubsequenceOfSnoc(a', b', y);
    } else {
      SubsequenceDropLast(a, b');
      SubsequenceOfSnoc(a', b', y);
    }
  }

  /** `FiltrarPorEstado(e)` keeps the list order. */
  lemma {:induction false} WhereKeepsOrder(objs: seq<Registro>, refs: seq<Ref>, e: EstadoRegistro)
    requires RefsBelow(refs, |objs|)
    ensures Subsequence(Where(objs, refs, e), refs)
  {
    if refs != [] {
      var front, last := refs[..|refs| - 1], refs[|refs| - 1];
      WhereKeepsOrder(objs, front, e);
      var w := Where(objs, front, e);
      if objs[last].estado == e {
        var wl := w + [last];
        assert wl[..|wl| - 1] == w;
        assert Where(objs, refs, e) == wl;
      } else {
        assert Where(objs, refs, e) == w;
        SubsequenceOfSnoc(w, front, last);
        assert front + [last] == refs;
      }
    }
  }

  /** `FiltrarPorEstado(e)` shows exactly the items in state `e`. */
  lemma {:induction false} WhereMembers(objs: seq<Registro>, refs: seq<Ref>, e: EstadoRegistro, r: Ref)
    requires RefsBelow(refs, |objs|)
    ensures r in Where(objs, refs, e) <==> r in refs && objs[r].estado == e
  {
    if refs != [] {
      var front, last := refs[..|refs| - 1], refs[|refs| - 1];
      WhereMembers(objs, front, e, r);
      assert refs == front + [last];
    }
  }

  // ---------------------------------------------------------------------
  // Look-ups (`FirstOrDefault`)
  // ---------------------------------------------------------------------

  /** The position of the first listed registro with this id. */
  function FirstById(objs: seq<Registro>, refs: seq<Ref>, id: string): (k: Option<nat>)
    requires RefsBelow(refs, |objs|)
    ensures k.Some? ==> k.value < |refs| && objs[refs[k.value]].id == id
    ensures k.Some? ==> forall j :: 0 <= j < k.value ==> objs[refs[j]].id != id
    ensures k.None? ==> forall j :: 0 <= j < |refs| ==> objs[refs[j]].id != id
  {
    if refs == [] then None
    else if objs[refs[0]].id == id then Some(0)
    else
      match FirstById(objs, refs[1..], id)
      case None => None
      case Some(k) => Some(k + 1)
  }

  /** The position of the first listed registro in progress. */
  function FirstEnProceso(objs: seq<Registro>, refs: seq<Ref>): (k: Option<nat>)
    requires RefsBelow(refs, |objs|)
    ensures k.Some? ==> k.value < |refs| && objs[refs[k.value]].estado == EnProceso
    ensures k.Some? ==> forall j :: 0 <= j < k.value ==> objs[refs[j]].estado != EnProceso
    ensures k.None? ==> forall j :: 0 <= j < |refs| ==> objs[refs[j]].estado != EnProceso
  {
    if refs == [] then None
    else if objs[refs[0]].estado == EnProceso then Some(0)
    else
      match FirstEnProceso(objs, refs[1..])
      case None => None
      case Some(k) => Some(k + 1)
  }

  // ---------------------------------------------------------------------
  // The operations, as functions of the state
  // ---------------------------------------------------------------------

  /** The counters and the filtered view recomputed from the list. */
  function Refrescar(v: Vista): (r: Vista)
    requires Valid(v)
    ensures Valid(r)
  {
    v.(contadores := ContadoresDe(v.objetos, v.todos), visibles := Filtrar(v.objetos, v.todos, v.filtro))
  }

  /** `FiltrarPorEstado(e)`. */
  function FiltrarStep(v: Vista, e: Option<EstadoRegistro>): (r: Vista)
    requires Valid(v)
    ensures Valid(r)
  {
    v.(filtro := e, visibles := Filtrar(v.objetos, v.todos, e))
  }

  /**
   * The auto-resume that ends `ActualizarListaRegistros`: with no active
   * registro, the first listed one in progress becomes active and its
   * clock starts from its stored time.
   */
  function ReanudarStep(v: Vista): (r: Vista)
    requires Valid(v)
    ensures Valid(r)
  {
    if v.activo.Some? then v
    else
      match FirstEnProceso(v.objetos, v.todos)
      case None => v
      case Some(k) =>
        var a := v.todos[k];
        var b := v.objetos[a].tiempoTranscurrido;
        v.(activo := Some(a), midiendo := true, base := b, cronometro := DeCarga(b, v.objetos[a].id))
  }

  /** The fetched registros as new objects, and the list made of exactly those. */
  function Reemplazar(v: Vista, lista: seq<Registro>): (r: Vista)
    requires Valid(v)
    ensures Valid(r)
  {
    var n := |v.objetos|;
    var todos := seq(|lista|, i requires 0 <= i < |lista| => n + i);
    assert Distinct(todos);
    v.(objetos := v.objetos + lista, todos := todos)
  }

  /**
   * `ActualizarListaRegistros(lista)`: the fetched registros are new objects
   * and become the list; the counters and the view are recomputed; then
   * the auto-resume.
   */
  function CargarStep(v: Vista, lista: seq<Registro>): (r: Vista)
    requires Valid(v)
    ensures Valid(r)
  {
    ReanudarStep(Refrescar(Reemplazar(v, lista)))
  }

  /**
   * The clock's bookkeeping when the pause time is `nuevo`: the active
   * registro and the first list item with its id become paused with that
   * time, the clock stops and nothing is active any more.
   */
  function PausarCon(v: Vista, recargar: bool, nuevo: Int32): (r: Vista)
    requires Valid(v) && v.activo.Some?
    ensures Valid(r)
  {
    var a := v.activo.value;
    var o1 := v.objetos[a := v.objetos[a].(tiempoTranscurrido := nuevo, estado := Pausado)];
    var o2 := match FirstById(o1, v.todos, o1[a].id)
      case None => o1
      case Some(k) => o1[v.todos[k] := o1[v.todos[k]].(tiempoTranscurrido := nuevo, estado := Pausado)];
    var v1 := v.(objetos := o2, cronometro := Parado, midiendo := false, activo := None);
    if recargar then Refrescar(v1) else v1
  }

  /**
   * `PausarRegistroAsync` as the source writes it: the pause time is the
   * active registro's current `TiempoTranscurrido` plus the seconds since
   * the clock started. The timer has been writing base + elapsed into that
   * same field every second, so the elapsed time is counted twice.
   */
  function PausarAsWritten(v: Vista, recargar: bool, elapsed: Int32): (r: Vista)
    requires Valid(v)
    ensures Valid(r)
  {
    if v.activo.None? || !v.midiendo then v
    else PausarCon(v, recargar, Step32(v.objetos[v.activo.value].tiempoTranscurrido, elapsed))
  }

  /**
   * `PausarRegistroAsync`, corrected: the pause time is the time the
   * registro had when its clock started plus the seconds since then.
   */
  function PausarStep(v: Vista, recargar: bool, elapsed: Int32): (r: Vista)
    requires Valid(v)
    ensures Valid(r)
  {
    if v.activo.None? || !v.midiendo then v
    else PausarCon(v, recargar, Step32(v.base, elapsed))
  }

  /** Step 2 of `IniciarRegistroAsync`: every other listed registro in progress is paused. */
  function PausarOtros(objs: seq<Registro>, refs: seq<Ref>, id: string): (r: seq<Registro>)
    requires RefsBelow(refs, |objs|)
    ensures |r| == |objs|
  {
    if refs == [] then objs
    else
      var o := PausarOtros(objs, refs[..|refs| - 1], id);
      var x := refs[|refs| - 1];
      if o[x].estado == EnProceso && o[x].id != id then o[x := o[x].(estado := Pausado)] else o
  }

  /**
   * Steps 2 to 4 of `IniciarRegistroAsync`, once the clock is paused:
   * every other listed registro in progress is paused, and the registro
   * (the listed one when there is one, else the fetched object) is put in
   * progress, made active and timed from its current time.
   */
  function ActivarStep(v: Vista, registroId: string, registro: Registro): (r: Vista)
    requires Valid(v)
    ensures Valid(r)
  {
    Refrescar(MarcarStep(v.(objetos := PausarOtros(v.objetos, v.todos, registroId)), registroId, registro))
  }

  /**
   * Steps 3 and 4: the fetched object joins the arena in progress; the
   * first listed registro with the id, when there is one, is put in
   * progress too and is the one made active, otherwise the fetched object
   * is; its clock starts from its current time.
   */
  function MarcarStep(v: Vista, registroId: string, registro: Registro): (r: Vista)
    requires Valid(v)
    ensures Valid(r)
  {
    var n := |v.objetos|;
    var o3 := v.objetos + [registro.(estado := EnProceso)];
    var k := FirstById(o3, v.todos, registroId);
    var a := if k.Some? then v.todos[k.value] else n;
    var o4 := o3[a := o3[a].(estado := EnProceso)];
    var enLista := if k.Some? then Some(a) else None;
    var b := o4[a].tiempoTranscurrido;
    v.(objetos := o4, activo := Some(a), midiendo := true, base := b,
      cronometro := DeInicio(b, registroId, enLista))
  }

  /**
   * `IniciarRegistroAsync(registroId)` given what the API returned for it:
   * nothing for a missing or closed registro; otherwise the running clock
   * is paused and the registro activated.
   */
  function IniciarStep(v: Vista, registroId: string, fetched: Option<Registro>, elapsed: Int32): (r: Vista)
    requires Valid(v)
    ensures Valid(r)
    ensures fetched.None? || fetched.value.estado == Cerrado ==> r == v
    ensures fetched.Some? && fetched.value.estado != Cerrado ==>
      && r.activo.Some? && r.midiendo && r.cronometro.DeInicio?
      && r.base == r.objetos[r.activo.value].tiempoTranscurrido == r.cronometro.base
  {
    if fetched.None? || fetched.value.estado == Cerrado then v
    else ActivarStep(PausarStep(v, false, elapsed), registroId, fetched.value)
  }

  /**
   * `CerrarRegistroAsync(registroId)` given what the API returned for it,
   * the current time and the list reloaded afterwards: the registro saved
   * is closed, with the seconds since the clock started added only when it
   * is the active, timed one (which then stops being active).
   */
  function CerrarStep(v: Vista, registroId: string, fetched: Option<Registro>, elapsed: Int32,
                      now: DateTime, recargados: seq<Registro>): (r: (Vista, Option<Registro>))
    requires Valid(v)
    ensures Valid(r.0)
    ensures fetched.None? <==> r.1.None?
    ensures fetched.None? ==> r.0 == v
  {
    if fetched.None? then (v, None)
    else
      var cierraActivo := v.activo.Some? && v.objetos[v.activo.value].id == registroId && v.midiendo;
      var t := fetched.value.tiempoTranscurrido;
      var tf := if cierraActivo then Step32(t, elapsed) else t;
      var v1 := if cierraActivo then v.(cronometro := Parado, midiendo := false, activo := None) else v;
      (CargarStep(v1, recargados), Some(fetched.value.(estado := Cerrado, fechaCierre := Some(now), tiempoTranscurrido := tf)))
  }

  /**
   * `HandleStatusUpdate`: an unknown id changes nothing; otherwise the first
   * listed registro with the id takes the state and time received, and when
   * it is the active one the clock starts (state in progress, no timer
   * running) or stops (any other state).
   */
  function EstadoRecibido(v: Vista, id: string, estado: EstadoRegistro, tiempo: Int32): (r: Vista)
    requires Valid(v)
    ensures Valid(r)
    ensures (forall i :: 0 <= i < |v.todos| ==> v.objetos[v.todos[i]].id != id) ==> r == v
  {
    match FirstById(v.objetos, v.todos, id)
    case None => v
    case Some(k) =>
      var x := v.todos[k];
      var objs := v.objetos[x := v.objetos[x].(estado := estado, tiempoTranscurrido := tiempo)];
      var v1 := v.(objetos := objs);
      var v2 :=
        if v1.activo.Some? && objs[v1.activo.value].id == id then
          if estado == EnProceso then
            if v1.cronometro.Parado? then
              v1.(midiendo := true, base := objs[v1.activo.value].tiempoTranscurrido, cronometro := DeEstado(x))
            else v1
          else v1.(cronometro := Parado, midiendo := false)
        else v1;
      Refrescar(v2)
  }

  /** Same registros, except perhaps for their times. */
  predicate SoloTiempos(o: seq<Registro>, o': seq<Registro>) {
    |o'| == |o| && forall x :: 0 <= x < |o| ==> o'[x] == o[x].(tiempoTranscurrido := o'[x].tiempoTranscurrido)
  }

  /** Object `x` of the arena with its time set to `t`. */
  function SetTiempo(o: seq<Registro>, x: Ref, t: Int32): (r: seq<Registro>)
    requires x < |o|
    ensures SoloTiempos(o, r) && r[x].tiempoTranscurrido == t
    ensures forall y :: 0 <= y < |o| && y != x ==> r[y] == o[y]
  {
    o[x := o[x].(tiempoTranscurrido := t)]
  }

  /** One second of the timer: each handler writes its running total where the source does. */
  function TickStep(v: Vista, elapsed: Int32): (r: Vista)
    requires Valid(v)
    ensures Valid(r)
    ensures r == v.(objetos := r.objetos) && SoloTiempos(v.objetos, r.objetos)
  {
    if v.activo.None? || !v.midiendo then v
    else
      var a := v.activo.value;
      match v.cronometro
      case Parado => v
      case DeInicio(b, id, enLista) =>
        if v.objetos[a].id != id then v
        else
          var t := Step32(b, elapsed);
          var o1 := SetTiempo(v.objetos, a, t);
          var o2 := if enLista.Some? && enLista.value != a then SetTiempo(o1, enLista.value, t) else o1;
          v.(objetos := o2)
      case DeCarga(b, id) =>
        if v.objetos[a].id != id then v
        else
          (match FirstById(v.objetos, v.todos, id)
           case None => v
           case Some(k) =>
             var u := v.todos[k];
             var t := Step32(b, elapsed);
             var o1 := SetTiempo(v.objetos, u, t);
             var o2 := if a != u then SetTiempo(o1, a, t) else o1;
             v.(objetos := o2))
      case DeEstado(loc) =>
        var nuevo := Step32(v.objetos[loc].tiempoTranscurrido, elapsed);
        if v.objetos[a].id == v.objetos[loc].id then v.(objetos := SetTiempo(v.objetos, a, nuevo))
        else v
  }

  /** Several ticks, each with the seconds elapsed at that moment. */
  function Ticks(v: Vista, es: seq<Int32>): (r: Vista)
    requires Valid(v)
    ensures Valid(r)
    decreases |es|
  {
    if es == [] then v else Ticks(TickStep(v, es[0]), es[1..])
  }

  // ---------------------------------------------------------------------
  // What the operations promise
  // ---------------------------------------------------------------------

  /**
   * Pausing the others only moves registros in progress to paused, touches
   * no object outside the list, and leaves no listed registro other than
   * `id` in progress.
   */
  lemma PausarOtrosSpec(objs: seq<Registro>, refs: seq<Ref>, id: string)
    requires RefsBelow(refs, |objs|)
    ensures var r := PausarOtros(objs, refs, id);
      forall x :: 0 <= x < |objs| ==>
        r[x] == objs[x] || (objs[x].estado == EnProceso && r[x] == objs[x].(estado := Pausado))
    ensures var r := PausarOtros(objs, refs, id);
      forall x :: 0 <= x < |objs| && x !in refs ==> r[x] == objs[x]
    ensures var r := PausarOtros(objs, refs, id);
      forall i :: 0 <= i < |refs| && r[refs[i]].estado == EnProceso ==> r[refs[i]].id == id
  {
    PausarOtrosPauses(objs, refs, id);
    PausarOtrosOutside(objs, refs, id);
    PausarOtrosLeaves(objs, refs, id);
  }

  lemma {:induction false} PausarOtrosPauses(objs: seq<Registro>, refs: seq<Ref>, id: string)
    requires RefsBelow(refs, |objs|)
    ensures var r := PausarOtros(objs, refs, id);
      forall x :: 0 <= x < |objs| ==>
        r[x] == objs[x] || (objs[x].estado == EnProceso && r[x] == objs[x].(estado := Pausado))
  {
    if refs != [] {
      PausarOtrosPauses(objs, refs[..|refs| - 1], id);
    }
  }

  lemma {:induction false} PausarOtrosOutside(objs: seq<Registro>, refs: seq<Ref>, id: string)
    requires RefsBelow(refs, |objs|)
    ensures var r := PausarOtros(objs, refs, id);
      forall x :: 0 <= x < |objs| && x !in refs ==> r[x] == objs[x]
  {
    if refs != [] {
      var front := refs[..|refs| - 1];
      PausarOtrosOutside(objs, front, id);
      assert forall x :: x in front ==> x in refs;
    }
  }

  lemma {:induction false} PausarOtrosLeaves(objs: seq<Registro>, refs: seq<Ref>, id: string)
    requires RefsBelow(refs, |objs|)
    ensures var r := PausarOtros(objs, refs, id);
      forall i :: 0 <= i < |refs| && r[refs[i]].estado == EnProceso ==> r[refs[i]].id == id
  {
    if refs != [] {
      var front := refs[..|refs| - 1];
      PausarOtrosLeaves(objs, front, id);
      PausarOtrosPauses(objs, front, id);
      assert forall i :: 0 <= i < |front| ==> refs[i] == front[i];
    }
  }

  /**
   * After `IniciarRegistroAsync` on an open registro, the started registro
   * is active, in progress and timed, it is the first listed registro with
   * the id when there is one, and every listed registro in progress carries
   * that id.
   */
  lemma IniciarUnSoloEnCurso(v: Vista, registroId: string, fetched: Option<Registro>, elapsed: Int32)
    requires Valid(v) && fetched.Some? && fetched.value.estado != Cerrado
    ensures var r := IniciarStep(v, registroId, fetched, elapsed);
      && r.activo.Some? && r.midiendo
      && r.objetos[r.activo.value].estado == EnProceso
      && r.todos == v.todos
      && (forall i :: 0 <= i < |r.todos| && r.objetos[r.todos[i]].estado == EnProceso ==>
            r.objetos[r.todos[i]].id == registroId)
  {
    var v1 := PausarStep(v, false, elapsed);
    if v.activo.Some? && v.midiendo {
      PausaDetiene(v, false, elapsed);
    }
    ActivarUnSoloEnCurso(v1, registroId, fetched.value);
  }

  /** The activation half of a start: see `IniciarUnSoloEnCurso`. */
  lemma ActivarUnSoloEnCurso(v: Vista, registroId: string, registro: Registro)
    requires Valid(v)
    ensures var r := ActivarStep(v, registroId, registro);
      && r.activo.Some? && r.midiendo
      && r.objetos[r.activo.value].estado == EnProceso
      && r.todos == v.todos
      && (forall i :: 0 <= i < |r.todos| && r.objetos[r.todos[i]].estado == EnProceso ==>
            r.objetos[r.todos[i]].id == registroId)
  {
    var o2 := PausarOtros(v.objetos, v.todos, registroId);
    PausarOtrosSpec(v.objetos, v.todos, registroId);
    var n := |o2|;
    var o3 := o2 + [registro.(estado := EnProceso)];
    var k := FirstById(o3, v.todos, registroId);
    var a := if k.Some? then v.todos[k.value] else n;
    var o4 := o3[a := o3[a].(estado := EnProceso)];
    assert MarcarStep(v.(objetos := o2), registroId, registro).objetos == o4;
    forall i | 0 <= i < |v.todos| && o4[v.todos[i]].estado == EnProceso
      ensures o4[v.todos[i]].id == registroId
    {
      var t := v.todos[i];
      if t != a {
        assert o4[t] == o2[t];
      }
    }
  }


  /** Two listed registros never share an id. */
  predicate IdsDistinct(objs: seq<Registro>, refs: seq<Ref>)
    requires RefsBelow(refs, |objs|)
  {
    forall i, j :: 0 <= i < j < |refs| ==> objs[refs[i]].id != objs[refs[j]].id
  }

  /** With distinct ids, registros in progress that all carry one id are at most one. */
  lemma {:induction false} AtMostOneWithId(objs: seq<Registro>, refs: seq<Ref>, e: EstadoRegistro, id: string)
    requires RefsBelow(refs, |objs|) && IdsDistinct(objs, refs)
    requires forall i :: 0 <= i < |refs| && objs[refs[i]].estado == e ==> objs[refs[i]].id == id
    ensures Contar(objs, refs, e) <= 1
  {
    if refs != [] {
      var front, last := refs[..|refs| - 1], refs[|refs| - 1];
      AtMostOneWithId(objs, front, e, id);
      if objs[last].estado == e {
        NoneWithState(objs, front, e);
      }
    }
  }

  lemma {:induction false} NoneWithState(objs: seq<Registro>, refs: seq<Ref>, e: EstadoRegistro)
    requires RefsBelow(refs, |objs|)
    requires forall i :: 0 <= i < |refs| ==> objs[refs[i]].estado != e
    ensures Contar(objs, refs, e) == 0
  {
    if refs != [] {
      NoneWithState(objs, refs[..|refs| - 1], e);
    }
  }

  /**
   * With distinct ids in the list, at most one listed registro is in
   * progress after a start, and the counter of registros in progress says so.
   */
  lemma IniciarAtMostOne(v: Vista, registroId: string, fetched: Option<Registro>, elapsed: Int32)
    requires Valid(v) && fetched.Some? && fetched.value.estado != Cerrado
    requires IdsDistinct(v.objetos, v.todos)
    ensures var r := IniciarStep(v, registroId, fetched, elapsed);
      Contar(r.objetos, r.todos, EnProceso) <= 1 && r.contadores.curso <= 1
  {
    var r := IniciarStep(v, registroId, fetched, elapsed);
    IniciarUnSoloEnCurso(v, registroId, fetched, elapsed);
    IniciarKeepsIds(v, registroId, fetched, elapsed);
    IdsDistinctKept(v.objetos, r.objetos, v.todos);
    AtMostOneWithId(r.objetos, r.todos, EnProceso, registroId);
  }

  /** Every registro of `objs` has the same id in `objs'`, which may hold more. */
  predicate KeepsIds(objs: seq<Registro>, objs': seq<Registro>) {
    |objs| <= |objs'| && forall x :: 0 <= x < |objs| ==> objs'[x].id == objs[x].id
  }

  /** A start keeps the list, and no registro it holds changes its id. */
  lemma IniciarKeepsIds(v: Vista, registroId: string, fetched: Option<Registro>, elapsed: Int32)
    requires Valid(v)
    ensures var r := IniciarStep(v, registroId, fetched, elapsed);
      r.todos == v.todos && KeepsIds(v.objetos, r.objetos)
  {
    if fetched.Some? && fetched.value.estado != Cerrado {
      var v1 := PausarStep(v, false, elapsed);
      PausarKeepsIds(v, elapsed);
      var o2 := PausarOtros(v1.objetos, v1.todos, registroId);
      PausarOtrosPauses(v1.objetos, v1.todos, registroId);
      assert KeepsIds(v1.objetos, o2);
      var m := MarcarStep(v1.(objetos := o2), registroId, fetched.value);
      MarcarKeepsIds(v1.(objetos := o2), registroId, fetched.value);
      assert IniciarStep(v, registroId, fetched, elapsed) == Refrescar(m);
      KeepsIdsTrans(v.objetos, v1.objetos, o2);
      KeepsIdsTrans(v.objetos, o2, m.objetos);
    }
  }

  lemma KeepsIdsTrans(a: seq<Registro>, b: seq<Registro>, c: seq<Registro>)
    requires KeepsIds(a, b) && KeepsIds(b, c)
    ensures KeepsIds(a, c)
  {
  }

  lemma PausarKeepsIds(v: Vista, elapsed: Int32)
    requires Valid(v)
    ensures var r := PausarStep(v, false, elapsed);
      r.todos == v.todos && KeepsIds(v.objetos, r.objetos)
  {
  }

  lemma MarcarKeepsIds(v: Vista, registroId: string, registro: Registro)
    requires Valid(v)
    ensures var r := MarcarStep(v, registroId, registro);
      r.todos == v.todos && KeepsIds(v.objetos, r.objetos)
  {
  }

  /** Ids that were distinct over the list stay distinct when every listed registro keeps its id. */
  lemma IdsDistinctKept(objs: seq<Registro>, objs': seq<Registro>, refs: seq<Ref>)
    requires RefsBelow(refs, |objs|) && IdsDistinct(objs, refs) && KeepsIds(objs, objs')
    ensures RefsBelow(refs, |objs'|) && IdsDistinct(objs', refs)
  {
  }

  /**
   * A pause with a timed active registro leaves it, and the first listed
   * registro with its id, paused with the start time plus the elapsed
   * seconds; the clock stops and nothing is active.
   */
  lemma PausaDetiene(v: Vista, recargar: bool, elapsed: Int32)
    requires Valid(v) && v.activo.Some? && v.midiendo
    ensures var r := PausarStep(v, recargar, elapsed);
      var a := v.activo.value;
      && r.activo.None? && !r.midiendo && r.cronometro.Parado? && r.todos == v.todos
      && r.objetos[a] == v.objetos[a].(tiempoTranscurrido := Step32(v.base, elapsed), estado := Pausado)
    ensures var r := PausarStep(v, recargar, elapsed);
      var k := FirstById(v.objetos, v.todos, v.objetos[v.activo.value].id);
      && (k.Some? ==> r.objetos[v.todos[k.value]].estado == Pausado
                      && r.objetos[v.todos[k.value]].tiempoTranscurrido == Step32(v.base, elapsed))
      && (forall x :: 0 <= x < |v.objetos| && x != v.activo.value && (k.None? || x != v.todos[k.value]) ==>
            r.objetos[x] == v.objetos[x])
  {
    var a := v.activo.value;
    var nuevo := Step32(v.base, elapsed);
    var o1 := v.objetos[a := v.objetos[a].(tiempoTranscurrido := nuevo, estado := Pausado)];
    FirstByIdSameIds(v.objetos, o1, v.todos, v.objetos[a].id);
  }

  /** The first-by-id look-up only reads ids. */
  lemma {:induction false} FirstByIdSameIds(o: seq<Registro>, o': seq<Registro>, refs: seq<Ref>, id: string)
    requires |o| == |o'| && RefsBelow(refs, |o|)
    requires forall x :: 0 <= x < |o| ==> o[x].id == o'[x].id
    ensures FirstById(o, refs, id) == FirstById(o', refs, id)
  {
    if refs != [] {
      FirstByIdSameIds(o, o', refs[1..], id);
    }
  }

  /** Ticks write times only: the list, active registro, clock and start time stay. */
  lemma {:induction false} TicksKeep(v: Vista, es: seq<Int32>)
    requires Valid(v)
    ensures var r := Ticks(v, es);
      r == v.(objetos := r.objetos) && SoloTiempos(v.objetos, r.objetos)
    decreases |es|
  {
    if es != [] {
      var w := TickStep(v, es[0]);
      TicksKeep(w, es[1..]);
      var r := Ticks(w, es[1..]);
      assert forall x :: 0 <= x < |v.objetos| ==> r.objetos[x] == v.objetos[x].(tiempoTranscurrido := r.objetos[x].tiempoTranscurrido) by {
        forall x | 0 <= x < |v.objetos|
          ensures r.objetos[x] == v.objetos[x].(tiempoTranscurrido := r.objetos[x].tiempoTranscurrido)
        {
          assert w.objetos[x] == v.objetos[x].(tiempoTranscurrido := w.objetos[x].tiempoTranscurrido);
        }
      }
    }
  }

  /** From a timed state, ticks and then a pause give the start time plus the elapsed seconds. */
  lemma PausaDesdeBase(s: Vista, es: seq<Int32>, e: Int32)
    requires Valid(s) && s.activo.Some? && s.midiendo
    ensures var p := PausarStep(Ticks(s, es), true, e);
      |p.objetos| == |s.objetos| && p.activo.None? &&
      p.objetos[s.activo.value].tiempoTranscurrido == Step32(s.base, e) &&
      p.objetos[s.activo.value].estado == Pausado
  {
    var t := Ticks(s, es);
    TicksKeep(s, es);
    PausaDetiene(t, true, e);
  }

  /**
   * However many ticks ran since a start, the pause records the time the
   * registro had when it was started plus the seconds elapsed at the pause.
   */
  lemma PausaTrasTicks(v: Vista, registroId: string, fetched: Option<Registro>, e0: Int32, es: seq<Int32>, e: Int32)
    requires Valid(v) && fetched.Some? && fetched.value.estado != Cerrado
    ensures var s := IniciarStep(v, registroId, fetched, e0);
      s.activo.Some? &&
      var a := s.activo.value;
      var p := PausarStep(Ticks(s, es), true, e);
      |p.objetos| == |s.objetos| &&
      p.objetos[a].tiempoTranscurrido == Step32(s.objetos[a].tiempoTranscurrido, e)
      && p.objetos[a].estado == Pausado && p.activo.None?
  {
    var s := IniciarStep(v, registroId, fetched, e0);
    PausaDesdeBase(s, es, e);
  }

  /**
   * The double count in the pause as written: a registro listed with 100
   * seconds is started, the timer ticks once at 10 seconds (writing 110),
   * and a pause 10 seconds after the start records 120 where 110 was meant.
   */
  lemma PausaCuentaDoble()
    ensures var r0 := Registro("a", 1, Requerimiento, "", "", "", None, 0, None, None, Pendiente,
                               100, 0, None, None, None, None, None, None, None, [], 0, 0, [], []);
      var v0 := Vista([r0], [0], [0], ContadoresDe([r0], [0]), None, None, false, 0, Parado);
      Valid(v0) &&
      var t := TickStep(IniciarStep(v0, "a", Some(r0), 0), 10);
      t.activo == Some(0) &&
      PausarAsWritten(t, true, 10).objetos[0].tiempoTranscurrido == 120 &&
      PausarStep(t, true, 10).objetos[0].tiempoTranscurrido == 110
  {
    var r0 := Registro("a", 1, Requerimiento, "", "", "", None, 0, None, None, Pendiente,
                       100, 0, None, None, None, None, None, None, None, [], 0, 0, [], []);
    var v0 := Vista([r0], [0], [0], ContadoresDe([r0], [0]), None, None, false, 0, Parado);
    assert Distinct(v0.todos);
    var s := IniciarStep(v0, "a", Some(r0), 0);
    assert PausarStep(v0, false, 0) == v0;
    assert PausarOtros([r0], [0], "a") == [r0];
    var o3 := [r0, r0.(estado := EnProceso)];
    assert FirstById(o3, [0], "a") == Some(0);
    assert s.activo == Some(0) && s.midiendo && s.base == 100;
    assert s.cronometro == DeInicio(100, "a", Some(0));
    var t := TickStep(s, 10);
    assert t.objetos[0].tiempoTranscurrido == 110;
    assert t.activo == Some(0) && t.midiendo && t.base == 100;
  }

  /** The loaded list is exactly the fetched registros, as new objects; the old ones stay untouched. */
  lemma CargarLista(v: Vista, lista: seq<Registro>)
    requires Valid(v)
    ensures var r := CargarStep(v, lista);
      && |r.todos| == |lista| && |r.objetos| == |v.objetos| + |lista|
      && (forall i :: 0 <= i < |lista| ==> r.todos[i] >= |v.objetos| && r.objetos[r.todos[i]] == lista[i])
      && (forall x :: 0 <= x < |v.objetos| ==> r.objetos[x] == v.objetos[x])
      && r.filtro == v.filtro
  {
    ReemplazarNuevos(v, lista);
    ReanudarKeepsList(Refrescar(Reemplazar(v, lista)));
  }

  /** The replacement appends the fetched registros as new objects and lists exactly those. */
  lemma ReemplazarNuevos(v: Vista, lista: seq<Registro>)
    requires Valid(v)
    ensures var m := Reemplazar(v, lista);
      && |m.todos| == |lista| && |m.objetos| == |v.objetos| + |lista|
      && (forall i :: 0 <= i < |lista| ==> m.todos[i] >= |v.objetos| && m.objetos[m.todos[i]] == lista[i])
      && (forall x :: 0 <= x < |v.objetos| ==> m.objetos[x] == v.objetos[x])
      && m.filtro == v.filtro
  {
    var n := |v.objetos|;
    var m := Reemplazar(v, lista);
    assert m.objetos == v.objetos + lista;
    assert m.todos == seq(|lista|, i requires 0 <= i < |lista| => n + i);
    forall i | 0 <= i < |lista|
      ensures m.todos[i] >= n && m.objetos[m.todos[i]] == lista[i]
    {
      assert m.todos[i] == n + i;
    }
  }

  /** The auto-resume leaves the objects, the list and the filter alone. */
  lemma ReanudarKeepsList(v: Vista)
    requires Valid(v)
    ensures ReanudarStep(v).objetos == v.objetos && ReanudarStep(v).todos == v.todos
    ensures ReanudarStep(v).filtro == v.filtro
  {
  }

  /** A load keeps an existing active registro and its clock. */
  lemma CargarConserva(v: Vista, lista: seq<Registro>)
    requires Valid(v) && v.activo.Some?
    ensures var r := CargarStep(v, lista);
      r.activo == v.activo && r.midiendo == v.midiendo && r.base == v.base && r.cronometro == v.cronometro
  {
  }

  /** The resumed registro is looked up in the fetched list itself. */
  lemma CargarBusca(v: Vista, lista: seq<Registro>)
    requires Valid(v)
    ensures var n := |v.objetos|;
      var todos := seq(|lista|, i requires 0 <= i < |lista| => n + i);
      var k := FirstEnProceso(v.objetos + lista, todos);
      && (k.Some? ==> k.value < |lista| && lista[k.value].estado == EnProceso
                      && forall j :: 0 <= j < k.value ==> lista[j].estado != EnProceso)
      && (k.None? ==> forall j :: 0 <= j < |lista| ==> lista[j].estado != EnProceso)
  {
    var n := |v.objetos|;
    var objs := v.objetos + lista;
    var todos := seq(|lista|, i requires 0 <= i < |lista| => n + i);
    assert forall i :: 0 <= i < |lista| ==> objs[todos[i]] == lista[i];
  }

  /** With nothing active, a load resumes a registro exactly when one fetched is in progress. */
  lemma CargarReanuda(v: Vista, lista: seq<Registro>)
    requires Valid(v) && v.activo.None?
    ensures var r := CargarStep(v, lista);
      r.activo.Some? <==> exists i :: 0 <= i < |lista| && lista[i].estado == EnProceso
  {
    CargarBusca(v, lista);
  }

  /** The resumed registro is the first fetched in progress, timed from its stored time. */
  lemma CargarReanudaPrimero(v: Vista, lista: seq<Registro>)
    requires Valid(v) && v.activo.None?
    ensures var r := CargarStep(v, lista);
      r.activo.Some? ==>
        var k := r.activo.value - |v.objetos|;
        && 0 <= k < |lista| && lista[k].estado == EnProceso
        && (forall j :: 0 <= j < k ==> lista[j].estado != EnProceso)
        && r.midiendo && r.base == lista[k].tiempoTranscurrido
        && r.cronometro == DeCarga(lista[k].tiempoTranscurrido, lista[k].id)
  {
    CargarBusca(v, lista);
  }

  /**
   * Closing saves the fetched registro closed at `now`, adding the seconds
   * since the start only when it is the active, timed registro; that one
   * is then no longer active, and any other active registro stays.
   */
  lemma CerrarGuarda(v: Vista, registroId: string, fetched: Option<Registro>, elapsed: Int32,
                     now: DateTime, recargados: seq<Registro>)
    requires Valid(v) && fetched.Some?
    ensures var (r, g) := CerrarStep(v, registroId, fetched, elapsed, now, recargados);
      var cierra := v.activo.Some? && v.objetos[v.activo.value].id == registroId && v.midiendo;
      var t := fetched.value.tiempoTranscurrido;
      && g.Some?
      && g.value == fetched.value.(estado := Cerrado, fechaCierre := Some(now), tiempoTranscurrido := g.value.tiempoTranscurrido)
      && g.value.tiempoTranscurrido == (if cierra then Step32(t, elapsed) else t)
      && (cierra ==> r.activo != v.activo && (r.activo.None? || r.activo.value >= |v.objetos|))
      && (!cierra && v.activo.Some? ==> r.activo == v.activo && r.midiendo == v.midiendo)
  {
    var cierra := v.activo.Some? && v.objetos[v.activo.value].id == registroId && v.midiendo;
    var v1 := if cierra then v.(cronometro := Parado, midiendo := false, activo := None) else v;
    if cierra {
      CargarReanudaPrimero(v1, recargados);
    } else if v.activo.Some? {
      CargarConserva(v1, recargados);
    }
  }

  /**
   * A state received for a listed id goes to the first listed registro
   * with that id, and no other object changes.
   */
  lemma EstadoRecibidoActualiza(v: Vista, id: string, estado: EstadoRegistro, tiempo: Int32, i: nat)
    requires Valid(v) && i < |v.todos| && v.objetos[v.todos[i]].id == id
    requires forall j :: 0 <= j < i ==> v.objetos[v.todos[j]].id != id
    ensures var r := EstadoRecibido(v, id, estado, tiempo);
      var x := v.todos[i];
      && |r.objetos| == |v.objetos| && r.todos == v.todos && r.activo == v.activo && r.filtro == v.filtro
      && r.objetos[x] == v.objetos[x].(estado := estado, tiempoTranscurrido := tiempo)
      && (forall y :: 0 <= y < |v.objetos| && y != x ==> r.objetos[y] == v.objetos[y])
  {
    EstadoRecibidoForma(v, id, estado, tiempo, i);
  }

  /** The state change lands on the first listed object with the id, written as one update. */
  lemma EstadoRecibidoForma(v: Vista, id: string, estado: EstadoRegistro, tiempo: Int32, i: nat)
    requires Valid(v) && i < |v.todos| && v.objetos[v.todos[i]].id == id
    requires forall j :: 0 <= j < i ==> v.objetos[v.todos[j]].id != id
    ensures var r := EstadoRecibido(v, id, estado, tiempo);
      var x := v.todos[i];
      && r.objetos == v.objetos[x := v.objetos[x].(estado := estado, tiempoTranscurrido := tiempo)]
      && r.todos == v.todos && r.activo == v.activo && r.filtro == v.filtro
  {
    assert FirstById(v.objetos, v.todos, id) == Some(i);
  }

  /**
   * A state received for the active registro's id starts its clock on "in
   * progress" when none runs and stops it on any other state; for any
   * other id the clock is left alone.
   */
  lemma EstadoRecibidoReloj(v: Vista, id: string, estado: EstadoRegistro, tiempo: Int32, i: nat)
    requires Valid(v) && i < |v.todos| && v.objetos[v.todos[i]].id == id
    requires forall j :: 0 <= j < i ==> v.objetos[v.todos[j]].id != id
    ensures var r := EstadoRecibido(v, id, estado, tiempo);
      var delActivo := v.activo.Some? && v.objetos[v.activo.value].id == id;
      && (delActivo && estado != EnProceso ==> !r.midiendo && r.cronometro.Parado?)
      && (delActivo && estado == EnProceso && v.cronometro.Parado? ==>
            r.midiendo && r.cronometro == DeEstado(v.todos[i]))
      && (!delActivo || (estado == EnProceso && !v.cronometro.Parado?) ==>
            r.midiendo == v.midiendo && r.cronometro == v.cronometro)
  {
    assert FirstById(v.objetos, v.todos, id) == Some(i);
    var x := v.todos[i];
    var objs := v.objetos[x := v.objetos[x].(estado := estado, tiempoTranscurrido := tiempo)];
    if v.activo.Some? {
      assert objs[v.activo.value].id == v.objetos[v.activo.value].id;
    }
  }
}
