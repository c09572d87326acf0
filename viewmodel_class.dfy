/**
 * `RegistroViewModel` as the object the client updates in place. Each
 * method is proved to move the object's state exactly as the matching
 * step function of module `ViewModel` does, so every property proved
 * there about the steps holds of the object.
 */
module ViewModelClass {
  import opened Core
  import opened Dtos
  import opened Registros
  import opened StableSort
  import opened ViewModel

  /** The five per-state counts in one pass over the list. */
  method ContarEstados(objs: seq<Registro>, refs: seq<Ref>) returns (c: Contadores)
    requires RefsBelow(refs, |objs|)
    ensures c == ContadoresDe(objs, refs)
  {
    var p, e, cu, pa, ce := 0, 0, 0, 0, 0;
    var i := 0;
    while i < |refs|
      invariant 0 <= i <= |refs|
      invariant p == Contar(objs, refs[..i], Pendiente)
      invariant e == Contar(objs, refs[..i], EnEspera)
      invariant cu == Contar(objs, refs[..i], EnProceso)
      invariant pa == Contar(objs, refs[..i], Pausado)
      invariant ce == Contar(objs, refs[..i], Cerrado)
    {
      assert refs[..i + 1][..i] == refs[..i];
      var estado := objs[refs[i]].estado;
      if estado == Pendiente { p := p + 1; }
      if estado == EnEspera { e := e + 1; }
      if estado == EnProceso { cu := cu + 1; }
      if estado == Pausado { pa := pa + 1; }
      if estado == Cerrado { ce := ce + 1; }
      i := i + 1;
    }
    assert refs[..i] == refs;
    c := Contadores(p, e, cu, pa, ce, |refs|);
  }

  /** The list's registros in state `s`, in list order. */
  method Seleccionar(objs: seq<Registro>, refs: seq<Ref>, s: EstadoRegistro) returns (r: seq<Ref>)
    requires RefsBelow(refs, |objs|)
    ensures r == Where(objs, refs, s)
  {
    r := [];
    var i := 0;
    while i < |refs|
      invariant 0 <= i <= |refs|
      invariant r == Where(objs, refs[..i], s)
    {
      assert refs[..i + 1][..i] == refs[..i];
      var x := refs[i];
      if objs[x].estado == s {
        r := r + [x];
      }
      i := i + 1;
    }
    assert refs[..i] == refs;
  }

  /** Every listed registro in progress whose id is not `id` paused, one after the other. */
  method PausarOtrosEnLista(objs: seq<Registro>, refs: seq<Ref>, id: string) returns (r: seq<Registro>)
    requires RefsBelow(refs, |objs|)
    ensures r == PausarOtros(objs, refs, id)
  {
    r := objs;
    var i := 0;
    while i < |refs|
      invariant 0 <= i <= |refs|
      invariant r == PausarOtros(objs, refs[..i], id)
    {
      assert refs[..i + 1][..i] == refs[..i];
      var x := refs[i];
      if r[x].estado == EnProceso && r[x].id != id {
        r := r[x := r[x].(estado := Pausado)];
      }
      i := i + 1;
    }
    assert refs[..i] == refs;
  }

  class RegistroViewModel {
    /** Every `Registro` object the view model can reach, by `Ref`. */
    var objetos: seq<Registro>
    /** `_todosRegistros`. */
    var todosRegistros: seq<Ref>
    /** `Registros`, the filtered view. */
    var registros: seq<Ref>
    /** `CountPlanificar`, `CountEnEspera`, `CountCurso`, `CountPausado`, `CountCompletados`, `CountTodos`. */
    var contadores: Contadores
    var estadoFiltroActual: Option<EstadoRegistro>
    /** `RegistroActivo`. */
    var registroActivo: Option<Ref>
    /** `_inicioTiempo != null`. */
    var midiendo: bool
    /** The active registro's time when its clock started. */
    var tiempoBase: Int32
    /** `_timer` and what its tick handler captured. */
    var cronometro: Cronometro

    /** The object's state as a value. */
    function Snapshot(): Vista
      reads this
    {
      Vista(objetos, todosRegistros, registros,
        contadores,
        estadoFiltroActual, registroActivo, midiendo, tiempoBase, cronometro)
    }

    predicate Valid()
      reads this
    {
      ViewModel.Valid(Snapshot())
    }

    /** A new view model: nothing loaded, nothing active, no filter. */
    constructor()
      ensures Valid()
      ensures Snapshot() == Vista([], [], [], Contadores(0, 0, 0, 0, 0, 0), None, None, false, 0, Parado)
    {
      objetos := [];
      todosRegistros := [];
      registros := [];
      contadores := Contadores(0, 0, 0, 0, 0, 0);
      estadoFiltroActual := None;
      registroActivo := None;
      midiendo := false;
      tiempoBase := 0;
      cronometro := Parado;
    }

    /** `ActualizarContadores`: one pass over the list counts each state. */
    method ActualizarContadores()
      requires Valid()
      modifies this
      ensures Valid()
      ensures Snapshot() == old(Snapshot()).(contadores := ContadoresDe(objetos, todosRegistros))
    {
      contadores := ContarEstados(objetos, todosRegistros);
    }

    /** `FiltrarPorEstado(estado)`: the view is the list, or its registros in that state, in order. */
    method FiltrarPorEstado(estado: Option<EstadoRegistro>)
      requires Valid()
      modifies this
      ensures Valid()
      ensures Snapshot() == FiltrarStep(old(Snapshot()), estado)
    {
      estadoFiltroActual := estado;
      match estado
      case None =>
        registros := todosRegistros;
      case Some(s) =>
        registros := Seleccionar(objetos, todosRegistros, s);
    }

    /** The counters and the view recomputed, as every operation ends. */
    method Refrescar()
      requires Valid()
      modifies this
      ensures Valid()
      ensures Snapshot() == ViewModel.Refrescar(old(Snapshot()))
    {
      ActualizarContadores();
      FiltrarPorEstado(estadoFiltroActual);
    }

    /**
     * `ActualizarListaRegistros(lista)`: the fetched registros become the
     * list, and with nothing active the first one in progress is resumed.
     */
    method ActualizarListaRegistros(lista: seq<Registro>)
      requires Valid()
      modifies this
      ensures Valid()
      ensures Snapshot() == CargarStep(old(Snapshot()), lista)
    {
      var n := |objetos|;
      objetos := objetos + lista;
      todosRegistros := seq(|lista|, i requires 0 <= i < |lista| => n + i);
      assert Distinct(todosRegistros);
      Refrescar();
      Reanudar();
    }

    /** The auto-resume: with nothing active, time the first listed registro in progress. */
    method Reanudar()
      requires Valid()
      modifies this
      ensures Valid()
      ensures Snapshot() == ReanudarStep(old(Snapshot()))
    {
      if registroActivo.None? {
        var k := FirstEnProceso(objetos, todosRegistros);
        if k.Some? {
          var a := todosRegistros[k.value];
          var b := objetos[a].tiempoTranscurrido;
          registroActivo, midiendo, tiempoBase := Some(a), true, b;
          cronometro := DeCarga(b, objetos[a].id);
        }
      }
    }

    /** `HandleStatusUpdate`: a state and time received from the relay. */
    method HandleStatusUpdate(id: string, estado: EstadoRegistro, tiempo: Int32)
      requires Valid()
      modifies this
      ensures Valid()
      ensures Snapshot() == EstadoRecibido(old(Snapshot()), id, estado, tiempo)
    {
      var k := FirstById(objetos, todosRegistros, id);
      if k.None? {
        return;
      }
      var x := todosRegistros[k.value];
      objetos := objetos[x := objetos[x].(estado := estado, tiempoTranscurrido := tiempo)];
      if registroActivo.Some? && objetos[registroActivo.value].id == id {
        if estado == EnProceso {
          if cronometro.Parado? {
            midiendo := true;
            tiempoBase := objetos[registroActivo.value].tiempoTranscurrido;
            cronometro := DeEstado(x);
          }
        } else {
          cronometro := Parado;
          midiendo := false;
        }
      }
      Refrescar();
    }

    /**
     * `PausarRegistroAsync(recargar)`, corrected: the active, timed
     * registro and the first listed one with its id are paused with the
     * start time plus the seconds elapsed.
     */
    method PausarRegistro(recargar: bool, elapsed: Int32)
      requires Valid()
      modifies this
      ensures Valid()
      ensures Snapshot() == PausarStep(old(Snapshot()), recargar, elapsed)
    {
      if registroActivo.None? || !midiendo {
        return;
      }
      var a := registroActivo.value;
      var nuevo := Step32(tiempoBase, elapsed);
      objetos := objetos[a := objetos[a].(tiempoTranscurrido := nuevo, estado := Pausado)];
      var k := FirstById(objetos, todosRegistros, objetos[a].id);
      if k.Some? {
        var x := todosRegistros[k.value];
        objetos := objetos[x := objetos[x].(tiempoTranscurrido := nuevo, estado := Pausado)];
      }
      cronometro := Parado;
      midiendo := false;
      registroActivo := None;
      if recargar {
        Refrescar();
      }
    }

    /**
     * `IniciarRegistroAsync(registroId)` given what the API returned:
     * pause the running clock, pause every other listed registro in
     * progress, then put the registro in progress and time it.
     */
    method IniciarRegistro(registroId: string, fetched: Option<Registro>, elapsed: Int32)
      requires Valid()
      modifies this
      ensures Valid()
      ensures Snapshot() == IniciarStep(old(Snapshot()), registroId, fetched, elapsed)
    {
      if fetched.None? || fetched.value.estado == Cerrado {
        return;
      }
      PausarRegistro(false, elapsed);
      Activar(registroId, fetched.value);
    }

    /** Pause the other registros in progress, then put `registro` in progress and time it. */
    method Activar(registroId: string, registro: Registro)
      requires Valid()
      modifies this
      ensures Valid()
      ensures Snapshot() == ActivarStep(old(Snapshot()), registroId, registro)
    {
      objetos := PausarOtrosEnLista(objetos, todosRegistros, registroId);
      Marcar(registroId, registro);
      Refrescar();
    }

    /** Put `registro`, or the listed registro with its id, in progress, and time it. */
    method Marcar(registroId: string, registro: Registro)
      requires Valid()
      modifies this
      ensures Valid()
      ensures Snapshot() == MarcarStep(old(Snapshot()), registroId, registro)
    {
      var n := |objetos|;
      var o := objetos + [registro.(estado := EnProceso)];
      var k := FirstById(o, todosRegistros, registroId);
      var a := if k.Some? then todosRegistros[k.value] else n;
      o := o[a := o[a].(estado := EnProceso)];
      var b := o[a].tiempoTranscurrido;
      objetos, registroActivo, midiendo, tiempoBase, cronometro :=
        o, Some(a), true, b, DeInicio(b, registroId, if k.Some? then Some(a) else None);
    }

    /**
     * `CerrarRegistroAsync(registroId)` given what the API returned, the
     * current time and the list reloaded afterwards; returns the registro
     * saved, if any.
     */
    method CerrarRegistro(registroId: string, fetched: Option<Registro>, elapsed: Int32,
                          now: DateTime, recargados: seq<Registro>) returns (guardado: Option<Registro>)
      requires Valid()
      modifies this
      ensures Valid()
      ensures (Snapshot(), guardado) == CerrarStep(old(Snapshot()), registroId, fetched, elapsed, now, recargados)
    {
      if fetched.None? {
        return None;
      }
      var tiempoFinal := fetched.value.tiempoTranscurrido;
      if registroActivo.Some? && objetos[registroActivo.value].id == registroId && midiendo {
        tiempoFinal := Step32(tiempoFinal, elapsed);
        cronometro := Parado;
        midiendo := false;
        registroActivo := None;
      }
      guardado := Some(fetched.value.(estado := Cerrado, fechaCierre := Some(now), tiempoTranscurrido := tiempoFinal));
      ActualizarListaRegistros(recargados);
    }

    /** One tick of the running timer, `elapsed` seconds after its clock started. */
    method Tick(elapsed: Int32)
      requires Valid()
      modifies this
      ensures Valid()
      ensures Snapshot() == TickStep(old(Snapshot()), elapsed)
    {
      if registroActivo.None? || !midiendo {
        return;
      }
      var a := registroActivo.value;
      match cronometro
      case Parado =>
      case DeInicio(b, id, enLista) =>
        if objetos[a].id == id {
          var t := Step32(b, elapsed);
          objetos := SetTiempo(objetos, a, t);
          if enLista.Some? && enLista.value != a {
            objetos := SetTiempo(objetos, enLista.value, t);
          }
        }
      case DeCarga(b, id) =>
        if objetos[a].id == id {
          var k := FirstById(objetos, todosRegistros, id);
          if k.Some? {
            var u := todosRegistros[k.value];
            var t := Step32(b, elapsed);
            objetos := SetTiempo(objetos, u, t);
            if a != u {
              objetos := SetTiempo(objetos, a, t);
            }
          }
        }
      case DeEstado(loc) =>
        var nuevo := Step32(objetos[loc].tiempoTranscurrido, elapsed);
        if objetos[a].id == objetos[loc].id {
          objetos := SetTiempo(objetos, a, nuevo);
        }
    }
  }
}
