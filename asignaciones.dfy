/**
 * The assignments board (`AsignacionesView.RefrescarAsignaciones`): the
 * view model's registros ordered in progress first, then every other state
 * except pending, then pending; within each group by priority level,
 * highest first; then by remaining time, then by creation date, both
 * ascending. The LINQ chain is one stable sort on the four-part key.
 */
module Asignaciones {
  import opened Core
  import opened Dtos
  import opened Registros
  import opened StableSort

  /** The `OrderBy` group: 0 in progress, 1 any other state but pending, 2 pending. */
  function Grupo(r: Registro): (g: int)
    ensures g == 0 <==> r.estado == EnProceso
    ensures g == 2 <==> r.estado == Pendiente
    ensures 0 <= g <= 2
  {
    if r.estado == EnProceso then 0
    else if r.estado != Pendiente then 1
    else 2
  }

  /** The whole key: group, priority level descending, remaining time, creation date. */
  function Orden(r: Registro): seq<int> {
    [Grupo(r), -PrioridadNivel(r.prioridad), TiempoRestante(r), r.fechaCreacion]
  }

  /** `RefrescarAsignaciones`: the ordered list shown on the board. */
  function RefrescarAsignaciones(registros: seq<Registro>): (r: seq<Registro>)
    ensures multiset(r) == multiset(registros) && |r| == |registros|
    ensures SortedBy(r, Orden)
  {
    SortByPermutes(registros, Orden);
    SortBySorted(registros, Orden);
    SortBy(registros, Orden)
  }

  /** What one comparison of four-part keys decides, criterion by criterion. */
  lemma {:induction false} KeyLeFour(a: seq<int>, b: seq<int>)
    requires |a| == 4 && |b| == 4 && KeyLe(a, b)
    ensures a[0] <= b[0]
    ensures a[0] == b[0] ==> a[1] <= b[1]
    ensures a[0] == b[0] && a[1] == b[1] ==> a[2] <= b[2]
    ensures a[0] == b[0] && a[1] == b[1] && a[2] == b[2] ==> a[3] <= b[3]
  {
    assert KeyLe(a[1..], b[1..]) || a[0] < b[0];
    if a[0] == b[0] {
      assert a[1..][0] == a[1] && b[1..][0] == b[1];
      if a[1] == b[1] {
        assert KeyLe(a[2..], b[2..]) by {
          assert a[1..][1..] == a[2..] && b[1..][1..] == b[2..];
        }
        assert a[2..][0] == a[2] && b[2..][0] == b[2];
        if a[2] == b[2] {
          assert KeyLe(a[3..], b[3..]) by {
            assert a[2..][1..] == a[3..] && b[2..][1..] == b[3..];
          }
          assert a[3..][0] == a[3] && b[3..][0] == b[3];
        }
      }
    }
  }

  /** Registros in progress come first and pending ones last. */
  lemma GruposEnOrden(registros: seq<Registro>)
    ensures var r := RefrescarAsignaciones(registros);
      forall i, j :: 0 <= i < j < |r| ==> Grupo(r[i]) <= Grupo(r[j])
    ensures var r := RefrescarAsignaciones(registros);
      forall i, j :: 0 <= i < j < |r| && r[j].estado == EnProceso ==> r[i].estado == EnProceso
    ensures var r := RefrescarAsignaciones(registros);
      forall i, j :: 0 <= i < j < |r| && r[i].estado == Pendiente ==> r[j].estado == Pendiente
  {
    var r := RefrescarAsignaciones(registros);
    forall i, j | 0 <= i < j < |r|
      ensures Grupo(r[i]) <= Grupo(r[j])
    {
      KeyLeFour(Orden(r[i]), Orden(r[j]));
    }
  }

  /** Within a group the higher priority level comes first. */
  lemma PrioridadEnGrupo(registros: seq<Registro>)
    ensures var r := RefrescarAsignaciones(registros);
      forall i, j :: 0 <= i < j < |r| && Grupo(r[i]) == Grupo(r[j]) ==>
        PrioridadNivel(r[i].prioridad) >= PrioridadNivel(r[j].prioridad)
  {
    var r := RefrescarAsignaciones(registros);
    forall i, j | 0 <= i < j < |r| && Grupo(r[i]) == Grupo(r[j])
      ensures PrioridadNivel(r[i].prioridad) >= PrioridadNivel(r[j].prioridad)
    {
      KeyLeFour(Orden(r[i]), Orden(r[j]));
    }
  }

  /** Remaining ties go to the smaller remaining time, then to the earlier creation date. */
  lemma DesempateEnGrupo(registros: seq<Registro>)
    ensures var r := RefrescarAsignaciones(registros);
      forall i, j ::
        (0 <= i < j < |r| && Grupo(r[i]) == Grupo(r[j])
         && PrioridadNivel(r[i].prioridad) == PrioridadNivel(r[j].prioridad)) ==>
        (&& TiempoRestante(r[i]) <= TiempoRestante(r[j])
         && (TiempoRestante(r[i]) == TiempoRestante(r[j]) ==> r[i].fechaCreacion <= r[j].fechaCreacion))
  {
    var r := RefrescarAsignaciones(registros);
    forall i, j | 0 <= i < j < |r| && Grupo(r[i]) == Grupo(r[j])
        && PrioridadNivel(r[i].prioridad) == PrioridadNivel(r[j].prioridad)
      ensures TiempoRestante(r[i]) <= TiempoRestante(r[j])
      ensures TiempoRestante(r[i]) == TiempoRestante(r[j]) ==> r[i].fechaCreacion <= r[j].fechaCreacion
    {
      KeyLeFour(Orden(r[i]), Orden(r[j]));
    }
  }

  /** Registros equal on all four criteria keep their order in the view model's list. */
  lemma EmpatesEstables(registros: seq<Registro>, k: seq<int>)
    ensures WithKey(RefrescarAsignaciones(registros), Orden, k) == WithKey(registros, Orden, k)
  {
    SortByStable(registros, Orden, k);
  }

  /** A list already in board order is shown as it is. */
  lemma OrdenadoSeQueda(registros: seq<Registro>)
    requires SortedBy(registros, Orden)
    ensures RefrescarAsignaciones(registros) == registros
  {
    SortBySortedInput(registros, Orden);
  }
}
