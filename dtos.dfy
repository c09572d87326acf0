/**
 * The transfer objects exchanged between the desktop client and the API.
 * Both sides declare the same `RegistroDto` shape (the API adds a parent
 * id); a sub-registro is itself a `RegistroDto`, so the type is a tree.
 * Dates are instants counted in ticks; `DateTime?` is an `Option`.
 */
module Dtos {
  import opened Core

  /** A `DateTime`, as a count of ticks. */
  type DateTime = int

  /** `DateTime.MaxValue`, which the client sorts undated tasks against. */
  const MaxDate: DateTime := 3_155_378_975_999_999_999

  datatype RegistroDto = RegistroDto(
    id: string,
    numero: Int32,
    tipo: string,
    titulo: string,
    descripcion: string,
    creadoPor: string,
    asignadoA: Option<string>,
    fechaCreacion: DateTime,
    fechaAsignacion: Option<DateTime>,
    fechaCierre: Option<DateTime>,
    fechaInicio: Option<DateTime>,
    fechaFin: Option<DateTime>,
    estado: string,
    tiempoTranscurrido: Int32,
    tiempoEstimado: Int32,
    proyecto: Option<string>,
    empresa: Option<string>,
    contacto: Option<string>,
    telefono: Option<string>,
    prioridad: Option<string>,
    adjuntos: Option<string>,
    nombreAsignado: Option<string>,
    subRegistros: seq<RegistroDto>,
    taskCountFromDb: Int32,
    totalPesoAdjuntosKb: Int32,
    adjuntosEliminados: Option<seq<string>>,
    adjuntosTareasEliminados: Option<seq<string>>)

  /** A task as the client sends it inside the legacy `Tareas` list. */
  datatype TareaRegistroDto = TareaRegistroDto(
    id: string,
    descripcion: string,
    completada: bool,
    archivosAdjuntos: Option<string>)

  /** The client's view of one attachment. */
  datatype AttachmentItem = AttachmentItem(
    filePath: string,
    fileName: string,
    fileSize: Int64,
    originalPath: string,
    thumbnailPath: string,
    isImage: bool,
    fromServer: bool)
}
