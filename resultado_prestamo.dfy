/** The outcome of a loan operation as the user interface receives it. */
module Resultados {
  import opened Base
  import opened Texto
  import opened Prestamos

  const MensajeExito: string := "Préstamo realizado exitosamente"
  const MensajeProcesando: string := "Procesando préstamo..."
  const MensajeValidando: string := "Validando datos del préstamo..."

  /** Success with its loan, an error with an optional code, or one of the two
      in-progress states. The Kotlin default arguments are the constants above. */
  datatype ResultadoPrestamo =
    | Exito(prestamo: Prestamo, mensaje: string)
    | Error(mensaje: string, codigo: Option<string>)
    | Procesando(progreso: int, mensaje: string)
    | Validando(mensaje: string)
  {
    /** The message shown: an error is prefixed with "Error: " and progress is given
        as a percentage after the message. */
    function ObtenerMensaje(): string {
      match this
      case Exito(_, m) => m
      case Error(m, _) => "Error: " + m
      case Procesando(p, m) => m + " (" + IntATexto(p) + "%)"
      case Validando(m) => m
    }

    predicate EsExitoso() { Exito? }

    predicate EsError() { Error? }

    predicate EnProceso() { Procesando? || Validando? }
  }

  /** Every result is in exactly one of the three situations, and an error's message is
      its own message behind the "Error: " prefix. */
  lemma Clasificacion(r: ResultadoPrestamo)
    ensures (r.EsExitoso() && !r.EsError() && !r.EnProceso()) ||
            (!r.EsExitoso() && r.EsError() && !r.EnProceso()) ||
            (!r.EsExitoso() && !r.EsError() && r.EnProceso())
    ensures r.EsError() ==> r.ObtenerMensaje()[..7] == "Error: " && r.ObtenerMensaje()[7..] == r.mensaje
  {
  }
}
