/** The numeric business constants of the BookSmart core. */
module Constantes {
  /** Fine charged per day of late return, in pesos. */
  const MultaPorDiaAtraso: int := 100
  const PrecioMinimoLibro: int := 0
  const PrecioMaximoLibro: int := 100000
  /** A user with this many late returns may not borrow. */
  const MaxAtrasosPermitidos: int := 3
  const MaxLibrosSimultaneos: int := 5
  const MaxDiasPrestamo: int := 30

  const MinLongitudNombre: int := 2
  const MaxLongitudNombre: int := 50
  const MinLongitudContrasena: int := 6
  const MaxLongitudContrasena: int := 20
  const MinLongitudTitulo: int := 1
  const MaxLongitudTitulo: int := 100

  const MensajeLibroNoDisponible: string := "El libro no está disponible para préstamo"
  const MensajeUsuarioConAtrasos: string := "No puede realizar préstamos debido a atrasos pendientes"
  const MensajeLibroReferencia: string := "Los libros de referencia no se pueden prestar"
}
