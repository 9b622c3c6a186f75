/** A loan of one book to one user: prices fixed when it is made, a due date, a state
    that processing and returning change, and the fine for a late return. */
module Prestamos {
  import opened Base
  import opened Constantes
  import opened Secuencias
  import Tipos
  import opened Usuarios
  import opened Libros
  import opened Estados

  /** The `init` checks of a loan made with the default price, in their order. */
  function ChequearPrestamo(libro: Libro, usuario: Usuario): (c: Chequeo)
    reads libro.Huella(), usuario
    ensures c == Aprobado <==>
      libro.Datos().precioBase >= 0 && libro.EstaDisponible() && usuario.PuedeRealizarPrestamos()
    ensures c.Rechazado? ==> c.falla.Argumento?
  {
    if libro.Datos().precioBase < 0 then Rechazado(Argumento("El precio base no puede ser negativo"))
    else if !libro.EstaDisponible() then
      Rechazado(Argumento("No se puede crear un préstamo para un libro no disponible"))
    else if !usuario.PuedeRealizarPrestamos() then
      Rechazado(Argumento("El usuario no puede realizar préstamos debido a atrasos"))
    else Aprobado
  }

  class Prestamo {
    const id: int
    const libro: Libro
    const usuario: Usuario
    /** Day numbers. */
    const fechaPrestamo: int
    const fechaLimiteDevolucion: int
    const precioBase: int
    const descuentoAplicado: int
    const costoTotal: int
    var estado: EstadoPrestamo
    var fechaDevolucionReal: Option<int>

    /** The defaults the loan was built with, which nothing changes afterwards, and a
        returned loan has a return date. */
    ghost predicate Valid()
      reads this
    {
      precioBase == libro.Datos().precioBase && precioBase >= 0 &&
      libro.Datos().diasPrestamo > 0 &&
      fechaLimiteDevolucion == fechaPrestamo + libro.Datos().diasPrestamo &&
      descuentoAplicado == usuario.CalcularDescuento(precioBase) &&
      costoTotal == usuario.AplicarDescuento(precioBase) &&
      (estado == Devuelto ==> fechaDevolucionReal.Some?)
    }

    /** A loan made on day `hoy` with every default: due after the book's loan period,
        at the book's price less the user's discount, pending and not yet returned. */
    constructor(id: int, libro: Libro, usuario: Usuario, hoy: int)
      requires ChequearPrestamo(libro, usuario) == Aprobado
      ensures this.id == id && this.libro == libro && this.usuario == usuario
      ensures fechaPrestamo == hoy && fechaLimiteDevolucion == hoy + libro.Datos().diasPrestamo
      ensures precioBase == libro.Datos().precioBase
      ensures descuentoAplicado == usuario.CalcularDescuento(libro.Datos().precioBase)
      ensures costoTotal == usuario.AplicarDescuento(libro.Datos().precioBase)
      ensures estado == Pendiente && fechaDevolucionReal == None
      ensures Valid()
    {
      Disponibilidad(libro);
      this.id := id;
      this.libro := libro;
      this.usuario := usuario;
      fechaPrestamo := hoy;
      fechaLimiteDevolucion := hoy + libro.Datos().diasPrestamo;
      precioBase := libro.Datos().precioBase;
      descuentoAplicado := usuario.CalcularDescuento(libro.Datos().precioBase);
      costoTotal := usuario.AplicarDescuento(libro.Datos().precioBase);
      estado := Pendiente;
      fechaDevolucionReal := None;
    }

    /** The Kotlin constructor call: the loan, or the IllegalArgumentException of the
        first failed check. */
    static method Crear(id: int, libro: Libro, usuario: Usuario, hoy: int) returns (r: Resultado<Prestamo>)
      ensures var c := ChequearPrestamo(libro, usuario);
        (c.Rechazado? ==> r == Err(c.falla)) && (c == Aprobado ==> r.Ok?)
      ensures r.Ok? ==> fresh(r.valor) && r.valor.Valid()
      ensures r.Ok? ==> r.valor.id == id && r.valor.libro == libro && r.valor.usuario == usuario
      ensures r.Ok? ==> r.valor.fechaPrestamo == hoy && r.valor.estado == Pendiente
      ensures r.Ok? ==> r.valor.fechaDevolucionReal == None
    {
      var c := ChequearPrestamo(libro, usuario);
      if c.Rechazado? {
        return Err(c.falla);
      }
      var p := new Prestamo(id, libro, usuario, hoy);
      return Ok(p);
    }

    /** Days from `hoy` to the due date; negative once it has passed. */
    function DiasRestantes(hoy: int): (d: int)
      ensures Valid() ==> d == libro.Datos().diasPrestamo - (hoy - fechaPrestamo)
      ensures d < 0 <==> hoy > fechaLimiteDevolucion
    {
      fechaLimiteDevolucion - hoy
    }

    /** Late once the due date has passed. */
    predicate EstaAtrasado(hoy: int)
      ensures EstaAtrasado(hoy) <==> hoy > fechaLimiteDevolucion
    {
      DiasRestantes(hoy) < 0
    }

    /** 100 pesos per day past the due date, nothing before it. */
    function CalcularMulta(hoy: int): (m: int)
      ensures m >= 0
      ensures m > 0 <==> EstaAtrasado(hoy)
      ensures m == Max(0, hoy - fechaLimiteDevolucion) * MultaPorDiaAtraso
    {
      if !EstaAtrasado(hoy) then 0 else Abs(DiasRestantes(hoy)) * MultaPorDiaAtraso
    }

    /** The discounted price plus the fine. */
    function CostoTotalConMulta(hoy: int): (c: int)
      ensures c >= costoTotal
      ensures c - costoTotal == CalcularMulta(hoy)
    {
      costoTotal + CalcularMulta(hoy)
    }

    /** Marks the loan as lent out, recording the days left on day `hoy`. */
    method Procesar(hoy: int)
      requires Valid()
      modifies this
      ensures estado == EnPrestamo(DiasRestantes(hoy))
      ensures fechaDevolucionReal == old(fechaDevolucionReal)
      ensures Valid()
    {
      estado := EnPrestamo(DiasRestantes(hoy));
    }

    method MarcarError(mensaje: string)
      requires Valid()
      modifies this
      ensures estado == Error(mensaje)
      ensures fechaDevolucionReal == old(fechaDevolucionReal)
      ensures Valid()
    {
      estado := Error(mensaje);
    }

    /** Returns the book on day `hoy`: the loan is closed with that date, a physical
        copy goes back on the shelf, a late return is recorded against the user, and
        the price with the fine is due. */
    method Devolver(hoy: int) returns (costo: int)
      requires Valid() && libro.Valid() && usuario.Valid()
      modifies this, libro.Huella(), usuario
      ensures estado == Devuelto && fechaDevolucionReal == Some(hoy)
      ensures libro.Fisico? ==>
        (libro.fisico.ejemplaresDisponibles ==
         PasoEjemplares(OperacionEjemplar.Devolver, old(libro.fisico.ejemplaresDisponibles),
                        libro.fisico.cantidadEjemplares, libro.fisico.Prestable()))
      ensures usuario.cantidadAtrasos ==
        if EstaAtrasado(hoy) then PasoAtrasos(old(usuario.cantidadAtrasos), Registrar)
        else old(usuario.cantidadAtrasos)
      ensures costo == CostoTotalConMulta(hoy)
      ensures Valid() && libro.Valid() && usuario.Valid()
    {
      fechaDevolucionReal := Some(hoy);
      estado := Devuelto;
      if libro.Fisico? {
        libro.fisico.DevolverEjemplar();
      }
      if EstaAtrasado(hoy) {
        usuario.RegistrarAtraso();
      }
      costo := CostoTotalConMulta(hoy);
    }
  }

  /** What a valid loan always satisfies: the discount lies between zero and the price
      and the two parts add up to it, the due date is after the loan day, and nothing
      is owed beyond the discounted price on or before the due date. */
  lemma ImportesDelPrestamo(p: Prestamo, hoy: int)
    requires p.Valid()
    ensures 0 <= p.descuentoAplicado <= p.precioBase
    ensures 0 <= p.costoTotal <= p.precioBase
    ensures p.costoTotal + p.descuentoAplicado == p.precioBase
    ensures p.fechaLimiteDevolucion > p.fechaPrestamo
    ensures hoy <= p.fechaLimiteDevolucion ==> p.CostoTotalConMulta(hoy) == p.costoTotal
    ensures !p.EstaAtrasado(p.fechaPrestamo)
  {
    Tipos.DescuentoAcotado(p.usuario.tipoUsuario, p.precioBase);
    Tipos.DescuentoMasPrecioFinal(p.usuario.tipoUsuario, p.precioBase);
  }

  /** The fine never decreases as days pass, and each day past the due date adds
      exactly one day's fine. */
  lemma MultaCreciente(p: Prestamo, hoy: int, despues: int)
    requires hoy <= despues
    ensures p.CalcularMulta(hoy) <= p.CalcularMulta(despues)
    ensures p.EstaAtrasado(hoy) ==>
      p.CalcularMulta(despues) == p.CalcularMulta(hoy) + (despues - hoy) * MultaPorDiaAtraso
  {
  }

  /** Three days late costs 300 pesos. */
  lemma MultaTresDias(p: Prestamo)
    ensures p.CalcularMulta(p.fechaLimiteDevolucion + 3) == 300
    ensures p.CalcularMulta(p.fechaLimiteDevolucion) == 0
  {
  }

  // ------------------------------------------------------------- lists of loans

  /** The questions the core asks of a loan when it filters a list of them. */
  datatype CriterioPrestamo =
    | Activo
    | Cerrado
    | Atrasado(hoy: int)
    | DelUsuario(usuarioId: int)

  predicate Cumple(p: Prestamo, c: CriterioPrestamo)
    reads p
  {
    match c
    case Activo => p.estado.EsActivo()
    case Cerrado => p.estado == Devuelto
    case Atrasado(hoy) => p.EstaAtrasado(hoy)
    case DelUsuario(u) => p.usuario.id == u
  }

  /** `filter`: the loans meeting the criterion, in their order. */
  function FiltrarPrestamos(ps: seq<Prestamo>, c: CriterioPrestamo): (r: seq<Prestamo>)
    reads ps
    ensures |r| <= |ps|
    ensures forall i :: 0 <= i < |r| ==> r[i] in ps && Cumple(r[i], c)
    ensures forall i :: 0 <= i < |ps| && Cumple(ps[i], c) ==> ps[i] in r
    ensures EsSubsecuencia(r, ps)
  {
    if ps == [] then []
    else
      var resto := FiltrarPrestamos(ps[1..], c);
      if Cumple(ps[0], c) then [ps[0]] + resto else resto
  }

  /** `filter` keeps every loan meeting the criterion as many times as it occurs, and no other. */
  lemma {:induction false} FiltrarPrestamosCuenta(ps: seq<Prestamo>, c: CriterioPrestamo, p: Prestamo)
    ensures multiset(FiltrarPrestamos(ps, c))[p] == if Cumple(p, c) then multiset(ps)[p] else 0
  {
    if ps != [] {
      FiltrarPrestamosCuenta(ps[1..], c, p);
      MultisetCabeza(ps);
      var cabeza := if Cumple(ps[0], c) then [ps[0]] else [];
      assert FiltrarPrestamos(ps, c) == cabeza + FiltrarPrestamos(ps[1..], c);
      assert multiset(FiltrarPrestamos(ps, c)) == multiset(cabeza) + multiset(FiltrarPrestamos(ps[1..], c));
    }
  }

  /** `count`. */
  function ContarPrestamos(ps: seq<Prestamo>, c: CriterioPrestamo): nat
    reads ps
  {
    |FiltrarPrestamos(ps, c)|
  }

  /** Filtering twice is filtering once by both criteria. */
  lemma {:induction false} FiltrarPrestamosDosVeces(ps: seq<Prestamo>, c: CriterioPrestamo, d: CriterioPrestamo)
    ensures FiltrarPrestamos(FiltrarPrestamos(ps, c), d) == FiltrarPrestamos(FiltrarPrestamos(ps, d), c)
  {
    if ps != [] {
      FiltrarPrestamosDosVeces(ps[1..], c, d);
    }
  }

  /** Open and returned loans never overlap, so together they are at most all loans. */
  lemma {:induction false} ActivosMasCerrados(ps: seq<Prestamo>)
    ensures ContarPrestamos(ps, Activo) + ContarPrestamos(ps, Cerrado) <= |ps|
  {
    if ps != [] {
      ActivosMasCerrados(ps[1..]);
    }
  }

  /** The sum of the discounted prices. */
  function SumarCostos(ps: seq<Prestamo>): int {
    Sumar(ps, (p: Prestamo) => p.costoTotal)
  }

  /** The sum of the fines on day `hoy`. */
  function SumarMultas(ps: seq<Prestamo>, hoy: int): int {
    Sumar(ps, (p: Prestamo) => p.CalcularMulta(hoy))
  }

  /** The sum of the prices with fines. */
  function SumarCostosConMulta(ps: seq<Prestamo>, hoy: int): int {
    Sumar(ps, (p: Prestamo) => p.CostoTotalConMulta(hoy))
  }

  /** The prices with fines add up to the prices plus the fines, and no fine total is
      negative. */
  lemma CostosConMultaSuman(ps: seq<Prestamo>, hoy: int)
    ensures SumarCostosConMulta(ps, hoy) == SumarCostos(ps) + SumarMultas(ps, hoy)
    ensures SumarMultas(ps, hoy) >= 0
  {
    SumarLineal(ps, (p: Prestamo) => p.costoTotal, (p: Prestamo) => p.CalcularMulta(hoy),
                (p: Prestamo) => p.CostoTotalConMulta(hoy));
    SumarNoNegativa(ps, (p: Prestamo) => p.CalcularMulta(hoy));
  }
}
