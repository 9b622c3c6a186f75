/** The discount calculator: what a user's category takes off one book or a cart of books,
    who is entitled to a discount, and how much a user has saved over their loans. Rates
    are whole percentages where the Kotlin code has doubles. */
module Descuentos {
  import opened Base
  import opened Secuencias
  import opened Tipos
  import opened Usuarios
  import opened Libros
  import opened Prestamos

  datatype DescuentoCalculado = DescuentoCalculado(
    precioBase: int,
    porcentajeDescuento: int,
    montoDescuento: int,
    precioFinal: int,
    tipoUsuario: TipoUsuario)

  datatype DescuentoMultipleCalculado = DescuentoMultipleCalculado(
    descuentosIndividuales: seq<DescuentoCalculado>,
    subtotal: int,
    totalDescuentos: int,
    totalFinal: int,
    cantidadLibros: int)

  datatype InfoDescuento = InfoDescuento(descripcion: string, porcentaje: int, condiciones: string)

  datatype AhorroAcumulado = AhorroAcumulado(
    totalSinDescuento: int,
    totalConDescuento: int,
    ahorroTotal: int,
    cantidadPrestamos: int,
    ahorroPromedio: int)

  datatype SimulacionDescuento = SimulacionDescuento(
    precioOriginal: int,
    porcentajeDescuento: int,
    montoDescuento: int,
    precioFinal: int,
    tipoUsuario: TipoUsuario)

  /** The discount of one book for one user: the category's discount on the base price,
      and the rest as the final price. */
  function CalcularDescuento(usuario: Usuario, libro: Libro): (r: DescuentoCalculado)
    ensures r.precioBase == libro.Datos().precioBase
    ensures r.montoDescuento + r.precioFinal == r.precioBase
    ensures r.montoDescuento == usuario.tipoUsuario.CalcularDescuento(r.precioBase)
    ensures r.precioFinal == usuario.AplicarDescuento(r.precioBase)
    ensures r.porcentajeDescuento == usuario.tipoUsuario.Porcentaje() && r.tipoUsuario == usuario.tipoUsuario
    ensures r.precioBase >= 0 ==> 0 <= r.montoDescuento <= r.precioBase && 0 <= r.precioFinal <= r.precioBase
  {
    var precioBase := libro.Datos().precioBase;
    var montoDescuento := usuario.CalcularDescuento(precioBase);
    assert precioBase >= 0 ==> 0 <= montoDescuento <= precioBase by {
      if precioBase >= 0 {
        DescuentoAcotado(usuario.tipoUsuario, precioBase);
      }
    }
    DescuentoCalculado(precioBase, usuario.tipoUsuario.Porcentaje(), montoDescuento,
                       precioBase - montoDescuento, usuario.tipoUsuario)
  }

  /** The discounts of a cart: one entry per book, and the three totals. */
  function CalcularDescuentoMultiple(usuario: Usuario, libros: seq<Libro>): (r: DescuentoMultipleCalculado)
    ensures |r.descuentosIndividuales| == |libros| == r.cantidadLibros
    ensures forall i :: 0 <= i < |libros| ==> r.descuentosIndividuales[i] == CalcularDescuento(usuario, libros[i])
    ensures r.subtotal == r.totalDescuentos + r.totalFinal
    ensures r.subtotal == Sumar(libros, (l: Libro) => l.Datos().precioBase)
    ensures r.totalFinal == Sumar(libros, (l: Libro) => usuario.AplicarDescuento(l.Datos().precioBase))
  {
    var ds := Mapear(libros, (l: Libro) => CalcularDescuento(usuario, l));
    var subtotal := Sumar(ds, (d: DescuentoCalculado) => d.precioBase);
    var totalDescuentos := Sumar(ds, (d: DescuentoCalculado) => d.montoDescuento);
    var totalFinal := Sumar(ds, (d: DescuentoCalculado) => d.precioFinal);
    SumarLineal(ds, (d: DescuentoCalculado) => d.montoDescuento, (d: DescuentoCalculado) => d.precioFinal,
                (d: DescuentoCalculado) => d.precioBase);
    SumarMapear(libros, (l: Libro) => CalcularDescuento(usuario, l), (d: DescuentoCalculado) => d.precioBase,
                (l: Libro) => l.Datos().precioBase);
    SumarMapear(libros, (l: Libro) => CalcularDescuento(usuario, l), (d: DescuentoCalculado) => d.precioFinal,
                (l: Libro) => usuario.AplicarDescuento(l.Datos().precioBase));
    DescuentoMultipleCalculado(ds, subtotal, totalDescuentos, totalFinal, |libros|)
  }

  /** A positive rate and fewer than three late returns. */
  predicate EsElegibleParaDescuentos(usuario: Usuario)
    reads usuario
  {
    usuario.tipoUsuario.Porcentaje() > 0 && usuario.PuedeRealizarPrestamos()
  }

  /** Only students and staff with fewer than three late returns are eligible. */
  lemma Elegibilidad(usuario: Usuario)
    ensures EsElegibleParaDescuentos(usuario) <==>
      (usuario.tipoUsuario == Estudiante || usuario.tipoUsuario == Docente) && usuario.cantidadAtrasos < 3
  {
  }

  /** The information shown for a category. The administrator entry reuses the external
      rate, which is also zero. */
  function ObtenerInfoDescuento(tipo: TipoUsuario): (r: InfoDescuento)
    ensures r.porcentaje == tipo.Porcentaje()
    ensures r.porcentaje > 0 <==> tipo == Estudiante || tipo == Docente
  {
    match tipo
    case Estudiante => InfoDescuento("Descuento Estudiante DUOC UC", 10,
                                     "Válido para estudiantes con email @duocuc.cl")
    case Docente => InfoDescuento("Descuento Docente DUOC UC", 15,
                                  "Válido para docentes con email @duoc.cl")
    case Externo => InfoDescuento("Sin descuento", 0, "No aplican descuentos para usuarios externos")
    case Admin => InfoDescuento("Usuario administrador", 0, "Los administradores no realizan préstamos")
  }

  function SumarPreciosBase(ps: seq<Prestamo>): int {
    Sumar(ps, (p: Prestamo) => p.precioBase)
  }

  function SumarDescuentos(ps: seq<Prestamo>): int {
    Sumar(ps, (p: Prestamo) => p.descuentoAplicado)
  }

  /** What a user saved: base prices minus what was charged, and the average per loan
      with Kotlin's truncating division, 0 for no loans. */
  function CalcularAhorroAcumulado(ps: seq<Prestamo>): (r: AhorroAcumulado)
    ensures r.totalSinDescuento == SumarPreciosBase(ps) && r.totalConDescuento == SumarCostos(ps)
    ensures r.ahorroTotal == r.totalSinDescuento - r.totalConDescuento
    ensures r.cantidadPrestamos == |ps|
    ensures r.ahorroPromedio == Promedio(r.ahorroTotal, |ps|)
  {
    var sin := SumarPreciosBase(ps);
    var con := SumarCostos(ps);
    var ahorro := sin - con;
    AhorroAcumulado(sin, con, ahorro, |ps|, Promedio(ahorro, |ps|))
  }

  /** Over loans built by the constructor the saving is exactly the sum of the discounts
      applied, so it and its average are never negative. */
  lemma AhorroEsDescuento(ps: seq<Prestamo>)
    requires forall i :: 0 <= i < |ps| ==> ps[i].Valid()
    ensures CalcularAhorroAcumulado(ps).ahorroTotal == SumarDescuentos(ps)
    ensures CalcularAhorroAcumulado(ps).ahorroTotal >= 0
    ensures CalcularAhorroAcumulado(ps).ahorroPromedio >= 0
  {
    forall i | 0 <= i < |ps| ensures ps[i].precioBase == ps[i].descuentoAplicado + ps[i].costoTotal {
      ImportesDelPrestamo(ps[i], 0);
    }
    SumarLineal(ps, (p: Prestamo) => p.descuentoAplicado, (p: Prestamo) => p.costoTotal,
                (p: Prestamo) => p.precioBase);
    forall i | 0 <= i < |ps| ensures ps[i].descuentoAplicado >= 0 {
      ImportesDelPrestamo(ps[i], 0);
    }
    SumarNoNegativa(ps, (p: Prestamo) => p.descuentoAplicado);
  }

  /** The discount a category would give on a price, computed from the rate. */
  function SimularDescuento(tipo: TipoUsuario, precioBase: int): (r: SimulacionDescuento)
    ensures r.montoDescuento == tipo.CalcularDescuento(precioBase)
    ensures r.precioFinal == tipo.AplicarDescuento(precioBase)
    ensures r.precioOriginal == precioBase && r.porcentajeDescuento == tipo.Porcentaje()
  {
    var monto := DivTrunc(precioBase * tipo.Porcentaje(), 100);
    SimulacionDescuento(precioBase, tipo.Porcentaje(), monto, precioBase - monto, tipo)
  }

  /** Simulating a user's category on a book's price gives the discount of that book. */
  lemma SimulacionCoincide(usuario: Usuario, libro: Libro)
    ensures SimularDescuento(usuario.tipoUsuario, libro.Datos().precioBase).montoDescuento ==
            CalcularDescuento(usuario, libro).montoDescuento
    ensures SimularDescuento(usuario.tipoUsuario, libro.Datos().precioBase).precioFinal ==
            CalcularDescuento(usuario, libro).precioFinal
  {
  }
}
