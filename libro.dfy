/** Books: the data every book shares, physical books with a stock of copies that loans
    update in place, and digital books. */
module Libros {
  import opened Base
  import opened Texto

  /** The constructor parameters of the base class `Libro`. */
  datatype DatosLibro = DatosLibro(
    id: int,
    titulo: string,
    autor: string,
    categoria: string,
    anioPublicacion: int,
    precioBase: int,
    diasPrestamo: int)
  {
    /** "<titulo> por <autor> (<anio>)". */
    function Descripcion(): string {
      titulo + " por " + autor + " (" + IntATexto(anioPublicacion) + ")"
    }
  }

  /** The `init` checks of the base class, in their order, with their messages. */
  function ChequearLibro(d: DatosLibro): (c: Chequeo)
    ensures c == Aprobado <==>
      d.precioBase >= 0 && d.diasPrestamo >= 0 && !EsBlanco(d.titulo) && !EsBlanco(d.autor)
    ensures c.Rechazado? ==> c.falla.Argumento?
  {
    if d.precioBase < 0 then
      Rechazado(Argumento("El precio base no puede ser negativo: " + IntATexto(d.precioBase)))
    else if d.diasPrestamo < 0 then
      Rechazado(Argumento("Los días de préstamo no pueden ser negativos: " + IntATexto(d.diasPrestamo)))
    else if EsBlanco(d.titulo) then Rechazado(Argumento("El título no puede estar vacío"))
    else if EsBlanco(d.autor) then Rechazado(Argumento("El autor no puede estar vacío"))
    else Aprobado
  }

  // ---------------------------------------------------------------- physical books

  /** The loan period a physical book hands to its base class: a reference book gets 0
      whatever was passed. */
  function DiasEfectivos(dias: int, esReferencia: bool): (r: int)
    ensures esReferencia ==> r == 0
    ensures !esReferencia ==> r == dias
  {
    if esReferencia then 0 else dias
  }

  /** The checks a physical book runs when built from `d` as passed: first the base
      class's on the effective loan period, then its own two. */
  function ChequearFisico(d: DatosLibro, cantidadEjemplares: int, esReferencia: bool): (c: Chequeo)
    ensures c == Aprobado <==>
      ChequearLibro(d.(diasPrestamo := DiasEfectivos(d.diasPrestamo, esReferencia))) == Aprobado &&
      cantidadEjemplares > 0 && (esReferencia ==> d.diasPrestamo == 0)
    ensures c.Rechazado? ==> c.falla.Argumento?
    ensures ChequearLibro(d.(diasPrestamo := DiasEfectivos(d.diasPrestamo, esReferencia))).Rechazado? ==>
      c == ChequearLibro(d.(diasPrestamo := DiasEfectivos(d.diasPrestamo, esReferencia)))
  {
    var base := ChequearLibro(d.(diasPrestamo := DiasEfectivos(d.diasPrestamo, esReferencia)));
    if base.Rechazado? then base
    else if cantidadEjemplares <= 0 then
      Rechazado(Argumento("La cantidad de ejemplares debe ser mayor a 0"))
    else if esReferencia && d.diasPrestamo != 0 then
      Rechazado(Argumento("Los libros de referencia no pueden tener días de préstamo"))
    else Aprobado
  }

  /** The two operations that change a physical book's stock. */
  datatype OperacionEjemplar = Prestar | Devolver

  /** The stock after one operation: lending takes a copy when the book can be lent and
      one is left; a return puts one back unless the shelf is already full. */
  function PasoEjemplares(op: OperacionEjemplar, disponibles: int, total: int, prestable: bool): int {
    match op
    case Prestar => if prestable && disponibles > 0 then disponibles - 1 else disponibles
    case Devolver => if disponibles < total then disponibles + 1 else disponibles
  }

  function EjemplaresTras(ops: seq<OperacionEjemplar>, disponibles: int, total: int, prestable: bool): int
    decreases |ops|
  {
    if ops == [] then disponibles
    else EjemplaresTras(ops[1..], PasoEjemplares(ops[0], disponibles, total, prestable), total, prestable)
  }

  /** However loans and returns interleave, the stock stays between zero and the number
      of copies, and a book that cannot be lent never loses one. */
  lemma {:induction false} EjemplaresEnRango(ops: seq<OperacionEjemplar>, disponibles: int, total: int, prestable: bool)
    requires 0 <= disponibles <= total
    ensures 0 <= EjemplaresTras(ops, disponibles, total, prestable) <= total
    ensures !prestable ==> EjemplaresTras(ops, disponibles, total, prestable) >= disponibles
    decreases |ops|
  {
    if ops != [] {
      var siguiente := PasoEjemplares(ops[0], disponibles, total, prestable);
      EjemplaresEnRango(ops[1..], siguiente, total, prestable);
      if !prestable {
        EjemplaresNoBajan(ops[1..], siguiente, total);
      }
    }
  }

  lemma {:induction false} EjemplaresNoBajan(ops: seq<OperacionEjemplar>, disponibles: int, total: int)
    ensures EjemplaresTras(ops, disponibles, total, false) >= disponibles
    decreases |ops|
  {
    if ops != [] {
      EjemplaresNoBajan(ops[1..], PasoEjemplares(ops[0], disponibles, total, false), total);
    }
  }

  /** Returning the copy that a successful loan took restores the stock. */
  lemma PrestarYDevolver(disponibles: int, total: int)
    requires 0 < disponibles <= total
    ensures PasoEjemplares(Devolver, PasoEjemplares(Prestar, disponibles, total, true), total, true) == disponibles
  {
  }

  class LibroFisico {
    /** The base-class data, holding the effective loan period. */
    const datos: DatosLibro
    const cantidadEjemplares: int
    const esReferencia: bool
    var ejemplaresDisponibles: int

    /** What the `init` blocks guarantee, and lending and returning keep. */
    ghost predicate Valid()
      reads this
    {
      ChequearLibro(datos) == Aprobado && cantidadEjemplares > 0 &&
      (esReferencia ==> datos.diasPrestamo == 0) &&
      0 <= ejemplaresDisponibles <= cantidadEjemplares
    }

    /** A physical book whose checks pass, with every copy on the shelf. */
    constructor(d: DatosLibro, cantidadEjemplares: int, esReferencia: bool)
      requires ChequearFisico(d, cantidadEjemplares, esReferencia) == Aprobado
      ensures datos == d.(diasPrestamo := DiasEfectivos(d.diasPrestamo, esReferencia))
      ensures this.cantidadEjemplares == cantidadEjemplares && this.esReferencia == esReferencia
      ensures ejemplaresDisponibles == cantidadEjemplares
      ensures Valid()
    {
      datos := d.(diasPrestamo := DiasEfectivos(d.diasPrestamo, esReferencia));
      this.cantidadEjemplares := cantidadEjemplares;
      this.esReferencia := esReferencia;
      ejemplaresDisponibles := cantidadEjemplares;
    }

    /** The Kotlin constructor call: the book, or the IllegalArgumentException of the
        first failed check. */
    static method Crear(d: DatosLibro, cantidadEjemplares: int, esReferencia: bool)
      returns (r: Resultado<LibroFisico>)
      ensures var c := ChequearFisico(d, cantidadEjemplares, esReferencia);
        (c.Rechazado? ==> r == Err(c.falla)) && (c == Aprobado ==> r.Ok?)
      ensures r.Ok? ==> fresh(r.valor) && r.valor.Valid()
      ensures r.Ok? ==> r.valor.datos == d.(diasPrestamo := DiasEfectivos(d.diasPrestamo, esReferencia))
      ensures r.Ok? ==> r.valor.cantidadEjemplares == cantidadEjemplares && r.valor.esReferencia == esReferencia
      ensures r.Ok? ==> r.valor.ejemplaresDisponibles == cantidadEjemplares
    {
      var c := ChequearFisico(d, cantidadEjemplares, esReferencia);
      if c.Rechazado? {
        return Err(c.falla);
      }
      var f := new LibroFisico(d, cantidadEjemplares, esReferencia);
      return Ok(f);
    }

    /** Lendable at all: not a reference book and with a loan period. */
    predicate Prestable() {
      !esReferencia && datos.diasPrestamo > 0
    }

    /** Lendable, with a copy on the shelf. */
    predicate EstaDisponible()
      reads this
    {
      !esReferencia && ejemplaresDisponibles > 0 && datos.diasPrestamo > 0
    }

    /** Takes a copy when the book is available and says whether it did. */
    method PrestarEjemplar() returns (ok: bool)
      requires Valid()
      modifies this
      ensures ok == old(EstaDisponible())
      ensures ejemplaresDisponibles ==
        PasoEjemplares(Prestar, old(ejemplaresDisponibles), cantidadEjemplares, Prestable())
      ensures Valid()
    {
      if EstaDisponible() {
        ejemplaresDisponibles := ejemplaresDisponibles - 1;
        ok := true;
      } else {
        ok := false;
      }
    }

    /** Puts a copy back unless every copy is already on the shelf. */
    method DevolverEjemplar()
      requires Valid()
      modifies this
      ensures ejemplaresDisponibles ==
        PasoEjemplares(Devolver, old(ejemplaresDisponibles), cantidadEjemplares, Prestable())
      ensures Valid()
    {
      if ejemplaresDisponibles < cantidadEjemplares {
        ejemplaresDisponibles := ejemplaresDisponibles + 1;
      }
    }

    /** The base description, then " (referencia)" for a reference book or the stock
        "<disponibles>/<total> disponibles" for any other. */
    function Descripcion(): string
      reads this
    {
      datos.Descripcion() +
      (if esReferencia then " (referencia)" else "") +
      (if esReferencia then ""
       else " - " + IntATexto(ejemplaresDisponibles) + "/" + IntATexto(cantidadEjemplares) + " disponibles")
    }
  }

  /** A reference book is never available, so no loan is ever made of it. */
  lemma ReferenciaNuncaDisponible(f: LibroFisico)
    requires f.esReferencia
    ensures !f.EstaDisponible() && !f.Prestable()
  {
  }

  // ----------------------------------------------------------------- digital books

  const PrefijoDescargas: string := "https://booksmart.duoc.cl/downloads/"

  /** The `init` checks of a digital book after the base class's, with their messages. */
  function ChequearDigital(d: DatosLibro, formatoArchivo: string, tamanoArchivoMB: real): (c: Chequeo)
    ensures c == Aprobado <==>
      ChequearLibro(d) == Aprobado && tamanoArchivoMB >= 0.0 && !EsBlanco(formatoArchivo)
    ensures c.Rechazado? ==> c.falla.Argumento?
    ensures ChequearLibro(d).Rechazado? ==> c == ChequearLibro(d)
  {
    var base := ChequearLibro(d);
    if base.Rechazado? then base
    else if tamanoArchivoMB < 0.0 then Rechazado(Argumento("El tamaño del archivo no puede ser negativo"))
    else if EsBlanco(formatoArchivo) then Rechazado(Argumento("El formato del archivo no puede estar vacío"))
    else Aprobado
  }

  /** `replace(" ", "_")` on a title. */
  function ReemplazarEspacios(s: string): (r: string)
    ensures |r| == |s|
    ensures forall i :: 0 <= i < |s| ==> r[i] == (if s[i] == ' ' then '_' else s[i])
  {
    if s == [] then [] else [if s[0] == ' ' then '_' else s[0]] + ReemplazarEspacios(s[1..])
  }

  /** A digital book is a value: nothing about it changes after construction. */
  datatype LibroDigital = LibroDigital(
    datos: DatosLibro,
    drm: bool,
    formatoArchivo: string,
    tamanoArchivoMB: real)
  {
    ghost predicate Valid() {
      ChequearDigital(datos, formatoArchivo, tamanoArchivoMB) == Aprobado
    }

    /** Available whenever it has a loan period; there are no copies to run out of. */
    predicate EstaDisponible() {
      datos.diasPrestamo > 0
    }

    predicate RequiereAutenticacionDRM() {
      drm
    }

    /** The simulated download link: the book's id, then the title in lower case with
        each space turned into '_'. */
    function GenerarUrlDescarga(): string {
      PrefijoDescargas + IntATexto(datos.id) + "/" + Minusculas(ReemplazarEspacios(datos.titulo))
    }

    /** The base description, " (DRM)" when protected, and the size when positive.
        `tamanoComoTexto` is Kotlin's text for the `Double` size. */
    function Descripcion(tamanoComoTexto: string): string {
      datos.Descripcion() +
      (if drm then " (DRM)" else "") +
      (if tamanoArchivoMB > 0.0 then " - " + tamanoComoTexto + "MB" else "")
    }
  }

  /** The DRM flag is what `requiereAutenticacionDRM` reports, and it does not change
      whether the book is available. */
  lemma DrmNoRestringeDisponibilidad(g: LibroDigital)
    ensures g.RequiereAutenticacionDRM() <==> g.drm
    ensures g.RequiereAutenticacionDRM() != g.(drm := !g.drm).RequiereAutenticacionDRM()
    ensures g.EstaDisponible() == g.(drm := !g.drm).EstaDisponible()
  {
  }

  /** The last segment of a download link is as long as the title, holds no space and no
      upper-case letter, and keeps every other character of the title; the segment
      before it reads back as the book's id. */
  lemma UrlDescarga(g: LibroDigital)
    ensures var u := g.GenerarUrlDescarga();
      var n := |PrefijoDescargas| + |IntATexto(g.datos.id)|;
      |u| == n + 1 + |g.datos.titulo| &&
      u[..|PrefijoDescargas|] == PrefijoDescargas && u[n] == '/' &&
      (MinInt <= g.datos.id <= MaxInt ==> ParseEntero(u[|PrefijoDescargas|..n]) == Some(g.datos.id)) &&
      (forall i :: n + 1 <= i < |u| ==> u[i] != ' ' && !('A' <= u[i] <= 'Z')) &&
      (forall i :: 0 <= i < |g.datos.titulo| && g.datos.titulo[i] != ' ' ==>
         u[n + 1 + i] == MinusculaChar(g.datos.titulo[i]))
  {
    var u := g.GenerarUrlDescarga();
    var t := IntATexto(g.datos.id);
    var seg := Minusculas(ReemplazarEspacios(g.datos.titulo));
    SegmentoUrl(g.datos.titulo);
    PartesUrl(PrefijoDescargas, t, seg);
    var n := |PrefijoDescargas| + |t|;
    forall i | n + 1 <= i < |u|
      ensures u[i] != ' ' && !('A' <= u[i] <= 'Z')
    {
      assert u[n + 1 + (i - n - 1)] == seg[i - n - 1];
    }
    if MinInt <= g.datos.id <= MaxInt {
      ParseDeIntATexto(g.datos.id);
    }
  }

  /** Where each part of `prefijo + id + "/" + seg` lies. */
  lemma PartesUrl(prefijo: string, id: string, seg: string)
    ensures var u := prefijo + id + "/" + seg;
      var n := |prefijo| + |id|;
      |u| == n + 1 + |seg| && u[..|prefijo|] == prefijo && u[|prefijo|..n] == id && u[n] == '/' &&
      forall i :: 0 <= i < |seg| ==> u[n + 1 + i] == seg[i]
  {
  }

  /** The title part of a download link. */
  lemma SegmentoUrl(titulo: string)
    ensures var seg := Minusculas(ReemplazarEspacios(titulo));
      |seg| == |titulo| &&
      (forall i :: 0 <= i < |seg| ==> seg[i] != ' ' && !('A' <= seg[i] <= 'Z')) &&
      (forall i :: 0 <= i < |titulo| && titulo[i] != ' ' ==> seg[i] == MinusculaChar(titulo[i]))
  {
    var r := ReemplazarEspacios(titulo);
    var seg := Minusculas(r);
    forall i | 0 <= i < |seg| ensures seg[i] != ' ' && !('A' <= seg[i] <= 'Z') {
      assert seg[i] == MinusculaChar(r[i]);
    }
  }

  // ------------------------------------------------------------------ any book

  /** A book as the rest of the core sees it: a plain `Libro`, or one of the two
      subclasses. */
  datatype Libro =
    | Comun(base: DatosLibro)
    | Fisico(fisico: LibroFisico)
    | Digital(digital: LibroDigital)
  {
    function Datos(): DatosLibro {
      match this
      case Comun(d) => d
      case Fisico(f) => f.datos
      case Digital(g) => g.datos
    }

    function Id(): int { Datos().id }

    /** The objects whose fields this book's answers depend on. */
    function Huella(): set<LibroFisico> {
      if Fisico? then {fisico} else {}
    }

    ghost predicate Valid()
      reads Huella()
    {
      match this
      case Comun(d) => ChequearLibro(d) == Aprobado
      case Fisico(f) => f.Valid()
      case Digital(g) => g.Valid()
    }

    /** `estaDisponible()`, dispatched to the override of the book's class. */
    predicate EstaDisponible()
      reads Huella()
    {
      match this
      case Comun(d) => d.diasPrestamo > 0
      case Fisico(f) => f.EstaDisponible()
      case Digital(g) => g.EstaDisponible()
    }

    /** `costoFinal()`: no override changes the price, so every book costs its base
        price. */
    function CostoFinal(): (c: int)
      ensures c == Datos().precioBase
    {
      match this
      case Comun(d) => d.precioBase
      case Fisico(f) => f.datos.precioBase
      case Digital(g) => g.datos.precioBase
    }

    /** `descripcion()`, dispatched to the override of the book's class. */
    function Descripcion(tamanoComoTexto: string): string
      reads Huella()
    {
      match this
      case Comun(d) => d.Descripcion()
      case Fisico(f) => f.Descripcion()
      case Digital(g) => g.Descripcion(tamanoComoTexto)
    }
  }

  /** What availability means for each kind of book: a loan period, and for a physical
      book also not being a reference book and having a copy on the shelf. */
  lemma Disponibilidad(l: Libro)
    ensures l.EstaDisponible() ==> l.Datos().diasPrestamo > 0
    ensures l.Fisico? ==> (l.EstaDisponible() <==>
      l.fisico.Prestable() && l.fisico.ejemplaresDisponibles > 0)
    ensures !l.Fisico? ==> (l.EstaDisponible() <==> l.Datos().diasPrestamo > 0)
  {
  }

  /** Every description starts with the base description. */
  lemma DescripcionExtiendeBase(l: Libro, tamanoComoTexto: string)
    ensures var b := l.Datos().Descripcion(); var s := l.Descripcion(tamanoComoTexto);
      |b| <= |s| && s[..|b|] == b
  {
  }

  /** The physical books among `ls`: every object a question about the catalogue reads. */
  function HuellaLibros(ls: seq<Libro>): set<LibroFisico> {
    set i | 0 <= i < |ls| && ls[i].Fisico? :: ls[i].fisico
  }

  lemma HuellaContiene(ls: seq<Libro>, i: int)
    requires 0 <= i < |ls|
    ensures ls[i].Huella() <= HuellaLibros(ls)
  {
  }

  lemma HuellaContieneLibro(ls: seq<Libro>, l: Libro)
    requires l in ls
    ensures l.Huella() <= HuellaLibros(ls)
  {
    var k :| 0 <= k < |ls| && ls[k] == l;
    HuellaContiene(ls, k);
  }
}
