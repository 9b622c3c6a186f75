/** The loan manager: makes, processes and closes loans over the store, answers the
    per-user questions and builds the loan report. The current day is a parameter. */
module Gestor {
  import opened Base
  import opened Texto
  import opened Constantes
  import opened Secuencias
  import opened Usuarios
  import opened Libros
  import Estados
  import opened Prestamos
  import R = Resultados
  import opened Validaciones
  import opened Repositorio
  import Descuentos
  import opened Multas

  /** How many books the report ranks. */
  const TopLibros: int := 5

  datatype ResultadoDevolucion =
    | Exito(prestamo: Prestamo, costoFinal: int, multa: int, mensaje: string)
    | Error(mensaje: string)

  datatype CostoTotalUsuario = CostoTotalUsuario(
    costoPrestamos: int,
    multas: int,
    costoTotal: int,
    cantidadPrestamos: int,
    cantidadAtrasados: int)

  datatype ReportePrestamos = ReportePrestamos(
    totalPrestamos: int,
    prestamosActivos: int,
    prestamosDevueltos: int,
    prestamosAtrasados: int,
    ingresosTotales: int,
    multasTotales: int,
    librosMasPrestados: seq<(Libro, int)>,
    estadisticasMultas: EstadisticasMultas)

  datatype SimulacionCosto = SimulacionCosto(
    libro: Libro,
    usuario: Usuario,
    precioBase: int,
    descuento: int,
    precioFinal: int,
    diasPrestamo: int)

  datatype VerificacionPrestamo = VerificacionPrestamo(
    puedePrestar: bool,
    motivos: seq<string>,
    prestamosActivos: int,
    prestamosAtrasados: int)

  /** The message of an exception caught by the generic handler of `crearPrestamo`. */
  function Inesperado(f: Falla): string {
    "Error inesperado: " + f.mensaje
  }

  // ------------------------------------------------------------ object footprints

  /** Every book of the store is as its constructor left it. */
  ghost predicate LibrosValidos(ls: seq<Libro>)
    reads HuellaLibros(ls)
  {
    forall i :: 0 <= i < |ls| ==> ls[i].Valid()
  }

  function ConjuntoPrestamos(ps: seq<Prestamo>): set<Prestamo> {
    set i | 0 <= i < |ps| :: ps[i]
  }

  function UsuariosDe(ps: seq<Prestamo>): set<Usuario> {
    set i | 0 <= i < |ps| :: ps[i].usuario
  }

  function EjemplaresDe(ps: seq<Prestamo>): set<LibroFisico> {
    set i | 0 <= i < |ps| && ps[i].libro.Fisico? :: ps[i].libro.fisico
  }

  /** Every stored loan, its book and its user are as their constructors left them. */
  ghost predicate PrestamosValidos(ps: seq<Prestamo>)
    reads ps, UsuariosDe(ps), EjemplaresDe(ps)
  {
    forall i :: 0 <= i < |ps| ==>
      ps[i].Valid() && ps[i].usuario.Valid() &&
      (ps[i].libro.Fisico? ==> ps[i].libro.fisico.Valid()) &&
      (!ps[i].libro.Fisico? ==> ps[i].libro.Valid())
  }

  /** What returning the loan may change: the loan, its user and its physical copy. */
  function Afectados(o: Option<Prestamo>): set<object> {
    if o.None? then {} else {o.value, o.value.usuario} + o.value.libro.Huella()
  }

  // ------------------------------------------------------------ most lent books

  /** How many of the loans are of the book. */
  function PrestamosDeLibro(ps: seq<Prestamo>, l: Libro): nat {
    Contar(ps, (p: Prestamo) => p.libro == l)
  }

  lemma PrestamosDeLibroPositivo(ps: seq<Prestamo>, k: int)
    requires 0 <= k < |ps|
    ensures PrestamosDeLibro(ps, ps[k].libro) >= 1
  {
    var l := ps[k].libro;
    assert ps[k] in Filtrar(ps, (p: Prestamo) => p.libro == l);
  }

  function LibroDe(p: Prestamo): Libro { p.libro }

  /** The lent books, each once, in order of first loan. */
  function LibrosPrestados(ps: seq<Prestamo>): (ls: seq<Libro>)
    ensures SinRepetidos(ls)
    ensures forall i :: 0 <= i < |ls| ==> PrestamosDeLibro(ps, ls[i]) >= 1
    ensures forall k :: 0 <= k < |ps| ==> ps[k].libro in ls
  {
    var todos := Mapear(ps, LibroDe);
    var ls := Distintos(todos);
    PrestadosSonLibros(ps, todos, ls);
    ls
  }

  /** Any list holding exactly the books of the loans names only lent books, and every
      one of them. */
  lemma PrestadosSonLibros(ps: seq<Prestamo>, todos: seq<Libro>, ls: seq<Libro>)
    requires |todos| == |ps| && forall k :: 0 <= k < |ps| ==> todos[k] == ps[k].libro
    requires forall i :: 0 <= i < |ls| ==> ls[i] in todos
    requires forall k :: 0 <= k < |todos| ==> todos[k] in ls
    ensures forall i :: 0 <= i < |ls| ==> PrestamosDeLibro(ps, ls[i]) >= 1
    ensures forall k :: 0 <= k < |ps| ==> ps[k].libro in ls
  {
    forall i | 0 <= i < |ls| ensures PrestamosDeLibro(ps, ls[i]) >= 1 {
      var k :| 0 <= k < |todos| && todos[k] == ls[i];
      PrestamosDeLibroPositivo(ps, k);
    }
  }

  /** `groupBy { libro }.mapValues { size }.toList()`: each lent book once, in order of
      first loan, with its number of loans. */
  function Agrupar(ps: seq<Prestamo>): (g: seq<(Libro, int)>)
    ensures forall i :: 0 <= i < |g| ==> g[i].1 == PrestamosDeLibro(ps, g[i].0) && g[i].1 >= 1
    ensures forall i, j :: 0 <= i < j < |g| ==> g[i].0 != g[j].0
    ensures forall k :: 0 <= k < |ps| ==> (ps[k].libro, PrestamosDeLibro(ps, ps[k].libro)) in g
  {
    var ls := LibrosPrestados(ps);
    var g := Mapear(ls, (l: Libro) => (l, PrestamosDeLibro(ps, l)));
    GruposCompletos(ps, ls, g);
    g
  }

  /** Pairing each lent book with its count gives each book once, with a true count,
      and leaves out no loan's book. */
  lemma GruposCompletos(ps: seq<Prestamo>, ls: seq<Libro>, g: seq<(Libro, int)>)
    requires |g| == |ls| && forall i :: 0 <= i < |g| ==> g[i] == (ls[i], PrestamosDeLibro(ps, ls[i]))
    requires SinRepetidos(ls) && forall i :: 0 <= i < |ls| ==> PrestamosDeLibro(ps, ls[i]) >= 1
    requires forall k :: 0 <= k < |ps| ==> ps[k].libro in ls
    ensures forall i :: 0 <= i < |g| ==> g[i].1 == PrestamosDeLibro(ps, g[i].0) && g[i].1 >= 1
    ensures forall i, j :: 0 <= i < j < |g| ==> g[i].0 != g[j].0
    ensures forall k :: 0 <= k < |ps| ==> (ps[k].libro, PrestamosDeLibro(ps, ps[k].libro)) in g
  {
    assert forall i :: 0 <= i < |g| ==> g[i].0 == ls[i];
    forall k | 0 <= k < |ps| ensures (ps[k].libro, PrestamosDeLibro(ps, ps[k].libro)) in g {
      var i :| 0 <= i < |ls| && ls[i] == ps[k].libro;
      assert g[i] == (ps[k].libro, PrestamosDeLibro(ps, ps[k].libro));
    }
  }

  /** The group list has no repeated entry, since no book appears twice in it. */
  lemma AgruparSinRepetidos(ps: seq<Prestamo>)
    ensures SinRepetidos(Agrupar(ps))
  {
    var g := Agrupar(ps);
    forall i, j | 0 <= i < j < |g| ensures g[i] != g[j] {
      assert g[i].0 != g[j].0;
    }
  }

  /** The groups by decreasing number of loans, each book still once. */
  function Ordenados(ps: seq<Prestamo>): (o: seq<(Libro, int)>)
    ensures forall i, j :: 0 <= i < j < |o| ==> o[i].1 >= o[j].1
    ensures forall i :: 0 <= i < |o| ==> o[i].1 == PrestamosDeLibro(ps, o[i].0) && o[i].1 >= 1
    ensures forall i, j :: 0 <= i < j < |o| ==> o[i].0 != o[j].0
    ensures forall k :: 0 <= k < |ps| ==> (ps[k].libro, PrestamosDeLibro(ps, ps[k].libro)) in o
  {
    var g := Agrupar(ps);
    var o := OrdenarPorEntero(g, (e: (Libro, int)) => e.1, false);
    PermutacionContiene(o, g);
    PermutacionContiene(g, o);
    AgruparSinRepetidos(ps);
    PermutacionSinRepetidos(g, o);
    forall i, j | 0 <= i < j < |o| ensures o[i].0 != o[j].0 {
      assert o[i] in g && o[j] in g;
      assert o[i] != o[j];
    }
    o
  }

  /** A top list of the loans: at most five books by decreasing number of loans, each
      with its own count and listed once; a lent book left out means the list is full
      and the book has no more loans than the last one listed. */
  predicate EsTopLibros(ps: seq<Prestamo>, r: seq<(Libro, int)>) {
    |r| <= TopLibros &&
    (forall i, j :: 0 <= i < j < |r| ==> r[i].1 >= r[j].1) &&
    (forall i :: 0 <= i < |r| ==> r[i].1 == PrestamosDeLibro(ps, r[i].0) && r[i].1 >= 1) &&
    (forall i, j :: 0 <= i < j < |r| ==> r[i].0 != r[j].0) &&
    (forall k :: (0 <= k < |ps| && forall i :: 0 <= i < |r| ==> r[i].0 != ps[k].libro) ==>
      |r| == TopLibros && PrestamosDeLibro(ps, ps[k].libro) <= r[TopLibros - 1].1)
  }

  /** The report's top list: the first five groups by decreasing number of loans. */
  function LibrosMasPrestados(ps: seq<Prestamo>): (r: seq<(Libro, int)>)
    ensures EsTopLibros(ps, r)
  {
    var r := Tomar(Ordenados(ps), TopLibros);
    TopEsTop(ps, r);
    r
  }

  lemma TopEsTop(ps: seq<Prestamo>, r: seq<(Libro, int)>)
    requires r == Tomar(Ordenados(ps), TopLibros)
    ensures EsTopLibros(ps, r)
  {
    TopOrdenado(ps, r);
    TopCompleto(ps, r);
  }

  /** The first five sorted groups keep the order, the counts and the distinct books. */
  lemma TopOrdenado(ps: seq<Prestamo>, r: seq<(Libro, int)>)
    requires r == Tomar(Ordenados(ps), TopLibros)
    ensures
      (forall i, j :: 0 <= i < j < |r| ==> r[i].1 >= r[j].1) &&
      (forall i :: 0 <= i < |r| ==> r[i].1 == PrestamosDeLibro(ps, r[i].0) && r[i].1 >= 1) &&
      (forall i, j :: 0 <= i < j < |r| ==> r[i].0 != r[j].0)
  {
    PrefijoConserva(ps, Ordenados(ps), r);
  }

  /** A prefix keeps the order, the counts and the distinctness of the groups. */
  lemma PrefijoConserva(ps: seq<Prestamo>, o: seq<(Libro, int)>, r: seq<(Libro, int)>)
    requires forall i, j :: 0 <= i < j < |o| ==> o[i].1 >= o[j].1
    requires forall i :: 0 <= i < |o| ==> o[i].1 == PrestamosDeLibro(ps, o[i].0) && o[i].1 >= 1
    requires forall i, j :: 0 <= i < j < |o| ==> o[i].0 != o[j].0
    requires |r| <= |o| && r == o[..|r|]
    ensures
      (forall i, j :: 0 <= i < j < |r| ==> r[i].1 >= r[j].1) &&
      (forall i :: 0 <= i < |r| ==> r[i].1 == PrestamosDeLibro(ps, r[i].0) && r[i].1 >= 1) &&
      (forall i, j :: 0 <= i < j < |r| ==> r[i].0 != r[j].0)
  {
    assert forall i :: 0 <= i < |r| ==> r[i] == o[i];
  }

  /** A lent book missing from the first five sorted groups comes after them. */
  lemma TopCompleto(ps: seq<Prestamo>, r: seq<(Libro, int)>)
    requires r == Tomar(Ordenados(ps), TopLibros)
    ensures
      forall k :: (0 <= k < |ps| && forall i :: 0 <= i < |r| ==> r[i].0 != ps[k].libro) ==>
        |r| == TopLibros && PrestamosDeLibro(ps, ps[k].libro) <= r[TopLibros - 1].1
  {
    var o := Ordenados(ps);
    forall k | 0 <= k < |ps| && forall i :: 0 <= i < |r| ==> r[i].0 != ps[k].libro
      ensures |r| == TopLibros && PrestamosDeLibro(ps, ps[k].libro) <= r[TopLibros - 1].1
    {
      var e := (ps[k].libro, PrestamosDeLibro(ps, ps[k].libro));
      assert e in o;
      FueraDelPrefijo(o, r, TopLibros, e);
    }
  }

  /** In a list by decreasing count, an entry whose book is not among the first `n`
      comes after a full prefix of `n` entries and counts no more than the last of them. */
  lemma FueraDelPrefijo(o: seq<(Libro, int)>, r: seq<(Libro, int)>, n: nat, e: (Libro, int))
    requires forall i, j :: 0 <= i < j < |o| ==> o[i].1 >= o[j].1
    requires r == Tomar(o, n) && e in o && n > 0
    requires forall i :: 0 <= i < |r| ==> r[i].0 != e.0
    ensures |r| == n && e.1 <= r[n - 1].1
  {
    var m :| 0 <= m < |o| && o[m] == e;
    assert forall i :: 0 <= i < |r| ==> r[i] == o[i];
    assert m >= |r|;
  }

  /** Counting loans late on day `hoy` through the loan criterion or through the fine
      calculator gives the same number. */
  lemma {:induction false} AtrasadosIguales(ps: seq<Prestamo>, hoy: int)
    ensures ContarPrestamos(ps, Atrasado(hoy)) == ContarAtrasados(ps, hoy)
  {
    if ps != [] {
      AtrasadosIguales(ps[1..], hoy);
    }
  }

  /** The reasons `puedeRealizarPrestamo` lists, one per failed condition in a fixed
      order: each appears exactly when its condition holds, and none means none holds. */
  lemma MotivosSignifican(atrasos: bool, multas: bool, limite: bool, motivos: seq<string>)
    requires var m0: seq<string> := [];
      var m1 := if atrasos then m0 + ["Usuario con atrasos registrados"] else m0;
      var m2 := if multas then m1 + ["Demasiadas multas acumuladas"] else m1;
      motivos == if limite then m2 + ["Límite de préstamos simultáneos alcanzado"] else m2
    ensures ("Usuario con atrasos registrados" in motivos <==> atrasos) &&
            ("Demasiadas multas acumuladas" in motivos <==> multas) &&
            ("Límite de préstamos simultáneos alcanzado" in motivos <==> limite)
    ensures |motivos| == 0 <==> !atrasos && !multas && !limite
    ensures |motivos| <= 3
    ensures motivos == (if atrasos then ["Usuario con atrasos registrados"] else []) +
                       (if multas then ["Demasiadas multas acumuladas"] else []) +
                       (if limite then ["Límite de préstamos simultáneos alcanzado"] else [])
    ensures forall i, j :: 0 <= i < j < |motivos| ==> motivos[i] != motivos[j]
  {
    assert "Usuario con atrasos registrados"[0] == 'U';
    assert "Demasiadas multas acumuladas"[0] == 'D';
    assert "Límite de préstamos simultáneos alcanzado"[0] == 'L';
  }

  // ------------------------------------------------------------ the manager

  class GestorPrestamos {
    const repository: LibroRepository
    var siguienteIdPrestamo: int

    /** The store keeps its rules, its books and loans are well formed, and the next
        loan id is positive. */
    ghost predicate Valid()
      reads this, repository, HuellaLibros(repository.libros), repository.prestamos,
            UsuariosDe(repository.prestamos), EjemplaresDe(repository.prestamos)
    {
      repository.Valid() && siguienteIdPrestamo >= 1 &&
      LibrosValidos(repository.libros) && PrestamosValidos(repository.prestamos)
    }

    /** A manager over the store whose first loan will have id 1. */
    constructor(repository: LibroRepository)
      ensures this.repository == repository && siguienteIdPrestamo == 1
      ensures repository.Valid() && LibrosValidos(repository.libros) && PrestamosValidos(repository.prestamos) ==>
        Valid()
    {
      this.repository := repository;
      siguienteIdPrestamo := 1;
    }

    /** Why `crearPrestamo` refuses to lend book `libroId` to the user, if it does. The
        checks run in order: the id must be positive, the user must have fewer than
        three late returns, the book must exist, and it must be available. The
        validation failures reach the generic handler, so their message is prefixed. */
    function MotivoRechazo(libroId: int, usuario: Usuario): (m: Option<string>)
      reads this, repository, HuellaLibros(repository.libros), usuario
      ensures libroId <= 0 ==> m == Some(Inesperado(ValidarId(libroId, "libro").falla))
      ensures libroId > 0 && !usuario.PuedeRealizarPrestamos() ==>
        m == Some(Inesperado(Validacion(MensajeUsuarioConAtrasos)))
      ensures libroId > 0 && usuario.PuedeRealizarPrestamos() && !repository.ExisteLibro(libroId) ==>
        m == Some("Libro no encontrado con ID: " + IntATexto(libroId))
      ensures libroId > 0 && usuario.PuedeRealizarPrestamos() && repository.ExisteLibro(libroId) &&
              !repository.ObtenerLibroPorId(libroId).value.EstaDisponible() ==>
        m == Some(Inesperado(Validacion(MensajeLibroNoDisponible)))
      ensures m.None? <==>
        libroId > 0 && usuario.PuedeRealizarPrestamos() && repository.ExisteLibro(libroId) &&
        repository.ObtenerLibroPorId(libroId).value.EstaDisponible()
    {
      var id := ValidarId(libroId, "libro");
      if id.Err? then Some(Inesperado(id.falla)) else
      var u := ValidarPrestamoUsuario(usuario);
      if u.Rechazado? then Some(Inesperado(u.falla)) else
      var encontrado := repository.ObtenerLibroPorId(libroId);
      if encontrado.None? then Some("Libro no encontrado con ID: " + IntATexto(libroId)) else
      HuellaContieneLibro(repository.libros, encontrado.value);
      var disponible := ValidarPrestamoLibro(encontrado.value);
      if disponible.Rechazado? then Some(Inesperado(disponible.falla)) else None
    }

    /** Lends book `libroId` to the user on day `hoy`. A refusal gives its reason and no
        code, and changes nothing. On success the loan takes the next id, is stored
        pending, and a physical book has one copy fewer on the shelf. */
    method CrearPrestamo(libroId: int, usuario: Usuario, hoy: int) returns (r: R.ResultadoPrestamo)
      requires Valid() && usuario.Valid()
      modifies this, repository, HuellaLibros(repository.libros)
      ensures r.Error? <==> old(MotivoRechazo(libroId, usuario)).Some?
      ensures r.Exito? <==> old(MotivoRechazo(libroId, usuario)).None?
      ensures r.Error? ==> r == R.Error(old(MotivoRechazo(libroId, usuario)).value, None)
      ensures r.Exito? ==>
        fresh(r.prestamo) && r.prestamo.Valid() && r.mensaje == "Préstamo creado exitosamente" &&
        r.prestamo.id == old(siguienteIdPrestamo) && r.prestamo.usuario == usuario &&
        r.prestamo.libro == old(repository.ObtenerLibroPorId(libroId).value) &&
        r.prestamo.fechaPrestamo == hoy && r.prestamo.estado == Estados.Pendiente
      ensures r.Exito? && r.prestamo.libro.Fisico? ==>
        r.prestamo.libro.fisico.ejemplaresDisponibles ==
        old(repository.ObtenerLibroPorId(libroId).value.fisico.ejemplaresDisponibles) - 1
      ensures forall f :: f in old(HuellaLibros(repository.libros)) && !(r.Exito? && r.prestamo.libro == Fisico(f)) ==>
        f.ejemplaresDisponibles == old(f.ejemplaresDisponibles)
      ensures repository.prestamos == if r.Exito? then old(repository.prestamos) + [r.prestamo]
                                      else old(repository.prestamos)
      ensures repository.libros == old(repository.libros) && repository.usuarios == old(repository.usuarios)
      ensures siguienteIdPrestamo == if r.Exito? then old(siguienteIdPrestamo) + 1 else old(siguienteIdPrestamo)
      ensures Valid()
    {
      var motivo := MotivoRechazo(libroId, usuario);
      if motivo.Some? {
        return R.Error(motivo.value, None);
      }
      var libro := repository.ObtenerLibroPorId(libroId).value;
      var k :| 0 <= k < |repository.libros| && repository.libros[k] == libro;
      var prestamo := Reservar(k, usuario, hoy);
      return R.Exito(prestamo, "Préstamo creado exitosamente");
    }

    /** Lends the store's `k`-th book, which is available, to the user: the loan takes
        the next id and is stored, and only the book's copy count changes besides. */
    method Reservar(k: int, usuario: Usuario, hoy: int) returns (prestamo: Prestamo)
      requires Valid() && usuario.Valid() && usuario.PuedeRealizarPrestamos()
      requires 0 <= k < |repository.libros| && repository.libros[k].EstaDisponible()
      modifies this, repository, repository.libros[k].Huella()
      ensures Valid()
      ensures fresh(prestamo) && prestamo.Valid()
      ensures prestamo.id == old(siguienteIdPrestamo) && prestamo.libro == old(repository.libros[k]) &&
              prestamo.usuario == usuario && prestamo.fechaPrestamo == hoy && prestamo.estado == Estados.Pendiente
      ensures siguienteIdPrestamo == old(siguienteIdPrestamo) + 1
      ensures repository.prestamos == old(repository.prestamos) + [prestamo]
      ensures repository.libros == old(repository.libros) && repository.usuarios == old(repository.usuarios)
      ensures prestamo.libro.Fisico? ==>
        prestamo.libro.fisico.ejemplaresDisponibles == old(repository.libros[k].fisico.ejemplaresDisponibles) - 1
    {
      var libro := repository.libros[k];
      HuellaContiene(repository.libros, k);
      Disponibilidad(libro);
      prestamo := new Prestamo(siguienteIdPrestamo, libro, usuario, hoy);
      siguienteIdPrestamo := siguienteIdPrestamo + 1;
      Guardar(prestamo, k);
      assert repository.Valid() && LibrosValidos(repository.libros);
    }

    /** Takes a copy of the loan's book, the store's `k`-th and available, and stores the
        loan: only that copy count and the loan list change. */
    method Guardar(prestamo: Prestamo, k: int)
      requires Valid() && prestamo.Valid() && prestamo.usuario.Valid()
      requires 0 <= k < |repository.libros| && repository.libros[k] == prestamo.libro
      requires prestamo.libro.EstaDisponible()
      modifies repository, prestamo.libro.Huella()
      ensures Valid()
      ensures repository.prestamos == old(repository.prestamos) + [prestamo]
      ensures repository.libros == old(repository.libros) && repository.usuarios == old(repository.usuarios)
      ensures prestamo.libro.Fisico? ==>
        prestamo.libro.fisico.ejemplaresDisponibles == old(prestamo.libro.fisico.ejemplaresDisponibles) - 1
    {
      HuellaContiene(repository.libros, k);
      if prestamo.libro.Fisico? {
        var reservado := prestamo.libro.fisico.PrestarEjemplar();
        assert reservado;
      }
      var _ := repository.AgregarPrestamo(prestamo);
      PrestamosValidosAnadir(old(repository.prestamos), prestamo);
      assert LibrosValidos(repository.libros);
    }

    /** Marks the loan as lent out on day `hoy`; processing cannot fail. */
    method ProcesarPrestamo(prestamo: Prestamo, hoy: int) returns (r: R.ResultadoPrestamo)
      requires prestamo.Valid()
      modifies prestamo
      ensures prestamo.estado == Estados.EnPrestamo(prestamo.DiasRestantes(hoy))
      ensures prestamo.fechaDevolucionReal == old(prestamo.fechaDevolucionReal)
      ensures r == R.Exito(prestamo, "Préstamo procesado exitosamente")
      ensures prestamo.Valid()
    {
      prestamo.estado := Estados.Pendiente;
      prestamo.Procesar(hoy);
      return R.Exito(prestamo, "Préstamo procesado exitosamente");
    }

    /** The first stored loan with the id. */
    function BuscarPrestamo(prestamoId: int): (r: Option<Prestamo>)
      reads this, repository
      ensures r.None? <==> forall i :: 0 <= i < |repository.prestamos| ==> repository.prestamos[i].id != prestamoId
      ensures r.Some? ==> r.value in repository.prestamos && r.value.id == prestamoId
      ensures r.Some? ==> exists i :: 0 <= i < |repository.prestamos| && repository.prestamos[i] == r.value &&
                                      forall j :: 0 <= j < i ==> repository.prestamos[j].id != prestamoId
    {
      BuscarPrimero(repository.prestamos, (p: Prestamo) => p.id == prestamoId)
    }

    /** The stored loan with the id, when there is one and it is not returned yet. */
    function PrestamoAbierto(prestamoId: int): (r: Option<Prestamo>)
      reads this, repository, repository.prestamos
      ensures r.Some? <==> BuscarPrestamo(prestamoId).Some? && BuscarPrestamo(prestamoId).value.estado != Estados.Devuelto
      ensures r.Some? ==> r == BuscarPrestamo(prestamoId)
    {
      var b := BuscarPrestamo(prestamoId);
      if b.Some? && b.value.estado != Estados.Devuelto then b else None
    }

    /** Closes loan `prestamoId` on day `hoy`, changing only that loan, its user and its
        copy count. An unknown id or a loan already returned is refused, and then
        nothing may change; otherwise the loan is returned, its fine is reported and the
        amount due is its price plus that fine. */
    method DevolverLibro(prestamoId: int, hoy: int) returns (r: ResultadoDevolucion)
      requires Valid()
      modifies Afectados(PrestamoAbierto(prestamoId))
      ensures Valid()
      ensures old(BuscarPrestamo(prestamoId)).None? ==> r == Error("Préstamo no encontrado")
      ensures old(BuscarPrestamo(prestamoId)).Some? && old(BuscarPrestamo(prestamoId).value.estado) == Estados.Devuelto ==>
        r == Error("El libro ya fue devuelto anteriormente")
      ensures r.Exito? <==> old(PrestamoAbierto(prestamoId)).Some?
      ensures r.Exito? ==>
        r.prestamo == old(PrestamoAbierto(prestamoId)).value && r.mensaje == "Libro devuelto exitosamente" &&
        r.prestamo.estado == Estados.Devuelto && r.prestamo.fechaDevolucionReal == Some(hoy) &&
        r.multa == r.prestamo.CalcularMulta(hoy) && r.costoFinal == r.prestamo.costoTotal + r.multa
      ensures r.Exito? && r.prestamo.libro.Fisico? ==>
        r.prestamo.libro.fisico.ejemplaresDisponibles ==
        PasoEjemplares(OperacionEjemplar.Devolver, old(PrestamoAbierto(prestamoId).value.libro.fisico.ejemplaresDisponibles),
                       r.prestamo.libro.fisico.cantidadEjemplares, r.prestamo.libro.fisico.Prestable())
      ensures r.Exito? ==> (r.prestamo.usuario.cantidadAtrasos ==
        if r.prestamo.EstaAtrasado(hoy) then PasoAtrasos(old(PrestamoAbierto(prestamoId).value.usuario.cantidadAtrasos), Registrar)
        else old(PrestamoAbierto(prestamoId).value.usuario.cantidadAtrasos))
    {
      var encontrado := BuscarPrestamo(prestamoId);
      if encontrado.None? {
        return Error("Préstamo no encontrado");
      }
      var prestamo := encontrado.value;
      if prestamo.estado == Estados.Devuelto {
        return Error("El libro ya fue devuelto anteriormente");
      }
      var k :| 0 <= k < |repository.prestamos| && repository.prestamos[k] == prestamo;
      PrestamoValido(repository.prestamos, k);
      var costoFinal := Cerrar(prestamo, hoy);
      return Exito(prestamo, costoFinal, prestamo.CalcularMulta(hoy), "Libro devuelto exitosamente");
    }

    /** Returns one stored, open loan: only it, its user and its copy count change. */
    method Cerrar(prestamo: Prestamo, hoy: int) returns (costoFinal: int)
      requires Valid() && prestamo in repository.prestamos
      requires prestamo.Valid() && prestamo.usuario.Valid() && prestamo.libro.Valid()
      modifies prestamo, prestamo.usuario, prestamo.libro.Huella()
      ensures Valid()
      ensures prestamo.estado == Estados.Devuelto && prestamo.fechaDevolucionReal == Some(hoy)
      ensures prestamo.libro.Fisico? ==>
        (prestamo.libro.fisico.ejemplaresDisponibles ==
         PasoEjemplares(OperacionEjemplar.Devolver, old(prestamo.libro.fisico.ejemplaresDisponibles),
                        prestamo.libro.fisico.cantidadEjemplares, prestamo.libro.fisico.Prestable()))
      ensures prestamo.usuario.cantidadAtrasos ==
        if prestamo.EstaAtrasado(hoy) then PasoAtrasos(old(prestamo.usuario.cantidadAtrasos), Registrar)
        else old(prestamo.usuario.cantidadAtrasos)
      ensures costoFinal == prestamo.CostoTotalConMulta(hoy)
    {
      costoFinal := prestamo.Devolver(hoy);
      assert LibrosValidos(repository.libros);
      assert PrestamosValidos(repository.prestamos);
    }

    /** `obtenerPrestamosUsuario`: the user's loans in store order, after checking
        the id. */
    function ObtenerPrestamosUsuario(usuarioId: int): (r: Resultado<seq<Prestamo>>)
      reads this, repository, repository.prestamos
      ensures r.Err? <==> usuarioId <= 0
      ensures r.Err? ==> r.falla == ValidarId(usuarioId, "usuario").falla
      ensures r.Ok? ==> EsSubsecuencia(r.valor, repository.prestamos)
      ensures r.Ok? ==> forall i :: 0 <= i < |r.valor| ==> r.valor[i].usuario.id == usuarioId
      ensures r.Ok? ==> forall i :: 0 <= i < |repository.prestamos| && repository.prestamos[i].usuario.id == usuarioId ==>
        repository.prestamos[i] in r.valor
    {
      var v := ValidarId(usuarioId, "usuario");
      if v.Err? then Err(v.falla) else Ok(repository.ObtenerPrestamosPorUsuario(usuarioId))
    }

    /** The user's open loans. */
    function ObtenerPrestamosActivos(usuarioId: int): (r: Resultado<seq<Prestamo>>)
      reads this, repository, repository.prestamos
      ensures r.Err? <==> usuarioId <= 0
      ensures r.Ok? ==> EsSubsecuencia(r.valor, repository.prestamos)
      ensures r.Ok? ==> forall i :: 0 <= i < |r.valor| ==>
        r.valor[i] in repository.prestamos && r.valor[i].usuario.id == usuarioId && r.valor[i].estado.EsActivo()
      ensures r.Ok? ==> forall i :: (0 <= i < |repository.prestamos| && repository.prestamos[i].usuario.id == usuarioId &&
                                     repository.prestamos[i].estado.EsActivo()) ==>
        repository.prestamos[i] in r.valor
    {
      var ps := ObtenerPrestamosUsuario(usuarioId);
      if ps.Err? then ps else
      var r := FiltrarPrestamos(ps.valor, Activo);
      SubsecuenciaTransitiva(r, ps.valor, repository.prestamos);
      Ok(r)
    }

    /** The user's loans past their due date on day `hoy`. */
    function ObtenerPrestamosAtrasados(usuarioId: int, hoy: int): (r: Resultado<seq<Prestamo>>)
      reads this, repository, repository.prestamos
      ensures r.Err? <==> usuarioId <= 0
      ensures r.Ok? ==> EsSubsecuencia(r.valor, repository.prestamos)
      ensures r.Ok? ==> forall i :: 0 <= i < |r.valor| ==>
        r.valor[i] in repository.prestamos && r.valor[i].usuario.id == usuarioId && r.valor[i].EstaAtrasado(hoy)
      ensures r.Ok? ==> forall i :: (0 <= i < |repository.prestamos| && repository.prestamos[i].usuario.id == usuarioId &&
                                     repository.prestamos[i].EstaAtrasado(hoy)) ==>
        repository.prestamos[i] in r.valor
    {
      var ps := ObtenerPrestamosUsuario(usuarioId);
      if ps.Err? then ps else
      var r := FiltrarPrestamos(ps.valor, Atrasado(hoy));
      SubsecuenciaTransitiva(r, ps.valor, repository.prestamos);
      Ok(r)
    }

    /** What the user's loans cost: the discounted prices, the fines on day `hoy`, and
        the two together. */
    function CalcularCostoTotalUsuario(usuarioId: int, hoy: int): (r: Resultado<CostoTotalUsuario>)
      reads this, repository, repository.prestamos
      ensures r.Err? <==> usuarioId <= 0
      ensures r.Ok? ==>
        var ps := repository.ObtenerPrestamosPorUsuario(usuarioId);
        r.valor.costoPrestamos == SumarCostos(ps) && r.valor.multas == SumarMultas(ps, hoy) &&
        r.valor.cantidadPrestamos == |ps| && r.valor.cantidadAtrasados == ContarAtrasados(ps, hoy)
      ensures r.Ok? ==> r.valor.costoTotal == r.valor.costoPrestamos + r.valor.multas
      ensures r.Ok? ==> r.valor.multas >= 0 && 0 <= r.valor.cantidadAtrasados <= r.valor.cantidadPrestamos
    {
      var ps := ObtenerPrestamosUsuario(usuarioId);
      if ps.Err? then Err(ps.falla)
      else
        var m := CalcularMultasUsuario(ps.valor, hoy);
        Ok(CostoTotalUsuario(SumarCostos(ps.valor), m.totalMultas, m.costoTotalConMultas, |ps.valor|,
                             m.cantidadPrestamosAtrasados))
    }

    /** The report over every stored loan on day `hoy`. */
    function GenerarReportePrestamos(hoy: int): (r: ReportePrestamos)
      reads this, repository, repository.prestamos
      ensures r.totalPrestamos == |repository.prestamos|
      ensures r.prestamosActivos == ContarPrestamos(repository.prestamos, Activo)
      ensures r.prestamosDevueltos == ContarPrestamos(repository.prestamos, Cerrado)
      ensures 0 <= r.prestamosActivos && 0 <= r.prestamosDevueltos
      ensures r.prestamosActivos + r.prestamosDevueltos <= r.totalPrestamos
      ensures r.prestamosAtrasados == ContarAtrasados(repository.prestamos, hoy) <= r.totalPrestamos
      ensures r.ingresosTotales == SumarCostos(repository.prestamos)
      ensures r.multasTotales == SumarMultas(repository.prestamos, hoy) && r.multasTotales >= 0
      ensures r.librosMasPrestados == LibrosMasPrestados(repository.prestamos)
      ensures r.estadisticasMultas == GenerarEstadisticasMultas(repository.prestamos, hoy)
    {
      var ps := repository.prestamos;
      ActivosMasCerrados(ps);
      CostosConMultaSuman(ps, hoy);
      ReportePrestamos(|ps|, ContarPrestamos(ps, Activo), ContarPrestamos(ps, Cerrado), ContarAtrasados(ps, hoy),
                       SumarCostos(ps), SumarMultas(ps, hoy), LibrosMasPrestados(ps),
                       GenerarEstadisticasMultas(ps, hoy))
    }

    /** What a loan of the book would cost the user, without making it; no such book
        gives nothing. */
    function SimularCostoPrestamo(libroId: int, usuario: Usuario): (r: Option<SimulacionCosto>)
      reads this, repository
      ensures r.None? <==> !repository.ExisteLibro(libroId)
      ensures r.Some? ==>
        r.value.libro == repository.ObtenerLibroPorId(libroId).value && r.value.usuario == usuario &&
        r.value.precioBase == r.value.libro.Datos().precioBase &&
        r.value.diasPrestamo == r.value.libro.Datos().diasPrestamo
      ensures r.Some? ==>
        r.value.descuento == usuario.CalcularDescuento(r.value.precioBase) &&
        r.value.descuento + r.value.precioFinal == r.value.precioBase
      ensures r.Some? && r.value.precioBase >= 0 ==> 0 <= r.value.descuento <= r.value.precioBase
    {
      var l := repository.ObtenerLibroPorId(libroId);
      if l.None? then None
      else
        var d := Descuentos.CalcularDescuento(usuario, l.value);
        Some(SimulacionCosto(l.value, usuario, l.value.Datos().precioBase, d.montoDescuento, d.precioFinal,
                             l.value.Datos().diasPrestamo))
    }

    /** Whether the user may borrow more on day `hoy`: fewer than three late returns,
        fewer than three overdue loans and fewer than five open loans, with one reason
        for each condition that fails. The user's id is checked first. */
    method PuedeRealizarPrestamo(usuario: Usuario, hoy: int) returns (r: Resultado<VerificacionPrestamo>)
      ensures r.Err? <==> usuario.id <= 0
      ensures r.Err? ==> r.falla == ValidarId(usuario.id, "usuario").falla
      ensures r.Ok? ==>
        var ps := repository.ObtenerPrestamosPorUsuario(usuario.id);
        r.valor.prestamosActivos == ContarPrestamos(ps, Activo) &&
        r.valor.prestamosAtrasados == ContarPrestamos(ps, Atrasado(hoy))
      ensures r.Ok? ==> (r.valor.puedePrestar <==>
        usuario.cantidadAtrasos < MaxAtrasosPermitidos && r.valor.prestamosAtrasados < MaxAtrasosPermitidos &&
        r.valor.prestamosActivos < MaxLibrosSimultaneos)
      ensures r.Ok? ==> (|r.valor.motivos| == 0 <==> r.valor.puedePrestar)
      ensures r.Ok? ==> ("Usuario con atrasos registrados" in r.valor.motivos <==>
                         usuario.cantidadAtrasos >= MaxAtrasosPermitidos)
      ensures r.Ok? ==> ("Demasiadas multas acumuladas" in r.valor.motivos <==>
                         r.valor.prestamosAtrasados >= MaxAtrasosPermitidos)
      ensures r.Ok? ==> ("Límite de préstamos simultáneos alcanzado" in r.valor.motivos <==>
                         r.valor.prestamosActivos >= MaxLibrosSimultaneos)
      ensures r.Ok? ==> |r.valor.motivos| <= 3
      ensures r.Ok? ==>
                r.valor.motivos ==
                (if usuario.cantidadAtrasos >= MaxAtrasosPermitidos then ["Usuario con atrasos registrados"] else []) +
                (if r.valor.prestamosAtrasados >= MaxAtrasosPermitidos then ["Demasiadas multas acumuladas"] else []) +
                (if r.valor.prestamosActivos >= MaxLibrosSimultaneos then ["Límite de préstamos simultáneos alcanzado"] else [])
      ensures r.Ok? ==> forall i, j :: 0 <= i < j < |r.valor.motivos| ==> r.valor.motivos[i] != r.valor.motivos[j]
    {
      var delUsuario := ObtenerPrestamosUsuario(usuario.id);
      if delUsuario.Err? {
        return Err(delUsuario.falla);
      }
      var activos := ObtenerPrestamosActivos(usuario.id).valor;
      var atrasados := ObtenerPrestamosAtrasados(usuario.id, hoy).valor;
      var restricciones := VerificarRestriccionesPorMultas(usuario, delUsuario.valor, hoy);
      AtrasadosIguales(delUsuario.valor, hoy);
      var puedePrestar := usuario.PuedeRealizarPrestamos() && !restricciones.tieneRestricciones &&
                          |activos| < MaxLibrosSimultaneos;
      var motivos: seq<string> := [];
      if !usuario.PuedeRealizarPrestamos() {
        motivos := motivos + ["Usuario con atrasos registrados"];
      }
      if restricciones.tieneRestricciones {
        motivos := motivos + ["Demasiadas multas acumuladas"];
      }
      if |activos| >= MaxLibrosSimultaneos {
        motivos := motivos + ["Límite de préstamos simultáneos alcanzado"];
      }
      MotivosSignifican(!usuario.PuedeRealizarPrestamos(), restricciones.tieneRestricciones,
                        |activos| >= MaxLibrosSimultaneos, motivos);
      return Ok(VerificacionPrestamo(puedePrestar, motivos, |activos|, |atrasados|));
    }

    function ObtenerEstadisticasPrestamos(hoy: int): (e: EstadisticasPrestamos)
      reads this, repository, repository.prestamos
      ensures e == CalcularEstadisticasPrestamos(repository.prestamos, hoy)
      ensures e.totalPrestamos == |repository.prestamos|
    {
      repository.ObtenerEstadisticasPrestamos(hoy)
    }
  }

  // ------------------------------------------------------------ frame lemmas

  lemma PrestamoValido(ps: seq<Prestamo>, k: int)
    requires PrestamosValidos(ps) && 0 <= k < |ps|
    ensures ps[k].Valid() && ps[k].libro.Valid() && ps[k].usuario.Valid()
    ensures ps[k].usuario in UsuariosDe(ps) && ps[k].libro.Huella() <= EjemplaresDe(ps)
  {
  }

  lemma PrestamosValidosAnadir(ps: seq<Prestamo>, p: Prestamo)
    requires PrestamosValidos(ps) && p.Valid() && p.usuario.Valid() && p.libro.Valid()
    ensures PrestamosValidos(ps + [p])
  {
  }
}
