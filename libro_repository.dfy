/** The in-memory store: the lists of books, users and loans, changed in place by the
    add and remove operations, with the searches and statistics over them. */
module Repositorio {
  import opened Base
  import opened Texto
  import opened Secuencias
  import opened Usuarios
  import opened Libros
  import opened Prestamos

  /** The questions the store and the catalogue ask of a book when they filter. */
  datatype CriterioLibro =
    | TituloContiene(consulta: string)
    | AutorContiene(consulta: string)
    | CategoriaIgual(consulta: string)
    | Disponible
    | NoDisponible
    | Relacionado(categoria: string, autor: string)
    | FisicoDisponible
    | EsFisico
    | EsDigital
    | Referencia
    | OtroId(id: int)

  predicate CumpleLibro(l: Libro, c: CriterioLibro)
    reads l.Huella()
  {
    match c
    case TituloContiene(q) => ContieneSinMayusculas(l.Datos().titulo, q)
    case AutorContiene(q) => ContieneSinMayusculas(l.Datos().autor, q)
    case CategoriaIgual(q) => IgualesSinMayusculas(l.Datos().categoria, q)
    case Disponible => l.EstaDisponible()
    case NoDisponible => !l.EstaDisponible()
    case Relacionado(cat, aut) => l.Datos().categoria == cat || l.Datos().autor == aut
    case FisicoDisponible => l.Fisico? && l.fisico.EstaDisponible() && l.fisico.ejemplaresDisponibles > 0
    case EsFisico => l.Fisico?
    case EsDigital => l.Digital?
    case Referencia => l.Fisico? && l.fisico.esReferencia
    case OtroId(id) => l.Id() != id
  }

  /** `filter` over books: the books meeting the criterion, in their order. */
  function FiltrarLibros(ls: seq<Libro>, c: CriterioLibro): (r: seq<Libro>)
    reads HuellaLibros(ls)
    ensures |r| <= |ls|
    ensures forall i :: 0 <= i < |r| ==> r[i] in ls && CumpleLibro(r[i], c)
    ensures forall i :: 0 <= i < |ls| && CumpleLibro(ls[i], c) ==> ls[i] in r
    ensures EsSubsecuencia(r, ls)
  {
    if ls == [] then []
    else
      var resto := FiltrarLibros(ls[1..], c);
      if CumpleLibro(ls[0], c) then [ls[0]] + resto else resto
  }

  /** `filter` keeps every book meeting the criterion as many times as it occurs, and no other. */
  lemma {:induction false} FiltrarLibrosCuenta(ls: seq<Libro>, c: CriterioLibro, l: Libro)
    ensures multiset(FiltrarLibros(ls, c))[l] == if CumpleLibro(l, c) then multiset(ls)[l] else 0
  {
    if ls != [] {
      FiltrarLibrosCuenta(ls[1..], c, l);
      FiltrarCabeza(ls, c);
      MultisetCabeza(ls);
    }
  }

  function ContarLibros(ls: seq<Libro>, c: CriterioLibro): nat
    reads HuellaLibros(ls)
  {
    |FiltrarLibros(ls, c)|
  }

  /** A criterion implied by another is met by at least as many books. */
  lemma {:induction false} ContarLibrosImplica(ls: seq<Libro>, c: CriterioLibro, d: CriterioLibro)
    requires forall i :: 0 <= i < |ls| && CumpleLibro(ls[i], c) ==> CumpleLibro(ls[i], d)
    ensures ContarLibros(ls, c) <= ContarLibros(ls, d)
  {
    if ls != [] {
      ContarLibrosImplica(ls[1..], c, d);
    }
  }

  /** Two criteria no book meets together count at most all books. */
  lemma {:induction false} ContarLibrosDisjuntos(ls: seq<Libro>, c: CriterioLibro, d: CriterioLibro)
    requires forall i :: 0 <= i < |ls| ==> !(CumpleLibro(ls[i], c) && CumpleLibro(ls[i], d))
    ensures ContarLibros(ls, c) + ContarLibros(ls, d) <= |ls|
  {
    if ls != [] {
      ContarLibrosDisjuntos(ls[1..], c, d);
    }
  }

  /** Filtering drops a book exactly when some book fails the criterion. */
  lemma {:induction false} FiltrarLibrosQuita(ls: seq<Libro>, c: CriterioLibro)
    ensures |FiltrarLibros(ls, c)| < |ls| <==> exists i :: 0 <= i < |ls| && !CumpleLibro(ls[i], c)
  {
    if ls != [] {
      FiltrarLibrosQuita(ls[1..], c);
      assert forall i :: 1 <= i < |ls| ==> ls[i] == ls[1..][i - 1];
      assert CumpleLibro(ls[0], c) && (exists i :: 0 <= i < |ls| && !CumpleLibro(ls[i], c)) ==>
        exists k :: 0 <= k < |ls[1..]| && !CumpleLibro(ls[1..][k], c);
    }
  }

  /** The available books followed by the others, each part in its original order, hold
      exactly the books of the list. */
  lemma {:induction false} ParticionPorDisponibilidad(ls: seq<Libro>)
    ensures multiset(FiltrarLibros(ls, Disponible) + FiltrarLibros(ls, NoDisponible)) == multiset(ls)
  {
    if ls != [] {
      ParticionPorDisponibilidad(ls[1..]);
      ParticionCabeza(ls);
      MultisetCabeza(ls);
    }
  }

  lemma ParticionCabeza(ls: seq<Libro>)
    requires ls != []
    ensures multiset(FiltrarLibros(ls, Disponible) + FiltrarLibros(ls, NoDisponible)) ==
            multiset{ls[0]} + multiset(FiltrarLibros(ls[1..], Disponible) + FiltrarLibros(ls[1..], NoDisponible))
  {
    FiltrarCabeza(ls, Disponible);
    FiltrarCabeza(ls, NoDisponible);
  }

  /** The first book is in the filtered list exactly when it meets the criterion. */
  lemma FiltrarCabeza(ls: seq<Libro>, c: CriterioLibro)
    requires ls != []
    ensures multiset(FiltrarLibros(ls, c)) ==
            (if CumpleLibro(ls[0], c) then multiset{ls[0]} else multiset{}) + multiset(FiltrarLibros(ls[1..], c))
  {
  }

  predicate HayLibroConId(ls: seq<Libro>, id: int) {
    exists i :: 0 <= i < |ls| && ls[i].Id() == id
  }

  predicate IdsUnicos(ls: seq<Libro>) {
    forall i, j :: 0 <= i < j < |ls| ==> ls[i].Id() != ls[j].Id()
  }

  predicate EmailsUnicos(us: seq<Usuario>) {
    forall i, j :: 0 <= i < j < |us| ==> us[i].email != us[j].email
  }

  datatype EstadisticasCatalogo = EstadisticasCatalogo(
    totalLibros: int,
    librosDisponibles: int,
    valorTotalCatalogo: int,
    librosFisicos: int,
    librosDigitales: int,
    librosReferencia: int)

  datatype EstadisticasPrestamos = EstadisticasPrestamos(
    totalPrestamos: int,
    prestamosActivos: int,
    prestamosAtrasados: int,
    montoTotalPrestamos: int,
    montoTotalMultas: int)

  /** The base price of a book, summed into the catalogue's value. */
  function PrecioBaseDe(l: Libro): int {
    l.Datos().precioBase
  }

  /** The statistics of a list of books. */
  function CalcularEstadisticasCatalogo(ls: seq<Libro>): (e: EstadisticasCatalogo)
    reads HuellaLibros(ls)
    ensures e.totalLibros == |ls|
    ensures 0 <= e.librosDisponibles <= e.totalLibros
    ensures e.librosFisicos + e.librosDigitales <= e.totalLibros
    ensures 0 <= e.librosReferencia <= e.librosFisicos
    ensures e.librosDigitales >= 0
    ensures e.librosDisponibles == |FiltrarLibros(ls, Disponible)| &&
            e.librosFisicos == |FiltrarLibros(ls, EsFisico)| &&
            e.librosDigitales == |FiltrarLibros(ls, EsDigital)| &&
            e.librosReferencia == |FiltrarLibros(ls, Referencia)|
    ensures e.valorTotalCatalogo == Sumar(ls, PrecioBaseDe)
  {
    ContarLibrosDisjuntos(ls, EsFisico, EsDigital);
    ContarLibrosImplica(ls, Referencia, EsFisico);
    EstadisticasCatalogo(
      |ls|,
      ContarLibros(ls, Disponible),
      Sumar(ls, PrecioBaseDe),
      ContarLibros(ls, EsFisico),
      ContarLibros(ls, EsDigital),
      ContarLibros(ls, Referencia))
  }

  /** The statistics of a list of loans on day `hoy`. */
  function CalcularEstadisticasPrestamos(ps: seq<Prestamo>, hoy: int): (e: EstadisticasPrestamos)
    reads ps
    ensures e.totalPrestamos == |ps|
    ensures 0 <= e.prestamosActivos <= e.totalPrestamos
    ensures 0 <= e.prestamosAtrasados <= e.totalPrestamos
    ensures e.montoTotalMultas >= 0
    ensures e.montoTotalPrestamos + e.montoTotalMultas == SumarCostosConMulta(ps, hoy)
    ensures e.prestamosActivos == |FiltrarPrestamos(ps, Activo)| &&
            e.prestamosAtrasados == |FiltrarPrestamos(ps, Atrasado(hoy))|
    ensures e.montoTotalPrestamos == SumarCostos(ps) && e.montoTotalMultas == SumarMultas(ps, hoy)
  {
    CostosConMultaSuman(ps, hoy);
    EstadisticasPrestamos(
      |ps|,
      ContarPrestamos(ps, Activo),
      ContarPrestamos(ps, Atrasado(hoy)),
      SumarCostos(ps),
      SumarMultas(ps, hoy))
  }

  class LibroRepository {
    var libros: seq<Libro>
    var usuarios: seq<Usuario>
    var prestamos: seq<Prestamo>

    /** No two books share an id and no two users share an email: the add operations
        refuse duplicates. */
    ghost predicate Valid()
      reads this
    {
      IdsUnicos(libros) && EmailsUnicos(usuarios)
    }

    /** An empty store; the sample catalogue the source loads here is left out. */
    constructor()
      ensures libros == [] && usuarios == [] && prestamos == []
      ensures Valid()
    {
      libros := [];
      usuarios := [];
      prestamos := [];
    }

    // ---------------------------------------------------------------- books

    /** `any`: some stored book has the id, exactly when `find` by that id succeeds. */
    predicate ExisteLibro(id: int)
      reads this
      ensures ExisteLibro(id) <==> BuscarPrimero(libros, (l: Libro) => l.Id() == id).Some?
    {
      HayLibroConId(libros, id)
    }

    /** `find`: the first book with the id. */
    function ObtenerLibroPorId(id: int): (r: Option<Libro>)
      reads this
      ensures r.None? <==> !ExisteLibro(id)
      ensures r.Some? ==> r.value in libros && r.value.Id() == id
    {
      BuscarPrimero(libros, (l: Libro) => l.Id() == id)
    }

    /** Appends the book unless its id is taken, and says whether it did. */
    method AgregarLibro(libro: Libro) returns (ok: bool)
      requires Valid()
      modifies this
      ensures ok <==> !old(ExisteLibro(libro.Id()))
      ensures libros == if ok then old(libros) + [libro] else old(libros)
      ensures usuarios == old(usuarios) && prestamos == old(prestamos)
      ensures ok ==> ObtenerLibroPorId(libro.Id()) == Some(libro)
      ensures Valid()
    {
      if !ExisteLibro(libro.Id()) {
        libros := libros + [libro];
        ok := true;
        assert forall i :: 0 <= i < |old(libros)| ==> libros[i] == old(libros)[i];
        UltimoConId(libros, libro.Id());
      } else {
        ok := false;
      }
    }

    /** `removeIf`: drops every book with the id, keeping the others in order, and says
        whether one was there. */
    method EliminarLibro(id: int) returns (ok: bool)
      requires Valid()
      modifies this
      ensures libros == old(FiltrarLibros(libros, OtroId(id)))
      ensures !ExisteLibro(id)
      ensures ok <==> old(ExisteLibro(id))
      ensures ok <==> |libros| < |old(libros)|
      ensures usuarios == old(usuarios) && prestamos == old(prestamos)
      ensures Valid()
    {
      ok := ExisteLibro(id);
      var resto := FiltrarLibros(libros, OtroId(id));
      QuitarPorId(libros, id);
      SubsecuenciaIdsUnicos(resto, libros);
      libros := resto;
    }

    // ------------------------------------------------------------ searches

    /** Case-insensitive substring search on the title. */
    function BuscarPorTitulo(titulo: string): (r: seq<Libro>)
      reads this, HuellaLibros(libros)
      ensures EsSubsecuencia(r, libros)
      ensures forall i :: 0 <= i < |r| ==> ContieneSinMayusculas(r[i].Datos().titulo, titulo)
      ensures forall i :: 0 <= i < |libros| && ContieneSinMayusculas(libros[i].Datos().titulo, titulo) ==>
        libros[i] in r
    {
      FiltrarLibros(libros, TituloContiene(titulo))
    }

    /** Case-insensitive substring search on the author. */
    function BuscarPorAutor(autor: string): (r: seq<Libro>)
      reads this, HuellaLibros(libros)
      ensures EsSubsecuencia(r, libros)
      ensures forall i :: 0 <= i < |r| ==> ContieneSinMayusculas(r[i].Datos().autor, autor)
      ensures forall i :: 0 <= i < |libros| && ContieneSinMayusculas(libros[i].Datos().autor, autor) ==>
        libros[i] in r
    {
      FiltrarLibros(libros, AutorContiene(autor))
    }

    /** Case-insensitive equality on the category. */
    function FiltrarPorCategoria(categoria: string): (r: seq<Libro>)
      reads this, HuellaLibros(libros)
      ensures EsSubsecuencia(r, libros)
      ensures forall i :: 0 <= i < |r| ==> IgualesSinMayusculas(r[i].Datos().categoria, categoria)
      ensures forall i :: 0 <= i < |libros| && IgualesSinMayusculas(libros[i].Datos().categoria, categoria) ==>
        libros[i] in r
    {
      FiltrarLibros(libros, CategoriaIgual(categoria))
    }

    function ObtenerLibrosDisponibles(): (r: seq<Libro>)
      reads this, HuellaLibros(libros)
      ensures EsSubsecuencia(r, libros)
      ensures forall i :: 0 <= i < |r| ==> r[i].EstaDisponible()
      ensures forall i :: 0 <= i < |libros| && libros[i].EstaDisponible() ==> libros[i] in r
    {
      FiltrarLibros(libros, Disponible)
    }

    /** The available physical books, each as its `Fisico` book. */
    function ObtenerLibrosFisicosDisponibles(): (r: seq<Libro>)
      reads this, HuellaLibros(libros)
      ensures EsSubsecuencia(r, libros)
      ensures forall i :: 0 <= i < |r| ==> r[i].Fisico? && r[i].EstaDisponible()
      ensures forall i :: 0 <= i < |r| ==> r[i] in ObtenerLibrosDisponibles()
      ensures forall i :: 0 <= i < |libros| && libros[i].Fisico? && libros[i].EstaDisponible() ==> libros[i] in r
    {
      FiltrarLibros(libros, FisicoDisponible)
    }

    /** The digital books, each as its `Digital` book. */
    function ObtenerLibrosDigitales(): (r: seq<Libro>)
      reads this, HuellaLibros(libros)
      ensures EsSubsecuencia(r, libros)
      ensures forall i :: 0 <= i < |r| ==> r[i].Digital?
      ensures forall i :: 0 <= i < |libros| && libros[i].Digital? ==> libros[i] in r
    {
      FiltrarLibros(libros, EsDigital)
    }

    function ObtenerEstadisticasCatalogo(): (e: EstadisticasCatalogo)
      reads this, HuellaLibros(libros)
      ensures e == CalcularEstadisticasCatalogo(libros)
    {
      CalcularEstadisticasCatalogo(libros)
    }

    // ---------------------------------------------------------------- users

    /** `any`: some stored user has the email, exactly when `find` by it succeeds. */
    predicate ExisteUsuario(email: string)
      reads this
      ensures ExisteUsuario(email) <==> BuscarPrimero(usuarios, (u: Usuario) => u.email == email).Some?
    {
      Alguno(usuarios, (u: Usuario) => u.email == email)
    }

    /** Appends the user unless the email is taken, and says whether it did. */
    method AgregarUsuario(usuario: Usuario) returns (ok: bool)
      requires Valid()
      modifies this
      ensures ok <==> !old(ExisteUsuario(usuario.email))
      ensures usuarios == if ok then old(usuarios) + [usuario] else old(usuarios)
      ensures libros == old(libros) && prestamos == old(prestamos)
      ensures Valid()
    {
      if !ExisteUsuario(usuario.email) {
        usuarios := usuarios + [usuario];
        ok := true;
      } else {
        ok := false;
      }
    }

    function BuscarUsuarioPorEmail(email: string): (r: Option<Usuario>)
      reads this
      ensures r.None? <==> !ExisteUsuario(email)
      ensures r.Some? ==> r.value in usuarios && r.value.email == email
    {
      BuscarPrimero(usuarios, (u: Usuario) => u.email == email)
    }

    /** The first user whose email and password both match. */
    function AutenticarUsuario(email: string, contrasena: string): (r: Option<Usuario>)
      reads this
      ensures r.Some? ==> r.value in usuarios && r.value.email == email && r.value.contrasena == contrasena
      ensures r.None? <==> forall i :: 0 <= i < |usuarios| ==> !usuarios[i].VerificarCredenciales(email, contrasena)
    {
      BuscarPrimero(usuarios, (u: Usuario) => u.VerificarCredenciales(email, contrasena))
    }

    // ---------------------------------------------------------------- loans

    /** Always appends and answers true. */
    method AgregarPrestamo(prestamo: Prestamo) returns (ok: bool)
      modifies this
      ensures ok
      ensures prestamos == old(prestamos) + [prestamo]
      ensures libros == old(libros) && usuarios == old(usuarios)
    {
      prestamos := prestamos + [prestamo];
      ok := true;
    }

    /** The loans of the user with that id, in order. */
    function ObtenerPrestamosPorUsuario(usuarioId: int): (r: seq<Prestamo>)
      reads this, prestamos
      ensures EsSubsecuencia(r, prestamos)
      ensures forall i :: 0 <= i < |r| ==> r[i].usuario.id == usuarioId
      ensures forall i :: 0 <= i < |prestamos| && prestamos[i].usuario.id == usuarioId ==> prestamos[i] in r
    {
      FiltrarPrestamos(prestamos, DelUsuario(usuarioId))
    }

    function ObtenerPrestamosActivos(): (r: seq<Prestamo>)
      reads this, prestamos
      ensures EsSubsecuencia(r, prestamos)
      ensures forall i :: 0 <= i < |r| ==> r[i].estado.EsActivo()
      ensures forall i :: 0 <= i < |prestamos| && prestamos[i].estado.EsActivo() ==> prestamos[i] in r
    {
      FiltrarPrestamos(prestamos, Activo)
    }

    function ObtenerEstadisticasPrestamos(hoy: int): (e: EstadisticasPrestamos)
      reads this, prestamos
      ensures e == CalcularEstadisticasPrestamos(prestamos, hoy)
    {
      CalcularEstadisticasPrestamos(prestamos, hoy)
    }
  }

  /** Dropping the books with an id leaves none with it, and shortens the list exactly
      when one was there. */
  lemma QuitarPorId(ls: seq<Libro>, id: int)
    ensures !HayLibroConId(FiltrarLibros(ls, OtroId(id)), id)
    ensures |FiltrarLibros(ls, OtroId(id))| < |ls| <==> HayLibroConId(ls, id)
  {
    FiltrarLibrosQuita(ls, OtroId(id));
    var r := FiltrarLibros(ls, OtroId(id));
    assert forall i :: 0 <= i < |r| ==> r[i].Id() != id;
    assert (exists i :: 0 <= i < |ls| && !CumpleLibro(ls[i], OtroId(id))) <==>
           (exists i :: 0 <= i < |ls| && ls[i].Id() == id);
  }

  /** A subsequence of books with unique ids has unique ids. */
  lemma {:induction false} SubsecuenciaIdsUnicos(sub: seq<Libro>, ls: seq<Libro>)
    requires EsSubsecuencia(sub, ls) && IdsUnicos(ls)
    ensures IdsUnicos(sub)
  {
    if ls != [] {
      if sub != [] && sub[0] == ls[0] && EsSubsecuencia(sub[1..], ls[1..]) {
        SubsecuenciaIdsUnicos(sub[1..], ls[1..]);
        SubsecuenciaContenida(sub[1..], ls[1..]);
        forall j | 1 <= j < |sub| ensures sub[0].Id() != sub[j].Id() {
          assert sub[j] == sub[1..][j - 1];
          var k :| 0 <= k < |ls[1..]| && ls[1..][k] == sub[j];
          assert ls[k + 1] == sub[j];
        }
        forall i, j | 0 <= i < j < |sub| ensures sub[i].Id() != sub[j].Id() {
          if i > 0 {
            assert sub[i] == sub[1..][i - 1] && sub[j] == sub[1..][j - 1];
          }
        }
      } else {
        SubsecuenciaIdsUnicos(sub, ls[1..]);
      }
    }
  }

  /** When only the last book has an id, `find` by that id returns it. */
  lemma UltimoConId(ls: seq<Libro>, id: int)
    requires ls != [] && ls[|ls| - 1].Id() == id
    requires forall i :: 0 <= i < |ls| - 1 ==> ls[i].Id() != id
    ensures BuscarPrimero(ls, (l: Libro) => l.Id() == id) == Some(ls[|ls| - 1])
  {
    var r := BuscarPrimero(ls, (l: Libro) => l.Id() == id);
    var i :| 0 <= i < |ls| && ls[i] == r.value && ls[i].Id() == id &&
             forall j :: 0 <= j < i ==> ls[j].Id() != id;
    assert i == |ls| - 1;
  }

  /** With unique e-mails, `autenticarUsuario` is the lookup by e-mail followed by
      `verificarCredenciales` on the user found. */
  lemma AutenticarEsBuscarYVerificar(r: LibroRepository, email: string, contrasena: string)
    requires EmailsUnicos(r.usuarios)
    ensures var b := r.BuscarUsuarioPorEmail(email);
      r.AutenticarUsuario(email, contrasena) ==
        if b.Some? && b.value.VerificarCredenciales(email, contrasena) then b else None
  {
    var us := r.usuarios;
    var b := r.BuscarUsuarioPorEmail(email);
    if b.Some? {
      var i :| 0 <= i < |us| && us[i] == b.value;
      assert forall j :: 0 <= j < |us| && us[j].email == email ==> j == i;
    }
  }
}
