/** The catalogue service: validated searches over the store, the category and author
    lists, the advanced search, the sorted views, the availability check and the
    recommendations. Every query reads the store's current book list. */
module Catalogo {
  import opened Base
  import opened Texto
  import opened Secuencias
  import opened Libros
  import opened Repositorio
  import opened Validaciones

  datatype LibroFisicoConDisponibilidad = LibroFisicoConDisponibilidad(
    libro: LibroFisico,
    disponible: bool,
    ejemplaresDisponibles: int,
    puedePrestar: bool)

  /** The size, a double in the Kotlin code, is carried as it is. */
  datatype LibroDigitalConInfo = LibroDigitalConInfo(
    libro: LibroDigital,
    disponible: bool,
    requiereAutenticacion: bool,
    tamanoMB: real)

  datatype DisponibilidadLibro = DisponibilidadLibro(disponible: bool, motivo: string, libro: Option<Libro>)

  datatype CriterioOrden = Titulo | Autor | Categoria | Anio | PrecioMenor | PrecioMayor | Disponibilidad

  /** `b` may follow `a` in the view sorted by `criterio`. */
  predicate EnOrden(a: Libro, b: Libro, criterio: CriterioOrden)
    reads a.Huella(), b.Huella()
  {
    match criterio
    case Titulo => MenorIgualLex(a.Datos().titulo, b.Datos().titulo)
    case Autor => MenorIgualLex(a.Datos().autor, b.Datos().autor)
    case Categoria => MenorIgualLex(a.Datos().categoria, b.Datos().categoria)
    case Anio => a.Datos().anioPublicacion <= b.Datos().anioPublicacion
    case PrecioMenor => a.Datos().precioBase <= b.Datos().precioBase
    case PrecioMayor => a.Datos().precioBase >= b.Datos().precioBase
    case Disponibilidad => a.EstaDisponible() || !b.EstaDisponible()
  }

  /** A book meets every criterion of a list. */
  predicate CumpleTodos(l: Libro, criterios: seq<CriterioLibro>)
    reads l.Huella()
  {
    forall k :: 0 <= k < |criterios| ==> CumpleLibro(l, criterios[k])
  }

  /** A list with one more criterion when one is given. */
  function Anadir(criterios: seq<CriterioLibro>, c: Option<CriterioLibro>): seq<CriterioLibro> {
    if c.Some? then criterios + [c.value] else criterios
  }

  /** The filters of the advanced search, in the order it applies them: each supplied
      text, trimmed, and availability when requested. */
  function CriteriosBusqueda(titulo: Option<string>, autor: Option<string>,
                             categoria: Option<string>, soloDisponibles: bool): seq<CriterioLibro>
  {
    Anadir(Anadir(Anadir(Anadir([], FiltroTitulo(titulo)), FiltroAutor(autor)),
                  FiltroCategoria(categoria)), FiltroDisponible(soloDisponibles))
  }

  function FiltroTitulo(titulo: Option<string>): Option<CriterioLibro> {
    if titulo.Some? then Some(TituloContiene(Recortar(titulo.value))) else None
  }

  function FiltroAutor(autor: Option<string>): Option<CriterioLibro> {
    if autor.Some? then Some(AutorContiene(Recortar(autor.value))) else None
  }

  function FiltroCategoria(categoria: Option<string>): Option<CriterioLibro> {
    if categoria.Some? then Some(CategoriaIgual(Recortar(categoria.value))) else None
  }

  function FiltroDisponible(soloDisponibles: bool): Option<CriterioLibro> {
    if soloDisponibles then Some(Disponible) else None
  }

  /** What the advanced search asks of a book. */
  predicate CumpleBusqueda(l: Libro, titulo: Option<string>, autor: Option<string>,
                           categoria: Option<string>, soloDisponibles: bool)
    reads l.Huella()
  {
    CumpleTodos(l, CriteriosBusqueda(titulo, autor, categoria, soloDisponibles))
  }

  /** A book meets the advanced search exactly when it matches each supplied text (the
      title and author as case-insensitive substrings, the category as a whole), and is
      available when that was requested. */
  lemma CumpleBusquedaSignifica(l: Libro, titulo: Option<string>, autor: Option<string>,
                                categoria: Option<string>, soloDisponibles: bool)
    ensures CumpleBusqueda(l, titulo, autor, categoria, soloDisponibles) <==>
      (titulo.Some? ==> ContieneSinMayusculas(l.Datos().titulo, Recortar(titulo.value))) &&
      (autor.Some? ==> ContieneSinMayusculas(l.Datos().autor, Recortar(autor.value))) &&
      (categoria.Some? ==> IgualesSinMayusculas(l.Datos().categoria, Recortar(categoria.value))) &&
      (soloDisponibles ==> l.EstaDisponible())
  {
    var t, a, c, d := FiltroTitulo(titulo), FiltroAutor(autor), FiltroCategoria(categoria),
                      FiltroDisponible(soloDisponibles);
    CumpleCadena(l, t, a, c, d);
    assert CumpleOpcion(l, t) <==>
      (titulo.Some? ==> ContieneSinMayusculas(l.Datos().titulo, Recortar(titulo.value)));
    assert CumpleOpcion(l, a) <==>
      (autor.Some? ==> ContieneSinMayusculas(l.Datos().autor, Recortar(autor.value)));
    assert CumpleOpcion(l, c) <==>
      (categoria.Some? ==> IgualesSinMayusculas(l.Datos().categoria, Recortar(categoria.value)));
    assert CumpleOpcion(l, d) <==> (soloDisponibles ==> l.EstaDisponible());
  }

  /** A book meets a criterion that may be absent. */
  predicate CumpleOpcion(l: Libro, c: Option<CriterioLibro>)
    reads l.Huella()
  {
    c.Some? ==> CumpleLibro(l, c.value)
  }

  /** A book meets four optional criteria added in turn when it meets each of them. */
  lemma CumpleCadena(l: Libro, t: Option<CriterioLibro>, a: Option<CriterioLibro>,
                     c: Option<CriterioLibro>, d: Option<CriterioLibro>)
    ensures CumpleTodos(l, Anadir(Anadir(Anadir(Anadir([], t), a), c), d)) <==>
      CumpleOpcion(l, t) && CumpleOpcion(l, a) && CumpleOpcion(l, c) && CumpleOpcion(l, d)
  {
    var c0: seq<CriterioLibro> := [];
    var c1 := Anadir(c0, t);
    var c2 := Anadir(c1, a);
    var c3 := Anadir(c2, c);
    CumpleAnadir(l, c0, t);
    CumpleAnadir(l, c1, a);
    CumpleAnadir(l, c2, c);
    CumpleAnadir(l, c3, d);
    assert CumpleTodos(l, c0);
  }

  /** A book meets a list with one more criterion when it meets the list and that one. */
  lemma CumpleAnadir(l: Libro, criterios: seq<CriterioLibro>, c: Option<CriterioLibro>)
    ensures CumpleTodos(l, Anadir(criterios, c)) <==> CumpleTodos(l, criterios) && CumpleOpcion(l, c)
  {
    if c.Some? {
      CumpleTodosConcatena(l, criterios, [c.value]);
      assert CumpleTodos(l, [c.value]) <==> CumpleLibro(l, [c.value][0]);
    }
  }

  lemma CumpleTodosConcatena(l: Libro, xs: seq<CriterioLibro>, ys: seq<CriterioLibro>)
    ensures CumpleTodos(l, xs + ys) <==> CumpleTodos(l, xs) && CumpleTodos(l, ys)
  {
    if CumpleTodos(l, xs) && CumpleTodos(l, ys) {
      forall k | 0 <= k < |xs + ys| ensures CumpleLibro(l, (xs + ys)[k]) {
        if k >= |xs| {
          assert (xs + ys)[k] == ys[k - |xs|];
        }
      }
    }
    if CumpleTodos(l, xs + ys) {
      forall k | 0 <= k < |xs| ensures CumpleLibro(l, xs[k]) {
        assert (xs + ys)[k] == xs[k];
      }
      forall k | 0 <= k < |ys| ensures CumpleLibro(l, ys[k]) {
        assert (xs + ys)[|xs| + k] == ys[k];
      }
    }
  }

  /** The physical books of a list, with what the catalogue shows about each. */
  function FisicosConDisponibilidad(ls: seq<Libro>): (r: seq<LibroFisicoConDisponibilidad>)
    reads HuellaLibros(ls)
    ensures forall i :: 0 <= i < |r| ==> Fisico(r[i].libro) in ls
    ensures forall i :: 0 <= i < |r| ==>
      r[i].disponible == r[i].libro.EstaDisponible() &&
      r[i].ejemplaresDisponibles == r[i].libro.ejemplaresDisponibles &&
      (r[i].puedePrestar <==> !r[i].libro.esReferencia && r[i].libro.ejemplaresDisponibles > 0)
    ensures Mapear(r, LibroDeEntrada) == FiltrarLibros(ls, EsFisico)
  {
    if ls == [] then []
    else
      var resto := FisicosConDisponibilidad(ls[1..]);
      assert forall i :: 1 <= i < |ls| ==> ls[i] == ls[1..][i - 1];
      var r := if ls[0].Fisico? then [Entrada(ls[0].fisico)] + resto else resto;
      FisicosPaso(ls, resto, r);
      r
  }

  /** The catalogue book an entry stands for. */
  function LibroDeEntrada(e: LibroFisicoConDisponibilidad): Libro {
    Fisico(e.libro)
  }

  /** One step of `FisicosConDisponibilidad`: the head's entry, when physical, in front
      of the tail's entries. */
  lemma FisicosPaso(ls: seq<Libro>, resto: seq<LibroFisicoConDisponibilidad>, r: seq<LibroFisicoConDisponibilidad>)
    requires ls != [] && Mapear(resto, LibroDeEntrada) == FiltrarLibros(ls[1..], EsFisico)
    requires r == if ls[0].Fisico? then [Entrada(ls[0].fisico)] + resto else resto
    ensures Mapear(r, LibroDeEntrada) == FiltrarLibros(ls, EsFisico)
  {
    assert FiltrarLibros(ls, EsFisico) == (if ls[0].Fisico? then [ls[0]] else []) + FiltrarLibros(ls[1..], EsFisico);
    assert ls[0].Fisico? ==> r[1..] == resto;
  }

  /** The entry of one physical book. */
  function Entrada(f: LibroFisico): LibroFisicoConDisponibilidad
    reads f
  {
    LibroFisicoConDisponibilidad(f, f.EstaDisponible(), f.ejemplaresDisponibles,
                                 !f.esReferencia && f.ejemplaresDisponibles > 0)
  }

  /** There is one entry per physical book of the list. */
  lemma {:induction false} FisicosCuenta(ls: seq<Libro>)
    ensures |FisicosConDisponibilidad(ls)| == ContarLibros(ls, EsFisico)
  {
    if ls != [] {
      FisicosCuenta(ls[1..]);
      var uno := if ls[0].Fisico? then 1 else 0;
      assert |FisicosConDisponibilidad(ls)| == uno + |FisicosConDisponibilidad(ls[1..])|;
      assert |FiltrarLibros(ls, EsFisico)| == uno + |FiltrarLibros(ls[1..], EsFisico)|;
    }
  }

  /** Every physical book of the list has its entry. */
  lemma {:induction false} FisicosCompletos(ls: seq<Libro>)
    ensures forall i :: 0 <= i < |ls| && ls[i].Fisico? ==> Entrada(ls[i].fisico) in FisicosConDisponibilidad(ls)
  {
    if ls != [] {
      FisicosCompletos(ls[1..]);
      var resto := FisicosConDisponibilidad(ls[1..]);
      var cabeza := if ls[0].Fisico? then [Entrada(ls[0].fisico)] else [];
      assert FisicosConDisponibilidad(ls) == cabeza + resto;
      forall i | 1 <= i < |ls| && ls[i].Fisico? ensures Entrada(ls[i].fisico) in resto {
        assert ls[i] == ls[1..][i - 1];
      }
    }
  }

  /** An available physical book can always be lent; the converse fails only for a
      non-reference book with no loan period. */
  lemma DisponibleImplicaPrestable(e: LibroFisicoConDisponibilidad)
    requires e.disponible == e.libro.EstaDisponible()
    requires e.puedePrestar <==> !e.libro.esReferencia && e.libro.ejemplaresDisponibles > 0
    ensures e.disponible ==> e.puedePrestar
    ensures e.puedePrestar && e.libro.datos.diasPrestamo > 0 ==> e.disponible
  {
  }

  predicate EsLibroDigital(l: Libro) { l.Digital? }

  function ComoLibro(g: LibroDigital): Libro { Digital(g) }

  /** The digital books of a list, in order: `filterIsInstance<LibroDigital>()`. */
  function Digitales(ls: seq<Libro>): (r: seq<LibroDigital>)
    ensures forall i :: 0 <= i < |r| ==> Digital(r[i]) in ls
    ensures forall i :: 0 <= i < |ls| && ls[i].Digital? ==> ls[i].digital in r
    ensures |r| <= |ls|
    ensures Mapear(r, ComoLibro) == Filtrar(ls, EsLibroDigital)
  {
    if ls == [] then []
    else
      var resto := Digitales(ls[1..]);
      var r := if ls[0].Digital? then [ls[0].digital] + resto else resto;
      DigitalesPasoContenido(ls, resto, r);
      DigitalesPaso(ls, resto, r);
      r
  }

  /** One step of `Digitales`: the books it keeps from the head and the tail. */
  lemma DigitalesPasoContenido(ls: seq<Libro>, resto: seq<LibroDigital>, r: seq<LibroDigital>)
    requires ls != []
    requires forall i :: 0 <= i < |resto| ==> Digital(resto[i]) in ls[1..]
    requires forall i :: 0 <= i < |ls| - 1 && ls[1..][i].Digital? ==> ls[1..][i].digital in resto
    requires |resto| <= |ls| - 1
    requires r == if ls[0].Digital? then [ls[0].digital] + resto else resto
    ensures forall i :: 0 <= i < |r| ==> Digital(r[i]) in ls
    ensures forall i :: 0 <= i < |ls| && ls[i].Digital? ==> ls[i].digital in r
    ensures |r| <= |ls|
  {
    assert forall i :: 1 <= i < |ls| ==> ls[i] == ls[1..][i - 1];
  }

  /** One step of `Digitales`: the head, when digital, in front of the tail's books. */
  lemma DigitalesPaso(ls: seq<Libro>, resto: seq<LibroDigital>, r: seq<LibroDigital>)
    requires ls != [] && Mapear(resto, ComoLibro) == Filtrar(ls[1..], EsLibroDigital)
    requires r == if ls[0].Digital? then [ls[0].digital] + resto else resto
    ensures Mapear(r, ComoLibro) == Filtrar(ls, EsLibroDigital)
  {
    assert Filtrar(ls, EsLibroDigital) == (if ls[0].Digital? then [ls[0]] else []) + Filtrar(ls[1..], EsLibroDigital);
    assert ls[0].Digital? ==> r[1..] == resto;
  }

  function ConInfo(g: LibroDigital): LibroDigitalConInfo {
    LibroDigitalConInfo(g, g.EstaDisponible(), g.drm, g.tamanoArchivoMB)
  }

  /** The two physical-book branches of `verificarDisponibilidad` after the availability
      one: a reference book, or no copy left. */
  function MotivoFisicoEnCatalogo(libro: Libro): Option<string>
    reads libro.Huella()
  {
    if libro.Fisico? && libro.fisico.esReferencia then Some("Los libros de referencia no se pueden prestar")
    else if libro.Fisico? && libro.fisico.ejemplaresDisponibles <= 0 then Some("No hay ejemplares disponibles")
    else None
  }

  /** A book that is available is never stopped by those branches, so they never fire. */
  lemma MotivoFisicoEnCatalogoInalcanzable(libro: Libro)
    ensures libro.EstaDisponible() ==> MotivoFisicoEnCatalogo(libro) == None
  {
  }

  class CatalogoService {
    const repository: LibroRepository

    constructor(repository: LibroRepository)
      ensures this.repository == repository
    {
      this.repository := repository;
    }

    function ObtenerCatalogo(): (r: seq<Libro>)
      reads repository
      ensures r == repository.libros
    {
      repository.libros
    }

    function ObtenerLibrosDisponibles(): (r: seq<Libro>)
      reads repository, HuellaLibros(repository.libros)
      ensures r == repository.ObtenerLibrosDisponibles()
    {
      repository.ObtenerLibrosDisponibles()
    }

    function ObtenerEstadisticas(): (e: EstadisticasCatalogo)
      reads repository, HuellaLibros(repository.libros)
      ensures e == CalcularEstadisticasCatalogo(repository.libros)
    {
      repository.ObtenerEstadisticasCatalogo()
    }

    /** A blank query fails validation; any other is trimmed and searched for. */
    function BuscarLibrosPorTitulo(titulo: string): (r: Resultado<seq<Libro>>)
      reads repository, HuellaLibros(repository.libros)
      ensures r.Err? <==> EsBlanco(titulo)
      ensures r.Err? ==> r.falla == ValidarTextoNoVacio(titulo, "Título de búsqueda").falla
      ensures r.Ok? ==> r.valor == repository.BuscarPorTitulo(Recortar(titulo))
    {
      var v := ValidarTextoNoVacio(titulo, "Título de búsqueda");
      if v.Err? then Err(v.falla) else Ok(repository.BuscarPorTitulo(v.valor))
    }

    function BuscarLibrosPorAutor(autor: string): (r: Resultado<seq<Libro>>)
      reads repository, HuellaLibros(repository.libros)
      ensures r.Err? <==> EsBlanco(autor)
      ensures r.Err? ==> r.falla == ValidarTextoNoVacio(autor, "Autor de búsqueda").falla
      ensures r.Ok? ==> r.valor == repository.BuscarPorAutor(Recortar(autor))
    {
      var v := ValidarTextoNoVacio(autor, "Autor de búsqueda");
      if v.Err? then Err(v.falla) else Ok(repository.BuscarPorAutor(v.valor))
    }

    function FiltrarPorCategoria(categoria: string): (r: Resultado<seq<Libro>>)
      reads repository, HuellaLibros(repository.libros)
      ensures r.Err? <==> EsBlanco(categoria)
      ensures r.Err? ==> r.falla == ValidarTextoNoVacio(categoria, "Categoría").falla
      ensures r.Ok? ==> r.valor == repository.FiltrarPorCategoria(Recortar(categoria))
    {
      var v := ValidarTextoNoVacio(categoria, "Categoría");
      if v.Err? then Err(v.falla) else Ok(repository.FiltrarPorCategoria(v.valor))
    }

    /** A non-positive id fails validation; any other is looked up. */
    function ObtenerLibro(id: int): (r: Resultado<Option<Libro>>)
      reads repository
      ensures r.Err? <==> id <= 0
      ensures r.Err? ==> r.falla == ValidarId(id, "libro").falla
      ensures r.Ok? ==> r.valor == repository.ObtenerLibroPorId(id)
    {
      var v := ValidarId(id, "libro");
      if v.Err? then Err(v.falla) else Ok(repository.ObtenerLibroPorId(id))
    }

    /** The categories present, each once, in ascending order. */
    function ObtenerCategorias(): (r: seq<string>)
      reads repository
      ensures forall x :: x in r <==> exists i :: 0 <= i < |repository.libros| && repository.libros[i].Datos().categoria == x
      ensures forall i, j :: 0 <= i < j < |r| ==> MenorIgualLex(r[i], r[j]) && r[i] != r[j]
    {
      var cs := Mapear(repository.libros, (l: Libro) => l.Datos().categoria);
      assert forall x :: x in cs <==> exists i :: 0 <= i < |repository.libros| && repository.libros[i].Datos().categoria == x;
      OrdenarSinRepetir(cs)
    }

    /** The authors present, each once, in ascending order. */
    function ObtenerAutores(): (r: seq<string>)
      reads repository
      ensures forall x :: x in r <==> exists i :: 0 <= i < |repository.libros| && repository.libros[i].Datos().autor == x
      ensures forall i, j :: 0 <= i < j < |r| ==> MenorIgualLex(r[i], r[j]) && r[i] != r[j]
    {
      var autores := Mapear(repository.libros, (l: Libro) => l.Datos().autor);
      assert forall x :: x in autores <==> exists i :: 0 <= i < |repository.libros| && repository.libros[i].Datos().autor == x;
      OrdenarSinRepetir(autores)
    }

    function ObtenerLibrosFisicos(): (r: seq<LibroFisicoConDisponibilidad>)
      reads repository, HuellaLibros(repository.libros)
      ensures r == FisicosConDisponibilidad(repository.libros)
      ensures |r| == ContarLibros(repository.libros, EsFisico)
      ensures Mapear(r, LibroDeEntrada) == FiltrarLibros(repository.libros, EsFisico)
    {
      FisicosCuenta(repository.libros);
      FisicosCompletos(repository.libros);
      FisicosConDisponibilidad(repository.libros)
    }

    /** The digital books, each with its availability, DRM flag and size. */
    function ObtenerLibrosDigitales(): (r: seq<LibroDigitalConInfo>)
      reads repository
      ensures forall i :: 0 <= i < |r| ==>
        Digital(r[i].libro) in repository.libros && r[i].disponible == r[i].libro.EstaDisponible() &&
        r[i].requiereAutenticacion == r[i].libro.drm && r[i].tamanoMB == r[i].libro.tamanoArchivoMB
      ensures var ds := Filtrar(repository.libros, EsLibroDigital);
        |r| == |ds| && forall i :: 0 <= i < |r| ==> Digital(r[i].libro) == ds[i]
      ensures forall i :: 0 <= i < |repository.libros| && repository.libros[i].Digital? ==>
        ConInfo(repository.libros[i].digital) in r
    {
      var ds := Digitales(repository.libros);
      var r := Mapear(ds, ConInfo);
      assert forall g :: g in ds ==> ConInfo(g) in r;
      r
    }

    /** Applies each supplied filter in turn, validating its text first; with no filter
        the whole catalogue comes back. */
    method BuscarLibrosAvanzado(titulo: Option<string>, autor: Option<string>,
                                categoria: Option<string>, soloDisponibles: bool)
      returns (r: Resultado<seq<Libro>>)
      ensures titulo.Some? && EsBlanco(titulo.value) ==>
        r == Err(ValidarTextoNoVacio(titulo.value, "Título").falla)
      ensures !(titulo.Some? && EsBlanco(titulo.value)) && autor.Some? && EsBlanco(autor.value) ==>
        r == Err(ValidarTextoNoVacio(autor.value, "Autor").falla)
      ensures !(titulo.Some? && EsBlanco(titulo.value)) && !(autor.Some? && EsBlanco(autor.value)) &&
              categoria.Some? && EsBlanco(categoria.value) ==>
        r == Err(ValidarTextoNoVacio(categoria.value, "Categoría").falla)
      ensures r.Ok? <==>
        !(titulo.Some? && EsBlanco(titulo.value)) && !(autor.Some? && EsBlanco(autor.value)) &&
        !(categoria.Some? && EsBlanco(categoria.value))
      ensures r.Ok? ==> EsSubsecuencia(r.valor, repository.libros)
      ensures r.Ok? ==> forall i :: 0 <= i < |r.valor| ==>
        CumpleBusqueda(r.valor[i], titulo, autor, categoria, soloDisponibles)
      ensures r.Ok? ==> forall i :: (0 <= i < |repository.libros| &&
        CumpleBusqueda(repository.libros[i], titulo, autor, categoria, soloDisponibles)) ==>
        repository.libros[i] in r.valor
      ensures titulo.None? && autor.None? && categoria.None? && !soloDisponibles ==> r == Ok(repository.libros)
    {
      var todos := repository.libros;
      var libros := todos;
      var criterios: seq<CriterioLibro> := [];
      TramoInicial(todos);
      if titulo.Some? {
        var v := ValidarTextoNoVacio(titulo.value, "Título");
        if v.Err? {
          return Err(v.falla);
        }
        PasoTramo(libros, todos, criterios, TituloContiene(v.valor));
        libros := FiltrarLibros(libros, TituloContiene(v.valor));
        criterios := criterios + [TituloContiene(v.valor)];
      }
      if autor.Some? {
        var v := ValidarTextoNoVacio(autor.value, "Autor");
        if v.Err? {
          return Err(v.falla);
        }
        PasoTramo(libros, todos, criterios, AutorContiene(v.valor));
        libros := FiltrarLibros(libros, AutorContiene(v.valor));
        criterios := criterios + [AutorContiene(v.valor)];
      }
      if categoria.Some? {
        var v := ValidarTextoNoVacio(categoria.value, "Categoría");
        if v.Err? {
          return Err(v.falla);
        }
        PasoTramo(libros, todos, criterios, CategoriaIgual(v.valor));
        libros := FiltrarLibros(libros, CategoriaIgual(v.valor));
        criterios := criterios + [CategoriaIgual(v.valor)];
      }
      if soloDisponibles {
        PasoTramo(libros, todos, criterios, Disponible);
        libros := FiltrarLibros(libros, Disponible);
        criterios := criterios + [Disponible];
      }
      assert criterios == CriteriosBusqueda(titulo, autor, categoria, soloDisponibles);
      assert Tramo(libros, todos, criterios);
      return Ok(libros);
    }

    /** The catalogue sorted by the criterion: the same books, in order. Sorting by
        availability puts the available books first, each group in catalogue order. */
    function ObtenerLibrosOrdenados(criterio: CriterioOrden): (r: seq<Libro>)
      reads repository, HuellaLibros(repository.libros)
      ensures multiset(r) == multiset(repository.libros)
      ensures forall i, j :: 0 <= i < j < |r| ==> EnOrden(r[i], r[j], criterio)
      ensures criterio == Disponibilidad ==>
        r == FiltrarLibros(repository.libros, Disponible) + FiltrarLibros(repository.libros, NoDisponible)
    {
      OrdenarLibros(repository.libros, criterio)
    }

    /** Not found, not available, or available; a non-positive id fails validation. */
    function VerificarDisponibilidad(libroId: int): (r: Resultado<DisponibilidadLibro>)
      reads repository, HuellaLibros(repository.libros)
      ensures r.Err? <==> libroId <= 0
      ensures r.Err? ==> r.falla == ValidarId(libroId, "libro").falla
      ensures r.Ok? ==> (r.valor.disponible <==>
        repository.ExisteLibro(libroId) && repository.ObtenerLibroPorId(libroId).value.EstaDisponible())
      ensures r.Ok? ==> r.valor.libro == repository.ObtenerLibroPorId(libroId)
      ensures r.Ok? && !repository.ExisteLibro(libroId) ==> r.valor.motivo == "Libro no encontrado"
      ensures r.Ok? && repository.ExisteLibro(libroId) ==>
        r.valor.motivo == if r.valor.disponible then "Libro disponible para préstamo"
                          else "Libro no disponible para préstamo"
    {
      var o := ObtenerLibro(libroId);
      if o.Err? then Err(o.falla)
      else if o.valor.None? then Ok(DisponibilidadLibro(false, "Libro no encontrado", None))
      else
        var libro := o.valor.value;
        assert libro in repository.libros;
        HuellaContieneLibro(repository.libros, libro);
        if !libro.EstaDisponible() then
          Ok(DisponibilidadLibro(false, "Libro no disponible para préstamo", Some(libro)))
        else
          Ok(DisponibilidadLibro(true, "Libro disponible para préstamo", Some(libro)))
    }

    /** Up to `limite` available books other than the given one that share its category
        or its author, in catalogue order. A non-positive id fails validation, an
        unknown id gives none, and a negative limit fails as `take` does. */
    function ObtenerRecomendaciones(libroId: int, limite: int): (r: Resultado<seq<Libro>>)
      reads repository, HuellaLibros(repository.libros)
      ensures libroId <= 0 ==> r == Err(ValidarId(libroId, "libro").falla)
      ensures libroId > 0 && !repository.ExisteLibro(libroId) ==> r == Ok([])
      ensures libroId > 0 && repository.ExisteLibro(libroId) && limite < 0 ==> r.Err? && r.falla.Argumento?
      ensures r.Ok? ==> |r.valor| == 0 || |r.valor| <= limite
      ensures r.Ok? && repository.ExisteLibro(libroId) ==>
        var libro := repository.ObtenerLibroPorId(libroId).value;
        var candidatos := Candidatos(repository.libros, libroId, libro);
        r.valor == Tomar(candidatos, limite)
      ensures r.Ok? ==> forall i :: 0 <= i < |r.valor| ==>
        r.valor[i] in repository.libros && r.valor[i].Id() != libroId && r.valor[i].EstaDisponible() &&
        (r.valor[i].Datos().categoria == repository.ObtenerLibroPorId(libroId).value.Datos().categoria ||
         r.valor[i].Datos().autor == repository.ObtenerLibroPorId(libroId).value.Datos().autor)
    {
      var o := ObtenerLibro(libroId);
      if o.Err? then Err(o.falla)
      else if o.valor.None? then Ok([])
      else
        var libro := o.valor.value;
        var candidatos := Candidatos(repository.libros, libroId, libro);
        if limite < 0 then
          Err(Argumento("Requested element count " + IntATexto(limite) + " is less than zero."))
        else
          var r := Tomar(candidatos, limite);
          assert forall i :: 0 <= i < |r| ==> r[i] == candidatos[i];
          Ok(r)
    }
  }

  /** The recommendation candidates: other books, related by category or author, and
      available, in catalogue order. */
  function Candidatos(ls: seq<Libro>, libroId: int, libro: Libro): (r: seq<Libro>)
    reads HuellaLibros(ls)
    ensures forall i :: 0 <= i < |r| ==>
      r[i] in ls && r[i].Id() != libroId && r[i].EstaDisponible() &&
      (r[i].Datos().categoria == libro.Datos().categoria || r[i].Datos().autor == libro.Datos().autor)
    ensures forall i :: 0 <= i < |ls| ==>
      (ls[i].Id() != libroId && ls[i].EstaDisponible() &&
       (ls[i].Datos().categoria == libro.Datos().categoria || ls[i].Datos().autor == libro.Datos().autor)) ==>
      ls[i] in r
    ensures EsSubsecuencia(r, ls)
  {
    var a := FiltrarLibros(ls, OtroId(libroId));
    SubsecuenciaHuella(a, ls);
    var b := FiltrarLibros(a, Relacionado(libro.Datos().categoria, libro.Datos().autor));
    SubsecuenciaHuella(b, a);
    var c := FiltrarLibros(b, Disponible);
    SubsecuenciaTransitiva(b, a, ls);
    SubsecuenciaTransitiva(c, b, ls);
    forall i | 0 <= i < |c| ensures
      c[i] in ls && c[i].Id() != libroId && c[i].EstaDisponible() &&
      (c[i].Datos().categoria == libro.Datos().categoria || c[i].Datos().autor == libro.Datos().autor)
    {
      var x := c[i];
      assert CumpleLibro(x, Disponible);
      var j :| 0 <= j < |b| && b[j] == x;
      assert CumpleLibro(b[j], Relacionado(libro.Datos().categoria, libro.Datos().autor));
      var k :| 0 <= k < |a| && a[k] == x;
      assert CumpleLibro(a[k], OtroId(libroId));
    }
    forall i | 0 <= i < |ls| && ls[i].Id() != libroId && ls[i].EstaDisponible() &&
      (ls[i].Datos().categoria == libro.Datos().categoria || ls[i].Datos().autor == libro.Datos().autor)
      ensures ls[i] in c
    {
      FiltrarConserva(ls, OtroId(libroId), ls[i]);
      FiltrarConserva(a, Relacionado(libro.Datos().categoria, libro.Datos().autor), ls[i]);
      FiltrarConserva(b, Disponible, ls[i]);
    }
    c
  }

  /** A book of the list that meets the criterion survives the filter. */
  lemma FiltrarConserva(ls: seq<Libro>, c: CriterioLibro, x: Libro)
    requires x in ls && CumpleLibro(x, c)
    ensures x in FiltrarLibros(ls, c)
  {
  }

  /** The books sorted by the criterion; see `CatalogoService.ObtenerLibrosOrdenados`. */
  function OrdenarLibros(ls: seq<Libro>, criterio: CriterioOrden): (r: seq<Libro>)
    reads HuellaLibros(ls)
    ensures multiset(r) == multiset(ls)
    ensures forall i, j :: 0 <= i < j < |r| ==> EnOrden(r[i], r[j], criterio)
    ensures criterio == Disponibilidad ==>
      r == FiltrarLibros(ls, Disponible) + FiltrarLibros(ls, NoDisponible)
  {
    match criterio
    case Titulo => OrdenarPorTexto(ls, (l: Libro) => l.Datos().titulo)
    case Autor => OrdenarPorTexto(ls, (l: Libro) => l.Datos().autor)
    case Categoria => OrdenarPorTexto(ls, (l: Libro) => l.Datos().categoria)
    case Anio => OrdenarPorEntero(ls, (l: Libro) => l.Datos().anioPublicacion, true)
    case PrecioMenor => OrdenarPorEntero(ls, (l: Libro) => l.Datos().precioBase, true)
    case PrecioMayor => OrdenarPorEntero(ls, (l: Libro) => l.Datos().precioBase, false)
    case Disponibilidad =>
      ParticionPorDisponibilidad(ls);
      DisponiblesPrimero(ls);
      FiltrarLibros(ls, Disponible) + FiltrarLibros(ls, NoDisponible)
  }

  /** In the available books followed by the others, no unavailable book comes before
      an available one. */
  lemma DisponiblesPrimero(ls: seq<Libro>)
    ensures var r := FiltrarLibros(ls, Disponible) + FiltrarLibros(ls, NoDisponible);
      forall i, j :: 0 <= i < j < |r| ==> EnOrden(r[i], r[j], Disponibilidad)
  {
    var d := FiltrarLibros(ls, Disponible);
    var n := FiltrarLibros(ls, NoDisponible);
    forall i | 0 <= i < |d| ensures d[i].EstaDisponible() {
      assert CumpleLibro(d[i], Disponible);
    }
    forall i | 0 <= i < |n| ensures !n[i].EstaDisponible() {
      assert CumpleLibro(n[i], NoDisponible);
    }
    DisponiblesAntes(d, n);
  }

  lemma DisponiblesAntes(d: seq<Libro>, n: seq<Libro>)
    requires forall i :: 0 <= i < |d| ==> d[i].EstaDisponible()
    requires forall i :: 0 <= i < |n| ==> !n[i].EstaDisponible()
    ensures forall i, j :: 0 <= i < j < |d + n| ==> EnOrden((d + n)[i], (d + n)[j], Disponibilidad)
  {
    var r := d + n;
    forall i, j | 0 <= i < j < |r| ensures EnOrden(r[i], r[j], Disponibilidad) {
      if i < |d| {
        assert r[i] == d[i];
      } else {
        assert r[j] == n[j - |d|];
      }
    }
  }

  /** The search so far: a subsequence of the catalogue whose books meet the filters
      applied, holding every catalogue book that meets them. */
  ghost predicate Tramo(libros: seq<Libro>, todos: seq<Libro>, criterios: seq<CriterioLibro>)
    reads HuellaLibros(todos)
  {
    EsSubsecuencia(libros, todos) &&
    (forall i :: 0 <= i < |libros| ==> libros[i] in todos && CumpleTodos(libros[i], criterios)) &&
    (forall i :: 0 <= i < |todos| && CumpleTodos(todos[i], criterios) ==> todos[i] in libros)
  }

  /** Before any filter the search is the whole catalogue. */
  lemma TramoInicial(todos: seq<Libro>)
    ensures Tramo(todos, todos, [])
  {
    SubsecuenciaReflexiva(todos);
  }

  /** Filtering by one more criterion moves the search on to the list that adds it. */
  lemma PasoTramo(libros: seq<Libro>, todos: seq<Libro>, criterios: seq<CriterioLibro>, criterio: CriterioLibro)
    requires Tramo(libros, todos, criterios)
    ensures Tramo(FiltrarLibros(libros, criterio), todos, criterios + [criterio])
  {
    var r := FiltrarLibros(libros, criterio);
    SubsecuenciaTransitiva(r, libros, todos);
    forall i | 0 <= i < |r| ensures r[i] in todos && CumpleTodos(r[i], criterios + [criterio]) {
      var k :| 0 <= k < |libros| && libros[k] == r[i];
      CumpleTodosConcatena(r[i], criterios, [criterio]);
      assert CumpleTodos(r[i], [criterio]) by {
        assert CumpleLibro(r[i], [criterio][0]);
      }
    }
    forall i | 0 <= i < |todos| && CumpleTodos(todos[i], criterios + [criterio]) ensures todos[i] in r {
      CumpleTodosConcatena(todos[i], criterios, [criterio]);
      assert CumpleTodos(todos[i], [criterio]) && CumpleTodos(todos[i], criterios);
      assert CumpleLibro(todos[i], [criterio][0]);
      var k :| 0 <= k < |libros| && libros[k] == todos[i];
    }
  }

  /** The footprint of a subsequence lies in the footprint of the whole. */
  lemma SubsecuenciaHuella(sub: seq<Libro>, ls: seq<Libro>)
    requires EsSubsecuencia(sub, ls)
    ensures HuellaLibros(sub) <= HuellaLibros(ls)
  {
    SubsecuenciaContenida(sub, ls);
    forall o | o in HuellaLibros(sub) ensures o in HuellaLibros(ls) {
      var i :| 0 <= i < |sub| && sub[i].Fisico? && sub[i].fisico == o;
      var k :| 0 <= k < |ls| && ls[k] == sub[i];
    }
  }
}
