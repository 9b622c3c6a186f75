/** The validators: each returns the cleaned value or fails with a ValidacionException
    carrying its message. */
module Validaciones {
  import opened Base
  import opened Texto
  import opened Constantes
  import opened Tipos
  import opened Usuarios
  import opened Libros

  const MinAnioPublicacion: int := 1000
  const MaxAnioPublicacion: int := 2030

  /** Fails on blank text; otherwise the trimmed text, which is a non-blank infix of the
      input with only whitespace cut from its ends. */
  function ValidarTextoNoVacio(texto: string, campo: string): (r: Resultado<string>)
    ensures r.Ok? <==> !EsBlanco(texto)
    ensures r.Err? ==> r.falla == Validacion("El campo '" + campo + "' no puede estar vacío")
    ensures r.Ok? ==> r.valor == Recortar(texto) && !EsBlanco(r.valor)
    ensures r.Ok? ==> !EsEspacio(r.valor[0]) && !EsEspacio(r.valor[|r.valor| - 1])
  {
    if EsBlanco(texto) then Err(Validacion("El campo '" + campo + "' no puede estar vacío"))
    else
      RecortarVacio(texto);
      RecortarBordes(texto);
      Ok(Recortar(texto))
  }

  /** The trimmed text when it is non-blank and its length lies in [minimo, maximo]. The
      length is Kotlin's `length`, in UTF-16 code units. */
  function ValidarLongitudTexto(texto: string, campo: string, minimo: int, maximo: int): (r: Resultado<string>)
    ensures r.Ok? <==> !EsBlanco(texto) && minimo <= LongitudUtf16(Recortar(texto)) <= maximo
    ensures r.Ok? ==> r.valor == Recortar(texto) && !EsBlanco(r.valor)
    ensures EsBlanco(texto) ==> r == ValidarTextoNoVacio(texto, campo)
    ensures !EsBlanco(texto) && r.Err? ==>
      r.falla == Validacion("El campo '" + campo + "' debe tener entre " + IntATexto(minimo) + " y " +
                            IntATexto(maximo) + " caracteres. Actual: " + IntATexto(LongitudUtf16(Recortar(texto))))
  {
    var limpio := ValidarTextoNoVacio(texto, campo);
    if limpio.Err? then limpio
    else
      var n := LongitudUtf16(limpio.valor);
      if n < minimo || n > maximo then
        Err(Validacion("El campo '" + campo + "' debe tener entre " + IntATexto(minimo) + " y " +
                       IntATexto(maximo) + " caracteres. Actual: " + IntATexto(n)))
      else limpio
  }

  /** A password of three characters above U+FFFF has length 6 and passes the length check. */
  lemma ContrasenaTresEmoji()
    ensures ValidarLongitudTexto("\U{1F600}\U{1F600}\U{1F600}", "Contraseña", 6, 20).Ok?
  {
    LongitudTresEmoji();
    assert !EsEspacio('\U{1F600}');
    assert Recortar("\U{1F600}\U{1F600}\U{1F600}") == "\U{1F600}\U{1F600}\U{1F600}";
  }

  // ------------------------------------------------------------- email pattern

  predicate EsLetra(c: char) { 'A' <= c <= 'Z' || 'a' <= c <= 'z' }

  /** `[A-Za-z0-9+_.-]` */
  predicate CaracterLocal(c: char) {
    EsLetra(c) || EsDigito(c) || c == '+' || c == '_' || c == '.' || c == '-'
  }

  /** `[A-Za-z0-9.-]` */
  predicate CaracterDominio(c: char) {
    EsLetra(c) || EsDigito(c) || c == '.' || c == '-'
  }

  /** `s` matches `^[A-Za-z0-9+_.-]+@[A-Za-z0-9.-]+\.[A-Za-z]{2,}$` with the '@' at `i`
      and the final '.' at `j`. */
  predicate PartesEmail(s: string, i: int, j: int) {
    0 < i && i + 1 < j && j + 2 < |s| && s[i] == '@' && s[j] == '.' &&
    (forall k :: 0 <= k < i ==> CaracterLocal(s[k])) &&
    (forall k :: i < k < j ==> CaracterDominio(s[k])) &&
    (forall k :: j < k < |s| ==> EsLetra(s[k]))
  }

  /** The email regular expression. */
  predicate CumplePatronEmail(s: string) {
    exists i, j | 0 <= i < |s| && 0 <= j < |s| :: PartesEmail(s, i, j)
  }

  /** A matching email splits in one way only: its '@' is its only '@' and the '.'
      before the top-level domain is its last '.'. */
  lemma PartesEmailUnicas(s: string, i: int, j: int, i2: int, j2: int)
    requires PartesEmail(s, i, j) && PartesEmail(s, i2, j2)
    ensures i == i2 && j == j2
  {
    assert !CaracterLocal('@') && !EsLetra('.');
  }

  /** A matching email contains an '@' and a '.', so it passes the user's own email
      check, and it is not blank. */
  lemma PatronEmailBasico(s: string)
    requires CumplePatronEmail(s)
    ensures EmailConArrobaYPunto(s) && !EsBlanco(s)
  {
    var i, j :| 0 <= i < |s| && 0 <= j < |s| && PartesEmail(s, i, j);
    assert s[i] == '@' && s[j] == '.';
    assert !EsEspacio(s[i]);
  }

  /** Lower-casing keeps an email matching the pattern. */
  lemma PatronEmailMinusculas(s: string)
    requires CumplePatronEmail(s)
    ensures CumplePatronEmail(Minusculas(s))
  {
    var i, j :| 0 <= i < |s| && 0 <= j < |s| && PartesEmail(s, i, j);
    var m := Minusculas(s);
    forall k | 0 <= k < |s| ensures ClasesMinuscula(s[k], m[k]) {
      MinusculaConservaClases(s[k]);
    }
    assert m[i] == '@' && m[j] == '.';
    assert PartesEmail(m, i, j);
  }

  /** `d` is a letter, digit or symbol of the pattern when `c` is, and the same symbol. */
  predicate ClasesMinuscula(c: char, d: char) {
    (EsLetra(c) ==> EsLetra(d)) && (CaracterLocal(c) ==> CaracterLocal(d)) &&
    (CaracterDominio(c) ==> CaracterDominio(d)) && (!EsLetra(c) ==> d == c)
  }

  lemma MinusculaConservaClases(c: char)
    ensures ClasesMinuscula(c, MinusculaChar(c))
  {
  }

  /** The trimmed email, lower-cased, when it matches the pattern. */
  function ValidarEmail(email: string): (r: Resultado<string>)
    ensures r.Ok? <==> !EsBlanco(email) && CumplePatronEmail(Recortar(email))
    ensures r.Ok? ==> r.valor == Minusculas(Recortar(email))
    ensures EsBlanco(email) ==> r == ValidarTextoNoVacio(email, "Email")
    ensures !EsBlanco(email) && r.Err? ==>
      r.falla == Validacion("El formato del email no es válido: " + Recortar(email))
  {
    var limpio := ValidarTextoNoVacio(email, "Email");
    if limpio.Err? then limpio
    else if !CumplePatronEmail(limpio.valor) then
      Err(Validacion("El formato del email no es válido: " + limpio.valor))
    else Ok(Minusculas(limpio.valor))
  }

  /** An accepted email still matches the pattern after lower-casing, so it has an '@'
      and a '.' and is not blank. */
  lemma EmailValidado(email: string)
    requires ValidarEmail(email).Ok?
    ensures var e := ValidarEmail(email).valor;
      CumplePatronEmail(e) && EmailConArrobaYPunto(e) && !EsBlanco(e)
  {
    PatronEmailMinusculas(Recortar(email));
    PatronEmailBasico(Minusculas(Recortar(email)));
  }

  // -------------------------------------------------------------- numeric ranges

  /** `numero` itself exactly when it lies in [minimo, maximo]. */
  function ValidarRango(numero: int, campo: string, minimo: int, maximo: int): (r: Resultado<int>)
    ensures r.Ok? <==> minimo <= numero <= maximo
    ensures r.Ok? ==> r.valor == numero
    ensures r.Err? ==>
      r.falla == Validacion("El campo '" + campo + "' debe estar entre " + IntATexto(minimo) + " y " +
                            IntATexto(maximo) + ". Actual: " + IntATexto(numero))
  {
    if numero < minimo || numero > maximo then
      Err(Validacion("El campo '" + campo + "' debe estar entre " + IntATexto(minimo) + " y " +
                     IntATexto(maximo) + ". Actual: " + IntATexto(numero)))
    else Ok(numero)
  }

  function ValidarPrecio(precio: int): (r: Resultado<int>)
    ensures r.Ok? <==> 0 <= precio <= 100000
    ensures r.Ok? ==> r.valor == precio
  {
    ValidarRango(precio, "Precio", PrecioMinimoLibro, PrecioMaximoLibro)
  }

  function ValidarDiasPrestamo(dias: int): (r: Resultado<int>)
    ensures r.Ok? <==> 0 <= dias <= 30
    ensures r.Ok? ==> r.valor == dias
  {
    ValidarRango(dias, "Días de préstamo", 0, MaxDiasPrestamo)
  }

  /** `validarId`: ids are positive. */
  function ValidarId(id: int, entidad: string): (r: Resultado<int>)
    ensures r.Ok? <==> id > 0
    ensures r.Ok? ==> r.valor == id
    ensures r.Err? ==> r.falla == Validacion("El ID de " + entidad + " debe ser positivo. Actual: " + IntATexto(id))
  {
    if id <= 0 then Err(Validacion("El ID de " + entidad + " debe ser positivo. Actual: " + IntATexto(id)))
    else Ok(id)
  }

  /** `toInt()` of the input, or a validation error naming the field and the input. */
  function ValidarEnteroDesdeString(entrada: string, campo: string): (r: Resultado<int>)
    ensures r.Ok? <==> ParseEntero(entrada).Some?
    ensures r.Ok? ==> r.valor == ParseEntero(entrada).value && MinInt <= r.valor <= MaxInt
    ensures r.Err? ==>
      r.falla == Validacion("El campo '" + campo + "' debe ser un número válido. Entrada: '" + entrada + "'")
  {
    match ParseEntero(entrada)
    case Some(n) => Ok(n)
    case None => Err(Validacion("El campo '" + campo + "' debe ser un número válido. Entrada: '" + entrada + "'"))
  }

  /** Any 32-bit integer written out is read back, and blank input is rejected. */
  lemma EnteroDesdeTexto(n: int, campo: string)
    requires MinInt <= n <= MaxInt
    ensures ValidarEnteroDesdeString(IntATexto(n), campo) == Ok(n)
    ensures ValidarEnteroDesdeString("", campo).Err?
  {
    ParseDeIntATexto(n);
  }

  // ------------------------------------------------------------- composite checks

  datatype LibroValidado = LibroValidado(
    titulo: string, autor: string, categoria: string,
    anioPublicacion: int, precioBase: int, diasPrestamo: int)

  datatype UsuarioValidado = UsuarioValidado(
    nombre: string, email: string, contrasena: string, tipoUsuario: TipoUsuario)

  datatype CredencialesValidadas = CredencialesValidadas(email: string, contrasena: string)

  /** `validarDatosLibro`: the six checks in their order; the first failure is the
      result. */
  function ValidarDatosLibro(titulo: string, autor: string, categoria: string,
                             anioPublicacion: int, precioBase: int, diasPrestamo: int): (r: Resultado<LibroValidado>)
    ensures r.Ok? <==>
      ValidarLongitudTexto(titulo, "Título", MinLongitudTitulo, MaxLongitudTitulo).Ok? &&
      ValidarLongitudTexto(autor, "Autor", MinLongitudNombre, MaxLongitudNombre).Ok? &&
      !EsBlanco(categoria) &&
      MinAnioPublicacion <= anioPublicacion <= MaxAnioPublicacion &&
      0 <= precioBase <= 100000 && 0 <= diasPrestamo <= 30
    ensures r.Ok? ==> r.valor == LibroValidado(Recortar(titulo), Recortar(autor), Recortar(categoria),
                                               anioPublicacion, precioBase, diasPrestamo)
    ensures ValidarLongitudTexto(titulo, "Título", MinLongitudTitulo, MaxLongitudTitulo).Err? ==>
      r == Err(ValidarLongitudTexto(titulo, "Título", MinLongitudTitulo, MaxLongitudTitulo).falla)
    ensures
      var t := ValidarLongitudTexto(titulo, "Título", MinLongitudTitulo, MaxLongitudTitulo);
      var a := ValidarLongitudTexto(autor, "Autor", MinLongitudNombre, MaxLongitudNombre);
      var c := ValidarTextoNoVacio(categoria, "Categoría");
      var y := ValidarRango(anioPublicacion, "Año de publicación", MinAnioPublicacion, MaxAnioPublicacion);
      var p := ValidarPrecio(precioBase);
      var d := ValidarDiasPrestamo(diasPrestamo);
      (t.Ok? && a.Err? ==> r == Err(a.falla)) &&
      (t.Ok? && a.Ok? && c.Err? ==> r == Err(c.falla)) &&
      (t.Ok? && a.Ok? && c.Ok? && y.Err? ==> r == Err(y.falla)) &&
      (t.Ok? && a.Ok? && c.Ok? && y.Ok? && p.Err? ==> r == Err(p.falla)) &&
      (t.Ok? && a.Ok? && c.Ok? && y.Ok? && p.Ok? && d.Err? ==> r == Err(d.falla))
  {
    var t := ValidarLongitudTexto(titulo, "Título", MinLongitudTitulo, MaxLongitudTitulo);
    if t.Err? then Err(t.falla) else
    var a := ValidarLongitudTexto(autor, "Autor", MinLongitudNombre, MaxLongitudNombre);
    if a.Err? then Err(a.falla) else
    var c := ValidarTextoNoVacio(categoria, "Categoría");
    if c.Err? then Err(c.falla) else
    var y := ValidarRango(anioPublicacion, "Año de publicación", MinAnioPublicacion, MaxAnioPublicacion);
    if y.Err? then Err(y.falla) else
    var p := ValidarPrecio(precioBase);
    if p.Err? then Err(p.falla) else
    var d := ValidarDiasPrestamo(diasPrestamo);
    if d.Err? then Err(d.falla) else
    Ok(LibroValidado(t.valor, a.valor, c.valor, y.valor, p.valor, d.valor))
  }

  /** Validated book data always passes the book constructor's own checks. */
  lemma LibroValidadoConstruible(titulo: string, autor: string, categoria: string,
                                 anioPublicacion: int, precioBase: int, diasPrestamo: int, id: int)
    requires ValidarDatosLibro(titulo, autor, categoria, anioPublicacion, precioBase, diasPrestamo).Ok?
    ensures var v := ValidarDatosLibro(titulo, autor, categoria, anioPublicacion, precioBase, diasPrestamo).valor;
      ChequearLibro(DatosLibro(id, v.titulo, v.autor, v.categoria, v.anioPublicacion, v.precioBase, v.diasPrestamo))
        == Aprobado
  {
    var _ := ValidarLongitudTexto(titulo, "Título", MinLongitudTitulo, MaxLongitudTitulo);
    var _ := ValidarLongitudTexto(autor, "Autor", MinLongitudNombre, MaxLongitudNombre);
  }

  /** `validarDatosUsuario`: name, email and password in that order; the category comes
      from the validated, lower-cased email. */
  function ValidarDatosUsuario(nombre: string, email: string, contrasena: string): (r: Resultado<UsuarioValidado>)
    ensures r.Ok? <==>
      ValidarLongitudTexto(nombre, "Nombre", MinLongitudNombre, MaxLongitudNombre).Ok? &&
      ValidarEmail(email).Ok? &&
      ValidarLongitudTexto(contrasena, "Contraseña", MinLongitudContrasena, MaxLongitudContrasena).Ok?
    ensures r.Ok? ==> r.valor.nombre == Recortar(nombre) && r.valor.email == Minusculas(Recortar(email))
    ensures r.Ok? ==> r.valor.contrasena == Recortar(contrasena)
    ensures r.Ok? ==> r.valor.tipoUsuario == DeterminarTipoUsuario(r.valor.email)
    ensures
      var n := ValidarLongitudTexto(nombre, "Nombre", MinLongitudNombre, MaxLongitudNombre);
      var e := ValidarEmail(email);
      var c := ValidarLongitudTexto(contrasena, "Contraseña", MinLongitudContrasena, MaxLongitudContrasena);
      (n.Err? ==> r == Err(n.falla)) &&
      (n.Ok? && e.Err? ==> r == Err(e.falla)) &&
      (n.Ok? && e.Ok? && c.Err? ==> r == Err(c.falla))
  {
    var n := ValidarLongitudTexto(nombre, "Nombre", MinLongitudNombre, MaxLongitudNombre);
    if n.Err? then Err(n.falla) else
    var e := ValidarEmail(email);
    if e.Err? then Err(e.falla) else
    var c := ValidarLongitudTexto(contrasena, "Contraseña", MinLongitudContrasena, MaxLongitudContrasena);
    if c.Err? then Err(c.falla) else
    Ok(UsuarioValidado(n.valor, e.valor, c.valor, DeterminarTipoUsuario(e.valor)))
  }

  /** Validated user data always passes the user constructor's own checks. */
  lemma UsuarioValidadoConstruible(nombre: string, email: string, contrasena: string)
    requires ValidarDatosUsuario(nombre, email, contrasena).Ok?
    ensures var v := ValidarDatosUsuario(nombre, email, contrasena).valor;
      ChequearUsuario(v.nombre, v.email, v.contrasena, 0) == Aprobado
  {
    var _ := ValidarLongitudTexto(nombre, "Nombre", MinLongitudNombre, MaxLongitudNombre);
    EmailValidado(email);
    var _ := ValidarLongitudTexto(contrasena, "Contraseña", MinLongitudContrasena, MaxLongitudContrasena);
  }

  /** `validarCredenciales`: the email as `validarEmail` returns it and the trimmed,
      non-blank password. */
  function ValidarCredenciales(email: string, contrasena: string): (r: Resultado<CredencialesValidadas>)
    ensures r.Ok? <==> ValidarEmail(email).Ok? && !EsBlanco(contrasena)
    ensures r.Ok? ==> r.valor == CredencialesValidadas(Minusculas(Recortar(email)), Recortar(contrasena))
    ensures ValidarEmail(email).Err? ==> r == Err(ValidarEmail(email).falla)
    ensures ValidarEmail(email).Ok? && EsBlanco(contrasena) ==>
      r == Err(ValidarTextoNoVacio(contrasena, "Contraseña").falla)
  {
    var e := ValidarEmail(email);
    if e.Err? then Err(e.falla) else
    var c := ValidarTextoNoVacio(contrasena, "Contraseña");
    if c.Err? then Err(c.falla) else
    Ok(CredencialesValidadas(e.valor, c.valor))
  }

  /** `validarPrestamoLibro`: an unavailable book fails with the "not available"
      message. The source goes on to test for a reference book and for a physical book
      with no copy left (`MotivoFisicoNoPrestable`), but those books are already
      unavailable, so those branches never fire (`MotivoFisicoInalcanzable`). */
  function ValidarPrestamoLibro(libro: Libro): (c: Chequeo)
    reads libro.Huella()
    ensures c == Aprobado <==> libro.EstaDisponible()
    ensures c.Rechazado? ==> c.falla == Validacion(MensajeLibroNoDisponible)
  {
    if !libro.EstaDisponible() then Rechazado(Validacion(MensajeLibroNoDisponible))
    else Aprobado
  }

  /** The second and third branches of `validarPrestamoLibro`: a reference book, or a
      physical book with no copy left. */
  function MotivoFisicoNoPrestable(libro: Libro): Option<string>
    reads libro.Huella()
  {
    if libro.Fisico? && libro.fisico.esReferencia then Some(MensajeLibroReferencia)
    else if libro.Fisico? && libro.fisico.ejemplaresDisponibles <= 0 then
      Some("No hay ejemplares disponibles del libro '" + libro.Datos().titulo + "'")
    else None
  }

  /** A book that passes the availability branch never reaches the other two, and every
      reference book or physical book without copies is stopped by the first. */
  lemma MotivoFisicoInalcanzable(libro: Libro)
    ensures libro.EstaDisponible() ==> MotivoFisicoNoPrestable(libro) == None
    ensures MotivoFisicoNoPrestable(libro).Some? ==>
      ValidarPrestamoLibro(libro) == Rechazado(Validacion(MensajeLibroNoDisponible))
  {
  }

  /** `validarPrestamoUsuario`: fewer than three late returns. */
  function ValidarPrestamoUsuario(usuario: Usuario): (c: Chequeo)
    reads usuario
    ensures c == Aprobado <==> usuario.cantidadAtrasos < MaxAtrasosPermitidos
    ensures c.Rechazado? ==> c.falla == Validacion(MensajeUsuarioConAtrasos)
  {
    if !usuario.PuedeRealizarPrestamos() then Rechazado(Validacion(MensajeUsuarioConAtrasos))
    else Aprobado
  }
}
