# BookSmart loan domain in Dafny

BookSmart is a small library system (DUOC UC). It keeps a catalogue of books, users
and loans. This project models its domain core and proves properties of it:

- three kinds of book: a plain book, a physical book with a copy counter and a
  reference flag, and a digital book with a format, a size and DRM;
- users, who are classified by their e-mail domain and count their late returns;
- the loan, with its due date, its discount, its fine and its state machine;
- the discount and fine calculators;
- the input validators;
- the in-memory repository, the catalogue service and the loan manager.

The model is split into modules. Each module follows one source file:

| module | file |
|---|---|
| `Base` | failures and Kotlin's integer division |
| `Texto`, `Secuencias` | the Kotlin string and collection operations the core uses |
| `Constantes` | `Constants.kt` |
| `Tipos`, `Estados`, `Resultados` | the enums and sealed classes |
| `Libros`, `Usuarios`, `Prestamos` | the model classes |
| `Validaciones` | `ValidationUtils.kt` |
| `Repositorio` | `LibroRepository.kt` |
| `Descuentos`, `Multas`, `Catalogo`, `Gestor` | the four services |

Objects whose fields the Kotlin code updates in place are Dafny classes with
`modifies` frames:

- `LibroFisico`, whose copy counter changes;
- `Usuario`, whose late-return counter changes;
- `Prestamo`, whose state and return date change;
- `LibroRepository`, whose lists grow and shrink;
- `GestorPrestamos`, whose loan-id counter advances.

Books, states, results and all the report records are datatypes.

Modelling choices:

- **Preconditions.** A constructor whose `init` block uses `require` is modelled in two
  parts. A `Chequear…` function returns the first failed check and its message. The
  constructor requires that function to be `Aprobado`. A static `Crear` method stands
  for the Kotlin constructor call, and returns either the object or the
  `IllegalArgumentException`.
- **Exceptions.** Thrown exceptions become `Resultado`/`Chequeo` values:
  - `Falla.Validacion` stands for `ValidacionException`;
  - `Falla.Argumento` stands for `IllegalArgumentException`.
- **Dates.** Dates are whole day numbers. The Kotlin code reads `LocalDate.now()`; the
  model takes that day as a parameter `hoy`.
- **Discounts.** Discount rates are whole percentages (10, 15, 0, 0). A discount is
  `precio * pct / 100`, truncated toward zero as Kotlin's `Double.toInt()` truncates.

The code and its design notes disagree in three places. The model follows the code:

- `validarPrestamoLibro` tests availability before it tests "reference book" and "no
  copies". For every kind of book, availability already fails in those two cases, so an
  unavailable book always gets the "not available" message. `Validaciones.MotivoFisicoInalcanzable`
  proves this.
- `ValidacionException` is not a `PrestamoException`. A validation failure inside
  `crearPrestamo` therefore reaches the generic `catch (e: Exception)`. It is reported
  as "Error inesperado: …" with no error code, which `Gestor.GestorPrestamos.MotivoRechazo` states.
- `devolverLibro` refuses only loans in state `Devuelto`. A loan in `Error` or
  `Pendiente` state can be returned.

## Model

| member | source | states |
|---|---|---|
| Base.DivTrunc | BookSmart/src/main/kotlin/cl/duoc/dsy1105/booksmart/model/TipoUsuario.kt:33-35 | Kotlin's truncating quotient: for a non-negative dividend it is the floor quotient; for a negative one it is minus the floor quotient of the absolute value |
| Base.Promedio | BookSmart/src/main/kotlin/cl/duoc/dsy1105/booksmart/service/CalculadoraMultas.kt:119-142 | averages guarded by `if (n > 0) … else 0`: zero for no items; otherwise the quotient q with q·n ≤ t < q·n + n |
| Base.PromedioMenorDivisor | BookSmart/src/main/kotlin/cl/duoc/dsy1105/booksmart/service/CalculadoraMultas.kt:119-142 | dividing a non-negative total among more items gives no larger average |
| Base.Abs | BookSmart/src/main/kotlin/cl/duoc/dsy1105/booksmart/model/Prestamo.kt:46-52 | the absolute value is non-negative and equals the value or its negation |
| Texto.Recortar | BookSmart/src/main/kotlin/cl/duoc/dsy1105/booksmart/util/ValidationUtils.kt:15-20 | `trim()`: the result is the infix of the input that drops exactly the leading and trailing blanks |
| Texto.RecortarVacio | BookSmart/src/main/kotlin/cl/duoc/dsy1105/booksmart/util/ValidationUtils.kt:15-20 | trimming gives the empty string exactly when the input is blank |
| Texto.RecortarBordes | BookSmart/src/main/kotlin/cl/duoc/dsy1105/booksmart/util/ValidationUtils.kt:15-20 | a non-empty trimmed text starts and ends with a non-blank character |
| Texto.Minusculas | BookSmart/src/main/kotlin/cl/duoc/dsy1105/booksmart/util/ValidationUtils.kt:39-45 | `lowercase()`: same length, with each character lowered |
| Texto.NatATexto | BookSmart/src/main/kotlin/cl/duoc/dsy1105/booksmart/util/ValidationUtils.kt:203-208 | the decimal text of a natural number is a non-empty string of digits |
| Texto.ValorDeNatATexto | BookSmart/src/main/kotlin/cl/duoc/dsy1105/booksmart/util/ValidationUtils.kt:203-208 | reading the digits of a number's decimal text back gives the number |
| Texto.SignoDelTexto | BookSmart/src/main/kotlin/cl/duoc/dsy1105/booksmart/util/ValidationUtils.kt:203-208 | the decimal text of an integer starts with '-' exactly when the integer is negative |
| Texto.IntATextoInyectiva | BookSmart/src/main/kotlin/cl/duoc/dsy1105/booksmart/service/GestorPrestamos.kt:25-65 | two integers with the same decimal text are equal, so a message names its id unambiguously |
| Texto.ParseEntero | BookSmart/src/main/kotlin/cl/duoc/dsy1105/booksmart/util/ValidationUtils.kt:192-198 | `toInt()`, whose `NumberFormatException` becomes `None`: an optional sign and ASCII digits; a parsed value lies in the 32-bit range, and the empty string does not parse |
| Texto.ParseDeIntATexto | BookSmart/src/main/kotlin/cl/duoc/dsy1105/booksmart/util/ValidationUtils.kt:192-198 | parsing the decimal text of any 32-bit integer gives that integer back |
| Texto.UnidadesUtf16 | BookSmart/src/main/kotlin/cl/duoc/dsy1105/booksmart/util/ValidationUtils.kt:25-34 | a character is one UTF-16 code unit up to U+FFFF and two above, the first of the two a high surrogate, every unit within 16 bits |
| Texto.LongitudUtf16 | BookSmart/src/main/kotlin/cl/duoc/dsy1105/booksmart/util/ValidationUtils.kt:25-34 | Kotlin's `length` is the size of the UTF-16 encoding: between the number of characters and twice it, and equal to it exactly when no character lies above U+FFFF |
| Texto.LongitudTresEmoji | BookSmart/src/main/kotlin/cl/duoc/dsy1105/booksmart/util/ValidationUtils.kt:25-34 | three characters above U+FFFF have length 6 |
| Texto.ClaveUtf16Orden | BookSmart/src/main/kotlin/cl/duoc/dsy1105/booksmart/service/CatalogoService.kt:64-69 | two different characters have different keys, and their keys compare as their UTF-16 encodings compare lexicographically, whatever follows them |
| Texto.MenorIgualUnidadesPrefijo | BookSmart/src/main/kotlin/cl/duoc/dsy1105/booksmart/service/CatalogoService.kt:64-69 | a common prefix does not change the code-unit comparison |
| Secuencias.Filtrar | BookSmart/src/main/kotlin/cl/duoc/dsy1105/booksmart/service/CatalogoService.kt:116-145 | `filter`: an order-preserving subsequence whose elements all satisfy the predicate, holding every input element that satisfies it |
| Secuencias.FiltrarCuenta | BookSmart/src/main/kotlin/cl/duoc/dsy1105/booksmart/service/CatalogoService.kt:116-145 | `filter` keeps each element that satisfies the predicate as many times as it occurs in the input, and no other element |
| Secuencias.FiltrarDosVeces | BookSmart/src/main/kotlin/cl/duoc/dsy1105/booksmart/service/CatalogoService.kt:116-145 | two filters in a row are the one filter on the conjunction |
| Secuencias.FiltrarQuita | BookSmart/src/main/kotlin/cl/duoc/dsy1105/booksmart/repository/LibroRepository.kt:143-145 | a filter shortens the list exactly when some element fails the predicate |
| Secuencias.SubsecuenciaTransitiva | BookSmart/src/main/kotlin/cl/duoc/dsy1105/booksmart/service/CatalogoService.kt:116-145 | a subsequence of a subsequence is a subsequence |
| Secuencias.BuscarPrimero | BookSmart/src/main/kotlin/cl/duoc/dsy1105/booksmart/repository/LibroRepository.kt:137-139 | `find`: none exactly when no element matches; otherwise the first element that matches |
| Secuencias.SumarLineal | BookSmart/src/main/kotlin/cl/duoc/dsy1105/booksmart/service/CalculadoraDescuentos.kt:33-49 | the sum of a pointwise sum is the sum of the sums |
| Secuencias.Distintos | BookSmart/src/main/kotlin/cl/duoc/dsy1105/booksmart/service/CatalogoService.kt:64-69 | `distinct()`: the same elements, each once |
| Secuencias.Ordenar | BookSmart/src/main/kotlin/cl/duoc/dsy1105/booksmart/service/CatalogoService.kt:157-169 | the sort returns a permutation of its input |
| Secuencias.OrdenarOrdena | BookSmart/src/main/kotlin/cl/duoc/dsy1105/booksmart/service/CatalogoService.kt:157-169 | under a total preorder, the sort's output is ordered |
| Secuencias.MenorIgualLexPreorden | BookSmart/src/main/kotlin/cl/duoc/dsy1105/booksmart/service/CatalogoService.kt:64-69 | string comparison is total and transitive |
| Secuencias.MenorIgualLexAntisimetrica | BookSmart/src/main/kotlin/cl/duoc/dsy1105/booksmart/service/CatalogoService.kt:64-69 | two texts each at most the other are equal |
| Secuencias.MenorIgualLexEsUtf16 | BookSmart/src/main/kotlin/cl/duoc/dsy1105/booksmart/service/CatalogoService.kt:64-69 | the text comparison is exactly the lexicographic order of the UTF-16 code units, which `String.compareTo` compares |
| Secuencias.OrdenarSinRepetir | BookSmart/src/main/kotlin/cl/duoc/dsy1105/booksmart/service/CatalogoService.kt:64-69 | `distinct().sorted()`: the same set of texts, strictly increasing |
| Secuencias.OrdenarPorTexto | BookSmart/src/main/kotlin/cl/duoc/dsy1105/booksmart/service/CatalogoService.kt:161-163 | `sortedBy` on a text key: a permutation with the keys in order |
| Secuencias.OrdenarPorEntero | BookSmart/src/main/kotlin/cl/duoc/dsy1105/booksmart/service/CatalogoService.kt:164-166 | `sortedBy` or `sortedByDescending` on an integer key: a permutation with the keys ascending or descending |
| Secuencias.Tomar | BookSmart/src/main/kotlin/cl/duoc/dsy1105/booksmart/service/GestorPrestamos.kt:172-176 | `take(n)`: the prefix of length min(n, size) |
| Tipos.TipoUsuario.Porcentaje | BookSmart/src/main/kotlin/cl/duoc/dsy1105/booksmart/model/TipoUsuario.kt:10-14 | a category's rate is a percentage between 0 and 100 |
| Tipos.TipoUsuario.CalcularDescuento | BookSmart/src/main/kotlin/cl/duoc/dsy1105/booksmart/model/TipoUsuario.kt:33-35 | the discount is price·rate/100 truncated toward zero, given as bounds on 100·discount for either sign of the price |
| Tipos.DescuentoMasPrecioFinal | BookSmart/src/main/kotlin/cl/duoc/dsy1105/booksmart/model/TipoUsuario.kt:33-42 | the discount plus the discounted price is the price |
| Tipos.DescuentoAcotado | BookSmart/src/main/kotlin/cl/duoc/dsy1105/booksmart/model/TipoUsuario.kt:33-42 | on a non-negative price, discount and final price lie between 0 and the price; external users and the administrator pay the full price |
| Tipos.EjemploEstudiante | BookSmart/src/main/kotlin/cl/duoc/dsy1105/booksmart/model/TipoUsuario.kt:33-42 | a student pays 11691 for a 12990 book, with 1299 off |
| Tipos.DominiosExcluyentes | BookSmart/src/main/kotlin/cl/duoc/dsy1105/booksmart/model/TipoUsuario.kt:20-27 | no address ends both in the student domain and in the staff domain, and the administrator's address ends in neither |
| Tipos.ClasificacionPorEmail | BookSmart/src/main/kotlin/cl/duoc/dsy1105/booksmart/model/TipoUsuario.kt:20-27 | student exactly for the `@duocuc.cl` suffix, staff for `@duoc.cl`, admin for the admin address, external otherwise |
| Estados.DescripcionInyectiva | BookSmart/src/main/kotlin/cl/duoc/dsy1105/booksmart/model/EstadoPrestamo.kt:31-38 | different states have different descriptions |
| Estados.ActivoSiNoCerrado | BookSmart/src/main/kotlin/cl/duoc/dsy1105/booksmart/model/EstadoPrestamo.kt:43-48 | a state is active exactly when it is neither returned nor an error |
| Resultados.Clasificacion | BookSmart/src/main/kotlin/cl/duoc/dsy1105/booksmart/model/ResultadoPrestamo.kt:31-53 | each result is exactly one of success, error or in progress, and an error's message is "Error: " followed by its text |
| Libros.ChequearLibro | BookSmart/src/main/kotlin/cl/duoc/dsy1105/booksmart/model/Libro.kt:16-22 | a book passes exactly when its price and loan days are non-negative and its title and author are not blank; a failure is an argument error |
| Libros.DiasEfectivos | BookSmart/src/main/kotlin/cl/duoc/dsy1105/booksmart/model/LibroFisico.kt:17-25 | a reference book's loan period is 0; otherwise the given one |
| Libros.ChequearFisico | BookSmart/src/main/kotlin/cl/duoc/dsy1105/booksmart/model/LibroFisico.kt:28-33 | passes exactly when the base checks pass on the effective period, there is at least one copy, and a reference book was given 0 days; the base checks' failure comes first |
| Libros.LibroFisico.constructor | BookSmart/src/main/kotlin/cl/duoc/dsy1105/booksmart/model/LibroFisico.kt:7-33 | the new book has the effective loan period and all its copies on the shelf |
| Libros.LibroFisico.Crear | BookSmart/src/main/kotlin/cl/duoc/dsy1105/booksmart/model/LibroFisico.kt:7-33 | the constructor call: the argument error of the first failed check, or a fresh valid book |
| Libros.LibroFisico.PrestarEjemplar | BookSmart/src/main/kotlin/cl/duoc/dsy1105/booksmart/model/LibroFisico.kt:51-58 | succeeds exactly when the book was available, and then takes one copy; otherwise changes nothing |
| Libros.LibroFisico.DevolverEjemplar | BookSmart/src/main/kotlin/cl/duoc/dsy1105/booksmart/model/LibroFisico.kt:63-67 | puts a copy back unless every copy is already on the shelf |
| Libros.EjemplaresEnRango | BookSmart/src/main/kotlin/cl/duoc/dsy1105/booksmart/model/LibroFisico.kt:51-67 | after any run of loans and returns, the copies on the shelf stay between 0 and the total; for a book that cannot be lent they never drop |
| Libros.EjemplaresNoBajan | BookSmart/src/main/kotlin/cl/duoc/dsy1105/booksmart/model/LibroFisico.kt:51-67 | for a book that cannot be lent, no run of operations lowers the shelf count |
| Libros.PrestarYDevolver | BookSmart/src/main/kotlin/cl/duoc/dsy1105/booksmart/model/LibroFisico.kt:51-67 | lending a copy and returning it restores the shelf count |
| Libros.ReferenciaNuncaDisponible | BookSmart/src/main/kotlin/cl/duoc/dsy1105/booksmart/model/LibroFisico.kt:44-46 | a reference book is never available and never lendable |
| Libros.ChequearDigital | BookSmart/src/main/kotlin/cl/duoc/dsy1105/booksmart/model/LibroDigital.kt:28-31 | passes exactly when the base checks pass, the size is non-negative and the format is not blank; the base checks' failure comes first |
| Libros.ReemplazarEspacios | BookSmart/src/main/kotlin/cl/duoc/dsy1105/booksmart/model/LibroDigital.kt:55-57 | `replace(" ", "_")`: same length, each space replaced by an underscore and every other character kept |
| Libros.UrlDescarga | BookSmart/src/main/kotlin/cl/duoc/dsy1105/booksmart/model/LibroDigital.kt:55-57 | the download link is the fixed prefix, the id's text (which parses back to the id), '/', and a title segment as long as the title with no space and no upper-case letter, each non-space title character lowered in place |
| Libros.DrmNoRestringeDisponibilidad | BookSmart/src/main/kotlin/cl/duoc/dsy1105/booksmart/model/LibroDigital.kt:40-50 | `requiereAutenticacionDRM` reports the DRM flag, and the flag does not change availability |
| Libros.Libro.CostoFinal | BookSmart/src/main/kotlin/cl/duoc/dsy1105/booksmart/model/Libro.kt:28 | every kind of book costs its base price |
| Libros.Disponibilidad | BookSmart/src/main/kotlin/cl/duoc/dsy1105/booksmart/model/LibroFisico.kt:44-46 | an available book has a loan period; a physical book is available exactly when it is lendable with a copy on the shelf; the others exactly when they have a loan period |
| Libros.DescripcionExtiendeBase | BookSmart/src/main/kotlin/cl/duoc/dsy1105/booksmart/model/LibroFisico.kt:71-76 | every subclass description starts with the base description |
| Usuarios.ChequearUsuario | BookSmart/src/main/kotlin/cl/duoc/dsy1105/booksmart/model/Usuario.kt:16-22 | a user passes exactly when name, e-mail and password are not blank, the late count is not negative and the e-mail holds '@' and '.'; a failure is an argument error |
| Usuarios.Usuario.constructor | BookSmart/src/main/kotlin/cl/duoc/dsy1105/booksmart/model/Usuario.kt:7-22 | the new user holds its arguments, with the category given or else derived from the e-mail |
| Usuarios.Usuario.Crear | BookSmart/src/main/kotlin/cl/duoc/dsy1105/booksmart/model/Usuario.kt:7-22 | the constructor call: the argument error of the first failed check, or a fresh valid user |
| Usuarios.Usuario.RegistrarAtraso | BookSmart/src/main/kotlin/cl/duoc/dsy1105/booksmart/model/Usuario.kt:35-37 | the late count goes up by one, and the user stays valid |
| Usuarios.Usuario.ReiniciarAtrasos | BookSmart/src/main/kotlin/cl/duoc/dsy1105/booksmart/model/Usuario.kt:42-44 | the late count goes back to 0 |
| Usuarios.Usuario.CalcularDescuento | BookSmart/src/main/kotlin/cl/duoc/dsy1105/booksmart/model/Usuario.kt:58-60 | the user's category percentage of the price, truncated, between 0 and a non-negative price |
| Usuarios.Usuario.AplicarDescuento | BookSmart/src/main/kotlin/cl/duoc/dsy1105/booksmart/model/Usuario.kt:65-67 | with the discount it makes up the price, and lies between 0 and a non-negative price |
| Usuarios.PuedeSegunAtrasosDesdeReinicio | BookSmart/src/main/kotlin/cl/duoc/dsy1105/booksmart/model/Usuario.kt:28-30 | `puedeRealizarPrestamos` holds exactly while fewer than three late returns were recorded since the last reset |
| Usuarios.AtrasosNoNegativos | BookSmart/src/main/kotlin/cl/duoc/dsy1105/booksmart/model/Usuario.kt:35-44 | from a non-negative count, no run of registrations and resets makes the count negative |
| Usuarios.RegistrosSuman | BookSmart/src/main/kotlin/cl/duoc/dsy1105/booksmart/model/Usuario.kt:35-37 | without a reset, the count grows by the number of registrations |
| Usuarios.AtrasosTrasReinicio | BookSmart/src/main/kotlin/cl/duoc/dsy1105/booksmart/model/Usuario.kt:35-44 | after the last reset, the count is the number of registrations since |
| Prestamos.ChequearPrestamo | BookSmart/src/main/kotlin/cl/duoc/dsy1105/booksmart/model/Prestamo.kt:23-27 | a loan passes exactly when the price is non-negative, the book is available and the user may borrow; a failure is an argument error |
| Prestamos.Prestamo.constructor | BookSmart/src/main/kotlin/cl/duoc/dsy1105/booksmart/model/Prestamo.kt:10-27 | the default arguments: the due date is the loan day plus the book's period; the price, discount and cost come from the book and the user's category; the state is pending with no return date |
| Prestamos.Prestamo.Crear | BookSmart/src/main/kotlin/cl/duoc/dsy1105/booksmart/model/Prestamo.kt:10-27 | the constructor call: the argument error of the first failed check, or a fresh valid pending loan |
| Prestamos.Prestamo.DiasRestantes | BookSmart/src/main/kotlin/cl/duoc/dsy1105/booksmart/model/Prestamo.kt:33-36 | the loan period less the days elapsed since the loan day, negative exactly after the due date |
| Prestamos.Prestamo.EstaAtrasado | BookSmart/src/main/kotlin/cl/duoc/dsy1105/booksmart/model/Prestamo.kt:41 | late exactly when the due date has passed |
| Prestamos.Prestamo.CalcularMulta | BookSmart/src/main/kotlin/cl/duoc/dsy1105/booksmart/model/Prestamo.kt:46-52 | the fine is 100 per day past the due date, positive exactly when the loan is late |
| Prestamos.Prestamo.CostoTotalConMulta | BookSmart/src/main/kotlin/cl/duoc/dsy1105/booksmart/model/Prestamo.kt:57-59 | the cost with the fine exceeds the cost by exactly the fine |
| Prestamos.Prestamo.Procesar | BookSmart/src/main/kotlin/cl/duoc/dsy1105/booksmart/model/Prestamo.kt:64-66 | the state becomes "on loan" with the days left until the due date |
| Prestamos.Prestamo.MarcarError | BookSmart/src/main/kotlin/cl/duoc/dsy1105/booksmart/model/Prestamo.kt:91-93 | the state becomes an error with the given message |
| Prestamos.Prestamo.Devolver | BookSmart/src/main/kotlin/cl/duoc/dsy1105/booksmart/model/Prestamo.kt:71-86 | the return on day `hoy`: the loan is returned with that date, a physical book gets a copy back, a late return adds one to the user's count, and the cost with the fine is due |
| Prestamos.ImportesDelPrestamo | BookSmart/src/main/kotlin/cl/duoc/dsy1105/booksmart/model/Prestamo.kt:10-27 | for a valid loan, discount and cost lie between 0 and the price and add up to it; the due date is after the loan day; nothing beyond the cost is owed up to the due date |
| Prestamos.MultaCreciente | BookSmart/src/main/kotlin/cl/duoc/dsy1105/booksmart/model/Prestamo.kt:41-52 | the fine never shrinks as days pass, and a late loan stays late |
| Prestamos.MultaTresDias | BookSmart/src/main/kotlin/cl/duoc/dsy1105/booksmart/model/Prestamo.kt:46-52 | three days late cost 300; on the due date nothing |
| Prestamos.FiltrarPrestamos | BookSmart/src/main/kotlin/cl/duoc/dsy1105/booksmart/repository/LibroRepository.kt:255-261 | filtering loans gives a subsequence whose loans all meet the criterion, holding every loan that meets it |
| Prestamos.FiltrarPrestamosCuenta | BookSmart/src/main/kotlin/cl/duoc/dsy1105/booksmart/repository/LibroRepository.kt:255-261 | a loan meeting the criterion appears in the result as often as in the input, and any other loan not at all |
| Prestamos.FiltrarPrestamosDosVeces | BookSmart/src/main/kotlin/cl/duoc/dsy1105/booksmart/service/GestorPrestamos.kt:127-138 | two loan filters may be applied in either order |
| Prestamos.ActivosMasCerrados | BookSmart/src/main/kotlin/cl/duoc/dsy1105/booksmart/service/GestorPrestamos.kt:159-190 | active loans plus returned loans are at most all loans |
| Prestamos.CostosConMultaSuman | BookSmart/src/main/kotlin/cl/duoc/dsy1105/booksmart/service/CalculadoraMultas.kt:36-53 | the costs with fines sum to the costs plus the fines, and the fines are non-negative |
| Validaciones.ValidarTextoNoVacio | BookSmart/src/main/kotlin/cl/duoc/dsy1105/booksmart/util/ValidationUtils.kt:15-20 | fails exactly on blank text, with the field's message; otherwise gives the trimmed, non-blank text |
| Validaciones.ValidarLongitudTexto | BookSmart/src/main/kotlin/cl/duoc/dsy1105/booksmart/util/ValidationUtils.kt:25-34 | accepts exactly the non-blank texts whose trimmed length, counted in UTF-16 code units as Kotlin's `length` counts, is within bounds; blank text gets the emptiness error, and a bad length gets the length message quoting that length |
| Validaciones.ContrasenaTresEmoji | BookSmart/src/main/kotlin/cl/duoc/dsy1105/booksmart/util/ValidationUtils.kt:25-34 | a password of three characters above U+FFFF has length 6 and passes the password's length bounds |
| Validaciones.PartesEmailUnicas | BookSmart/src/main/kotlin/cl/duoc/dsy1105/booksmart/util/ValidationUtils.kt:39-45 | an address matching the e-mail pattern splits into local part, domain and suffix in only one way |
| Validaciones.PatronEmailBasico | BookSmart/src/main/kotlin/cl/duoc/dsy1105/booksmart/util/ValidationUtils.kt:39-45 | an address matching the pattern passes the user's own check for '@' and '.' and is not blank |
| Validaciones.PatronEmailMinusculas | BookSmart/src/main/kotlin/cl/duoc/dsy1105/booksmart/util/ValidationUtils.kt:39-45 | lowering an address that matches the pattern keeps it matching |
| Validaciones.ValidarEmail | BookSmart/src/main/kotlin/cl/duoc/dsy1105/booksmart/util/ValidationUtils.kt:39-45 | accepts exactly the non-blank addresses whose trimmed form matches the pattern, giving it in lower case; blank input gets the emptiness error, otherwise the format message |
| Validaciones.EmailValidado | BookSmart/src/main/kotlin/cl/duoc/dsy1105/booksmart/util/ValidationUtils.kt:39-45 | a validated address is lower case, matches the pattern and passes the user constructor's check |
| Validaciones.ValidarRango | BookSmart/src/main/kotlin/cl/duoc/dsy1105/booksmart/util/ValidationUtils.kt:50-57 | accepts exactly the numbers within bounds, with the range message otherwise |
| Validaciones.ValidarPrecio | BookSmart/src/main/kotlin/cl/duoc/dsy1105/booksmart/util/ValidationUtils.kt:62-69 | accepts exactly the prices from 0 to 100000 |
| Validaciones.ValidarDiasPrestamo | BookSmart/src/main/kotlin/cl/duoc/dsy1105/booksmart/util/ValidationUtils.kt:74-76 | accepts exactly the loan periods from 0 to 30 |
| Validaciones.ValidarId | BookSmart/src/main/kotlin/cl/duoc/dsy1105/booksmart/util/ValidationUtils.kt:203-208 | accepts exactly the positive ids; otherwise the message naming the entity and the value |
| Validaciones.ValidarEnteroDesdeString | BookSmart/src/main/kotlin/cl/duoc/dsy1105/booksmart/util/ValidationUtils.kt:192-198 | accepts exactly the texts that parse as a 32-bit integer, giving that integer |
| Validaciones.EnteroDesdeTexto | BookSmart/src/main/kotlin/cl/duoc/dsy1105/booksmart/util/ValidationUtils.kt:192-198 | the decimal text of any 32-bit integer validates to that integer, and the empty text fails |
| Validaciones.ValidarDatosLibro | BookSmart/src/main/kotlin/cl/duoc/dsy1105/booksmart/util/ValidationUtils.kt:81-117 | accepts exactly when every field check passes, giving the trimmed texts and the numbers; the first failed check gives the error |
| Validaciones.LibroValidadoConstruible | BookSmart/src/main/kotlin/cl/duoc/dsy1105/booksmart/util/ValidationUtils.kt:81-117 | validated book data always passes the book constructor's checks |
| Validaciones.ValidarDatosUsuario | BookSmart/src/main/kotlin/cl/duoc/dsy1105/booksmart/util/ValidationUtils.kt:122-149 | accepts exactly valid name, e-mail and password, giving the trimmed texts, the lowered e-mail and the category it determines; a failure is the first failing check's error, in the order name, e-mail, password |
| Validaciones.UsuarioValidadoConstruible | BookSmart/src/main/kotlin/cl/duoc/dsy1105/booksmart/util/ValidationUtils.kt:122-149 | validated user data always passes the user constructor's checks |
| Validaciones.ValidarCredenciales | BookSmart/src/main/kotlin/cl/duoc/dsy1105/booksmart/util/ValidationUtils.kt:182-187 | accepts exactly a valid e-mail with a non-blank password, giving both normalised; the e-mail's error comes first, and a blank password after a valid e-mail gets the password's emptiness error |
| Validaciones.ValidarPrestamoLibro | BookSmart/src/main/kotlin/cl/duoc/dsy1105/booksmart/util/ValidationUtils.kt:154-167 | passes exactly for available books; every other book gets the "not available" message |
| Validaciones.MotivoFisicoInalcanzable | BookSmart/src/main/kotlin/cl/duoc/dsy1105/booksmart/util/ValidationUtils.kt:154-167 | the reference and no-copies branches run only for books that are not available |
| Validaciones.ValidarPrestamoUsuario | BookSmart/src/main/kotlin/cl/duoc/dsy1105/booksmart/util/ValidationUtils.kt:172-177 | passes exactly for users with fewer than three late returns |
| Repositorio.FiltrarLibros | BookSmart/src/main/kotlin/cl/duoc/dsy1105/booksmart/repository/LibroRepository.kt:156-200 | filtering books gives a subsequence whose books all meet the criterion, holding every book that meets it |
| Repositorio.FiltrarLibrosCuenta | BookSmart/src/main/kotlin/cl/duoc/dsy1105/booksmart/repository/LibroRepository.kt:156-200 | a book meeting the criterion appears in the result as often as in the input, and any other book not at all |
| Repositorio.ContarLibrosImplica | BookSmart/src/main/kotlin/cl/duoc/dsy1105/booksmart/repository/LibroRepository.kt:205-222 | a criterion implied by another counts at least as many books |
| Repositorio.ContarLibrosDisjuntos | BookSmart/src/main/kotlin/cl/duoc/dsy1105/booksmart/repository/LibroRepository.kt:205-222 | two criteria no book meets together count at most all books |
| Repositorio.FiltrarLibrosQuita | BookSmart/src/main/kotlin/cl/duoc/dsy1105/booksmart/repository/LibroRepository.kt:143-145 | a book filter shortens the list exactly when some book fails it |
| Repositorio.ParticionPorDisponibilidad | BookSmart/src/main/kotlin/cl/duoc/dsy1105/booksmart/service/CatalogoService.kt:167 | the available books followed by the unavailable ones are a permutation of the catalogue |
| Repositorio.CalcularEstadisticasCatalogo | BookSmart/src/main/kotlin/cl/duoc/dsy1105/booksmart/repository/LibroRepository.kt:205-222 | each count is the size of its filter (available, physical, digital, reference) and the value is the sum of the base prices; available at most all books, physical plus digital at most all, reference at most the physical ones |
| Repositorio.CalcularEstadisticasPrestamos | BookSmart/src/main/kotlin/cl/duoc/dsy1105/booksmart/repository/LibroRepository.kt:268-282 | the active and late counts are the sizes of their filters on `hoy`, at most all loans; the loan amount is the sum of the costs and the fine amount the sum of the fines, non-negative, together the costs with fines |
| Repositorio.QuitarPorId | BookSmart/src/main/kotlin/cl/duoc/dsy1105/booksmart/repository/LibroRepository.kt:143-145 | removing by id leaves no book with that id, and shortens the list exactly when one had it |
| Repositorio.SubsecuenciaIdsUnicos | BookSmart/src/main/kotlin/cl/duoc/dsy1105/booksmart/repository/LibroRepository.kt:128-145 | a subsequence of a list with unique ids has unique ids |
| Repositorio.UltimoConId | BookSmart/src/main/kotlin/cl/duoc/dsy1105/booksmart/repository/LibroRepository.kt:128-139 | a book appended with a new id is the one found by that id |
| Repositorio.LibroRepository.constructor | BookSmart/src/main/kotlin/cl/duoc/dsy1105/booksmart/repository/LibroRepository.kt:9-17 | the repository starts empty and valid |
| Repositorio.LibroRepository.ObtenerLibroPorId | BookSmart/src/main/kotlin/cl/duoc/dsy1105/booksmart/repository/LibroRepository.kt:137-139 | none exactly when no book has the id; otherwise a stored book with that id |
| Repositorio.LibroRepository.ExisteLibro | BookSmart/src/main/kotlin/cl/duoc/dsy1105/booksmart/repository/LibroRepository.kt:147-149 | some book has the id exactly when `find` by the id succeeds |
| Repositorio.LibroRepository.AgregarLibro | BookSmart/src/main/kotlin/cl/duoc/dsy1105/booksmart/repository/LibroRepository.kt:128-135 | appends the book exactly when its id is new, after which the id finds it; nothing else changes |
| Repositorio.LibroRepository.EliminarLibro | BookSmart/src/main/kotlin/cl/duoc/dsy1105/booksmart/repository/LibroRepository.kt:143-145 | removes the books with the id, reports whether any existed, and keeps the ids unique |
| Repositorio.LibroRepository.BuscarPorTitulo | BookSmart/src/main/kotlin/cl/duoc/dsy1105/booksmart/repository/LibroRepository.kt:156-160 | the books whose title contains the text, ignoring case, in catalogue order |
| Repositorio.LibroRepository.BuscarPorAutor | BookSmart/src/main/kotlin/cl/duoc/dsy1105/booksmart/repository/LibroRepository.kt:165-169 | the books whose author contains the text, ignoring case, in catalogue order |
| Repositorio.LibroRepository.FiltrarPorCategoria | BookSmart/src/main/kotlin/cl/duoc/dsy1105/booksmart/repository/LibroRepository.kt:174-178 | the books whose category equals the text, ignoring case, in catalogue order |
| Repositorio.LibroRepository.ObtenerLibrosDisponibles | BookSmart/src/main/kotlin/cl/duoc/dsy1105/booksmart/repository/LibroRepository.kt:183-185 | exactly the available books, in catalogue order |
| Repositorio.LibroRepository.ObtenerLibrosFisicosDisponibles | BookSmart/src/main/kotlin/cl/duoc/dsy1105/booksmart/repository/LibroRepository.kt:190-193 | exactly the available physical books, in catalogue order, each also among the available books |
| Repositorio.LibroRepository.ObtenerLibrosDigitales | BookSmart/src/main/kotlin/cl/duoc/dsy1105/booksmart/repository/LibroRepository.kt:198-200 | exactly the digital books, in catalogue order |
| Repositorio.LibroRepository.ObtenerEstadisticasCatalogo | BookSmart/src/main/kotlin/cl/duoc/dsy1105/booksmart/repository/LibroRepository.kt:205-222 | the catalogue statistics of the stored books |
| Repositorio.LibroRepository.AgregarUsuario | BookSmart/src/main/kotlin/cl/duoc/dsy1105/booksmart/repository/LibroRepository.kt:226-233 | appends the user exactly when the e-mail is new; nothing else changes |
| Repositorio.LibroRepository.BuscarUsuarioPorEmail | BookSmart/src/main/kotlin/cl/duoc/dsy1105/booksmart/repository/LibroRepository.kt:235-237 | none exactly when no user has the e-mail; otherwise a stored user with it |
| Repositorio.LibroRepository.ExisteUsuario | BookSmart/src/main/kotlin/cl/duoc/dsy1105/booksmart/repository/LibroRepository.kt:243-245 | some user has the e-mail exactly when `find` by it succeeds |
| Repositorio.AutenticarEsBuscarYVerificar | BookSmart/src/main/kotlin/cl/duoc/dsy1105/booksmart/model/Usuario.kt:51-53 | with unique e-mails, authentication is the lookup by e-mail followed by `verificarCredenciales` on that user |
| Repositorio.LibroRepository.AutenticarUsuario | BookSmart/src/main/kotlin/cl/duoc/dsy1105/booksmart/repository/LibroRepository.kt:239-241 | a stored user with that e-mail and password, or none exactly when no user has both |
| Repositorio.LibroRepository.AgregarPrestamo | BookSmart/src/main/kotlin/cl/duoc/dsy1105/booksmart/repository/LibroRepository.kt:251-253 | always appends the loan and reports success; books and users unchanged |
| Repositorio.LibroRepository.ObtenerPrestamosPorUsuario | BookSmart/src/main/kotlin/cl/duoc/dsy1105/booksmart/repository/LibroRepository.kt:255-257 | exactly the user's loans, in order |
| Repositorio.LibroRepository.ObtenerPrestamosActivos | BookSmart/src/main/kotlin/cl/duoc/dsy1105/booksmart/repository/LibroRepository.kt:259-261 | exactly the active loans, in order |
| Repositorio.LibroRepository.ObtenerEstadisticasPrestamos | BookSmart/src/main/kotlin/cl/duoc/dsy1105/booksmart/repository/LibroRepository.kt:268-282 | the loan statistics of the stored loans on day `hoy` |
| Descuentos.CalcularDescuento | BookSmart/src/main/kotlin/cl/duoc/dsy1105/booksmart/service/CalculadoraDescuentos.kt:15-28 | the discount of a book for a user: the category's discount on the base price and the rest as final price, both between 0 and the price |
| Descuentos.CalcularDescuentoMultiple | BookSmart/src/main/kotlin/cl/duoc/dsy1105/booksmart/service/CalculadoraDescuentos.kt:33-49 | one entry per book; the subtotal is the base prices' sum, and equals the discounts plus the final total |
| Descuentos.Elegibilidad | BookSmart/src/main/kotlin/cl/duoc/dsy1105/booksmart/service/CalculadoraDescuentos.kt:54-56 | only students and staff with fewer than three late returns are eligible |
| Descuentos.ObtenerInfoDescuento | BookSmart/src/main/kotlin/cl/duoc/dsy1105/booksmart/service/CalculadoraDescuentos.kt:61-84 | the rate shown is the category's, positive exactly for students and staff |
| Descuentos.CalcularAhorroAcumulado | BookSmart/src/main/kotlin/cl/duoc/dsy1105/booksmart/service/CalculadoraDescuentos.kt:89-103 | the saving is base prices minus costs, and the average is the truncated quotient, 0 for no loans |
| Descuentos.AhorroEsDescuento | BookSmart/src/main/kotlin/cl/duoc/dsy1105/booksmart/service/CalculadoraDescuentos.kt:89-103 | over valid loans the saving is the sum of the discounts applied, so it and its average are non-negative |
| Descuentos.SimularDescuento | BookSmart/src/main/kotlin/cl/duoc/dsy1105/booksmart/service/CalculadoraDescuentos.kt:108-120 | the simulated discount and final price are the category's |
| Descuentos.SimulacionCoincide | BookSmart/src/main/kotlin/cl/duoc/dsy1105/booksmart/service/CalculadoraDescuentos.kt:108-120 | a simulation on a book's price equals that book's computed discount |
| Multas.CalcularDiasAtraso | BookSmart/src/main/kotlin/cl/duoc/dsy1105/booksmart/service/CalculadoraMultas.kt:58-62 | days late are non-negative, positive exactly after the due date, and then the difference |
| Multas.AtrasoSegunDias | BookSmart/src/main/kotlin/cl/duoc/dsy1105/booksmart/service/CalculadoraMultas.kt:58-62 | a loan is late exactly when it has a day of delay, and the delay is the negated days left, floored at 0 |
| Multas.CalcularMulta | BookSmart/src/main/kotlin/cl/duoc/dsy1105/booksmart/service/CalculadoraMultas.kt:18-31 | a well-formed fine (100 per day, added to the cost) that agrees with the loan's own fine and lateness |
| Multas.Multas | BookSmart/src/main/kotlin/cl/duoc/dsy1105/booksmart/service/CalculadoraMultas.kt:36-37 | one fine per loan, in order |
| Multas.CalcularMultasUsuario | BookSmart/src/main/kotlin/cl/duoc/dsy1105/booksmart/service/CalculadoraMultas.kt:36-53 | the totals: the fines' sum is non-negative, cost plus fines is the sum of costs with fines, the late entries are exactly the late fines of the individual fines, in order, they number the late loans, and their days times 100 are the total fine |
| Multas.AtrasadosCuentan | BookSmart/src/main/kotlin/cl/duoc/dsy1105/booksmart/service/CalculadoraMultas.kt:36-53 | the late fines are as many as the late loans |
| Multas.DiasPorMultaEsTotal | BookSmart/src/main/kotlin/cl/duoc/dsy1105/booksmart/service/CalculadoraMultas.kt:36-53 | over well-formed fines, the late days times 100 are the sum of all fines |
| Multas.SimularMulta | BookSmart/src/main/kotlin/cl/duoc/dsy1105/booksmart/service/CalculadoraMultas.kt:67-79 | late exactly when returned after the due date, then with the difference of days and 100 per day; otherwise nothing |
| Multas.SimulacionCoincide | BookSmart/src/main/kotlin/cl/duoc/dsy1105/booksmart/service/CalculadoraMultas.kt:67-79 | simulating a return today gives the loan's computed fine |
| Multas.VerificarRestriccionesPorMultas | BookSmart/src/main/kotlin/cl/duoc/dsy1105/booksmart/service/CalculadoraMultas.kt:84-99 | restricted exactly with three or more late loans, with the message naming their number |
| Multas.FilaRanking | BookSmart/src/main/kotlin/cl/duoc/dsy1105/booksmart/service/CalculadoraMultas.kt:104-112 | a user's row holds the sum of the fines and the number of late loans |
| Multas.FilasRanking | BookSmart/src/main/kotlin/cl/duoc/dsy1105/booksmart/service/CalculadoraMultas.kt:104-112 | one row per user entry, in order |
| Multas.CalcularRankingMultas | BookSmart/src/main/kotlin/cl/duoc/dsy1105/booksmart/service/CalculadoraMultas.kt:104-114 | every user's row exactly once, with the fines never increasing |
| Multas.GenerarEstadisticasMultas | BookSmart/src/main/kotlin/cl/duoc/dsy1105/booksmart/service/CalculadoraMultas.kt:119-142 | late loans at most all loans, the fines non-negative, and the average per loan at most the average per late loan |
| Multas.MultasSoloDeAtrasados | BookSmart/src/main/kotlin/cl/duoc/dsy1105/booksmart/service/CalculadoraMultas.kt:119-142 | the late loans carry the whole of the fines |
| Catalogo.CumpleBusquedaSignifica | BookSmart/src/main/kotlin/cl/duoc/dsy1105/booksmart/service/CatalogoService.kt:116-145 | a book passes the advanced search exactly when it meets each criterion that was given |
| Catalogo.FisicosConDisponibilidad | BookSmart/src/main/kotlin/cl/duoc/dsy1105/booksmart/service/CatalogoService.kt:84-95 | the entries, read back as books, are exactly the physical books in catalogue order, each with its availability, copies and lendability |
| Catalogo.FisicosCuenta | BookSmart/src/main/kotlin/cl/duoc/dsy1105/booksmart/service/CatalogoService.kt:84-95 | there are as many entries as physical books |
| Catalogo.FisicosCompletos | BookSmart/src/main/kotlin/cl/duoc/dsy1105/booksmart/service/CatalogoService.kt:84-95 | every physical book has its entry |
| Catalogo.DisponibleImplicaPrestable | BookSmart/src/main/kotlin/cl/duoc/dsy1105/booksmart/service/CatalogoService.kt:84-95 | an available entry can be lent; an entry that can be lent and has a loan period is available |
| Catalogo.Digitales | BookSmart/src/main/kotlin/cl/duoc/dsy1105/booksmart/service/CatalogoService.kt:100-111 | exactly the digital books of the catalogue, in order and as often as they occur: as books they are the filter of the digital ones |
| Catalogo.MotivoFisicoEnCatalogoInalcanzable | BookSmart/src/main/kotlin/cl/duoc/dsy1105/booksmart/service/CatalogoService.kt:174-204 | an available book never reaches the physical-book refusal reasons |
| Catalogo.Candidatos | BookSmart/src/main/kotlin/cl/duoc/dsy1105/booksmart/service/CatalogoService.kt:209-217 | exactly the other available books that share the category or the author, in catalogue order |
| Catalogo.OrdenarLibros | BookSmart/src/main/kotlin/cl/duoc/dsy1105/booksmart/service/CatalogoService.kt:157-169 | a permutation of the catalogue in the chosen order; by availability, the available books first |
| Catalogo.DisponiblesPrimero | BookSmart/src/main/kotlin/cl/duoc/dsy1105/booksmart/service/CatalogoService.kt:167 | the available books followed by the unavailable ones are in availability order |
| Catalogo.CatalogoService.constructor | BookSmart/src/main/kotlin/cl/duoc/dsy1105/booksmart/service/CatalogoService.kt:13 | the service reads the given repository |
| Catalogo.CatalogoService.ObtenerCatalogo | BookSmart/src/main/kotlin/cl/duoc/dsy1105/booksmart/service/CatalogoService.kt:18-20 | the whole catalogue |
| Catalogo.CatalogoService.ObtenerLibrosDisponibles | BookSmart/src/main/kotlin/cl/duoc/dsy1105/booksmart/service/CatalogoService.kt:25-27 | the repository's available books |
| Catalogo.CatalogoService.BuscarLibrosPorTitulo | BookSmart/src/main/kotlin/cl/duoc/dsy1105/booksmart/service/CatalogoService.kt:32-35 | fails exactly on a blank title; otherwise the title search on the trimmed text |
| Catalogo.CatalogoService.BuscarLibrosPorAutor | BookSmart/src/main/kotlin/cl/duoc/dsy1105/booksmart/service/CatalogoService.kt:40-43 | fails exactly on a blank author; otherwise the author search on the trimmed text |
| Catalogo.CatalogoService.FiltrarPorCategoria | BookSmart/src/main/kotlin/cl/duoc/dsy1105/booksmart/service/CatalogoService.kt:48-51 | fails exactly on a blank category; otherwise the category filter on the trimmed text |
| Catalogo.CatalogoService.ObtenerLibro | BookSmart/src/main/kotlin/cl/duoc/dsy1105/booksmart/service/CatalogoService.kt:56-59 | fails exactly on a non-positive id; otherwise the lookup by id |
| Catalogo.CatalogoService.ObtenerCategorias | BookSmart/src/main/kotlin/cl/duoc/dsy1105/booksmart/service/CatalogoService.kt:64-69 | exactly the categories in use, each once, strictly increasing |
| Catalogo.CatalogoService.ObtenerAutores | BookSmart/src/main/kotlin/cl/duoc/dsy1105/booksmart/service/CatalogoService.kt:74-79 | exactly the authors in use, each once, strictly increasing |
| Catalogo.CatalogoService.ObtenerLibrosFisicos | BookSmart/src/main/kotlin/cl/duoc/dsy1105/booksmart/service/CatalogoService.kt:84-95 | one availability entry per physical book, in catalogue order |
| Catalogo.CatalogoService.ObtenerLibrosDigitales | BookSmart/src/main/kotlin/cl/duoc/dsy1105/booksmart/service/CatalogoService.kt:100-111 | one entry per digital book of the repository, in catalogue order (the i-th entry is the i-th digital book), each carrying that book, its availability, its DRM flag and its file size |
| Catalogo.CatalogoService.BuscarLibrosAvanzado | BookSmart/src/main/kotlin/cl/duoc/dsy1105/booksmart/service/CatalogoService.kt:116-145 | a blank title, author or category gives that field's error, in that order; otherwise exactly the books meeting every criterion given, in catalogue order, and with no criterion the whole catalogue |
| Catalogo.CatalogoService.ObtenerEstadisticas | BookSmart/src/main/kotlin/cl/duoc/dsy1105/booksmart/service/CatalogoService.kt:150-152 | the catalogue statistics of the repository |
| Catalogo.CatalogoService.ObtenerLibrosOrdenados | BookSmart/src/main/kotlin/cl/duoc/dsy1105/booksmart/service/CatalogoService.kt:157-169 | a permutation of the catalogue in the chosen order; by availability, the available books first |
| Catalogo.CatalogoService.VerificarDisponibilidad | BookSmart/src/main/kotlin/cl/duoc/dsy1105/booksmart/service/CatalogoService.kt:174-204 | fails exactly on a non-positive id; otherwise available exactly when the book exists and is available, with "Libro no encontrado" for a missing book, and for a found one "Libro disponible para préstamo" or "Libro no disponible para préstamo" as it is available or not |
| Catalogo.CatalogoService.ObtenerRecomendaciones | BookSmart/src/main/kotlin/cl/duoc/dsy1105/booksmart/service/CatalogoService.kt:209-217 | fails on a non-positive id; a missing book has none; a negative limit is an argument error; otherwise at most `limite` related, available, other books |
| Gestor.PrestamosDeLibroPositivo | BookSmart/src/main/kotlin/cl/duoc/dsy1105/booksmart/service/GestorPrestamos.kt:172-174 | a lent book counts at least one loan |
| Gestor.LibrosPrestados | BookSmart/src/main/kotlin/cl/duoc/dsy1105/booksmart/service/GestorPrestamos.kt:172 | the lent books, each once, and every lent book among them |
| Gestor.Agrupar | BookSmart/src/main/kotlin/cl/duoc/dsy1105/booksmart/service/GestorPrestamos.kt:172-174 | `groupBy` then count: one pair per lent book, with its number of loans |
| Gestor.AgruparSinRepetidos | BookSmart/src/main/kotlin/cl/duoc/dsy1105/booksmart/service/GestorPrestamos.kt:172-174 | the groups are all different |
| Gestor.Ordenados | BookSmart/src/main/kotlin/cl/duoc/dsy1105/booksmart/service/GestorPrestamos.kt:172-175 | the groups with their counts never increasing, each book once, every lent book present |
| Gestor.LibrosMasPrestados | BookSmart/src/main/kotlin/cl/duoc/dsy1105/booksmart/service/GestorPrestamos.kt:172-176 | at most five distinct lent books with their true counts, never increasing, and a lent book left out only when the list is full and it has at most the last count |
| Gestor.TopEsTop | BookSmart/src/main/kotlin/cl/duoc/dsy1105/booksmart/service/GestorPrestamos.kt:172-176 | the first five sorted groups form such a top list |
| Gestor.TopOrdenado | BookSmart/src/main/kotlin/cl/duoc/dsy1105/booksmart/service/GestorPrestamos.kt:175-176 | the first five sorted groups are ordered, distinct and correctly counted |
| Gestor.TopCompleto | BookSmart/src/main/kotlin/cl/duoc/dsy1105/booksmart/service/GestorPrestamos.kt:175-176 | a lent book outside the first five comes after five books lent at least as often |
| Gestor.AtrasadosIguales | BookSmart/src/main/kotlin/cl/duoc/dsy1105/booksmart/service/GestorPrestamos.kt:159-190 | the manager's late-loan filter counts the same loans as the fine calculator |
| Gestor.MotivosSignifican | BookSmart/src/main/kotlin/cl/duoc/dsy1105/booksmart/service/GestorPrestamos.kt:213-243 | the reasons are exactly the failing conditions' messages, each once, in the order late returns, fines, loan limit; none exactly when no condition holds |
| Gestor.GestorPrestamos.constructor | BookSmart/src/main/kotlin/cl/duoc/dsy1105/booksmart/service/GestorPrestamos.kt:14-20 | the manager works on the given repository, and loan ids start at 1; over a valid repository of valid books and loans the manager is valid |
| Gestor.GestorPrestamos.MotivoRechazo | BookSmart/src/main/kotlin/cl/duoc/dsy1105/booksmart/service/GestorPrestamos.kt:25-65 | the checks in order, each with its message: a positive id, fewer than three late returns, an existing book, an available book; none exactly when all pass |
| Gestor.GestorPrestamos.CrearPrestamo | BookSmart/src/main/kotlin/cl/duoc/dsy1105/booksmart/service/GestorPrestamos.kt:25-65 | the result is `Exito` exactly when no refusal reason applies and `Error` exactly when one does; a refusal gives its reason and changes nothing; a success stores a fresh pending loan under the next id, takes one copy of a physical book, and no other book's copies change |
| Gestor.GestorPrestamos.Reservar | BookSmart/src/main/kotlin/cl/duoc/dsy1105/booksmart/service/GestorPrestamos.kt:39-58 | for an available book and a user who may borrow: a fresh valid loan under the next id, stored, with one copy of a physical book taken |
| Gestor.GestorPrestamos.Guardar | BookSmart/src/main/kotlin/cl/duoc/dsy1105/booksmart/service/GestorPrestamos.kt:45-53 | stores the loan and takes one copy of its physical book, keeping the manager valid |
| Gestor.GestorPrestamos.ProcesarPrestamo | BookSmart/src/main/kotlin/cl/duoc/dsy1105/booksmart/service/GestorPrestamos.kt:70-87 | the loan goes on loan with its days left, and the result is success |
| Gestor.GestorPrestamos.BuscarPrestamo | BookSmart/src/main/kotlin/cl/duoc/dsy1105/booksmart/service/GestorPrestamos.kt:94-96 | none exactly when no loan has the id; otherwise the first stored loan with it |
| Gestor.GestorPrestamos.PrestamoAbierto | BookSmart/src/main/kotlin/cl/duoc/dsy1105/booksmart/service/GestorPrestamos.kt:94-100 | the found loan, exactly when it is not already returned |
| Gestor.GestorPrestamos.DevolverLibro | BookSmart/src/main/kotlin/cl/duoc/dsy1105/booksmart/service/GestorPrestamos.kt:92-114 | a missing loan and a returned loan get their messages; any other loan is returned on day `hoy` with its copy and late count updated and its cost with the fine |
| Gestor.GestorPrestamos.Cerrar | BookSmart/src/main/kotlin/cl/duoc/dsy1105/booksmart/service/GestorPrestamos.kt:102-109 | the stored loan is returned on day `hoy`, with its copy and late count updated, keeping the manager valid |
| Gestor.GestorPrestamos.ObtenerPrestamosUsuario | BookSmart/src/main/kotlin/cl/duoc/dsy1105/booksmart/service/GestorPrestamos.kt:119-122 | fails exactly on a non-positive id; otherwise exactly the user's loans, in order |
| Gestor.GestorPrestamos.ObtenerPrestamosActivos | BookSmart/src/main/kotlin/cl/duoc/dsy1105/booksmart/service/GestorPrestamos.kt:127-130 | fails exactly on a non-positive id; otherwise exactly the user's active loans, as a subsequence of the store in its order |
| Gestor.GestorPrestamos.ObtenerPrestamosAtrasados | BookSmart/src/main/kotlin/cl/duoc/dsy1105/booksmart/service/GestorPrestamos.kt:135-138 | fails exactly on a non-positive id; otherwise exactly the user's loans that are late on day `hoy`, as a subsequence of the store in its order |
| Gestor.GestorPrestamos.CalcularCostoTotalUsuario | BookSmart/src/main/kotlin/cl/duoc/dsy1105/booksmart/service/GestorPrestamos.kt:143-154 | fails exactly on a non-positive id; otherwise the total is the loans' cost plus their non-negative fines, and the late loans number at most the loans |
| Gestor.GestorPrestamos.GenerarReportePrestamos | BookSmart/src/main/kotlin/cl/duoc/dsy1105/booksmart/service/GestorPrestamos.kt:159-190 | the report's counts (active plus returned at most all, late at most all), income, non-negative fines, top books and fine statistics |
| Gestor.GestorPrestamos.SimularCostoPrestamo | BookSmart/src/main/kotlin/cl/duoc/dsy1105/booksmart/service/GestorPrestamos.kt:195-208 | none exactly for a missing book; otherwise its price, the user's discount within the price, and the loan period |
| Gestor.GestorPrestamos.PuedeRealizarPrestamo | BookSmart/src/main/kotlin/cl/duoc/dsy1105/booksmart/service/GestorPrestamos.kt:213-243 | fails exactly on a non-positive user id; otherwise allowed exactly when no reason applies, and the reasons are exactly the messages of the failing conditions (late returns, overdue loans, five active loans), each once and in that order |
| Gestor.GestorPrestamos.ObtenerEstadisticasPrestamos | BookSmart/src/main/kotlin/cl/duoc/dsy1105/booksmart/service/GestorPrestamos.kt:248-250 | the repository's loan statistics on day `hoy` |

## Left out

- The seed data (`inicializarCatalogo`, `inicializarUsuarios`) is not modelled: it is fixed sample content, not behaviour. The repository starts empty.
- The console user interface is not part of this model: `MenuHandler`, `OutputHandler`, `FormatUtils` and the entry point. Neither are the presentation helpers `toString`, `resumenPrestamo` and `formatearFecha`.
- `suspend` functions and their `delay` calls are modelled as ordinary calls, because the waiting does not change any state.
- Every `LocalDate.now()` becomes the parameter `hoy`, a whole day number. Calendar arithmetic is day arithmetic.
- Doubles are not modelled. Rates are whole percentages. The digital file size is a `real` that is only compared with 0. The overdue percentage of the fine statistics is omitted. The size in the digital description is passed in as already formatted text.
- Kotlin `Int` overflow is not modelled: integers are unbounded. The exception is the 32-bit range check of `String.toInt()`.
- Case folding and blank detection are ASCII only: `A`–`Z` are lowered, and blanks are space, tab, newline, vertical tab, form feed, carriage return and the four information separators U+001C to U+001F.
- Texto.ParseEntero: accepts only the ASCII digits `0`–`9`. `String.toInt()` also accepts every other Unicode decimal digit, such as Arabic-Indic or full-width digits, so such a text is refused by the model but parsed by Kotlin.
- Catalogo.CatalogoService.ObtenerLibrosOrdenados: ties are not shown to keep their input order. `sortedBy` is stable, but the model proves only the order of the keys and the permutation.
- Multas.CalcularRankingMultas: keeps its rows in order of fines, but stability among equal fines is not stated, for the same reason.
- Gestor.LibrosMasPrestados: groups books by value equality. Kotlin's `groupBy` uses `equals`, which for these non-data classes is identity, and the datatype `Libro` makes a physical book's identity its object; so the two agree except for a plain `Libro` or `LibroDigital` that was added twice under the same id and fields.
- Gestor.LibrosMasPrestados: does not fix which book is kept among books with equal counts at the cut-off, since it does not state stability.
- `crearPrestamo` has two failure paths that cannot occur in sequential code, and the model leaves both out. One is the constructor's `IllegalArgumentException`, because every constructor check has already passed. The other is a failed copy reservation, because the book was just found available.
- The catch in `procesarPrestamo` is not modelled, because nothing in its body can throw.
- The `catch (e: Exception)` of `devolverLibro`, with its "Error devolviendo libro: …" message, is not modelled: nothing in its body throws, so that branch is dead.
- Catalogo.CatalogoService.ObtenerRecomendaciones: takes `limite` as a mandatory argument. The Kotlin default `limite = 5` is a call-site convenience, so a caller omitting it corresponds to `ObtenerRecomendaciones(libroId, 5)`.
- Gestor.GestorPrestamos.DevolverLibro: says that other loans and books are left unchanged only through its `modifies` frame, not through an explicit `ensures`.
- The `catch (e: PrestamoException)` branch of `crearPrestamo` is not modelled: nothing in the core throws a `PrestamoException`, so an error result never carries a code.
- Concurrency is not modelled. The Kotlin lists are plain mutable lists without locking, and the model treats every call as atomic.
