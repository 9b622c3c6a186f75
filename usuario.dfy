/** A library user: fixed identity and credentials, a category, and a late-return
    counter that loans update in place. */
module Usuarios {
  import opened Base
  import opened Texto
  import opened Tipos

  /** The email check of the `init` block: an '@' and a '.' somewhere. */
  predicate EmailConArrobaYPunto(email: string) {
    '@' in email && '.' in email
  }

  /** The `init` checks of a user, in their order, each with the message its
      IllegalArgumentException carries. */
  function ChequearUsuario(nombre: string, email: string, contrasena: string, cantidadAtrasos: int): (c: Chequeo)
    ensures c == Aprobado <==>
      !EsBlanco(nombre) && !EsBlanco(email) && !EsBlanco(contrasena) &&
      cantidadAtrasos >= 0 && EmailConArrobaYPunto(email)
    ensures c.Rechazado? ==> c.falla.Argumento?
  {
    if EsBlanco(nombre) then Rechazado(Argumento("El nombre no puede estar vacío"))
    else if EsBlanco(email) then Rechazado(Argumento("El email no puede estar vacío"))
    else if EsBlanco(contrasena) then Rechazado(Argumento("La contraseña no puede estar vacía"))
    else if cantidadAtrasos < 0 then Rechazado(Argumento("La cantidad de atrasos no puede ser negativa"))
    else if !EmailConArrobaYPunto(email) then Rechazado(Argumento("El formato del email no es válido: " + email))
    else Aprobado
  }

  /** The two operations that change the late-return counter. */
  datatype OperacionAtraso = Registrar | Reiniciar

  function PasoAtrasos(n: int, op: OperacionAtraso): int {
    match op
    case Registrar => n + 1
    case Reiniciar => 0
  }

  function AtrasosTras(n: int, ops: seq<OperacionAtraso>): int
    decreases |ops|
  {
    if ops == [] then n else AtrasosTras(PasoAtrasos(n, ops[0]), ops[1..])
  }

  /** Starting from a valid count, no sequence of operations makes it negative. */
  lemma {:induction false} AtrasosNoNegativos(n: int, ops: seq<OperacionAtraso>)
    requires n >= 0
    ensures AtrasosTras(n, ops) >= 0
    decreases |ops|
  {
    if ops != [] {
      AtrasosNoNegativos(PasoAtrasos(n, ops[0]), ops[1..]);
    }
  }

  /** A user may borrow exactly while fewer than three late returns have been recorded
      since the counter was last reset. */
  lemma PuedeSegunAtrasosDesdeReinicio(u: Usuario, n: int, antes: seq<OperacionAtraso>, despues: seq<OperacionAtraso>)
    requires Reiniciar !in despues
    requires u.cantidadAtrasos == AtrasosTras(n, antes + [Reiniciar] + despues)
    ensures u.PuedeRealizarPrestamos() <==> |despues| < 3
  {
    AtrasosTrasReinicio(n, antes, despues);
  }

  /** After the last reset the counter equals the number of late returns recorded
      since, whatever came before it. */
  lemma {:induction false} AtrasosTrasReinicio(n: int, antes: seq<OperacionAtraso>, despues: seq<OperacionAtraso>)
    requires Reiniciar !in despues
    ensures AtrasosTras(n, antes + [Reiniciar] + despues) == |despues|
    decreases |antes|
  {
    var ops := antes + [Reiniciar] + despues;
    if antes == [] {
      assert ops[0] == Reiniciar && ops[1..] == despues;
      RegistrosSuman(0, despues);
    } else {
      assert ops[1..] == antes[1..] + [Reiniciar] + despues;
      AtrasosTrasReinicio(PasoAtrasos(n, antes[0]), antes[1..], despues);
    }
  }

  lemma {:induction false} RegistrosSuman(n: int, ops: seq<OperacionAtraso>)
    requires Reiniciar !in ops
    ensures AtrasosTras(n, ops) == n + |ops|
    decreases |ops|
  {
    if ops != [] {
      assert ops[0] == Registrar;
      RegistrosSuman(n + 1, ops[1..]);
    }
  }

  class Usuario {
    const id: int
    const nombre: string
    const email: string
    const contrasena: string
    const tipoUsuario: TipoUsuario
    var cantidadAtrasos: int

    /** What the `init` block guarantees, and the counter methods keep. */
    ghost predicate Valid()
      reads this
    {
      ChequearUsuario(nombre, email, contrasena, cantidadAtrasos) == Aprobado
    }

    /** A user whose `init` checks pass. `tipo == None` is the default argument, which
        derives the category from the email. */
    constructor(id: int, nombre: string, email: string, contrasena: string,
                cantidadAtrasos: int, tipo: Option<TipoUsuario>)
      requires ChequearUsuario(nombre, email, contrasena, cantidadAtrasos) == Aprobado
      ensures this.id == id && this.nombre == nombre && this.email == email
      ensures this.contrasena == contrasena && this.cantidadAtrasos == cantidadAtrasos
      ensures tipoUsuario == if tipo.Some? then tipo.value else DeterminarTipoUsuario(email)
      ensures Valid()
    {
      this.id := id;
      this.nombre := nombre;
      this.email := email;
      this.contrasena := contrasena;
      this.cantidadAtrasos := cantidadAtrasos;
      this.tipoUsuario := if tipo.Some? then tipo.value else DeterminarTipoUsuario(email);
    }

    /** The Kotlin constructor call: the user, or the IllegalArgumentException of the
        first failed check. */
    static method Crear(id: int, nombre: string, email: string, contrasena: string,
                        cantidadAtrasos: int, tipo: Option<TipoUsuario>)
      returns (r: Resultado<Usuario>)
      ensures var c := ChequearUsuario(nombre, email, contrasena, cantidadAtrasos);
        (c.Rechazado? ==> r == Err(c.falla)) && (c == Aprobado ==> r.Ok?)
      ensures r.Ok? ==> fresh(r.valor) && r.valor.Valid()
      ensures r.Ok? ==> r.valor.id == id && r.valor.nombre == nombre && r.valor.email == email
      ensures r.Ok? ==> r.valor.contrasena == contrasena && r.valor.cantidadAtrasos == cantidadAtrasos
      ensures r.Ok? ==> r.valor.tipoUsuario == if tipo.Some? then tipo.value else DeterminarTipoUsuario(email)
    {
      var c := ChequearUsuario(nombre, email, contrasena, cantidadAtrasos);
      if c.Rechazado? {
        return Err(c.falla);
      }
      var u := new Usuario(id, nombre, email, contrasena, cantidadAtrasos, tipo);
      return Ok(u);
    }

    /** Fewer than three late returns. */
    predicate PuedeRealizarPrestamos()
      reads this
    {
      cantidadAtrasos < 3
    }

    method RegistrarAtraso()
      requires Valid()
      modifies this
      ensures cantidadAtrasos == PasoAtrasos(old(cantidadAtrasos), Registrar)
      ensures Valid()
    {
      cantidadAtrasos := cantidadAtrasos + 1;
    }

    method ReiniciarAtrasos()
      requires Valid()
      modifies this
      ensures cantidadAtrasos == PasoAtrasos(old(cantidadAtrasos), Reiniciar)
      ensures Valid()
    {
      cantidadAtrasos := 0;
    }

    predicate VerificarCredenciales(email: string, contrasena: string) {
      this.email == email && this.contrasena == contrasena
    }

    /** The category's discount: the percentage of the price, truncated, and never more
        than a non-negative price. */
    function CalcularDescuento(precioBase: int): (d: int)
      ensures precioBase >= 0 ==> d * 100 <= precioBase * tipoUsuario.Porcentaje() < d * 100 + 100
      ensures precioBase >= 0 ==> 0 <= d <= precioBase
    {
      assert precioBase >= 0 ==> 0 <= tipoUsuario.CalcularDescuento(precioBase) <= precioBase by {
        if precioBase >= 0 { DescuentoAcotado(tipoUsuario, precioBase); }
      }
      tipoUsuario.CalcularDescuento(precioBase)
    }

    /** The price after the discount: with the discount it makes up the price. */
    function AplicarDescuento(precioBase: int): (f: int)
      ensures CalcularDescuento(precioBase) + f == precioBase
      ensures precioBase >= 0 ==> 0 <= f <= precioBase
    {
      DescuentoMasPrecioFinal(tipoUsuario, precioBase);
      assert precioBase >= 0 ==> 0 <= tipoUsuario.AplicarDescuento(precioBase) <= precioBase by {
        if precioBase >= 0 { DescuentoAcotado(tipoUsuario, precioBase); }
      }
      tipoUsuario.AplicarDescuento(precioBase)
    }
  }
}
