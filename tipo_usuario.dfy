/** User categories, the discount rate of each, and how a category is read off an email. */
module Tipos {
  import opened Base
  import opened Texto

  const DominioEstudiante: string := "@duocuc.cl"
  const DominioDocente: string := "@duoc.cl"
  const EmailAdmin: string := "admin@booksmart.com"

  /** The four user categories. The Kotlin rates are the doubles 0.10, 0.15, 0.0 and
      0.0; here each is a whole percentage. */
  datatype TipoUsuario = Estudiante | Docente | Externo | Admin
  {
    function Porcentaje(): (pct: int)
      ensures 0 <= pct <= 100
    {
      match this
      case Estudiante => 10
      case Docente => 15
      case Externo => 0
      case Admin => 0
    }

    function Descripcion(): string {
      match this
      case Estudiante => "Estudiante DUOC UC"
      case Docente => "Docente DUOC UC"
      case Externo => "Usuario Externo"
      case Admin => "Administrador del Sistema"
    }

    /** `(precioBase * descuento).toInt()`: the rate applied to the price, with the
        fraction cut off toward zero. */
    function CalcularDescuento(precioBase: int): (d: int)
      ensures precioBase >= 0 ==> d * 100 <= precioBase * Porcentaje() < d * 100 + 100
      ensures precioBase < 0 ==> -d * 100 <= -precioBase * Porcentaje() < -d * 100 + 100
    {
      DivTrunc(precioBase * Porcentaje(), 100)
    }

    /** The price once the discount is taken off. */
    function AplicarDescuento(precioBase: int): int {
      precioBase - CalcularDescuento(precioBase)
    }
  }

  /** The discount and the discounted price always add up to the price. */
  lemma DescuentoMasPrecioFinal(t: TipoUsuario, p: int)
    ensures t.CalcularDescuento(p) + t.AplicarDescuento(p) == p
  {
  }

  /** For a non-negative price the discount lies between zero and the price, so the final
      price does too; externals and administrators pay full price. */
  lemma DescuentoAcotado(t: TipoUsuario, p: int)
    requires p >= 0
    ensures 0 <= t.CalcularDescuento(p) <= p
    ensures 0 <= t.AplicarDescuento(p) <= p
    ensures (t == Externo || t == Admin) ==> t.CalcularDescuento(p) == 0 && t.AplicarDescuento(p) == p
  {
    var d := t.CalcularDescuento(p);
    assert d * 100 <= p * t.Porcentaje() <= p * 100;
    assert p * t.Porcentaje() >= 0;
  }

  /** A student pays 11691 for a 12990 book, saving 1299. */
  lemma EjemploEstudiante()
    ensures Estudiante.CalcularDescuento(12990) == 1299
    ensures Estudiante.AplicarDescuento(12990) == 11691
  {
  }

  /** Kotlin's `determinarTipoUsuario`: the student domain is tried first, then the staff
      domain, then the administrator address. */
  function DeterminarTipoUsuario(email: string): TipoUsuario {
    if TerminaCon(email, DominioEstudiante) then Estudiante
    else if TerminaCon(email, DominioDocente) then Docente
    else if email == EmailAdmin then Admin
    else Externo
  }

  /** No email ends with both institutional domains, and the administrator address ends
      with neither. */
  lemma DominiosExcluyentes(email: string)
    ensures !(TerminaCon(email, DominioEstudiante) && TerminaCon(email, DominioDocente))
    ensures !TerminaCon(EmailAdmin, DominioEstudiante) && !TerminaCon(EmailAdmin, DominioDocente)
  {
    if |email| >= 10 {
      assert TerminaCon(email, DominioEstudiante) ==> email[|email| - 8] == DominioEstudiante[2];
      assert TerminaCon(email, DominioDocente) ==> email[|email| - 8] == DominioDocente[0];
    }
    assert EmailAdmin[|EmailAdmin| - 10..] != DominioEstudiante by {
      assert EmailAdmin[|EmailAdmin| - 10] != DominioEstudiante[0];
    }
    assert EmailAdmin[|EmailAdmin| - 8..] != DominioDocente by {
      assert EmailAdmin[|EmailAdmin| - 8] != DominioDocente[0];
    }
  }

  /** Each category is characterised by the email alone, whatever order the checks are in:
      a student email ends with "@duocuc.cl", a staff email with "@duoc.cl", the only
      administrator is "admin@booksmart.com", and everyone else is external. */
  lemma {:induction false} ClasificacionPorEmail(email: string)
    ensures DeterminarTipoUsuario(email) == Estudiante <==> TerminaCon(email, DominioEstudiante)
    ensures DeterminarTipoUsuario(email) == Docente <==> TerminaCon(email, DominioDocente)
    ensures DeterminarTipoUsuario(email) == Admin <==> email == EmailAdmin
    ensures DeterminarTipoUsuario(email) == Externo <==>
      !TerminaCon(email, DominioEstudiante) && !TerminaCon(email, DominioDocente) && email != EmailAdmin
  {
    DominiosExcluyentes(email);
  }
}
