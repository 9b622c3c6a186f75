/** The life cycle of a loan. */
module Estados {
  import opened Texto

  /** Requested, lent out (with the days left when it was processed), returned, or failed. */
  datatype EstadoPrestamo =
    | Pendiente
    | EnPrestamo(diasRestantes: int)
    | Devuelto
    | Error(mensaje: string)
  {
    function Descripcion(): string {
      match this
      case Pendiente => "Préstamo pendiente de procesamiento"
      case EnPrestamo(d) => "En préstamo - " + IntATexto(d) + " días restantes"
      case Devuelto => "Libro devuelto"
      case Error(m) => "Error: " + m
    }

    /** A loan still open: requested or lent out. */
    predicate EsActivo() {
      Pendiente? || EnPrestamo?
    }
  }

  /** The description tells every state apart, the days left and the error message
      included. */
  lemma DescripcionInyectiva(a: EstadoPrestamo, b: EstadoPrestamo)
    requires a.Descripcion() == b.Descripcion()
    ensures a == b
  {
    var da := a.Descripcion();
    var db := b.Descripcion();
    Cabecera(a);
    Cabecera(b);
    if a.EnPrestamo? && b.EnPrestamo? {
      var p := "En préstamo - ";
      var ta := IntATexto(a.diasRestantes);
      var tb := IntATexto(b.diasRestantes);
      assert |ta| == |tb|;
      assert ta == da[|p|..|p| + |ta|];
      assert tb == db[|p|..|p| + |tb|];
      IntATextoInyectiva(a.diasRestantes, b.diasRestantes);
    } else if a.Error? && b.Error? {
      assert a.mensaje == da[7..];
      assert b.mensaje == db[7..];
    }
  }

  /** The first two characters of a description name the state. */
  lemma Cabecera(e: EstadoPrestamo)
    ensures |e.Descripcion()| >= 2
    ensures e.Descripcion()[..2] ==
      match e
      case Pendiente => "Pr"
      case EnPrestamo(_) => "En"
      case Devuelto => "Li"
      case Error(_) => "Er"
  {
  }

  /** Exactly the open states are the ones that are neither returned nor failed. */
  lemma ActivoSiNoCerrado(e: EstadoPrestamo)
    ensures e.EsActivo() <==> !(e == Devuelto || e.Error?)
  {
  }
}
