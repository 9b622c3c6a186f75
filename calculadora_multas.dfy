/** The fine calculator: days late and fine of a loan, per-user totals, a what-if
    simulation, the restriction check, the ranking of users by fines and the system-wide
    statistics. The day `hoy` stands for the clock reading of the Kotlin code. */
module Multas {
  import opened Base
  import opened Texto
  import opened Secuencias
  import opened Constantes
  import opened Usuarios
  import opened Prestamos

  datatype MultaCalculada = MultaCalculada(
    prestamo: Prestamo,
    diasAtraso: int,
    montoMulta: int,
    costoOriginal: int,
    costoTotalConMulta: int,
    estaAtrasado: bool)

  datatype MultasUsuarioCalculadas = MultasUsuarioCalculadas(
    multasIndividuales: seq<MultaCalculada>,
    prestamosAtrasados: seq<MultaCalculada>,
    totalMultas: int,
    totalDiasAtraso: int,
    costoOriginal: int,
    costoTotalConMultas: int,
    cantidadPrestamosAtrasados: int)

  datatype SimulacionMulta = SimulacionMulta(
    fechaLimite: int,
    fechaDevolucion: int,
    diasAtraso: int,
    montoMulta: int,
    estaAtrasado: bool)

  datatype RestriccionesMulta = RestriccionesMulta(
    usuario: Usuario,
    tieneRestricciones: bool,
    multasAcumuladas: MultasUsuarioCalculadas,
    motivo: string)

  datatype RankingMultaUsuario = RankingMultaUsuario(
    usuario: Usuario,
    totalMultas: int,
    cantidadAtrasados: int,
    totalDiasAtraso: int)

  /** The integer statistics; the percentage, a double, is left out. */
  datatype EstadisticasMultas = EstadisticasMultas(
    totalPrestamos: int,
    prestamosAtrasados: int,
    totalMultas: int,
    promedioMultaPorPrestamo: int,
    promedioMultaPorAtrasado: int)

  /** Whole days from the due date to `hoy`, never negative. */
  function CalcularDiasAtraso(fechaLimite: int, hoy: int): (d: int)
    ensures d >= 0
    ensures d > 0 <==> hoy > fechaLimite
    ensures d > 0 ==> d == hoy - fechaLimite
  {
    Max(0, hoy - fechaLimite)
  }

  /** A loan is late exactly when it has a day of delay, and its delay is the negated
      number of days it has left. */
  lemma AtrasoSegunDias(p: Prestamo, hoy: int)
    ensures p.EstaAtrasado(hoy) <==> CalcularDiasAtraso(p.fechaLimiteDevolucion, hoy) > 0
    ensures CalcularDiasAtraso(p.fechaLimiteDevolucion, hoy) == Max(0, -p.DiasRestantes(hoy))
  {
  }

  /** A well-formed fine: a hundred per day late, added to the price, and late exactly
      when some day is. */
  predicate MultaCoherente(m: MultaCalculada) {
    m.diasAtraso >= 0 &&
    m.montoMulta == m.diasAtraso * MultaPorDiaAtraso &&
    m.costoTotalConMulta == m.costoOriginal + m.montoMulta &&
    (m.estaAtrasado <==> m.diasAtraso > 0)
  }

  /** The fine of one loan on day `hoy`. It agrees with the loan's own fine. */
  function CalcularMulta(p: Prestamo, hoy: int): (m: MultaCalculada)
    ensures MultaCoherente(m)
    ensures m.prestamo == p && m.costoOriginal == p.costoTotal
    ensures m.montoMulta == p.CalcularMulta(hoy)
    ensures m.costoTotalConMulta == p.CostoTotalConMulta(hoy)
    ensures m.estaAtrasado == p.EstaAtrasado(hoy)
  {
    var dias := CalcularDiasAtraso(p.fechaLimiteDevolucion, hoy);
    var monto := if dias > 0 then dias * MultaPorDiaAtraso else 0;
    MultaCalculada(p, dias, monto, p.costoTotal, p.costoTotal + monto, dias > 0)
  }

  function Multas(ps: seq<Prestamo>, hoy: int): (ms: seq<MultaCalculada>)
    ensures |ms| == |ps|
    ensures forall i :: 0 <= i < |ps| ==> ms[i] == CalcularMulta(ps[i], hoy)
  {
    Mapear(ps, (p: Prestamo) => CalcularMulta(p, hoy))
  }

  /** The fines of a user's loans: the individual fines, the late ones, and the totals. */
  function CalcularMultasUsuario(ps: seq<Prestamo>, hoy: int): (r: MultasUsuarioCalculadas)
    ensures r.multasIndividuales == Multas(ps, hoy)
    ensures r.totalMultas == SumarMultas(ps, hoy) && r.totalMultas >= 0
    ensures r.costoOriginal == SumarCostos(ps)
    ensures r.costoTotalConMultas == r.costoOriginal + r.totalMultas
    ensures r.costoTotalConMultas == SumarCostosConMulta(ps, hoy)
    ensures r.cantidadPrestamosAtrasados == |r.prestamosAtrasados| == ContarAtrasados(ps, hoy)
    ensures r.cantidadPrestamosAtrasados <= |ps|
    ensures r.totalDiasAtraso * MultaPorDiaAtraso == r.totalMultas
    ensures forall i :: 0 <= i < |r.prestamosAtrasados| ==>
      r.prestamosAtrasados[i].estaAtrasado && r.prestamosAtrasados[i] in r.multasIndividuales
    ensures r.prestamosAtrasados == Filtrar(r.multasIndividuales, (m: MultaCalculada) => m.estaAtrasado)
  {
    var ms := Multas(ps, hoy);
    var atrasados := Filtrar(ms, (m: MultaCalculada) => m.estaAtrasado);
    var totalMultas := Sumar(ms, (m: MultaCalculada) => m.montoMulta);
    var totalDias := Sumar(atrasados, (m: MultaCalculada) => m.diasAtraso);
    var costoOriginal := Sumar(ps, (p: Prestamo) => p.costoTotal);
    SumarMapear(ps, (p: Prestamo) => CalcularMulta(p, hoy), (m: MultaCalculada) => m.montoMulta,
                (p: Prestamo) => p.CalcularMulta(hoy));
    CostosConMultaSuman(ps, hoy);
    AtrasadosCuentan(ps, hoy);
    DiasPorMultaEsTotal(ms);
    MultasUsuarioCalculadas(ms, atrasados, totalMultas, totalDias, costoOriginal,
                            costoOriginal + totalMultas, |atrasados|)
  }

  /** Counting the late fines is counting the late loans. */
  lemma {:induction false} AtrasadosCuentan(ps: seq<Prestamo>, hoy: int)
    ensures |Filtrar(Multas(ps, hoy), (m: MultaCalculada) => m.estaAtrasado)| == ContarAtrasados(ps, hoy)
  {
    if ps != [] {
      AtrasadosCuentan(ps[1..], hoy);
      assert Multas(ps, hoy)[1..] == Multas(ps[1..], hoy);
    }
  }

  /** The loans late on day `hoy`. */
  function ContarAtrasados(ps: seq<Prestamo>, hoy: int): nat {
    Contar(ps, (p: Prestamo) => p.EstaAtrasado(hoy))
  }

  /** Over well-formed fines, the days of the late ones times the daily fine is the sum
      of all the fines. */
  lemma {:induction false} DiasPorMultaEsTotal(ms: seq<MultaCalculada>)
    requires forall i :: 0 <= i < |ms| ==> MultaCoherente(ms[i])
    ensures Sumar(Filtrar(ms, (m: MultaCalculada) => m.estaAtrasado), (m: MultaCalculada) => m.diasAtraso)
              * MultaPorDiaAtraso ==
            Sumar(ms, (m: MultaCalculada) => m.montoMulta)
  {
    if ms != [] {
      DiasPorMultaEsTotal(ms[1..]);
    }
  }

  /** The fine a return on `fechaDevolucion` would carry. */
  function SimularMulta(fechaLimite: int, fechaDevolucion: int): (s: SimulacionMulta)
    ensures s.fechaLimite == fechaLimite && s.fechaDevolucion == fechaDevolucion
    ensures s.diasAtraso >= 0 && s.montoMulta == s.diasAtraso * MultaPorDiaAtraso
    ensures s.estaAtrasado <==> fechaDevolucion > fechaLimite
    ensures s.estaAtrasado ==> s.diasAtraso == fechaDevolucion - fechaLimite
    ensures !s.estaAtrasado ==> s.diasAtraso == 0 && s.montoMulta == 0
  {
    var dias := fechaDevolucion - fechaLimite;
    var positivos := Max(0, dias);
    SimulacionMulta(fechaLimite, fechaDevolucion, positivos, positivos * MultaPorDiaAtraso, dias > 0)
  }

  /** Simulating a return today on a loan's due date gives that loan's fine. */
  lemma SimulacionCoincide(p: Prestamo, hoy: int)
    ensures SimularMulta(p.fechaLimiteDevolucion, hoy).montoMulta == CalcularMulta(p, hoy).montoMulta
    ensures SimularMulta(p.fechaLimiteDevolucion, hoy).diasAtraso == CalcularMulta(p, hoy).diasAtraso
    ensures SimularMulta(p.fechaLimiteDevolucion, hoy).estaAtrasado == CalcularMulta(p, hoy).estaAtrasado
  {
  }

  /** Restricted once the user has as many late loans as allowed late returns. */
  function VerificarRestriccionesPorMultas(usuario: Usuario, ps: seq<Prestamo>, hoy: int): (r: RestriccionesMulta)
    ensures r.usuario == usuario && r.multasAcumuladas == CalcularMultasUsuario(ps, hoy)
    ensures r.tieneRestricciones <==> ContarAtrasados(ps, hoy) >= MaxAtrasosPermitidos
    ensures !r.tieneRestricciones ==> r.motivo == "Usuario sin restricciones"
    ensures r.tieneRestricciones ==>
      r.motivo == "Usuario con " + IntATexto(ContarAtrasados(ps, hoy)) + " préstamos atrasados. " +
                  "Máximo permitido: 3"
  {
    var m := CalcularMultasUsuario(ps, hoy);
    var tiene := m.cantidadPrestamosAtrasados >= MaxAtrasosPermitidos;
    RestriccionesMulta(usuario, tiene, m,
      if tiene then "Usuario con " + IntATexto(m.cantidadPrestamosAtrasados) + " préstamos atrasados. " +
                    "Máximo permitido: " + IntATexto(MaxAtrasosPermitidos)
      else "Usuario sin restricciones")
  }

  /** The ranking row of one user. */
  function FilaRanking(entrada: (Usuario, seq<Prestamo>), hoy: int): (f: RankingMultaUsuario)
    ensures f.usuario == entrada.0
    ensures f.totalMultas == SumarMultas(entrada.1, hoy)
    ensures f.cantidadAtrasados == ContarAtrasados(entrada.1, hoy)
    ensures f.totalDiasAtraso * MultaPorDiaAtraso == f.totalMultas
  {
    var m := CalcularMultasUsuario(entrada.1, hoy);
    RankingMultaUsuario(entrada.0, m.totalMultas, m.cantidadPrestamosAtrasados, m.totalDiasAtraso)
  }

  function FilasRanking(entradas: seq<(Usuario, seq<Prestamo>)>, hoy: int): (fs: seq<RankingMultaUsuario>)
    ensures |fs| == |entradas|
    ensures forall i :: 0 <= i < |entradas| ==> fs[i] == FilaRanking(entradas[i], hoy)
  {
    Mapear(entradas, (e: (Usuario, seq<Prestamo>)) => FilaRanking(e, hoy))
  }

  predicate MasMultas(a: RankingMultaUsuario, b: RankingMultaUsuario) {
    a.totalMultas >= b.totalMultas
  }

  /** `sortedByDescending { totalMultas }` over one row per map entry: the rows of all
      users, each once, with the fines never increasing. */
  function CalcularRankingMultas(entradas: seq<(Usuario, seq<Prestamo>)>, hoy: int): (r: seq<RankingMultaUsuario>)
    ensures |r| == |entradas|
    ensures multiset(r) == multiset(FilasRanking(entradas, hoy))
    ensures forall i :: 0 <= i < |entradas| ==> FilaRanking(entradas[i], hoy) in r
    ensures forall i, j :: 0 <= i < j < |r| ==> r[i].totalMultas >= r[j].totalMultas
  {
    var filas := FilasRanking(entradas, hoy);
    var r := Ordenar(filas, MasMultas);
    OrdenarOrdena(filas, MasMultas);
    PermutacionContiene(filas, r);
    r
  }

  /** The fine statistics of all loans on day `hoy`, with Kotlin's integer averages. */
  function GenerarEstadisticasMultas(ps: seq<Prestamo>, hoy: int): (e: EstadisticasMultas)
    ensures e.totalPrestamos == |ps|
    ensures e.prestamosAtrasados == ContarAtrasados(ps, hoy) <= e.totalPrestamos
    ensures e.totalMultas == SumarMultas(ps, hoy) && e.totalMultas >= 0
    ensures e.promedioMultaPorPrestamo == Promedio(e.totalMultas, e.totalPrestamos)
    ensures e.promedioMultaPorAtrasado == Promedio(e.totalMultas, e.prestamosAtrasados)
    ensures 0 <= e.promedioMultaPorPrestamo <= e.promedioMultaPorAtrasado
  {
    var ms := Multas(ps, hoy);
    var atrasados := Filtrar(ms, (m: MultaCalculada) => m.estaAtrasado);
    var total := Sumar(ms, (m: MultaCalculada) => m.montoMulta);
    var totalAtrasados := Sumar(atrasados, (m: MultaCalculada) => m.montoMulta);
    SumarMapear(ps, (p: Prestamo) => CalcularMulta(p, hoy), (m: MultaCalculada) => m.montoMulta,
                (p: Prestamo) => p.CalcularMulta(hoy));
    CostosConMultaSuman(ps, hoy);
    AtrasadosCuentan(ps, hoy);
    MultasSoloDeAtrasados(ms);
    assert |atrasados| > 0 ==> Promedio(total, |ps|) <= Promedio(totalAtrasados, |atrasados|) by {
      if |atrasados| > 0 {
        PromedioMenorDivisor(total, |atrasados|, |ps|);
      }
    }
    EstadisticasMultas(|ps|, |atrasados|, total, Promedio(total, |ps|), Promedio(totalAtrasados, |atrasados|))
  }

  /** Loans that are not late carry no fine, so the late ones hold the whole total. */
  lemma {:induction false} MultasSoloDeAtrasados(ms: seq<MultaCalculada>)
    requires forall i :: 0 <= i < |ms| ==> MultaCoherente(ms[i])
    ensures Sumar(Filtrar(ms, (m: MultaCalculada) => m.estaAtrasado), (m: MultaCalculada) => m.montoMulta) ==
            Sumar(ms, (m: MultaCalculada) => m.montoMulta)
  {
    if ms != [] {
      MultasSoloDeAtrasados(ms[1..]);
    }
  }
}
