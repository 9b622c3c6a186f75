/** Failure-carrying values that stand in for the exceptions of the BookSmart core,
    plus the Kotlin integer operators the core relies on. */
module Base {

  datatype Option<+T> = None | Some(value: T)

  /** The two exceptions the core throws on bad input: ValidacionException, thrown by
      the validators, and IllegalArgumentException, thrown by a failed `require` in a
      constructor's `init` block. Each carries its message. */
  datatype Falla =
    | Validacion(mensaje: string)
    | Argumento(mensaje: string)

  /** A guard that either returns a value or throws. */
  datatype Resultado<+T> = Ok(valor: T) | Err(falla: Falla)

  /** A guard with no value: the checks of a constructor's `init` block. */
  datatype Chequeo = Aprobado | Rechazado(falla: Falla)

  /** Kotlin's `Int` division, which truncates toward zero (Dafny's `/` is Euclidean). */
  function DivTrunc(a: int, b: int): (q: int)
    requires b > 0
    ensures a >= 0 ==> 0 <= q && q * b <= a < q * b + b
    ensures a < 0 ==> -q * b <= -a < -q * b + b
  {
    if a >= 0 then CocienteEuclideo(a, b); a / b
    else CocienteEuclideo(-a, b); -((-a) / b)
  }

  lemma CocienteEuclideo(a: int, b: int)
    requires a >= 0 && b > 0
    ensures 0 <= a / b && (a / b) * b <= a < (a / b) * b + b
  {
    var q, m := a / b, a % b;
    assert a == q * b + m;
  }

  /** `if (n > 0) t / n else 0`: the integer average the core computes over a list
      that may be empty. */
  function Promedio(t: int, n: int): (q: int)
    ensures n <= 0 ==> q == 0
    ensures n > 0 && t >= 0 ==> 0 <= q && q * n <= t < q * n + n
  {
    if n > 0 then DivTrunc(t, n) else 0
  }

  /** Sharing a non-negative total among more parts gives no more to each. */
  lemma PromedioMenorDivisor(t: int, k: int, n: int)
    requires t >= 0 && 0 < k <= n
    ensures Promedio(t, n) <= Promedio(t, k)
  {
    var q := Promedio(t, n);
    var p := Promedio(t, k);
    MultiplicarMonotono(q, k, n);
    assert q * k <= t < (p + 1) * k;
    CancelarFactor(q, p + 1, k);
  }

  lemma MultiplicarMonotono(a: int, b: int, c: int)
    requires a >= 0 && b <= c
    ensures a * b <= a * c
  {
    assert a * c - a * b == a * (c - b);
  }

  lemma CancelarFactor(a: int, b: int, k: int)
    requires k > 0 && a * k < b * k
    ensures a < b
  {
    if a >= b {
      MultiplicarMonotono(k, b, a);
    }
  }

  function Max(a: int, b: int): int { if a >= b then a else b }

  /** Kotlin's `Math.abs` on an `Int`, without the overflow at the smallest value. */
  function Abs(a: int): (r: int)
    ensures r >= 0 && (r == a || r == -a)
  {
    if a < 0 then -a else a
  }
}
