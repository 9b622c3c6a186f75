/** The collection operations of the Kotlin standard library that the BookSmart core
    uses on lists: `filter`, `count`, `sumOf`, `map`, `distinct`, and the stable sorts
    `sortedBy`/`sortedByDescending`/`sorted`. */
module Secuencias {
  import opened Base
  import Texto

  /** `sub` keeps some of the elements of `s`, in their original order. */
  predicate EsSubsecuencia<T(==)>(sub: seq<T>, s: seq<T>)
  {
    if s == [] then sub == []
    else (sub != [] && sub[0] == s[0] && EsSubsecuencia(sub[1..], s[1..])) || EsSubsecuencia(sub, s[1..])
  }

  lemma {:induction false} SubsecuenciaReflexiva<T>(s: seq<T>)
    ensures EsSubsecuencia(s, s)
  {
    if s != [] {
      SubsecuenciaReflexiva(s[1..]);
    }
  }

  /** A subsequence of a subsequence is a subsequence. */
  lemma {:induction false} SubsecuenciaTransitiva<T>(a: seq<T>, b: seq<T>, c: seq<T>)
    requires EsSubsecuencia(a, b) && EsSubsecuencia(b, c)
    ensures EsSubsecuencia(a, c)
  {
    if c == [] {
    } else if b != [] && b[0] == c[0] && EsSubsecuencia(b[1..], c[1..]) {
      if a != [] && a[0] == b[0] && EsSubsecuencia(a[1..], b[1..]) {
        SubsecuenciaTransitiva(a[1..], b[1..], c[1..]);
      } else {
        SubsecuenciaTransitiva(a, b[1..], c[1..]);
      }
    } else {
      SubsecuenciaTransitiva(a, b, c[1..]);
    }
  }

  /** Every element of a subsequence comes from the sequence. */
  lemma {:induction false} SubsecuenciaContenida<T>(sub: seq<T>, s: seq<T>)
    requires EsSubsecuencia(sub, s)
    ensures |sub| <= |s|
    ensures forall i :: 0 <= i < |sub| ==> sub[i] in s
  {
    if s != [] {
      if sub != [] && sub[0] == s[0] && EsSubsecuencia(sub[1..], s[1..]) {
        SubsecuenciaContenida(sub[1..], s[1..]);
        forall i | 1 <= i < |sub| ensures sub[i] in s {
          assert sub[i] == sub[1..][i - 1];
        }
      } else {
        SubsecuenciaContenida(sub, s[1..]);
      }
    }
  }

  /** Kotlin's `filter`. */
  function Filtrar<T(==)>(s: seq<T>, p: T -> bool): (r: seq<T>)
    ensures |r| <= |s|
    ensures forall i :: 0 <= i < |r| ==> r[i] in s && p(r[i])
    ensures forall i :: 0 <= i < |s| && p(s[i]) ==> s[i] in r
    ensures EsSubsecuencia(r, s)
  {
    if s == [] then []
    else
      var resto := Filtrar(s[1..], p);
      assert forall i :: 1 <= i < |s| ==> s[i] == s[1..][i - 1];
      if p(s[0]) then [s[0]] + resto else resto
  }

  /** Filtering keeps every passing element as many times as it occurs, and no other. */
  lemma {:induction false} FiltrarCuenta<T>(s: seq<T>, p: T -> bool, x: T)
    ensures multiset(Filtrar(s, p))[x] == if p(x) then multiset(s)[x] else 0
  {
    if s != [] {
      FiltrarCuenta(s[1..], p, x);
      MultisetCabeza(s);
      var cabeza := if p(s[0]) then [s[0]] else [];
      assert Filtrar(s, p) == cabeza + Filtrar(s[1..], p);
      assert multiset(Filtrar(s, p)) == multiset(cabeza) + multiset(Filtrar(s[1..], p));
    }
  }

  /** A non-empty sequence's multiset splits into its head and its tail's. */
  lemma MultisetCabeza<T>(s: seq<T>)
    requires s != []
    ensures multiset(s) == multiset{s[0]} + multiset(s[1..])
  {
    assert s == [s[0]] + s[1..];
  }

  /** Filtering twice keeps exactly what passes both tests, in the original order. */
  lemma {:induction false} FiltrarDosVeces<T>(s: seq<T>, p: T -> bool, q: T -> bool)
    ensures Filtrar(Filtrar(s, p), q) == Filtrar(s, x => p(x) && q(x))
  {
    if s != [] {
      FiltrarDosVeces(s[1..], p, q);
      if p(s[0]) {
        assert Filtrar(s, p) == [s[0]] + Filtrar(s[1..], p);
        assert Filtrar(s, p)[1..] == Filtrar(s[1..], p);
      }
    }
  }

  /** Filtering with a test every element passes changes nothing. */
  lemma {:induction false} FiltrarTodos<T>(s: seq<T>, p: T -> bool)
    requires forall i :: 0 <= i < |s| ==> p(s[i])
    ensures Filtrar(s, p) == s
  {
    if s != [] {
      FiltrarTodos(s[1..], p);
    }
  }

  /** Filtering drops something exactly when some element fails the test. */
  lemma {:induction false} FiltrarQuita<T>(s: seq<T>, p: T -> bool)
    ensures |Filtrar(s, p)| < |s| <==> exists i :: 0 <= i < |s| && !p(s[i])
  {
    if s != [] {
      FiltrarQuita(s[1..], p);
      assert forall i :: 1 <= i < |s| ==> s[i] == s[1..][i - 1];
      assert p(s[0]) && (exists i :: 0 <= i < |s| && !p(s[i])) ==>
        exists k :: 0 <= k < |s[1..]| && !p(s[1..][k]);
    }
  }

  /** Kotlin's `any { p }`. */
  predicate Alguno<T>(s: seq<T>, p: T -> bool) {
    exists i :: 0 <= i < |s| && p(s[i])
  }

  /** Kotlin's `find { p }`: the first element that passes the test. */
  function BuscarPrimero<T>(s: seq<T>, p: T -> bool): (r: Option<T>)
    ensures r.None? <==> !Alguno(s, p)
    ensures r.Some? ==> exists i :: 0 <= i < |s| && s[i] == r.value && p(s[i]) &&
                                    forall j :: 0 <= j < i ==> !p(s[j])
  {
    if s == [] then None
    else if p(s[0]) then Some(s[0])
    else
      var r := BuscarPrimero(s[1..], p);
      assert forall i :: 1 <= i < |s| ==> s[i] == s[1..][i - 1];
      assert r.Some? ==> exists i :: 0 <= i < |s[1..]| && s[1..][i] == r.value && p(s[1..][i]) &&
                                     forall j :: 0 <= j < i ==> !p(s[1..][j]);
      r
  }

  /** Kotlin's `count { p }`. */
  function Contar<T(==)>(s: seq<T>, p: T -> bool): (n: nat)
    ensures n <= |s|
  {
    |Filtrar(s, p)|
  }

  /** Kotlin's `sumOf { f }`. */
  function Sumar<T>(s: seq<T>, f: T -> int): int
  {
    if s == [] then 0 else f(s[0]) + Sumar(s[1..], f)
  }

  /** A sum of non-negative terms is non-negative. */
  lemma {:induction false} SumarNoNegativa<T>(s: seq<T>, f: T -> int)
    requires forall i :: 0 <= i < |s| ==> f(s[i]) >= 0
    ensures Sumar(s, f) >= 0
  {
    if s != [] {
      SumarNoNegativa(s[1..], f);
    }
  }

  /** The sum of a termwise sum is the sum of both sums. */
  lemma {:induction false} SumarLineal<T>(s: seq<T>, f: T -> int, g: T -> int, h: T -> int)
    requires forall i :: 0 <= i < |s| ==> h(s[i]) == f(s[i]) + g(s[i])
    ensures Sumar(s, h) == Sumar(s, f) + Sumar(s, g)
  {
    if s != [] {
      SumarLineal(s[1..], f, g, h);
    }
  }

  /** Summing the images of a map is summing the composed function. */
  lemma {:induction false} SumarMapear<S, T>(s: seq<S>, m: S -> T, f: T -> int, g: S -> int)
    requires forall i :: 0 <= i < |s| ==> g(s[i]) == f(m(s[i]))
    ensures Sumar(Mapear(s, m), f) == Sumar(s, g)
  {
    if s != [] {
      assert Mapear(s, m)[1..] == Mapear(s[1..], m);
      SumarMapear(s[1..], m, f, g);
    }
  }

  /** Kotlin's `map`. */
  function Mapear<S, T>(s: seq<S>, f: S -> T): (r: seq<T>)
    ensures |r| == |s|
    ensures forall i :: 0 <= i < |s| ==> r[i] == f(s[i])
  {
    if s == [] then [] else [f(s[0])] + Mapear(s[1..], f)
  }

  predicate SinRepetidos<T(==)>(s: seq<T>) {
    forall i, j :: 0 <= i < j < |s| ==> s[i] != s[j]
  }

  /** Kotlin's `distinct`: the first occurrence of every element, in order. */
  function Distintos<T(==)>(s: seq<T>): (r: seq<T>)
    ensures forall i :: 0 <= i < |r| ==> r[i] in s
    ensures forall i :: 0 <= i < |s| ==> s[i] in r
    ensures SinRepetidos(r)
  {
    if s == [] then []
    else
      var previos := s[..|s| - 1];
      var d := Distintos(previos);
      assert forall i :: 0 <= i < |s| - 1 ==> s[i] == previos[i];
      if s[|s| - 1] in d then d else d + [s[|s| - 1]]
  }

  predicate Ordenada<T>(s: seq<T>, leq: (T, T) -> bool) {
    forall i, j :: 0 <= i < j < |s| ==> leq(s[i], s[j])
  }

  /** Puts `x` before the first element it does not follow, keeping the order of
      equal elements. */
  function Insertar<T>(x: T, s: seq<T>, leq: (T, T) -> bool): (r: seq<T>)
    ensures multiset(r) == multiset(s) + multiset{x}
  {
    if s == [] then [x]
    else if leq(x, s[0]) then [x] + s
    else
      assert s == [s[0]] + s[1..];
      [s[0]] + Insertar(x, s[1..], leq)
  }

  /** A stable sort, as Kotlin's `sortedWith`: the result is a permutation of the input. */
  function Ordenar<T>(s: seq<T>, leq: (T, T) -> bool): (r: seq<T>)
    ensures multiset(r) == multiset(s)
    ensures |r| == |s|
  {
    if s == [] then []
    else
      assert s == [s[0]] + s[1..];
      var r := Insertar(s[0], Ordenar(s[1..], leq), leq);
      assert |r| == |multiset(r)|;
      r
  }

  /** `a` comes before every element of `s`. */
  predicate Cota<T>(a: T, s: seq<T>, leq: (T, T) -> bool) {
    forall j :: 0 <= j < |s| ==> leq(a, s[j])
  }

  lemma {:induction false} InsertarCota<T>(a: T, x: T, s: seq<T>, leq: (T, T) -> bool)
    requires Cota(a, s, leq) && leq(a, x)
    ensures Cota(a, Insertar(x, s, leq), leq)
  {
    if s == [] || leq(x, s[0]) {
      var r := [x] + s;
      forall j | 0 <= j < |r| ensures leq(a, r[j]) {
        if j > 0 {
          assert r[j] == s[j - 1];
        }
      }
    } else {
      var t := Insertar(x, s[1..], leq);
      InsertarCota(a, x, s[1..], leq);
      var r := [s[0]] + t;
      forall j | 0 <= j < |r| ensures leq(a, r[j]) {
        if j > 0 {
          assert r[j] == t[j - 1];
        }
      }
    }
  }

  lemma {:induction false} InsertarOrdena<T>(x: T, s: seq<T>, leq: (T, T) -> bool)
    requires forall a, b :: leq(a, b) || leq(b, a)
    requires forall a, b, c :: leq(a, b) && leq(b, c) ==> leq(a, c)
    requires Ordenada(s, leq)
    ensures Ordenada(Insertar(x, s, leq), leq)
  {
    if s == [] {
    } else if leq(x, s[0]) {
      var r := [x] + s;
      forall i, j | 0 <= i < j < |r| ensures leq(r[i], r[j]) {
        assert r[j] == s[j - 1];
        if i == 0 {
          if j > 1 {
            assert leq(s[0], s[j - 1]);
          }
        } else {
          assert r[i] == s[i - 1];
        }
      }
    } else {
      var t := Insertar(x, s[1..], leq);
      InsertarOrdena(x, s[1..], leq);
      assert Cota(s[0], s[1..], leq) by {
        forall j | 0 <= j < |s[1..]| ensures leq(s[0], s[1..][j]) {
          assert s[1..][j] == s[j + 1];
        }
      }
      InsertarCota(s[0], x, s[1..], leq);
      var r := [s[0]] + t;
      forall i, j | 0 <= i < j < |r| ensures leq(r[i], r[j]) {
        if i > 0 {
          assert r[i] == t[i - 1] && r[j] == t[j - 1];
        }
      }
    }
  }

  /** With a total preorder, such as a Kotlin comparator, the sort returns the elements
      in order. */
  lemma {:induction false} OrdenarOrdena<T>(s: seq<T>, leq: (T, T) -> bool)
    requires forall a, b :: leq(a, b) || leq(b, a)
    requires forall a, b, c :: leq(a, b) && leq(b, c) ==> leq(a, c)
    ensures Ordenada(Ordenar(s, leq), leq)
  {
    if s != [] {
      OrdenarOrdena(s[1..], leq);
      InsertarOrdena(s[0], Ordenar(s[1..], leq), leq);
    }
  }

  lemma RepetidoCuentaDos<T>(b: seq<T>, i: int, j: int)
    requires 0 <= i < j < |b|
    ensures b[i] == b[j] ==> multiset(b)[b[i]] >= 2
  {
    assert b == b[..i] + [b[i]] + b[i + 1..];
    assert b[i + 1..] == b[i + 1..j] + [b[j]] + b[j + 1..];
  }

  /** A permutation holds every element of the sequence it permutes. */
  lemma PermutacionContiene<T>(a: seq<T>, b: seq<T>)
    requires multiset(a) == multiset(b)
    ensures forall i :: 0 <= i < |a| ==> a[i] in b
  {
    forall i | 0 <= i < |a| ensures a[i] in b {
      assert a[i] in multiset(a);
    }
  }

  /** A permutation of a sequence without repetitions has none either. */
  lemma PermutacionSinRepetidos<T>(a: seq<T>, b: seq<T>)
    requires multiset(a) == multiset(b) && SinRepetidos(a)
    ensures SinRepetidos(b)
  {
    forall x | x in multiset(a) ensures multiset(a)[x] == 1 {
      var i :| 0 <= i < |a| && a[i] == x;
      assert a == a[..i] + [a[i]] + a[i + 1..];
      assert x !in a[..i];
      assert x !in a[i + 1..];
    }
    forall i, j | 0 <= i < j < |b| ensures b[i] != b[j] {
      RepetidoCuentaDos(b, i, j);
    }
  }

  /** Kotlin's `String.compareTo` as "at most": characters compared from the left by the
      order of their UTF-16 encodings, and a proper prefix first. */
  predicate MenorIgualLex(a: string, b: string) {
    if a == [] then true
    else if b == [] then false
    else if a[0] != b[0] then Texto.ClaveUtf16(a[0]) < Texto.ClaveUtf16(b[0])
    else MenorIgualLex(a[1..], b[1..])
  }

  /** The comparison is the lexicographic order of the texts' UTF-16 code units, which is
      what `compareTo` compares. */
  lemma {:induction false} MenorIgualLexEsUtf16(a: string, b: string)
    ensures MenorIgualLex(a, b) <==> Texto.MenorIgualUnidades(Texto.Utf16(a), Texto.Utf16(b))
  {
    if a != [] && b != [] {
      if a[0] != b[0] {
        Texto.ClaveUtf16Orden(a[0], b[0], Texto.Utf16(a[1..]), Texto.Utf16(b[1..]));
      } else {
        Texto.MenorIgualUnidadesPrefijo(Texto.UnidadesUtf16(a[0]), Texto.Utf16(a[1..]), Texto.Utf16(b[1..]));
        MenorIgualLexEsUtf16(a[1..], b[1..]);
      }
    }
  }

  lemma {:induction false} MenorIgualLexTotal(a: string, b: string)
    ensures MenorIgualLex(a, b) || MenorIgualLex(b, a)
  {
    if a != [] && b != [] && a[0] == b[0] {
      MenorIgualLexTotal(a[1..], b[1..]);
    } else if a != [] && b != [] {
      Texto.ClaveUtf16Orden(a[0], b[0], [], []);
    }
  }

  lemma {:induction false} MenorIgualLexTransitiva(a: string, b: string, c: string)
    requires MenorIgualLex(a, b) && MenorIgualLex(b, c)
    ensures MenorIgualLex(a, c)
  {
    if a != [] && b != [] && c != [] && a[0] == b[0] && b[0] == c[0] {
      MenorIgualLexTransitiva(a[1..], b[1..], c[1..]);
    }
  }

  lemma {:induction false} MenorIgualLexAntisimetrica(a: string, b: string)
    requires MenorIgualLex(a, b) && MenorIgualLex(b, a)
    ensures a == b
  {
    if a != [] && b != [] {
      MenorIgualLexAntisimetrica(a[1..], b[1..]);
      assert a == [a[0]] + a[1..];
      assert b == [b[0]] + b[1..];
    }
  }

  lemma MenorIgualLexPreorden()
    ensures forall a, b :: MenorIgualLex(a, b) || MenorIgualLex(b, a)
    ensures forall a, b, c :: MenorIgualLex(a, b) && MenorIgualLex(b, c) ==> MenorIgualLex(a, c)
  {
    forall a, b ensures MenorIgualLex(a, b) || MenorIgualLex(b, a) {
      MenorIgualLexTotal(a, b);
    }
    forall a, b, c | MenorIgualLex(a, b) && MenorIgualLex(b, c) ensures MenorIgualLex(a, c) {
      MenorIgualLexTransitiva(a, b, c);
    }
  }

  /** Kotlin's `sorted()` on strings, applied after `distinct()`: the values present,
      each once, in ascending order. */
  function OrdenarSinRepetir(s: seq<string>): (r: seq<string>)
    ensures forall x :: x in r <==> x in s
    ensures SinRepetidos(r)
    ensures forall i, j :: 0 <= i < j < |r| ==> MenorIgualLex(r[i], r[j]) && r[i] != r[j]
  {
    var d := Distintos(s);
    var r := Ordenar(d, MenorIgualLex);
    MenorIgualLexPreorden();
    OrdenarOrdena(d, MenorIgualLex);
    PermutacionSinRepetidos(d, r);
    assert forall x :: x in r <==> x in multiset(d);
    r
  }

  /** `sortedBy` on a string key: a permutation with the keys in ascending order. */
  function OrdenarPorTexto<T>(s: seq<T>, clave: T -> string): (r: seq<T>)
    ensures multiset(r) == multiset(s)
    ensures forall i, j :: 0 <= i < j < |r| ==> MenorIgualLex(clave(r[i]), clave(r[j]))
  {
    var leq := (a: T, b: T) => MenorIgualLex(clave(a), clave(b));
    MenorIgualLexPreorden();
    OrdenarOrdena(s, leq);
    Ordenar(s, leq)
  }

  /** `sortedBy` (or `sortedByDescending` when `ascendente` is false) on an integer key. */
  function OrdenarPorEntero<T>(s: seq<T>, clave: T -> int, ascendente: bool): (r: seq<T>)
    ensures multiset(r) == multiset(s)
    ensures ascendente ==> forall i, j :: 0 <= i < j < |r| ==> clave(r[i]) <= clave(r[j])
    ensures !ascendente ==> forall i, j :: 0 <= i < j < |r| ==> clave(r[i]) >= clave(r[j])
  {
    var leq := (a: T, b: T) => if ascendente then clave(a) <= clave(b) else clave(a) >= clave(b);
    OrdenarOrdena(s, leq);
    Ordenar(s, leq)
  }

  /** Kotlin's `take(n)` for `n >= 0`: the first `n` elements, or all when fewer. */
  function Tomar<T>(s: seq<T>, n: nat): (r: seq<T>)
    ensures |r| == if n <= |s| then n else |s|
    ensures r == s[..|r|]
  {
    if n <= |s| then s[..n] else s
  }
}
