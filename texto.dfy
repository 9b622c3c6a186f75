/** The parts of Kotlin's string library the BookSmart core calls: `isBlank`, `trim`,
    `lowercase`, `endsWith`, `contains`/`equals` with `ignoreCase = true`, integer
    interpolation and `String.toInt()`, modelled on ASCII; and `length` and the
    comparison of `compareTo`, modelled on UTF-16 code units as Kotlin strings hold them. */
module Texto {
  import opened Base

  /** Whitespace for `isBlank` and `trim`: space, tab, line feed, vertical tab, form feed,
      carriage return and the four information separators U+001C..U+001F. */
  predicate EsEspacio(c: char) {
    c == ' ' || ('\t' <= c <= '\r') || ('\U{1C}' <= c <= '\U{1F}')
  }

  /** Kotlin's `isBlank()`: empty or whitespace only. */
  predicate EsBlanco(s: string) {
    forall i :: 0 <= i < |s| ==> EsEspacio(s[i])
  }

  /** Positions `i` up to `j` of `s` hold whitespace. */
  predicate BlancoEntre(s: string, i: int, j: int) {
    0 <= i <= j <= |s| && forall k :: i <= k < j ==> EsEspacio(s[k])
  }

  /** Where the text starts once the leading whitespace is skipped, scanning from `i`. */
  function InicioDesde(s: string, i: nat): (a: nat)
    requires i <= |s| && BlancoEntre(s, 0, i)
    ensures i <= a <= |s| && BlancoEntre(s, 0, a)
    ensures a < |s| ==> !EsEspacio(s[a])
    decreases |s| - i
  {
    if i < |s| && EsEspacio(s[i]) then InicioDesde(s, i + 1) else i
  }

  /** Where the text ends once the trailing whitespace after `a` is dropped, scanning
      back from `j`. */
  function FinDesde(s: string, a: nat, j: nat): (b: nat)
    requires a <= j <= |s| && BlancoEntre(s, j, |s|)
    ensures a <= b <= j && BlancoEntre(s, b, |s|)
    ensures a < b ==> !EsEspacio(s[b - 1])
  {
    if a < j && EsEspacio(s[j - 1]) then FinDesde(s, a, j - 1) else j
  }

  /** The number of leading whitespace characters. */
  function InicioTexto(s: string): nat {
    InicioDesde(s, 0)
  }

  /** Kotlin's `trim()`: what lies between the leading and the trailing whitespace,
      which is an infix of the text with only whitespace on either side of it. */
  function Recortar(s: string): (r: string)
    ensures var a := InicioTexto(s);
      a + |r| <= |s| && r == s[a..a + |r|] && BlancoEntre(s, 0, a) && BlancoEntre(s, a + |r|, |s|)
  {
    var a := InicioTexto(s);
    s[a..FinDesde(s, a, |s|)]
  }

  lemma BlancoConcat(a: string, b: string)
    requires EsBlanco(a) && EsBlanco(b)
    ensures EsBlanco(a + b)
  {
    forall k | 0 <= k < |a + b| ensures EsEspacio((a + b)[k]) {
      if k < |a| { assert (a + b)[k] == a[k]; } else { assert (a + b)[k] == b[k - |a|]; }
    }
  }

  /** The result of `trim()` is empty exactly when the text is blank. */
  lemma RecortarVacio(s: string)
    ensures Recortar(s) == [] <==> EsBlanco(s)
  {
  }

  /** A non-empty result of `trim()` neither starts nor ends with whitespace. */
  lemma RecortarBordes(s: string)
    ensures var r := Recortar(s); r != [] ==> !EsEspacio(r[0]) && !EsEspacio(r[|r| - 1])
  {
    var a := InicioTexto(s);
    var b := FinDesde(s, a, |s|);
    var r := Recortar(s);
    if r != [] {
      assert r[0] == s[a];
      assert r[|r| - 1] == s[b - 1];
    }
  }

  function MinusculaChar(c: char): char {
    if 'A' <= c <= 'Z' then (c as int - 'A' as int + 'a' as int) as char else c
  }

  /** Kotlin's `lowercase()` on ASCII letters. */
  function Minusculas(s: string): (r: string)
    ensures |r| == |s|
    ensures forall i :: 0 <= i < |s| ==> r[i] == MinusculaChar(s[i])
  {
    if s == [] then [] else [MinusculaChar(s[0])] + Minusculas(s[1..])
  }

  /** Kotlin's `endsWith`. */
  predicate TerminaCon(s: string, sufijo: string) {
    |sufijo| <= |s| && s[|s| - |sufijo|..] == sufijo
  }

  /** Kotlin's `equals(otra, ignoreCase = true)`. */
  predicate IgualesSinMayusculas(a: string, b: string) {
    Minusculas(a) == Minusculas(b)
  }

  /** Kotlin's `contains(parte, ignoreCase = true)`: some infix of `s` equals `parte`
      up to case; the empty string is contained everywhere. */
  predicate ContieneSinMayusculas(s: string, parte: string) {
    exists i :: 0 <= i <= |s| - |parte| && CoincideEn(s, parte, i)
  }

  /** `parte` occurs in `s` at position `i`, up to case. */
  predicate CoincideEn(s: string, parte: string, i: int) {
    0 <= i <= |s| - |parte| && IgualesSinMayusculas(s[i..i + |parte|], parte)
  }

  predicate EsDigito(c: char) { '0' <= c <= '9' }

  predicate SoloDigitos(s: string) {
    forall i :: 0 <= i < |s| ==> EsDigito(s[i])
  }

  function Digito(d: int): (c: char)
    requires 0 <= d < 10
    ensures EsDigito(c) && c as int - '0' as int == d
  {
    ('0' as int + d) as char
  }

  /** Decimal text of a natural number, as string interpolation writes it. */
  function NatATexto(n: nat): (s: string)
    ensures |s| >= 1 && SoloDigitos(s)
  {
    if n < 10 then [Digito(n)] else NatATexto(n / 10) + [Digito(n % 10)]
  }

  /** Decimal text of an integer, with a leading '-' when it is negative. */
  function IntATexto(n: int): string {
    if n < 0 then "-" + NatATexto(-n) else NatATexto(n)
  }

  /** The number a string of decimal digits denotes. */
  function ValorDigitos(s: string): nat
    requires SoloDigitos(s)
  {
    if s == [] then 0 else ValorDigitos(s[..|s| - 1]) * 10 + (s[|s| - 1] as int - '0' as int)
  }

  lemma {:induction false} ValorDeNatATexto(n: nat)
    ensures ValorDigitos(NatATexto(n)) == n
  {
    if n >= 10 {
      var s := NatATexto(n);
      assert s[..|s| - 1] == NatATexto(n / 10);
      ValorDeNatATexto(n / 10);
    }
  }

  /** The text of an integer starts with '-' exactly when the integer is negative. */
  lemma SignoDelTexto(n: int)
    ensures |IntATexto(n)| >= 1
    ensures IntATexto(n)[0] == '-' <==> n < 0
  {
    if n >= 0 {
      assert EsDigito(NatATexto(n)[0]);
    }
  }

  lemma NatATextoInyectiva(a: nat, b: nat)
    requires NatATexto(a) == NatATexto(b)
    ensures a == b
  {
    ValorDeNatATexto(a);
    ValorDeNatATexto(b);
  }

  /** Different integers are written differently. */
  lemma IntATextoInyectiva(a: int, b: int)
    requires IntATexto(a) == IntATexto(b)
    ensures a == b
  {
    var t := IntATexto(a);
    if a < 0 && b < 0 {
      assert NatATexto(-a) == t[1..] == NatATexto(-b);
      NatATextoInyectiva(-a, -b);
    } else if a >= 0 && b >= 0 {
      NatATextoInyectiva(a, b);
    } else {
      SignoDelTexto(a);
      SignoDelTexto(b);
    }
  }

  const MinInt: int := -0x8000_0000
  const MaxInt: int := 0x7fff_ffff

  /** Kotlin's `String.toInt()`: an optional '+' or '-', at least one decimal digit and a
      value inside the 32-bit range; `None` where Kotlin throws NumberFormatException. */
  function ParseEntero(s: string): (r: Option<int>)
    ensures r.Some? ==> MinInt <= r.value <= MaxInt
    ensures s == [] ==> r == None
  {
    if s == [] then None
    else
      var cuerpo := if s[0] == '-' || s[0] == '+' then s[1..] else s;
      if cuerpo == [] || !SoloDigitos(cuerpo) then None
      else
        var m: int := ValorDigitos(cuerpo);
        var v := if s[0] == '-' then -m else m;
        if MinInt <= v <= MaxInt then Some(v) else None
  }

  /** Interpolating an `Int` and reading it back with `toInt()` gives the number again. */
  lemma {:induction false} ParseDeIntATexto(n: int)
    requires MinInt <= n <= MaxInt
    ensures ParseEntero(IntATexto(n)) == Some(n)
  {
    var t := IntATexto(n);
    if n < 0 {
      var d := NatATexto(-n);
      ValorDeNatATexto(-n);
      assert t == "-" + d;
      assert t[0] == '-' && t[1..] == d;
    } else {
      var d := NatATexto(n);
      ValorDeNatATexto(n);
      assert t == d && EsDigito(d[0]);
    }
  }

  // ------------------------------------------------------------------ UTF-16

  /** The UTF-16 code units of a character, the units a Kotlin `String` holds: the
      character itself in the Basic Multilingual Plane, a surrogate pair above it. */
  function UnidadesUtf16(c: char): (u: seq<int>)
    ensures |u| == (if c as int <= 0xFFFF then 1 else 2)
    ensures forall i :: 0 <= i < |u| ==> 0 <= u[i] <= 0xFFFF
    ensures |u| == 2 <==> 0xD800 <= u[0] < 0xDC00
  {
    var n := c as int;
    if n <= 0xFFFF then [n]
    else [0xD800 + (n - 0x10000) / 0x400, 0xDC00 + (n - 0x10000) % 0x400]
  }

  /** The UTF-16 encoding of a text. */
  function Utf16(s: string): seq<int> {
    if s == [] then [] else UnidadesUtf16(s[0]) + Utf16(s[1..])
  }

  /** Kotlin's `String.length`: the number of UTF-16 code units, which counts a character
      above U+FFFF twice. */
  function LongitudUtf16(s: string): (n: nat)
    ensures n == |Utf16(s)|
    ensures |s| <= n <= 2 * |s|
    ensures (forall i :: 0 <= i < |s| ==> s[i] as int <= 0xFFFF) <==> n == |s|
  {
    if s == [] then 0
    else
      var resto := LongitudUtf16(s[1..]);
      assert forall i :: 1 <= i < |s| ==> s[i] == s[1..][i - 1];
      |UnidadesUtf16(s[0])| + resto
  }

  /** Three characters outside the Basic Multilingual Plane make a text of length 6. */
  lemma LongitudTresEmoji()
    ensures LongitudUtf16("\U{1F600}\U{1F600}\U{1F600}") == 6
  {
    var s := "\U{1F600}\U{1F600}\U{1F600}";
    assert s[1..][1..][1..] == [];
  }

  /** A key on characters whose order is the order of their UTF-16 encodings: the
      characters below U+D800 first, then those above U+FFFF (their high surrogate lies
      in U+D800..U+DBFF), then U+E000..U+FFFF. */
  function ClaveUtf16(c: char): int {
    var n := c as int;
    if n < 0xD800 then n
    else if n <= 0xFFFF then n + 0x110000
    else 0xD800 + (n - 0x10000)
  }

  /** `x` is at most `y` in the lexicographic order of code-unit sequences, a proper prefix
      first: the order of Java's `String.compareTo`. */
  predicate MenorIgualUnidades(x: seq<int>, y: seq<int>) {
    if x == [] then true
    else if y == [] then false
    else if x[0] != y[0] then x[0] < y[0]
    else MenorIgualUnidades(x[1..], y[1..])
  }

  /** Two different characters compare by their keys as their encodings compare, whatever
      follows them. */
  lemma ClaveUtf16Orden(a: char, b: char, x: seq<int>, y: seq<int>)
    requires a != b
    ensures ClaveUtf16(a) != ClaveUtf16(b)
    ensures MenorIgualUnidades(UnidadesUtf16(a) + x, UnidadesUtf16(b) + y) <==> ClaveUtf16(a) < ClaveUtf16(b)
  {
    var ua, ub := UnidadesUtf16(a), UnidadesUtf16(b);
    var na, nb := a as int, b as int;
    if na > 0xFFFF && nb > 0xFFFF && ua[0] == ub[0] {
      assert ua[1] != ub[1];
      assert (ua + x)[1..] == [ua[1]] + x;
      assert (ub + y)[1..] == [ub[1]] + y;
    }
  }

  /** Dropping a common prefix does not change the comparison. */
  lemma {:induction false} MenorIgualUnidadesPrefijo(p: seq<int>, x: seq<int>, y: seq<int>)
    ensures MenorIgualUnidades(p + x, p + y) <==> MenorIgualUnidades(x, y)
  {
    if p != [] {
      assert (p + x)[0] == p[0] == (p + y)[0];
      assert (p + x)[1..] == p[1..] + x;
      assert (p + y)[1..] == p[1..] + y;
      MenorIgualUnidadesPrefijo(p[1..], x, y);
    } else {
      assert p + x == x && p + y == y;
    }
  }
}
