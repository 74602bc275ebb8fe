/**
 * The board text both loaders read: how one character is classified, and
 * a reference description of the pieces a sequence of lines holds. Row
 * numbers start at 1, one per line; only `_` moves the column, and a piece
 * sits at column 2 plus the count of `_` before it on its line.
 */
module Tablero {
  import opened Piezas

  datatype Option<T> = None | Some(value: T)

  datatype Resultado<T, E> = Ok(valor: T) | Err(error: E)

  /** Lower case for the loaders' colour test, restricted to ASCII. */
  predicate EsMinuscula(c: char)
  {
    'a' <= c <= 'z'
  }

  /** `char::to_ascii_lowercase`. */
  function AMinusculaAscii(c: char): (r: char)
    ensures 'A' <= c <= 'Z' ==> r as int == c as int + 32
    ensures !('A' <= c <= 'Z') ==> r == c
    ensures !('A' <= r <= 'Z')
  {
    if 'A' <= c <= 'Z' then (c as int + 32) as char else c
  }

  /** The colour a piece letter gives: lower case is white. */
  function ColorDe(c: char): (r: Color)
    ensures r == Blanco <==> 'a' <= c <= 'z'
  {
    if EsMinuscula(c) then Blanco else Negro
  }

  /**
   * The kind a letter names, in either case; None for any other character.
   * `TipoDeMinuscula` is the same table read after lowering the letter.
   */
  function TipoDe(c: char): Option<Tipo>
  {
    match c
    case 'p' => Some(Peon) case 'P' => Some(Peon)
    case 't' => Some(Torre) case 'T' => Some(Torre)
    case 'c' => Some(Caballo) case 'C' => Some(Caballo)
    case 'a' => Some(Alfil) case 'A' => Some(Alfil)
    case 'd' => Some(Dama) case 'D' => Some(Dama)
    case 'r' => Some(Rey) case 'R' => Some(Rey)
    case _ => None
  }

  /** `match c.to_ascii_lowercase()` over the six lower-case letters. */
  function TipoDeMinuscula(c: char): (r: Option<Tipo>)
    ensures r == TipoDe(c)
  {
    match AMinusculaAscii(c)
    case 'p' => Some(Peon)
    case 't' => Some(Torre)
    case 'c' => Some(Caballo)
    case 'a' => Some(Alfil)
    case 'd' => Some(Dama)
    case 'r' => Some(Rey)
    case _ => None
  }

  /** Only letters name a kind, and the kind does not depend on the letter's case. */
  lemma TipoIgnoraMayusculas(c: char)
    ensures TipoDe(c).Some? ==> 'a' <= c <= 'z' || 'A' <= c <= 'Z'
    ensures TipoDe(AMinusculaAscii(c)) == TipoDe(c)
  {
  }

  /** What a single character of the board text stands for. */
  datatype Simbolo = Vacia | Separador | Ficha(color: Color, tipo: Tipo) | Invalido

  function Clasificar(c: char): (r: Simbolo)
    ensures r == Vacia <==> c == '_'
    ensures r == Separador <==> c == ' '
    ensures r.Ficha? ==> 'a' <= c <= 'z' || 'A' <= c <= 'Z'
  {
    if c == '_' then Vacia
    else if c == ' ' then Separador
    else
      match TipoDe(c)
      case None => Invalido
      case Some(t) => Ficha(ColorDe(c), t)
  }

  /**
   * The character table: `_` is an empty square, a space is skipped, the
   * letters p t c a d r name pawn, rook, knight, bishop, queen and king,
   * white in lower case and black in upper case, and nothing else is valid.
   */
  lemma TablaDeCaracteres(c: char)
    ensures Clasificar(c) == Vacia <==> c == '_'
    ensures Clasificar(c) == Separador <==> c == ' '
    ensures Clasificar(c).Ficha? <==> c in "ptcadrPTCADR"
    ensures Clasificar(c).Ficha? ==> (Clasificar(c).color == Blanco <==> c in "ptcadr")
    ensures Clasificar(c).Ficha? ==>
              (Clasificar(c).tipo == Peon <==> c in "pP") && (Clasificar(c).tipo == Torre <==> c in "tT") &&
              (Clasificar(c).tipo == Caballo <==> c in "cC") && (Clasificar(c).tipo == Alfil <==> c in "aA") &&
              (Clasificar(c).tipo == Dama <==> c in "dD") && (Clasificar(c).tipo == Rey <==> c in "rR")
  {
  }

  /** The number of `_` characters in `s`. */
  function Guiones(s: string): nat
  {
    if s == [] then 0 else Guiones(s[..|s| - 1]) + (if s[|s| - 1] == '_' then 1 else 0)
  }

  /** The piece character `c` places at (`fila`, `col`), if it is one. */
  function FichaEn(c: char, fila: nat, col: nat): seq<Pieza>
  {
    match Clasificar(c)
    case Ficha(color, tipo) => [Pieza(color, tipo, fila, col)]
    case _ => []
  }

  /** The pieces of one line, left to right, on row `fila`. */
  function FichasLinea(linea: string, fila: nat): seq<Pieza>
  {
    if linea == [] then []
    else
      var k := |linea| - 1;
      FichasLinea(linea[..k], fila) + FichaEn(linea[k], fila, 2 + Guiones(linea[..k]))
  }

  /** The pieces of all the lines in reading order; line `n` is row `n + 1`. */
  function Fichas(lineas: seq<string>): seq<Pieza>
  {
    if lineas == [] then []
    else Fichas(lineas[..|lineas| - 1]) + FichasLinea(lineas[|lineas| - 1], |lineas|)
  }

  /** Every character of the line is `_`, a space or one of the twelve piece letters. */
  predicate ValidaLinea(linea: string)
  {
    forall k :: 0 <= k < |linea| ==> Clasificar(linea[k]) != Invalido
  }

  /** Every line is valid. */
  predicate Validas(lineas: seq<string>)
  {
    forall n :: 0 <= n < |lineas| ==> ValidaLinea(lineas[n])
  }

  /** How many pieces of `s` have colour `color`. */
  function Cuenta(s: seq<Pieza>, color: Color): nat
  {
    if s == [] then 0 else Cuenta(s[..|s| - 1], color) + (if s[|s| - 1].color == color then 1 else 0)
  }

  lemma {:induction false} CuentaConcat(a: seq<Pieza>, b: seq<Pieza>, color: Color)
    ensures Cuenta(a + b, color) == Cuenta(a, color) + Cuenta(b, color)
    decreases |b|
  {
    if b == [] {
      assert a + b == a;
    } else {
      var k := |b| - 1;
      assert (a + b)[..|a + b| - 1] == a + b[..k];
      CuentaConcat(a, b[..k], color);
    }
  }

  lemma UnaMas(s: seq<Pieza>, p: Pieza, color: Color)
    ensures Cuenta(s + [p], color) == Cuenta(s, color) + (if p.color == color then 1 else 0)
  {
    assert (s + [p])[..|s|] == s;
  }

  /** One more character of a line: what it adds to the reference. */
  lemma LineaHasta(linea: string, k: nat, fila: nat)
    requires 0 < k <= |linea|
    ensures Guiones(linea[..k]) == Guiones(linea[..k - 1]) + (if linea[k - 1] == '_' then 1 else 0)
    ensures FichasLinea(linea[..k], fila) ==
            FichasLinea(linea[..k - 1], fila) + FichaEn(linea[k - 1], fila, 2 + Guiones(linea[..k - 1]))
    ensures ValidaLinea(linea[..k]) <==> ValidaLinea(linea[..k - 1]) && Clasificar(linea[k - 1]) != Invalido
  {
    var s := linea[..k];
    var t := linea[..k - 1];
    assert s[..k - 1] == t;
    assert s[k - 1] == linea[k - 1];
    if ValidaLinea(t) && Clasificar(linea[k - 1]) != Invalido {
      forall m | 0 <= m < k ensures Clasificar(s[m]) != Invalido {
        if m < k - 1 { assert s[m] == t[m]; }
      }
    }
    if ValidaLinea(s) {
      forall m | 0 <= m < k - 1 ensures Clasificar(t[m]) != Invalido {
        assert t[m] == s[m];
      }
    }
  }

  /** One more line of a board: what it adds to the reference. */
  lemma TableroHasta(lineas: seq<string>, n: nat)
    requires 0 < n <= |lineas|
    ensures Fichas(lineas[..n]) == Fichas(lineas[..n - 1]) + FichasLinea(lineas[n - 1], n)
    ensures Validas(lineas[..n]) <==> Validas(lineas[..n - 1]) && ValidaLinea(lineas[n - 1])
  {
    var s := lineas[..n];
    var t := lineas[..n - 1];
    assert s[..n - 1] == t;
    assert s[n - 1] == lineas[n - 1];
    if Validas(t) && ValidaLinea(lineas[n - 1]) {
      forall m | 0 <= m < n ensures ValidaLinea(s[m]) {
        if m < n - 1 { assert s[m] == t[m]; }
      }
    }
    if Validas(s) {
      forall m | 0 <= m < n - 1 ensures ValidaLinea(t[m]) {
        assert t[m] == s[m];
      }
    }
  }
}
