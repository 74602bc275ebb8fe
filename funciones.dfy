/**
 * The library's loader and verdict, src/funciones.rs. The loader scans the
 * lines of the board text, keeps a flag per colour and a list of the pieces
 * found, and stops at the first offending character. The verdict reads the
 * first component of the pair as the black piece.
 */
module Funciones {
  import opened Piezas
  import opened Tablero
  import PiezaAnidada

  datatype Error =
    | NoSePudoAbrir
    | CaracterInvalido(c: char, fila: nat)
    | DosBlancas
    | DosNegras
    | FaltanPiezas

  /** The scan's variables: the two colour flags and the pieces pushed so far. */
  datatype Estado = Estado(blanca: bool, negra: bool, piezas: seq<Pieza>)

  const Inicial := Estado(false, false, [])

  /** The flags say which colours are in the list, each at most once. */
  predicate Coherente(e: Estado)
  {
    if e.blanca && e.negra then |e.piezas| == 2 && e.piezas[0].color != e.piezas[1].color
    else if e.blanca then |e.piezas| == 1 && e.piezas[0].color == Blanco
    else if e.negra then |e.piezas| == 1 && e.piezas[0].color == Negro
    else e.piezas == []
  }

  /** One character `c` of row `i`, with the column counter at `j`. */
  function Paso(c: char, i: nat, j: nat, e: Estado): (r: Resultado<Estado, Error>)
    requires Coherente(e)
    ensures r.Ok? ==> Coherente(r.valor)
  {
    if c == '_' || c == ' ' then Ok(e)
    else
      var color := ColorDe(c);
      match TipoDe(c)
      case None => Err(CaracterInvalido(c, i))
      case Some(tipo) =>
        match color
        case Blanco =>
          if e.blanca then Err(DosBlancas)
          else Ok(Estado(true, e.negra, e.piezas + [Pieza(color, tipo, i, j + 1)]))
        case Negro =>
          if e.negra then Err(DosNegras)
          else Ok(Estado(e.blanca, true, e.piezas + [Pieza(color, tipo, i, j + 1)]))
  }

  /** The first `k` characters of `linea`, row `i`, starting from `e0`. */
  function EscanearLinea(linea: string, i: nat, k: nat, e0: Estado): (r: Resultado<Estado, Error>)
    requires k <= |linea| && Coherente(e0)
    ensures r.Ok? ==> Coherente(r.valor)
  {
    if k == 0 then Ok(e0)
    else
      match EscanearLinea(linea, i, k - 1, e0)
      case Err(x) => Err(x)
      case Ok(e) => Paso(linea[k - 1], i, 1 + Guiones(linea[..k - 1]), e)
  }

  /** The first `n` lines; line `n - 1` is row `n`. */
  function EscanearLineas(lineas: seq<string>, n: nat): (r: Resultado<Estado, Error>)
    requires n <= |lineas|
    ensures r.Ok? ==> Coherente(r.valor)
  {
    if n == 0 then Ok(Inicial)
    else
      match EscanearLineas(lineas, n - 1)
      case Err(x) => Err(x)
      case Ok(e) => EscanearLinea(lineas[n - 1], n, |lineas[n - 1]|, e)
  }

  /** What `leer_tablero` returns for a board text that was read. */
  function Escanear(lineas: seq<string>): (r: Resultado<(Pieza, Pieza), Error>)
    ensures r.Ok? ==> r.valor.0.color != r.valor.1.color
  {
    match EscanearLineas(lineas, |lineas|)
    case Err(x) => Err(x)
    case Ok(e) =>
      if !e.blanca || !e.negra then Err(FaltanPiezas)
      else Ok((e.piezas[0], e.piezas[1]))
  }

  /**
   * `leer_tablero`: `None` stands for a file that could not be opened,
   * `Some(lineas)` for the lines of one that was read.
   */
  method LeerTablero(archivo: Option<seq<string>>) returns (r: Resultado<(Pieza, Pieza), Error>)
    ensures archivo.None? ==> r == Err(NoSePudoAbrir)
    ensures archivo.Some? ==> r == Escanear(archivo.value)
  {
    if archivo.None? {
      return Err(NoSePudoAbrir);
    }
    var lineas := archivo.value;

    var isPiezaNegra := false;
    var isPiezaBlanca := false;
    var piezas: seq<Pieza> := [];

    var i := 1;
    for n := 0 to |lineas|
      invariant i == n + 1
      invariant EscanearLineas(lineas, n) == Ok(Estado(isPiezaBlanca, isPiezaNegra, piezas))
    {
      var linea := lineas[n];
      ghost var alEmpezar := Estado(isPiezaBlanca, isPiezaNegra, piezas);
      var j := 1;
      for k := 0 to |linea|
        invariant j == 1 + Guiones(linea[..k])
        invariant Coherente(alEmpezar)
        invariant EscanearLinea(linea, i, k, alEmpezar) == Ok(Estado(isPiezaBlanca, isPiezaNegra, piezas))
      {
        var c := linea[k];
        assert linea[..k + 1][..k] == linea[..k];
        if c == '_' {
          j := j + 1;
          continue;
        }
        if c == ' ' {
          continue;
        }
        var color := ColorDe(c);
        var tipoPieza;
        match TipoDe(c) {
          case None =>
            ErrorEnLinea(lineas, n, k + 1, alEmpezar);
            return Err(CaracterInvalido(c, i));
          case Some(t) =>
            tipoPieza := t;
        }
        match color {
          case Blanco =>
            if isPiezaBlanca {
              ErrorEnLinea(lineas, n, k + 1, alEmpezar);
              return Err(DosBlancas);
            }
            isPiezaBlanca := true;
            piezas := piezas + [Pieza(color, tipoPieza, i, j + 1)];
          case Negro =>
            if isPiezaNegra {
              ErrorEnLinea(lineas, n, k + 1, alEmpezar);
              return Err(DosNegras);
            }
            isPiezaNegra := true;
            piezas := piezas + [Pieza(color, tipoPieza, i, j + 1)];
        }
      }
      i := i + 1;
    }

    if !isPiezaBlanca || !isPiezaNegra {
      return Err(FaltanPiezas);
    }

    var primera := piezas[0];
    piezas := piezas[1..];
    var segunda := piezas[0];
    return Ok((primera, segunda));
  }

  /** `captura`: E both, N only `.0`, B only `.1`, P neither. */
  function Captura(piezas: (Pieza, Pieza)): (r: char)
    ensures r in "ENBP"
    ensures r == 'E' <==> PuedeCapturar(piezas.0, piezas.1) && PuedeCapturar(piezas.1, piezas.0)
    ensures r == 'N' <==> PuedeCapturar(piezas.0, piezas.1) && !PuedeCapturar(piezas.1, piezas.0)
    ensures r == 'B' <==> !PuedeCapturar(piezas.0, piezas.1) && PuedeCapturar(piezas.1, piezas.0)
    ensures r == 'P' <==> !PuedeCapturar(piezas.0, piezas.1) && !PuedeCapturar(piezas.1, piezas.0)
  {
    var piezaNegra := piezas.0;
    var piezaBlanca := piezas.1;
    if PiezaAnidada.PuedeCapturar(piezaNegra, piezaBlanca) then
      if PiezaAnidada.PuedeCapturar(piezaBlanca, piezaNegra) then 'E' else 'N'
    else if PiezaAnidada.PuedeCapturar(piezaBlanca, piezaNegra) then 'B'
    else 'P'
  }

  /** The verdict cases of the integration tests. */
  lemma CasosDeCaptura()
    ensures Captura((Pieza(Negro, Dama, 8, 9), Pieza(Blanco, Peon, 8, 1))) == 'N'
    ensures Captura((Pieza(Negro, Peon, 3, 4), Pieza(Blanco, Rey, 3, 3))) == 'B'
    ensures Captura((Pieza(Negro, Peon, 1, 1), Pieza(Blanco, Rey, 2, 2))) == 'E'
    ensures Captura((Pieza(Negro, Caballo, 5, 7), Pieza(Blanco, Torre, 2, 2))) == 'P'
  {
  }

  // Errors are final: once a prefix of the scan fails, longer prefixes fail the same way.

  lemma {:induction false} ErrorPersisteLinea(linea: string, i: nat, k: nat, k2: nat, e0: Estado)
    requires k <= k2 <= |linea| && Coherente(e0)
    requires EscanearLinea(linea, i, k, e0).Err?
    ensures EscanearLinea(linea, i, k2, e0) == EscanearLinea(linea, i, k, e0)
    decreases k2
  {
    if k2 > k {
      ErrorPersisteLinea(linea, i, k, k2 - 1, e0);
    }
  }

  lemma {:induction false} ErrorPersisteLineas(lineas: seq<string>, n: nat, n2: nat)
    requires n <= n2 <= |lineas|
    requires EscanearLineas(lineas, n).Err?
    ensures EscanearLineas(lineas, n2) == EscanearLineas(lineas, n)
    decreases n2
  {
    if n2 > n {
      ErrorPersisteLineas(lineas, n, n2 - 1);
    }
  }

  /** A failure inside line `n` is what the whole scan returns. */
  lemma ErrorEnLinea(lineas: seq<string>, n: nat, k: nat, e0: Estado)
    requires n < |lineas| && k <= |lineas[n]| && Coherente(e0)
    requires EscanearLineas(lineas, n) == Ok(e0)
    requires EscanearLinea(lineas[n], n + 1, k, e0).Err?
    ensures Escanear(lineas) == Err(EscanearLinea(lineas[n], n + 1, k, e0).error)
  {
    ErrorPersisteLinea(lineas[n], n + 1, k, |lineas[n]|, e0);
    assert EscanearLineas(lineas, n + 1).Err?;
    ErrorPersisteLineas(lineas, n + 1, |lineas|);
  }

  // The scan against the reference description of the board in Tablero.

  /** Regrouping a concatenation, kept out of the larger step proofs. */
  lemma Asociativa(a: seq<Pieza>, b: seq<Pieza>, c: seq<Pieza>)
    ensures (a + b) + c == a + (b + c)
  {
  }

  /** The flags of a coherent state count the pieces of each colour. */
  lemma CuentaCoherente(e: Estado)
    requires Coherente(e)
    ensures Cuenta(e.piezas, Blanco) == (if e.blanca then 1 else 0)
    ensures Cuenta(e.piezas, Negro) == (if e.negra then 1 else 0)
  {
    var s := e.piezas;
    if |s| == 2 {
      assert s == [s[0]] + [s[1]] && [s[0]] == [] + [s[0]];
      UnaMas([], s[0], Blanco);
      UnaMas([], s[0], Negro);
      UnaMas([s[0]], s[1], Blanco);
      UnaMas([s[0]], s[1], Negro);
    } else if |s| == 1 {
      assert s == [] + [s[0]];
      UnaMas([], s[0], Blanco);
      UnaMas([], s[0], Negro);
    }
  }

  /** What a failure says about the pieces `todas` scanned up to it. */
  predicate Explicado(err: Error, todas: seq<Pieza>)
  {
    match err
    case CaracterInvalido(c, _) => Clasificar(c) == Invalido
    case DosBlancas => Cuenta(todas, Blanco) >= 2
    case DosNegras => Cuenta(todas, Negro) >= 2
    case _ => false
  }

  /**
   * A scan result `r` against the reference: success exactly when the text
   * is `valida` and no colour occurs twice in `todas`, the pieces the scan
   * has met so far; then those are the pieces kept. A failure names its
   * cause, and an invalid character lies in `texto` on row `fila`.
   */
  predicate Describe(r: Resultado<Estado, Error>, valida: bool, todas: seq<Pieza>, fila: nat, texto: string)
  {
    && (r.Ok? <==> valida && Cuenta(todas, Blanco) <= 1 && Cuenta(todas, Negro) <= 1)
    && (r.Ok? ==> r.valor.piezas == todas)
    && (r.Err? ==> Explicado(r.error, todas))
    && (r.Err? && r.error.CaracterInvalido? ==> r.error.fila == fila && r.error.c in texto)
  }

  /** One character: the list grows by the piece it names, if no colour repeats. */
  lemma PasoFichas(c: char, i: nat, j: nat, e: Estado, r: Resultado<Estado, Error>, todas: seq<Pieza>,
                   valida: bool, texto: string)
    requires Coherente(e)
    requires r == Paso(c, i, j, e) && todas == e.piezas + FichaEn(c, i, j + 1)
    requires valida <==> Clasificar(c) != Invalido
    requires c in texto
    ensures Describe(r, valida, todas, i, texto)
  {
    CuentaCoherente(e);
    match Clasificar(c)
    case Ficha(color, tipo) =>
      UnaMas(e.piezas, Pieza(color, tipo, i, j + 1), Blanco);
      UnaMas(e.piezas, Pieza(color, tipo, i, j + 1), Negro);
    case _ =>
      assert e.piezas + [] == e.piezas;
  }

  /**
   * Scanning the first `k` characters of a line, from `e0`: the pieces met
   * are those of `e0` and those of the line's first `k` characters.
   */
  predicate LineaDescrita(linea: string, i: nat, k: nat, e0: Estado)
    requires k <= |linea| && Coherente(e0)
  {
    Describe(EscanearLinea(linea, i, k, e0), ValidaLinea(linea[..k]), e0.piezas + FichasLinea(linea[..k], i),
             i, linea[..k])
  }

  /** The first `n` lines, as `LineaDescrita` describes one line. */
  predicate LineasDescritas(lineas: seq<string>, n: nat)
    requires n <= |lineas|
  {
    var r := EscanearLineas(lineas, n);
    var todas := Fichas(lineas[..n]);
    && (r.Ok? <==> Validas(lineas[..n]) && Cuenta(todas, Blanco) <= 1 && Cuenta(todas, Negro) <= 1)
    && (r.Ok? ==> r.valor.piezas == todas)
    && (r.Err? ==> Explicado(r.error, todas))
    && (r.Err? && r.error.CaracterInvalido? ==>
          1 <= r.error.fila <= n && r.error.c in lineas[r.error.fila - 1])
  }

  /** The step of the induction: character `k - 1` after a described prefix. */
  lemma LineaPaso(linea: string, i: nat, k: nat, e0: Estado)
    requires 0 < k <= |linea| && Coherente(e0)
    requires LineaDescrita(linea, i, k - 1, e0)
    ensures LineaDescrita(linea, i, k, e0)
  {
    var r0 := EscanearLinea(linea, i, k - 1, e0);
    if r0.Ok? {
      LineaPasoOk(linea, i, k, e0, r0.valor);
    } else {
      LineaPasoErr(linea, i, k, e0);
    }
  }

  lemma LineaPasoErr(linea: string, i: nat, k: nat, e0: Estado)
    requires 0 < k <= |linea| && Coherente(e0)
    requires LineaDescrita(linea, i, k - 1, e0)
    requires EscanearLinea(linea, i, k - 1, e0).Err?
    ensures LineaDescrita(linea, i, k, e0)
  {
    LineaHasta(linea, k, i);
    var previas := e0.piezas + FichasLinea(linea[..k - 1], i);
    var extra := FichaEn(linea[k - 1], i, 2 + Guiones(linea[..k - 1]));
    Asociativa(e0.piezas, FichasLinea(linea[..k - 1], i), extra);
    ErrorPersisteLinea(linea, i, k - 1, k, e0);
    assert linea[..k - 1] <= linea[..k];
    DescribeErr(EscanearLinea(linea, i, k - 1, e0), ValidaLinea(linea[..k - 1]), previas, linea[..k - 1],
                ValidaLinea(linea[..k]), extra, i, linea[..k]);
  }

  lemma LineaPasoOk(linea: string, i: nat, k: nat, e0: Estado, e: Estado)
    requires 0 < k <= |linea| && Coherente(e0) && Coherente(e)
    requires EscanearLinea(linea, i, k - 1, e0) == Ok(e)
    requires e.piezas == e0.piezas + FichasLinea(linea[..k - 1], i)
    requires ValidaLinea(linea[..k - 1])
    ensures LineaDescrita(linea, i, k, e0)
  {
    var c := linea[k - 1];
    var j := 1 + Guiones(linea[..k - 1]);
    LineaHasta(linea, k, i);
    var r := EscanearLinea(linea, i, k, e0);
    var todas := e0.piezas + FichasLinea(linea[..k], i);
    var valida := ValidaLinea(linea[..k]);
    UltimoPaso(linea, i, k, e0, e);
    Asociativa(e0.piezas, FichasLinea(linea[..k - 1], i), FichaEn(c, i, j + 1));
    assert c in linea[..k] by { assert linea[..k][k - 1] == c; }
    PasoFichas(c, i, j, e, r, todas, valida, linea[..k]);
  }

  lemma UltimoPaso(linea: string, i: nat, k: nat, e0: Estado, e: Estado)
    requires 0 < k <= |linea| && Coherente(e0)
    requires EscanearLinea(linea, i, k - 1, e0) == Ok(e)
    ensures Coherente(e)
    ensures EscanearLinea(linea, i, k, e0) == Paso(linea[k - 1], i, 1 + Guiones(linea[..k - 1]), e)
  {
  }

  /** A failure stays described when the text and the pieces after it grow. */
  lemma DescribeErr(r: Resultado<Estado, Error>, validaAntes: bool, previas: seq<Pieza>, antes: string,
                    valida: bool, extra: seq<Pieza>, fila: nat, texto: string)
    requires r.Err? && Describe(r, validaAntes, previas, fila, antes)
    requires valida ==> validaAntes
    requires antes <= texto
    ensures Describe(r, valida, previas + extra, fila, texto)
  {
    CuentaConcat(previas, extra, Blanco);
    CuentaConcat(previas, extra, Negro);
    if r.error.CaracterInvalido? {
      var m :| 0 <= m < |antes| && antes[m] == r.error.c;
      assert texto[m] == r.error.c;
    }
  }

  lemma {:induction false} EscanearLineaFichas(linea: string, i: nat, k: nat, e0: Estado)
    requires k <= |linea| && Coherente(e0)
    ensures LineaDescrita(linea, i, k, e0)
    decreases k
  {
    if k == 0 {
      assert linea[..0] == [];
      assert e0.piezas + [] == e0.piezas;
      CuentaCoherente(e0);
    } else {
      EscanearLineaFichas(linea, i, k - 1, e0);
      LineaPaso(linea, i, k, e0);
    }
  }

  /** The step over lines: line `n - 1` after described earlier lines. */
  lemma LineasPaso(lineas: seq<string>, n: nat)
    requires 0 < n <= |lineas|
    requires LineasDescritas(lineas, n - 1)
    ensures LineasDescritas(lineas, n)
  {
    var linea := lineas[n - 1];
    assert linea[..|linea|] == linea;
    TableroHasta(lineas, n);
    CuentaConcat(Fichas(lineas[..n - 1]), FichasLinea(linea, n), Blanco);
    CuentaConcat(Fichas(lineas[..n - 1]), FichasLinea(linea, n), Negro);
    var r0 := EscanearLineas(lineas, n - 1);
    if r0.Ok? {
      EscanearLineaFichas(linea, n, |linea|, r0.valor);
    }
  }

  lemma {:induction false} EscanearLineasFichas(lineas: seq<string>, n: nat)
    requires n <= |lineas|
    ensures LineasDescritas(lineas, n)
    decreases n
  {
    if n == 0 {
      assert lineas[..0] == [];
    } else {
      EscanearLineasFichas(lineas, n - 1);
      LineasPaso(lineas, n);
    }
  }

  /**
   * The loader succeeds exactly on a board whose characters are all valid
   * and that holds one white and one black piece, and then returns those
   * two pieces in the order they appear, at (row, 2 + `_` before it).
   */
  lemma TableroCorrecto(lineas: seq<string>)
    ensures Escanear(lineas).Ok? <==>
            Validas(lineas) && Cuenta(Fichas(lineas), Blanco) == 1 && Cuenta(Fichas(lineas), Negro) == 1
    ensures Escanear(lineas).Ok? ==> Fichas(lineas) == [Escanear(lineas).valor.0, Escanear(lineas).valor.1]
  {
    EscanearLineasFichas(lineas, |lineas|);
    assert lineas[..|lineas|] == lineas;
    var r := EscanearLineas(lineas, |lineas|);
    if r.Ok? {
      CuentaCoherente(r.valor);
    }
  }

  /**
   * Each error names its cause: an invalid character present in the row it
   * reports, a colour occurring at least twice, or, for a board of valid
   * characters with no colour repeated, a colour that is absent.
   */
  lemma ErroresDelTablero(lineas: seq<string>)
    ensures Escanear(lineas).Err? && Escanear(lineas).error != FaltanPiezas ==>
            Explicado(Escanear(lineas).error, Fichas(lineas))
    ensures Escanear(lineas).Err? && Escanear(lineas).error.CaracterInvalido? ==>
            var f := Escanear(lineas).error.fila;
            1 <= f <= |lineas| && Escanear(lineas).error.c in lineas[f - 1]
    ensures Escanear(lineas) == Err(FaltanPiezas) <==>
            Validas(lineas) && Cuenta(Fichas(lineas), Blanco) <= 1 && Cuenta(Fichas(lineas), Negro) <= 1 &&
            (Cuenta(Fichas(lineas), Blanco) == 0 || Cuenta(Fichas(lineas), Negro) == 0)
  {
    var r := EscanearLineas(lineas, |lineas|);
    var todas := Fichas(lineas);
    EscanearLineasFichas(lineas, |lineas|);
    assert lineas[..|lineas|] == lineas;
    assert LineasDescritas(lineas, |lineas|);
    if r.Ok? {
      CuentaCoherente(r.valor);
      assert Escanear(lineas).Err? <==> !r.valor.blanca || !r.valor.negra;
    } else {
      assert Escanear(lineas) == Err(r.error);
      assert r.error != FaltanPiezas;
    }
  }

  /** On valid characters, a repeated colour is reported as such. */
  lemma ColorRepetido(lineas: seq<string>)
    requires Validas(lineas)
    requires Cuenta(Fichas(lineas), Blanco) >= 2 || Cuenta(Fichas(lineas), Negro) >= 2
    ensures Escanear(lineas) == Err(DosBlancas) || Escanear(lineas) == Err(DosNegras)
    ensures Cuenta(Fichas(lineas), Negro) <= 1 ==> Escanear(lineas) == Err(DosBlancas)
    ensures Cuenta(Fichas(lineas), Blanco) <= 1 ==> Escanear(lineas) == Err(DosNegras)
  {
    TableroCorrecto(lineas);
    ErroresDelTablero(lineas);
  }

  // Only the characters before the first offending one are ever examined.

  lemma {:induction false} PrefijoLinea(a: string, b: string, i: nat, k: nat, e0: Estado)
    requires k <= |a| && k <= |b| && a[..k] == b[..k] && Coherente(e0)
    ensures EscanearLinea(a, i, k, e0) == EscanearLinea(b, i, k, e0)
    decreases k
  {
    if k > 0 {
      assert a[..k - 1] == a[..k][..k - 1] == b[..k][..k - 1] == b[..k - 1];
      assert a[k - 1] == a[..k][k - 1];
      PrefijoLinea(a, b, i, k - 1, e0);
    }
  }

  lemma {:induction false} PrefijoLineas(a: seq<string>, b: seq<string>, n: nat)
    requires n <= |a| && n <= |b| && a[..n] == b[..n]
    ensures EscanearLineas(a, n) == EscanearLineas(b, n)
    decreases n
  {
    if n > 0 {
      assert a[..n - 1] == a[..n][..n - 1] == b[..n][..n - 1] == b[..n - 1];
      assert a[n - 1] == a[..n][n - 1];
      PrefijoLineas(a, b, n - 1);
    }
  }

  /** A line that fails keeps failing the same way when more text follows it. */
  lemma LineaExtendida(linea: string, resto: string, i: nat, e0: Estado)
    requires Coherente(e0) && EscanearLinea(linea, i, |linea|, e0).Err?
    ensures EscanearLinea(linea + resto, i, |linea + resto|, e0) == EscanearLinea(linea, i, |linea|, e0)
  {
    assert (linea + resto)[..|linea|] == linea == linea[..|linea|];
    PrefijoLinea(linea, linea + resto, i, |linea|, e0);
    ErrorPersisteLinea(linea + resto, i, |linea|, |linea + resto|, e0);
  }

  /**
   * Two boards that agree on their first `p` lines, the second of which
   * extends line `p` of the first by `resto`: a failure of the first
   * within line `p` is the second's result.
   */
  lemma ErrorEnLineaExtendida(a: seq<string>, b: seq<string>, p: nat, resto: string)
    requires p < |a| && p < |b| && a[..p] == b[..p] && b[p] == a[p] + resto
    requires EscanearLineas(a, p + 1).Err?
    ensures Escanear(b) == Err(EscanearLineas(a, p + 1).error)
  {
    PrefijoLineas(a, b, p);
    var r0 := EscanearLineas(a, p);
    if r0.Ok? {
      LineaExtendida(a[p], resto, p + 1, r0.valor);
    }
    assert EscanearLineas(b, p + 1) == EscanearLineas(a, p + 1);
    ErrorPersisteLineas(b, p + 1, |b|);
  }

  /**
   * If the scan fails within `linea`, the board's result is that failure
   * whatever follows it on the same line and on later lines.
   */
  lemma PrimerErrorGana(previas: seq<string>, linea: string, resto: string, siguientes: seq<string>,
                        tablero: seq<string>)
    requires tablero == previas + [linea + resto] + siguientes
    requires EscanearLineas(previas + [linea], |previas| + 1).Err?
    ensures Escanear(tablero) == Err(EscanearLineas(previas + [linea], |previas| + 1).error)
  {
    var a := previas + [linea];
    var p := |previas|;
    assert a[..p] == previas == tablero[..p];
    assert a[p] == linea && tablero[p] == linea + resto;
    ErrorEnLineaExtendida(a, tablero, p, resto);
  }
}
