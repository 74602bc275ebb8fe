/**
 * The binary's own loader and verdict, src/main.rs. The loader keeps one
 * slot per colour instead of a list and returns the black piece first; the
 * verdict is an enumeration that `main` turns into a letter. The scan is
 * related step by step to the library's in `Funciones`, so what is proved
 * there carries over.
 */
module Principal {
  import opened Piezas
  import opened Tablero
  import Funciones

  /** The binary's errors carry only their message; an invalid character names neither itself nor its row. */
  datatype Error = NoSePudoAbrir | CaracterInvalido | DosBlancas | DosNegras | FaltanPiezas

  /** The scan's variables: a slot per colour and the two flags. */
  datatype Estado = Estado(piezaBlanca: Option<Pieza>, piezaNegra: Option<Pieza>,
                           isPiezaBlanca: bool, isPiezaNegra: bool)

  const Inicial := Estado(None, None, false, false)

  /** Each flag says whether its slot is filled, and each slot holds a piece of its colour. */
  predicate Coherente(e: Estado)
  {
    && (e.isPiezaBlanca <==> e.piezaBlanca.Some?)
    && (e.isPiezaNegra <==> e.piezaNegra.Some?)
    && (e.piezaBlanca.Some? ==> e.piezaBlanca.value.color == Blanco)
    && (e.piezaNegra.Some? ==> e.piezaNegra.value.color == Negro)
  }

  /** One character `c` of row `i`, with the column counter at `j`. */
  function Paso(c: char, i: nat, j: nat, e: Estado): (r: Resultado<Estado, Error>)
    requires Coherente(e)
    ensures r.Ok? ==> Coherente(r.valor)
  {
    if c == '_' || c == ' ' then Ok(e)
    else
      var color := ColorDe(c);
      match TipoDe(c)
      case None => Err(CaracterInvalido)
      case Some(tipo) =>
        match color
        case Blanco =>
          if e.isPiezaBlanca then Err(DosBlancas)
          else Ok(e.(isPiezaBlanca := true, piezaBlanca := Some(Pieza(color, tipo, i, j + 1))))
        case Negro =>
          if e.isPiezaNegra then Err(DosNegras)
          else Ok(e.(isPiezaNegra := true, piezaNegra := Some(Pieza(color, tipo, i, j + 1))))
  }

  /** The first `k` characters of `linea`, row `i`, starting from `e0`. */
  function EscanearLinea(linea: string, i: nat, k: nat, e0: Estado): (r: Resultado<Estado, Error>)
    requires k <= |linea| && Coherente(e0)
    ensures r.Ok? ==> Coherente(r.valor)
  {
    if k == 0 then Ok(e0)
    else
      match EscanearLinea(linea, i, k - 1, e0)
      case Err(x) => Err(x)
      case Ok(e) => Paso(linea[k - 1], i, 1 + Guiones(linea[..k - 1]), e)
  }

  /** The first `n` lines; line `n - 1` is row `n`. */
  function EscanearLineas(lineas: seq<string>, n: nat): (r: Resultado<Estado, Error>)
    requires n <= |lineas|
    ensures r.Ok? ==> Coherente(r.valor)
  {
    if n == 0 then Ok(Inicial)
    else
      match EscanearLineas(lineas, n - 1)
      case Err(x) => Err(x)
      case Ok(e) => EscanearLinea(lineas[n - 1], n, |lineas[n - 1]|, e)
  }

  /** What `leer_tablero` returns for a board text that was read: black first, then white. */
  function Escanear(lineas: seq<string>): (r: Resultado<(Pieza, Pieza), Error>)
    ensures r.Ok? ==> r.valor.0.color == Negro && r.valor.1.color == Blanco
  {
    match EscanearLineas(lineas, |lineas|)
    case Err(x) => Err(x)
    case Ok(e) =>
      if !e.isPiezaBlanca || !e.isPiezaNegra then Err(FaltanPiezas)
      else Ok((e.piezaNegra.value, e.piezaBlanca.value))
  }

  /**
   * `leer_tablero`: `None` stands for a file that could not be opened,
   * `Some(lineas)` for the lines of one that was read.
   */
  method LeerTablero(archivo: Option<seq<string>>) returns (r: Resultado<(Pieza, Pieza), Error>)
    ensures archivo.None? ==> r == Err(NoSePudoAbrir)
    ensures archivo.Some? ==> r == Escanear(archivo.value)
  {
    if archivo.None? {
      return Err(NoSePudoAbrir);
    }
    var lineas := archivo.value;

    var piezaBlanca: Option<Pieza> := None;
    var piezaNegra: Option<Pieza> := None;

    var isPiezaNegra := false;
    var isPiezaBlanca := false;

    var i := 1;
    for n := 0 to |lineas|
      invariant i == n + 1
      invariant EscanearLineas(lineas, n) == Ok(Estado(piezaBlanca, piezaNegra, isPiezaBlanca, isPiezaNegra))
    {
      var linea := lineas[n];
      ghost var alEmpezar := Estado(piezaBlanca, piezaNegra, isPiezaBlanca, isPiezaNegra);
      var j := 1;
      for k := 0 to |linea|
        invariant j == 1 + Guiones(linea[..k])
        invariant Coherente(alEmpezar)
        invariant EscanearLinea(linea, i, k, alEmpezar) ==
                  Ok(Estado(piezaBlanca, piezaNegra, isPiezaBlanca, isPiezaNegra))
      {
        var c := linea[k];
        assert linea[..k + 1][..k] == linea[..k];
        if c == '_' {
          j := j + 1;
          continue;
        }
        if c == ' ' {
          continue;
        }
        ghost var antes := Estado(piezaBlanca, piezaNegra, isPiezaBlanca, isPiezaNegra);
        assert EscanearLinea(linea, i, k + 1, alEmpezar) == Paso(c, i, j, antes);
        var color := ColorDe(c);
        var tipoPieza;
        match TipoDe(c) {
          case None =>
            ErrorEnLinea(lineas, n, k + 1, alEmpezar);
            return Err(CaracterInvalido);
          case Some(t) =>
            tipoPieza := t;
        }
        match color {
          case Blanco =>
            if isPiezaBlanca {
              ErrorEnLinea(lineas, n, k + 1, alEmpezar);
              return Err(DosBlancas);
            }
            isPiezaBlanca := true;
            piezaBlanca := Some(Pieza(color, tipoPieza, i, j + 1));
          case Negro =>
            if isPiezaNegra {
              ErrorEnLinea(lineas, n, k + 1, alEmpezar);
              return Err(DosNegras);
            }
            isPiezaNegra := true;
            piezaNegra := Some(Pieza(color, tipoPieza, i, j + 1));
        }
      }
      i := i + 1;
    }

    if !isPiezaBlanca || !isPiezaNegra {
      return Err(FaltanPiezas);
    }

    return Ok((piezaNegra.value, piezaBlanca.value));
  }

  // Errors are final, as in the library's scan.

  lemma {:induction false} ErrorPersisteLinea(linea: string, i: nat, k: nat, k2: nat, e0: Estado)
    requires k <= k2 <= |linea| && Coherente(e0)
    requires EscanearLinea(linea, i, k, e0).Err?
    ensures EscanearLinea(linea, i, k2, e0) == EscanearLinea(linea, i, k, e0)
    decreases k2
  {
    if k2 > k {
      ErrorPersisteLinea(linea, i, k, k2 - 1, e0);
    }
  }

  lemma {:induction false} ErrorPersisteLineas(lineas: seq<string>, n: nat, n2: nat)
    requires n <= n2 <= |lineas|
    requires EscanearLineas(lineas, n).Err?
    ensures EscanearLineas(lineas, n2) == EscanearLineas(lineas, n)
    decreases n2
  {
    if n2 > n {
      ErrorPersisteLineas(lineas, n, n2 - 1);
    }
  }

  /** A failure inside line `n` is what the whole scan returns. */
  lemma ErrorEnLinea(lineas: seq<string>, n: nat, k: nat, e0: Estado)
    requires n < |lineas| && k <= |lineas[n]| && Coherente(e0)
    requires EscanearLineas(lineas, n) == Ok(e0)
    requires EscanearLinea(lineas[n], n + 1, k, e0).Err?
    ensures Escanear(lineas) == Err(EscanearLinea(lineas[n], n + 1, k, e0).error)
  {
    ErrorPersisteLinea(lineas[n], n + 1, k, |lineas[n]|, e0);
    assert EscanearLineas(lineas, n + 1).Err?;
    ErrorPersisteLineas(lineas, n + 1, |lineas|);
  }

  // The binary's scan against the library's.

  /** The piece of colour `color` in a list, the first one if there are several. */
  function Buscar(s: seq<Pieza>, color: Color): (r: Option<Pieza>)
    ensures r.Some? ==> r.value in s && r.value.color == color
    ensures r.None? ==> forall p :: p in s ==> p.color != color
  {
    if s == [] then None
    else if s[0].color == color then Some(s[0])
    else Buscar(s[1..], color)
  }

  /** The binary's variables for the library's: each slot holds the list's piece of that colour. */
  function Proyeccion(e: Funciones.Estado): Estado
  {
    Estado(Buscar(e.piezas, Blanco), Buscar(e.piezas, Negro), e.blanca, e.negra)
  }

  /** The library's error without its payload. */
  function Traducir(x: Funciones.Error): Error
  {
    match x
    case NoSePudoAbrir => NoSePudoAbrir
    case CaracterInvalido(_, _) => CaracterInvalido
    case DosBlancas => DosBlancas
    case DosNegras => DosNegras
    case FaltanPiezas => FaltanPiezas
  }

  function Traer(r: Resultado<Funciones.Estado, Funciones.Error>): Resultado<Estado, Error>
  {
    match r
    case Ok(e) => Ok(Proyeccion(e))
    case Err(x) => Err(Traducir(x))
  }

  /** A coherent state of the library's projects to a coherent state of the binary's. */
  lemma ProyeccionCoherente(e: Funciones.Estado)
    requires Funciones.Coherente(e)
    ensures Coherente(Proyeccion(e))
  {
    var s := e.piezas;
    if |s| == 2 {
      assert s[1..][1..] == [];
    } else if |s| == 1 {
      assert s[1..] == [];
    }
  }

  /** Pushing a piece whose colour is missing fills that colour's slot and leaves the other. */
  lemma BuscarTrasPush(s: seq<Pieza>, p: Pieza, color: Color)
    requires p.color != color || forall q :: q in s ==> q.color != color
    ensures Buscar(s + [p], color) == if p.color == color then Some(p) else Buscar(s, color)
    decreases |s|
  {
    if s == [] {
      assert [] + [p] == [p];
      assert [p][1..] == [];
    } else {
      assert (s + [p])[0] == s[0];
      assert (s + [p])[1..] == s[1..] + [p];
      BuscarTrasPush(s[1..], p, color);
    }
  }

  lemma PasoCorresponde(c: char, i: nat, j: nat, e: Funciones.Estado)
    requires Funciones.Coherente(e)
    ensures Coherente(Proyeccion(e))
    ensures Paso(c, i, j, Proyeccion(e)) == Traer(Funciones.Paso(c, i, j, e))
  {
    ProyeccionCoherente(e);
    if c != '_' && c != ' ' && TipoDe(c).Some? {
      var p := Pieza(ColorDe(c), TipoDe(c).value, i, j + 1);
      if p.color == Blanco && !e.blanca {
        BuscarTrasPush(e.piezas, p, Blanco);
        BuscarTrasPush(e.piezas, p, Negro);
      } else if p.color == Negro && !e.negra {
        BuscarTrasPush(e.piezas, p, Blanco);
        BuscarTrasPush(e.piezas, p, Negro);
      }
    }
  }

  lemma {:induction false} LineaCorresponde(linea: string, i: nat, k: nat, e0: Funciones.Estado)
    requires k <= |linea| && Funciones.Coherente(e0)
    ensures Coherente(Proyeccion(e0))
    ensures EscanearLinea(linea, i, k, Proyeccion(e0)) == Traer(Funciones.EscanearLinea(linea, i, k, e0))
    decreases k
  {
    ProyeccionCoherente(e0);
    if k > 0 {
      LineaCorresponde(linea, i, k - 1, e0);
      var r0 := Funciones.EscanearLinea(linea, i, k - 1, e0);
      if r0.Ok? {
        PasoCorresponde(linea[k - 1], i, 1 + Guiones(linea[..k - 1]), r0.valor);
      }
    }
  }

  lemma {:induction false} LineasCorresponde(lineas: seq<string>, n: nat)
    requires n <= |lineas|
    ensures EscanearLineas(lineas, n) == Traer(Funciones.EscanearLineas(lineas, n))
    decreases n
  {
    if n > 0 {
      LineasCorresponde(lineas, n - 1);
      var r0 := Funciones.EscanearLineas(lineas, n - 1);
      if r0.Ok? {
        var linea := lineas[n - 1];
        LineaCorresponde(linea, n, |linea|, r0.valor);
        assert EscanearLineas(lineas, n - 1) == Ok(Proyeccion(r0.valor));
        assert Funciones.EscanearLineas(lineas, n) == Funciones.EscanearLinea(linea, n, |linea|, r0.valor);
        assert EscanearLineas(lineas, n) == EscanearLinea(linea, n, |linea|, Proyeccion(r0.valor));
      }
    }
  }

  /** The library's result with the black piece put first. */
  function NegraPrimero(v: (Pieza, Pieza)): (Pieza, Pieza)
  {
    if v.0.color == Negro then v else (v.1, v.0)
  }

  /**
   * The two loaders agree: they fail on the same boards with the same
   * error, and on success hold the same two pieces, the binary's with the
   * black one first.
   */
  lemma EscanearCorresponde(lineas: seq<string>)
    ensures Escanear(lineas) ==
            match Funciones.Escanear(lineas)
            case Err(x) => Err(Traducir(x))
            case Ok(v) => Ok(NegraPrimero(v))
  {
    LineasCorresponde(lineas, |lineas|);
    var r := Funciones.EscanearLineas(lineas, |lineas|);
    if r.Ok? && r.valor.blanca && r.valor.negra {
      var s := r.valor.piezas;
      assert s[1..][1..] == [];
    }
  }

  /**
   * The binary's loader succeeds exactly on a board whose characters are
   * all valid and that holds one white and one black piece; it returns the
   * black one first whatever order they were read in.
   */
  lemma TableroCorrecto(lineas: seq<string>)
    ensures Escanear(lineas).Ok? <==>
            Validas(lineas) && Cuenta(Fichas(lineas), Blanco) == 1 && Cuenta(Fichas(lineas), Negro) == 1
    ensures Escanear(lineas).Ok? ==>
              var v := Escanear(lineas).valor;
              Fichas(lineas) == [v.0, v.1] || Fichas(lineas) == [v.1, v.0]
  {
    EscanearCorresponde(lineas);
    Funciones.TableroCorrecto(lineas);
  }

  /**
   * Each error names its cause: an invalid character somewhere on the
   * board, a colour occurring at least twice, or, on a board of valid
   * characters with no colour repeated, a colour that is absent.
   */
  lemma ErroresDelTablero(lineas: seq<string>)
    ensures Escanear(lineas) != Err(NoSePudoAbrir)
    ensures Escanear(lineas) == Err(CaracterInvalido) ==> !Validas(lineas)
    ensures Escanear(lineas) == Err(DosBlancas) ==> Cuenta(Fichas(lineas), Blanco) >= 2
    ensures Escanear(lineas) == Err(DosNegras) ==> Cuenta(Fichas(lineas), Negro) >= 2
    ensures Escanear(lineas) == Err(FaltanPiezas) <==>
            Validas(lineas) && Cuenta(Fichas(lineas), Blanco) <= 1 && Cuenta(Fichas(lineas), Negro) <= 1 &&
            (Cuenta(Fichas(lineas), Blanco) == 0 || Cuenta(Fichas(lineas), Negro) == 0)
  {
    EscanearCorresponde(lineas);
    Funciones.ErroresDelTablero(lineas);
    var r := Funciones.Escanear(lineas);
    if r.Err? && r.error.CaracterInvalido? {
      var f := r.error.fila;
      var m :| 0 <= m < |lineas[f - 1]| && lineas[f - 1][m] == r.error.c;
      assert !ValidaLinea(lineas[f - 1]);
    }
  }

  /** `captura`: which of the two pieces, black first, can capture the other. */
  function Captura(piezas: (Pieza, Pieza)): (r: ResultadoCaptura)
    ensures r == AmbasCaptura <==> PuedeCapturar(piezas.0, piezas.1) && PuedeCapturar(piezas.1, piezas.0)
    ensures r == NegraCaptura <==> PuedeCapturar(piezas.0, piezas.1) && !PuedeCapturar(piezas.1, piezas.0)
    ensures r == BlancaCaptura <==> !PuedeCapturar(piezas.0, piezas.1) && PuedeCapturar(piezas.1, piezas.0)
    ensures r == NingunaCaptura <==> !PuedeCapturar(piezas.0, piezas.1) && !PuedeCapturar(piezas.1, piezas.0)
  {
    var piezaNegra := piezas.0;
    var piezaBlanca := piezas.1;
    if PuedeCapturar(piezaNegra, piezaBlanca) then
      if PuedeCapturar(piezaBlanca, piezaNegra) then AmbasCaptura else NegraCaptura
    else if PuedeCapturar(piezaBlanca, piezaNegra) then BlancaCaptura
    else NingunaCaptura
  }

  /** The letter `main` prints for a verdict. */
  function Letra(r: ResultadoCaptura): (c: char)
    ensures c in "ENBP"
  {
    match r
    case AmbasCaptura => 'E'
    case NingunaCaptura => 'P'
    case NegraCaptura => 'N'
    case BlancaCaptura => 'B'
  }

  /** Each verdict has its own letter, and the enum verdict spelled out is the library's char verdict. */
  lemma LetraCaptura(piezas: (Pieza, Pieza))
    ensures Letra(Captura(piezas)) == Funciones.Captura(piezas)
    ensures forall r: ResultadoCaptura :: Letra(r) == Funciones.Captura(piezas) ==> r == Captura(piezas)
  {
  }

  /** What `main` prints for a board text that was read: the error or the verdict's letter. */
  function Salida(lineas: seq<string>): (r: Resultado<char, Error>)
    ensures r.Ok? <==> Escanear(lineas).Ok?
    ensures r.Ok? ==> r.valor == Funciones.Captura(Escanear(lineas).valor)
    ensures r.Err? ==> r.error == Escanear(lineas).error
  {
    match Escanear(lineas)
    case Err(x) => Err(x)
    case Ok(piezas) =>
      LetraCaptura(piezas);
      Ok(Letra(Captura(piezas)))
  }

  /**
   * When the black piece is read first, the library's loader fed into the
   * library's `captura` prints what the binary prints.
   */
  lemma NegraLeidaPrimero(lineas: seq<string>)
    requires Funciones.Escanear(lineas).Ok? && Funciones.Escanear(lineas).valor.0.color == Negro
    ensures Salida(lineas) == Ok(Funciones.Captura(Funciones.Escanear(lineas).valor))
  {
    EscanearCorresponde(lineas);
  }

  /** The library's verdict letter with the roles of the two pieces exchanged. */
  function Espejo(c: char): char
  {
    if c == 'N' then 'B' else if c == 'B' then 'N' else c
  }

  /**
   * When the white piece is read first, the library's loader fed into the
   * library's `captura` prints N where the binary prints B and B where it
   * prints N.
   */
  lemma BlancaLeidaPrimero(lineas: seq<string>)
    requires Funciones.Escanear(lineas).Ok? && Funciones.Escanear(lineas).valor.0.color == Blanco
    ensures Salida(lineas).Ok?
    ensures Funciones.Captura(Funciones.Escanear(lineas).valor) == Espejo(Salida(lineas).valor)
  {
    EscanearCorresponde(lineas);
  }

  /**
   * The board `r_P`: a white king at (1, 2) beside a black pawn at (1, 3).
   * Only the king can capture; the library's composition says N, the
   * binary says B.
   */
  lemma ReyJuntoAPeon()
    ensures Funciones.Escanear(["r_P"]) == Ok((Pieza(Blanco, Rey, 1, 2), Pieza(Negro, Peon, 1, 3)))
    ensures Funciones.Captura(Funciones.Escanear(["r_P"]).valor) == 'N'
    ensures Salida(["r_P"]) == Ok('B')
  {
    var lineas := ["r_P"];
    var linea := "r_P";
    assert linea[..0] == [] && linea[..1] == "r" && linea[..2] == "r_";
    EscanearCorresponde(lineas);
  }
}
