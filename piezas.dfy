/**
 * Pieces and their capture geometry, as in src/pieza.rs (the copy the
 * binary uses). A piece captures another when the row and column
 * differences match its kind's pattern; other pieces, blocking and turn
 * order play no part.
 */
module Piezas {

  datatype Color = Blanco | Negro

  datatype Tipo = Peon | Torre | Caballo | Alfil | Dama | Rey

  /** The four verdicts of the binary's `captura`. */
  datatype ResultadoCaptura = NegraCaptura | BlancaCaptura | AmbasCaptura | NingunaCaptura

  /**
   * A piece at row `fila` and column `col`. `Pieza::new` is this
   * constructor. The source stores `usize` coordinates and subtracts
   * them as `i32`; here they are unbounded naturals.
   */
  datatype Pieza = Pieza(color: Color, tipo: Tipo, fila: nat, col: nat)

  function Abs(x: int): (r: nat)
    ensures r == x || r == -x
  {
    if x < 0 then -x else x
  }

  /** The eight (row, column) offsets of a knight's jump. */
  const SaltosDeCaballo: set<(int, int)> :=
    {(2, 1), (2, -1), (-2, 1), (-2, -1), (1, 2), (1, -2), (-1, 2), (-1, -2)}

  /**
   * A pawn captures one column to either side: a white pawn on the row
   * just below its own number, a black pawn on the row just above.
   */
  function PeonPuedeCapturar(p: Pieza, otra: Pieza): (r: bool)
    ensures r <==> (p.col == otra.col + 1 || otra.col == p.col + 1) &&
                   match p.color
                   case Blanco => p.fila == otra.fila + 1
                   case Negro => otra.fila == p.fila + 1
  {
    var filaDif := p.fila - otra.fila;
    var colDif := Abs(p.col - otra.col);
    if p.color == Blanco && filaDif == 1 && colDif == 1 then true
    else if p.color == Negro && filaDif == -1 && colDif == 1 then true
    else false
  }

  /** Same row or same column; the piece's own square counts too. */
  function PuedeCapturarLineal(p: Pieza, otra: Pieza): (r: bool)
    ensures r <==> p.fila == otra.fila || p.col == otra.col
    ensures p.fila == otra.fila && p.col == otra.col ==> r
  {
    var filaDif := p.fila - otra.fila;
    var colDif := p.col - otra.col;
    filaDif == 0 || colDif == 0
  }

  function CaballoPuedeCapturar(p: Pieza, otra: Pieza): (r: bool)
    ensures r <==> (p.fila - otra.fila, p.col - otra.col) in SaltosDeCaballo
  {
    var filaDif := Abs(p.fila - otra.fila);
    var colDif := Abs(p.col - otra.col);
    (filaDif == 2 && colDif == 1) || (filaDif == 1 && colDif == 2)
  }

  /** Same diagonal or anti-diagonal, never the piece's own square. */
  function PuedeCapturarDiagonal(p: Pieza, otra: Pieza): (r: bool)
    ensures r <==> p.fila != otra.fila &&
                   (p.fila - otra.fila == p.col - otra.col || p.fila - otra.fila == otra.col - p.col)
  {
    var filaDif := Abs(p.fila - otra.fila);
    var colDif := Abs(p.col - otra.col);
    filaDif == colDif && filaDif != 0 && colDif != 0
  }

  /** One of the eight neighbouring squares. */
  function ReyPuedeCapturar(p: Pieza, otra: Pieza): (r: bool)
    ensures r <==> (p.fila != otra.fila || p.col != otra.col) &&
                   -1 <= p.fila - otra.fila <= 1 && -1 <= p.col - otra.col <= 1
  {
    var filaDif := p.fila - otra.fila;
    var colDif := p.col - otra.col;
    (Abs(filaDif) == 1 && colDif == 0) || (filaDif == 0 && Abs(colDif) == 1) || (Abs(filaDif) == 1 && Abs(colDif) == 1)
  }

  /** Whether `p` can capture `otra`: never a piece of its own colour. */
  function PuedeCapturar(p: Pieza, otra: Pieza): (r: bool)
    ensures p.color == otra.color ==> !r
    ensures r && p.fila == otra.fila && p.col == otra.col ==> p.tipo == Torre || p.tipo == Dama
  {
    if p.color == otra.color then false
    else
      match p.tipo
      case Peon => PeonPuedeCapturar(p, otra)
      case Torre => PuedeCapturarLineal(p, otra)
      case Caballo => CaballoPuedeCapturar(p, otra)
      case Alfil => PuedeCapturarDiagonal(p, otra)
      case Dama => PuedeCapturarDiagonal(p, otra) || PuedeCapturarLineal(p, otra)
      case Rey => ReyPuedeCapturar(p, otra)
  }

  /** The queen captures exactly where a bishop or a rook of hers would. */
  lemma DamaEsAlfilOTorre(p: Pieza, otra: Pieza)
    requires p.tipo == Dama
    ensures PuedeCapturar(p, otra) <==>
            PuedeCapturar(p.(tipo := Alfil), otra) || PuedeCapturar(p.(tipo := Torre), otra)
  {
  }

  /** The king's rule is Chebyshev distance exactly 1. */
  lemma ReyADistanciaUno(p: Pieza, otra: Pieza)
    requires p.tipo == Rey && p.color != otra.color
    ensures PuedeCapturar(p, otra) <==>
            (if Abs(p.fila - otra.fila) >= Abs(p.col - otra.col)
             then Abs(p.fila - otra.fila) else Abs(p.col - otra.col)) == 1
  {
  }

  /**
   * Every rule but the pawn's reads only `abs` or `== 0` of the
   * differences, so swapping the two squares changes nothing.
   */
  lemma SimetriaGeometrica(p: Pieza, otra: Pieza)
    requires p.tipo != Peon
    ensures PuedeCapturar(p, otra) ==
            PuedeCapturar(p.(fila := otra.fila, col := otra.col), otra.(fila := p.fila, col := p.col))
  {
  }

  /** Two pawns of opposite colours always threaten each other alike. */
  lemma PeonesSeCapturanMutuamente(p: Pieza, otra: Pieza)
    requires p.tipo == Peon && otra.tipo == Peon
    ensures PuedeCapturar(p, otra) == PuedeCapturar(otra, p)
  {
  }

  /** On a shared square only the rook and the queen capture. */
  lemma MismaCasilla(p: Pieza, otra: Pieza)
    requires p.fila == otra.fila && p.col == otra.col
    ensures PuedeCapturar(p, otra) <==> p.color != otra.color && (p.tipo == Torre || p.tipo == Dama)
  {
  }
}
