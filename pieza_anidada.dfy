/**
 * The second copy of the capture rules, src/pieza/pieza.rs, which the
 * library's `captura` uses. Each helper is written as that file writes it
 * and is proved equal to its counterpart in `Piezas`.
 */
module PiezaAnidada {
  import opened Piezas

  function PeonPuedeCapturar(p: Pieza, otra: Pieza): (r: bool)
    ensures r == Piezas.PeonPuedeCapturar(p, otra)
  {
    var filaDif := p.fila - otra.fila;
    var colDif := Abs(p.col - otra.col);
    (p.color == Blanco && filaDif == 1 && colDif == 1) || (p.color == Negro && filaDif == -1 && colDif == 1)
  }

  function PuedeCapturarLineal(p: Pieza, otra: Pieza): (r: bool)
    ensures r == Piezas.PuedeCapturarLineal(p, otra)
  {
    var filaDif := p.fila - otra.fila;
    var colDif := p.col - otra.col;
    filaDif == 0 || colDif == 0
  }

  function CaballoPuedeCapturar(p: Pieza, otra: Pieza): (r: bool)
    ensures r == Piezas.CaballoPuedeCapturar(p, otra)
  {
    var filaDif := Abs(p.fila - otra.fila);
    var colDif := Abs(p.col - otra.col);
    (filaDif == 2 && colDif == 1) || (filaDif == 1 && colDif == 2)
  }

  function PuedeCapturarDiagonal(p: Pieza, otra: Pieza): (r: bool)
    ensures r == Piezas.PuedeCapturarDiagonal(p, otra)
  {
    var filaDif := Abs(p.fila - otra.fila);
    var colDif := Abs(p.col - otra.col);
    filaDif == colDif && filaDif != 0 && colDif != 0
  }

  function ReyPuedeCapturar(p: Pieza, otra: Pieza): (r: bool)
    ensures r == Piezas.ReyPuedeCapturar(p, otra)
  {
    var filaDif := p.fila - otra.fila;
    var colDif := p.col - otra.col;
    (Abs(filaDif) == 1 && colDif == 0) || (filaDif == 0 && Abs(colDif) == 1) || (Abs(filaDif) == 1 && Abs(colDif) == 1)
  }

  /** Agrees with the other copy of the rules on every pair of pieces. */
  function PuedeCapturar(p: Pieza, otra: Pieza): (r: bool)
    ensures r == Piezas.PuedeCapturar(p, otra)
  {
    if p.color == otra.color then false
    else
      match p.tipo
      case Peon => PeonPuedeCapturar(p, otra)
      case Torre => PuedeCapturarLineal(p, otra)
      case Caballo => CaballoPuedeCapturar(p, otra)
      case Alfil => PuedeCapturarDiagonal(p, otra)
      case Dama => PuedeCapturarDiagonal(p, otra) || PuedeCapturarLineal(p, otra)
      case Rey => ReyPuedeCapturar(p, otra)
  }

  /** The unit tests written beside this copy. */
  lemma CasosDePrueba()
    ensures PuedeCapturar(Pieza(Blanco, Rey, 2, 2), Pieza(Negro, Peon, 2, 3))
    ensures PuedeCapturar(Pieza(Blanco, Dama, 2, 2), Pieza(Negro, Alfil, 8, 2))
    ensures PuedeCapturar(Pieza(Blanco, Alfil, 2, 2), Pieza(Negro, Peon, 3, 3))
    ensures !PuedeCapturar(Pieza(Blanco, Rey, 2, 2), Pieza(Blanco, Peon, 2, 3))
    ensures PuedeCapturar(Pieza(Blanco, Caballo, 2, 2), Pieza(Negro, Peon, 3, 4))
    ensures PuedeCapturar(Pieza(Blanco, Torre, 2, 2), Pieza(Negro, Peon, 2, 8))
    ensures PuedeCapturar(Pieza(Blanco, Peon, 7, 2), Pieza(Negro, Dama, 6, 1))
  {
  }
}
