# Two-piece chess capture check, in Dafny

The program reads a text board that holds one white and one black chess
piece. It then says which of the two can capture the other. The printed
letter is E (both), N (only black), B (only white) or P (neither). A capture
depends only on the pieces' kinds, their colours and the row and column
differences between them. Other pieces, blocking and turns play no part.

The repository holds two copies of each component, and the model keeps both:

- `Piezas` (`piezas.dfy`) models `src/pieza.rs`, the copy the binary uses:
  - the colour, kind and verdict enumerations;
  - the piece record (its constructor is `Pieza::new`);
  - `puede_capturar` and its five helpers.

  Each helper carries its exact geometric characterisation. Lemmas state the
  queen, king, symmetry and same-square properties.
- `PiezaAnidada` (`pieza_anidada.dfy`) models `src/pieza/pieza.rs`, the copy
  the library uses:
  - Each function is written as that file writes it.
  - Each is proved equal to its counterpart in `Piezas`.
  - The file's unit tests are restated as a lemma.
- `Tablero` (`tablero.dfy`) holds what the two board loaders share:
  - The character table. `_` is an empty square, a space is skipped, and
    p t c a d r name the kinds. Lower case is white, anything else is black.
  - A reference description of the board: the pieces the lines hold in
    reading order, each at (row, 2 + number of `_` before it on its line).
  - Validity of the characters, and a count of the pieces of each colour.
- `Funciones` (`funciones.dfy`) models the library's `leer_tablero` and its
  char `captura`, from `src/funciones.rs`:
  - The scan is specified by functions over prefixes of the board. The method
    `LeerTablero` runs the source's nested loops, with `i`, `j`, the two flags
    and the list of pieces, and is proved equal to that specification.
  - Lemmas characterise the scan against the reference description: when it
    succeeds, what it returns, what each error means, and that the first
    offending character decides the result.
- `Principal` (`principal.dfy`) models `src/main.rs`:
  - the binary's `leer_tablero`, with its two `Option` slots;
  - the enum `captura`;
  - the mapping from verdict to letter in `main`.

  Its scan is proved to agree step by step with the library's. The library's
  characterisation therefore carries over, with the pieces returned black
  first.

The board text comes in as the sequence of its lines. A file that could not be
opened is `None`.

Two behaviours of the code are kept as written:

- **Columns.** Only `_` advances the column counter. A piece letter does not,
  so a piece sits at column 2 plus the number of `_` before it.
- **Same square.** The rook's rule, and so the queen's, accepts a zero offset.
  A rook or queen therefore captures a piece of the other colour on its own
  square (`Piezas.MismaCasilla`).

## Model

| member | source | states |
|---|---|---|
| Piezas.PeonPuedeCapturar | src/pieza.rs:56-67 | a white pawn captures exactly one row lower in number and one column to either side, a black pawn one row higher |
| Piezas.PuedeCapturarLineal | src/pieza.rs:69-78 | true exactly when the rows or the columns are equal, its own square included |
| Piezas.CaballoPuedeCapturar | src/pieza.rs:80-89 | true exactly when the offset is one of the eight knight jumps |
| Piezas.PuedeCapturarDiagonal | src/pieza.rs:91-100 | true exactly on the two diagonals through the piece, never its own square |
| Piezas.ReyPuedeCapturar | src/pieza.rs:102-111 | true exactly on the eight neighbouring squares |
| Piezas.PuedeCapturar | src/pieza.rs:41-54 | never captures its own colour; on its own square only a rook or queen can capture |
| Piezas.DamaEsAlfilOTorre | src/pieza.rs:51 | the queen captures exactly where a bishop or rook on her square would |
| Piezas.ReyADistanciaUno | src/pieza.rs:102-111 | the king captures exactly at Chebyshev distance 1 |
| Piezas.SimetriaGeometrica | src/pieza.rs:69-111 | for every kind but the pawn, exchanging the two squares leaves the answer unchanged |
| Piezas.PeonesSeCapturanMutuamente | src/pieza.rs:56-67 | a pawn threatens a pawn of the other colour exactly when it is threatened back |
| Piezas.MismaCasilla | src/pieza.rs:41-111 | on a shared square, a capture happens exactly for a rook or queen of the other colour |
| PiezaAnidada.PeonPuedeCapturar | src/pieza/pieza.rs:48-59 | the disjunction form equals the binary copy's pawn rule on every input |
| PiezaAnidada.PuedeCapturarLineal | src/pieza/pieza.rs:63-72 | equals the binary copy's linear rule |
| PiezaAnidada.CaballoPuedeCapturar | src/pieza/pieza.rs:76-85 | equals the binary copy's knight rule |
| PiezaAnidada.PuedeCapturarDiagonal | src/pieza/pieza.rs:89-98 | equals the binary copy's diagonal rule |
| PiezaAnidada.ReyPuedeCapturar | src/pieza/pieza.rs:102-114 | equals the binary copy's king rule |
| PiezaAnidada.PuedeCapturar | src/pieza/pieza.rs:29-44 | the two copies of `puede_capturar` agree on every pair of pieces |
| PiezaAnidada.CasosDePrueba | src/pieza/pieza.rs:123-170 | the seven unit tests: king, queen, bishop, same colour, knight, rook, pawn |
| Piezas.Color | src/pieza.rs:1-5 | datatype: the two colours, white and black |
| Piezas.Tipo | src/pieza.rs:21-28 | datatype: the six kinds, pawn, rook, knight, bishop, queen and king |
| Piezas.ResultadoCaptura | src/pieza.rs:14-19 | datatype: the four verdicts, only black, only white, both, neither |
| Piezas.Pieza | src/pieza.rs:7-39 | datatype: a colour, a kind, a row and a column; its constructor plays the part of `Pieza::new` |
| Tablero.AMinusculaAscii | src/funciones.rs:50 | `to_ascii_lowercase`: an upper-case ASCII letter moves 32 code points up to its lower case, every other character is unchanged, and no upper-case letter is left |
| Tablero.ColorDe | src/funciones.rs:45-49 | a lower-case letter gives white and anything else black, so every upper-case letter gives black |
| Tablero.TipoDe | src/funciones.rs:50-63 | the kinds of the letters p t c a d r in either case, and no kind for any other character; its properties are the ensures of `Tablero.TipoIgnoraMayusculas`, `Tablero.TipoDeMinuscula` and `Tablero.TablaDeCaracteres` |
| Tablero.TipoIgnoraMayusculas | src/funciones.rs:50-63 | only letters name a kind, and lowering a letter never changes the kind it names |
| Tablero.Clasificar | src/funciones.rs:36-63 | `_` and only `_` is an empty square, a space and only a space is skipped, and only letters are pieces (the full table is `Tablero.TablaDeCaracteres`) |
| Tablero.TipoDeMinuscula | src/funciones.rs:50-63 | matching the lowered letter gives the same kind as the table over both cases, for every character |
| Tablero.TablaDeCaracteres | src/funciones.rs:36-63 | `_` is empty, a space is skipped, exactly the twelve letters ptcadr/PTCADR are pieces, lower case is white, and each letter pair names its kind |
| Tablero.LineaHasta | src/funciones.rs:34-43 | proof helper, unfolding the reference description by one character: the `_` count grows only for `_`, and a piece character adds its piece at column 2 plus the `_` before it, and the prefix stays valid exactly when the new character is valid |
| Tablero.TableroHasta | src/funciones.rs:32-89 | proof helper, unfolding the reference description by one line: one more line, numbered by its position from 1, adds its pieces after those of the earlier lines |
| Funciones.Error | src/funciones.rs:17-95 | datatype: the library loader's five errors, file not opened (17-20), invalid character carrying the character and its row (58-61), two white pieces (68-71), two black pieces (78-81) and a missing piece (92-95) |
| Funciones.Paso | src/funciones.rs:36-86 | a step that succeeds leaves each flag set exactly when the list holds one piece of that colour |
| Funciones.EscanearLinea | src/funciones.rs:34-87 | scanning a line keeps the flags in agreement with the list |
| Funciones.EscanearLineas | src/funciones.rs:32-89 | scanning the lines keeps the flags in agreement with the list |
| Funciones.Escanear | src/funciones.rs:91-98 | a board that loads gives two pieces of different colours |
| Funciones.LeerTablero | src/funciones.rs:13-98 | an unopened file is an error; otherwise the loops with counters, flags, pushes and two `remove(0)` return exactly the result of the scan |
| Funciones.Captura | src/funciones.rs:103-118 | one of E N B P; E when each of `.0` and `.1` captures the other, N when only `.0` does, B when only `.1` does, P when neither does |
| Funciones.CasosDeCaptura | tests/integration_test.rs:37-67 | the four verdict tests give N, B, E and P |
| Funciones.ErrorPersisteLinea | src/funciones.rs:57-85 | once a line's scan fails, scanning more of the line returns the same error |
| Funciones.ErrorPersisteLineas | src/funciones.rs:57-85 | once the scan of some lines fails, scanning more lines returns the same error |
| Funciones.ErrorEnLinea | src/funciones.rs:57-85 | a failure within a line is the board's result |
| Funciones.CuentaCoherente | src/funciones.rs:66-85 | the flags count the list's pieces of each colour |
| Funciones.PasoFichas | src/funciones.rs:36-86 | one character succeeds exactly when valid with no colour repeated; the list then grows by its piece; an error names its cause |
| Funciones.DescribeErr | src/funciones.rs:57-85 | a failure stays justified when more text and pieces follow |
| Funciones.LineaPaso | src/funciones.rs:35-86 | the line characterisation extends by one character |
| Funciones.LineaPasoOk | src/funciones.rs:36-86 | the same, when the prefix scanned so far succeeded |
| Funciones.LineaPasoErr | src/funciones.rs:57-85 | the same, when the prefix scanned so far failed |
| Funciones.UltimoPaso | src/funciones.rs:35-86 | proof helper, unfolding the scan by one character: after a successful prefix, the next character is handled by one step at column counter 1 plus the `_` so far |
| Funciones.EscanearLineaFichas | src/funciones.rs:34-87 | scanning a line succeeds exactly when it is valid and no colour repeats, counting earlier lines, and then appends the line's pieces |
| Funciones.LineasPaso | src/funciones.rs:32-89 | the board characterisation extends by one line |
| Funciones.EscanearLineasFichas | src/funciones.rs:32-89 | the same for the first `n` lines; an invalid character is reported with the row it is on |
| Funciones.TableroCorrecto | src/funciones.rs:27-98 | loading succeeds exactly on valid text with one piece of each colour, and returns the board's pieces in reading order |
| Funciones.ErroresDelTablero | src/funciones.rs:57-96 | an invalid character is reported with its own row; a repeated colour occurs at least twice; the missing-piece error happens exactly on valid text with no colour repeated and one colour absent |
| Funciones.ColorRepetido | src/funciones.rs:66-85 | valid text with a colour twice fails with a duplicate-colour error, and with that colour's error (two white, two black) when only that colour is repeated |
| Funciones.PrefijoLinea | src/funciones.rs:35-86 | the scan of a line's prefix reads nothing after it |
| Funciones.PrefijoLineas | src/funciones.rs:33-89 | the scan of the first lines reads nothing after them |
| Funciones.LineaExtendida | src/funciones.rs:57-85 | a line that fails fails the same way whatever text follows on it |
| Funciones.ErrorEnLineaExtendida | src/funciones.rs:57-85 | boards that agree up to a failure point give the same error |
| Funciones.PrimerErrorGana | src/funciones.rs:57-85 | the first failure decides the result whatever follows on the same line and on later lines |
| Principal.Error | src/main.rs:16-74 | datatype: the binary loader's five errors, file not opened (16), invalid character carrying neither the character nor its row (49), two white pieces (56), two black pieces (63) and a missing piece (74) |
| Principal.Paso | src/main.rs:33-68 | a step that succeeds leaves each flag set exactly when its slot is filled, with a piece of that colour |
| Principal.EscanearLinea | src/main.rs:31-69 | scanning a line keeps flags and slots in agreement |
| Principal.EscanearLineas | src/main.rs:29-71 | scanning the lines keeps flags and slots in agreement |
| Principal.Escanear | src/main.rs:73-77 | a board that loads gives the black piece first and the white one second |
| Principal.LeerTablero | src/main.rs:12-77 | an unopened file is an error; otherwise the loops with counters, flags and `Option` slots return exactly the result of the scan |
| Principal.ErrorPersisteLinea | src/main.rs:48-67 | once a line's scan fails, scanning more of the line returns the same error |
| Principal.ErrorPersisteLineas | src/main.rs:48-67 | once the scan of some lines fails, scanning more lines returns the same error |
| Principal.ErrorEnLinea | src/main.rs:48-67 | a failure within a line is the board's result |
| Principal.Buscar | src/main.rs:23-24 | proof helper, mapping the library's list to the binary's slots: the piece found is in the list with the colour asked for; none is found only when the list has no piece of that colour |
| Principal.ProyeccionCoherente | src/main.rs:23-27 | proof helper: the library's list with its flags gives slots and flags in agreement |
| Principal.BuscarTrasPush | src/main.rs:59-66 | proof helper: adding a piece of a missing colour fills that colour's slot and leaves the other |
| Principal.PasoCorresponde | src/main.rs:33-68 | proof helper, relating the two loaders by one character: one character does to the slots what the library's step does to the list, with the same errors bar their payload |
| Principal.LineaCorresponde | src/main.rs:31-69 | a line's scan agrees with the library's |
| Principal.LineasCorresponde | src/main.rs:29-71 | the scan of the lines agrees with the library's |
| Principal.EscanearCorresponde | src/main.rs:73-77 | the two loaders fail on the same boards with the same error, and on success return the same pieces, the binary's black first |
| Principal.TableroCorrecto | src/main.rs:23-77 | loading succeeds exactly on valid text with one piece of each colour; the pair is the board's two pieces |
| Principal.ErroresDelTablero | src/main.rs:41-75 | an invalid-character error means invalid text; a repeated colour occurs at least twice; pieces are missing exactly on valid text with no colour repeated and one colour absent; an open error never comes from the scan |
| Principal.Captura | src/main.rs:80-95 | Ambas, Negra, Blanca or Ninguna according as both, only black, only white or neither can capture |
| Principal.Letra | src/main.rs:118-131 | always one of E N B P |
| Principal.LetraCaptura | src/main.rs:118-131 | the enum verdict's letter is the library's char verdict, and that letter belongs to that verdict alone |
| Principal.Salida | src/main.rs:108-131 | the binary prints a letter exactly when the board loads, and that letter is the library's verdict on the black-first pair; otherwise the loader's own error is what is reported |
| Principal.NegraLeidaPrimero | src/funciones.rs:98-107 | when the black piece is read first, the library's loader and verdict print what the binary prints |
| Principal.BlancaLeidaPrimero | src/funciones.rs:98-107 | when the white piece is read first, the library's composition prints N and B exchanged |
| Principal.ReyJuntoAPeon | src/funciones.rs:98-107 | on the board `r_P` the library's composition gives N and the binary gives B |

## Left out

- File access (src/funciones.rs:14-25, src/main.rs:13-21) is only an input. An unopened file is `None`. A failed `read_to_string` is not modelled.
- `str::lines()` is not modelled: the board comes in already split into lines.
- `char::is_lowercase` is restricted to ASCII. A non-ASCII character fails the kind match whichever colour it gets, so no result differs.
- The `usize as i32` casts in the capture rules wrap for coordinates of 2^31 and above. Coordinates here are unbounded naturals.
- Error messages and `io::ErrorKind` are not modelled. Each error is a constructor. The library's invalid-character error keeps the character and the row it prints. The binary's keeps neither, because its message has neither.
- The rest of `main` (src/main.rs:97-116) is not modelled: the argument-count check and the printing. `Principal.Salida` is what it prints.
- `src/pieza/color.rs` and `src/pieza/tipo.rs` are not part of this model. Both copies share one `Pieza` datatype, on the assumption that those enumerations are the ones in src/pieza.rs:1-28.
- The board files `tablero_test*.txt` are not part of this model, so the file-loading tests (tests/integration_test.rs:7-35) are not restated. Their error and success cases are covered by `Funciones.TableroCorrecto` and `Funciones.ErroresDelTablero`.
- Tablero.TipoDe: the table is written over both cases of each letter and states its properties in `Tablero.TipoIgnoraMayusculas`, not in its own ensures. The source's "lower the letter, then match" form is `Tablero.TipoDeMinuscula`, proved equal for every character.

## Findings

| source | as written | input that shows it | evidently intended | confidence | as-written member | corrected member |
|---|---|---|---|---|---|---|
| src/funciones.rs:98 | `leer_tablero` returns the two pieces in the order they were read, while `captura` (src/funciones.rs:104-105) takes `.0` as the black piece | `r_P`: a white king at (1, 2) and a black pawn at (1, 3). Only the king can capture, yet the library's composition gives N | the pair is black first, as the binary's copy returns it (src/main.rs:77), so the verdict is B | medium, not executed | Funciones.LeerTablero, with Principal.BlancaLeidaPrimero and Principal.ReyJuntoAPeon | Principal.LeerTablero, with Principal.Escanear and Principal.NegraLeidaPrimero |
