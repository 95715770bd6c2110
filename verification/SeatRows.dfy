/**
 The row generator (domain/seating/generator.go): which chairs a block has, in what order, and what
 is printed on them. Where they stand is geometry and is not here; an arc's seats per row, which
 its geometry decides, are given.
 */
module SeatRows {
  import opened Results
  import opened Text

  /** The house's row letters: no I, no O. */
  const ROW_LETTERS := "ABCDEFGHJKLMNPQRSTUVWXYZ"
  const LETTERS := 24

  datatype Numbering = Sequential | OddEven

  datatype SeatKind = Standard | Wheelchair | Companion | ReducedMobility | Obese | UnknownKind

  datatype Seat = Seat(section: string, rowLabel: string, seatLabel: string, rowOrder: nat, seatOrder: nat, kind: SeatKind)

  /**
   A block of rows. `perRow` lists the seats of each row, all the same for a linear block.
   `firstRow` is the text of the first row's name; `firstNumber` is what it reads as, if a number.
   */
  datatype RowSpec = RowSpec(
    perRow: seq<nat>, lettered: bool, firstRow: string, firstNumber: Option<int>,
    numbering: Numbering, skips: seq<int>, kinds: map<string, SeatKind>)

  datatype SpecError = ErrInvalidSection | ErrEmptyBlock | ErrTooManyRows | ErrNotARowLetter | ErrPastTheLastLetter
                     | ErrNotARowNumber | ErrInvalidSeatKind | ErrEverySeatSkipped

  function SeatKindKey(rowLabel: string, seatLabel: string): string { rowLabel + "/" + seatLabel }

  // ------------------------------------------------------------------ labels

  lemma {:induction false} LettersRise(a: nat, b: nat)
    requires a < b < LETTERS
    ensures ROW_LETTERS[a] < ROW_LETTERS[b]
  {
    if a + 1 < b {
      LettersRise(a, b - 1);
    }
    assert ROW_LETTERS[b - 1] < ROW_LETTERS[b];
  }

  function RowName(index: nat, lettered: bool): string
    requires lettered ==> index < LETTERS
  {
    if lettered then [ROW_LETTERS[index]] else Itoa(index + 1)
  }

  lemma {:induction false} RowNamesDiffer(a: nat, b: nat, lettered: bool)
    requires a != b && (lettered ==> a < LETTERS && b < LETTERS)
    ensures RowName(a, lettered) != RowName(b, lettered)
  {
    if lettered {
      if a < b {
        LettersRise(a, b);
      } else {
        LettersRise(b, a);
      }
    } else if Itoa(a + 1) == Itoa(b + 1) {
      ItoaInjective(a + 1, b + 1);
    }
  }

  /** Sequential, or outward from the middle: odd to the left, even to the right. */
  function Number(numbering: Numbering, position: nat, perRow: nat): (n: nat)
    requires 1 <= position <= perRow
    ensures n >= 1
  {
    if numbering.Sequential? then position
    else if position <= perRow / 2 then (perRow / 2 - position) * 2 + 1
    else (position - perRow / 2) * 2
  }

  function Label(numbering: Numbering, position: nat, perRow: nat): string
    requires 1 <= position <= perRow
  {
    Itoa(Number(numbering, position, perRow))
  }

  /** No number is given twice in a row, under either numbering. */
  lemma {:induction false} NumbersDiffer(numbering: Numbering, p: nat, q: nat, perRow: nat)
    requires 1 <= p < q <= perRow
    ensures Number(numbering, p, perRow) != Number(numbering, q, perRow)
    ensures Label(numbering, p, perRow) != Label(numbering, q, perRow)
  {
    var a, b := Number(numbering, p, perRow), Number(numbering, q, perRow);
    if a == b {
      OddIsNotEven(perRow / 2 - p, q - perRow / 2);
    }
    if Itoa(a) == Itoa(b) {
      ItoaInjective(a, b);
    }
  }

  lemma {:induction false} OddIsNotEven(x: int, y: int)
    ensures x * 2 + 1 != y * 2
  {
  }

  /** The position that gets an odd/even number in a row of even length. */
  function PositionOf(n: nat, perRow: nat): int {
    if n % 2 == 1 then perRow / 2 - (n - 1) / 2 else perRow / 2 + n / 2
  }

  /** Odd/even numbers of an even row are 1 to its length, each once; an odd row skips its length and reaches one past it. */
  lemma {:induction false} OddEvenIsOntoExactlyForEvenRows(perRow: nat)
    requires perRow > 0
    ensures (forall p | 1 <= p <= perRow :: Number(OddEven, p, perRow) <= perRow) <==> perRow % 2 == 0
    ensures perRow % 2 == 0 ==> forall n | 1 <= n <= perRow ::
              1 <= PositionOf(n, perRow) <= perRow && Number(OddEven, PositionOf(n, perRow), perRow) == n
    ensures perRow % 2 == 1 ==> Number(OddEven, perRow, perRow) == perRow + 1
    ensures perRow % 2 == 1 ==> forall p | 1 <= p <= perRow :: Number(OddEven, p, perRow) != perRow
  {
    var half := perRow / 2;
    if perRow % 2 == 0 {
      assert perRow == 2 * half;
    } else {
      assert perRow == 2 * half + 1;
      assert Number(OddEven, perRow, perRow) == perRow + 1;
    }
  }

  // ------------------------------------------------------------------- block

  function KindAt(kinds: map<string, SeatKind>, rowLabel: string, seatLabel: string): SeatKind {
    var key := SeatKindKey(rowLabel, seatLabel);
    if key in kinds then kinds[key] else Standard
  }

  function SeatAt(section: string, spec: RowSpec, start: nat, row: nat, position: nat): Seat
    requires row < |spec.perRow| && 1 <= position <= spec.perRow[row]
    requires spec.lettered ==> start + row < LETTERS
  {
    var rowLabel, seatLabel := RowName(start + row, spec.lettered), Label(spec.numbering, position, spec.perRow[row]);
    Seat(section, rowLabel, seatLabel, row, position, KindAt(spec.kinds, rowLabel, seatLabel))
  }

  /** The seats of one row up to a position, the skipped ones left out. */
  function RowUpTo(section: string, spec: RowSpec, start: nat, row: nat, n: nat): seq<Seat>
    requires row < |spec.perRow| && n <= spec.perRow[row]
    requires spec.lettered ==> start + row < LETTERS
  {
    if n == 0 then []
    else
      RowUpTo(section, spec, start, row, n - 1)
      + if n in spec.skips then [] else [SeatAt(section, spec, start, row, n)]
  }

  function Block(section: string, spec: RowSpec, start: nat, rows: nat): seq<Seat>
    requires rows <= |spec.perRow| && (spec.lettered ==> start + rows <= LETTERS)
  {
    if rows == 0 then []
    else Block(section, spec, start, rows - 1) + RowUpTo(section, spec, start, rows - 1, spec.perRow[rows - 1])
  }

  // --------------------------------------------------------------- where rows start

  predicate OccursAt(sub: string, s: string, k: nat) {
    k + |sub| <= |s| && s[k..k + |sub|] == sub
  }

  /** `strings.Index`: the first place `sub` occurs, or -1. */
  function IndexFrom(sub: string, s: string, k: nat): int
    decreases |s| - k
  {
    if OccursAt(sub, s, k) then k else if k >= |s| then -1 else IndexFrom(sub, s, k + 1)
  }

  /** The offset of the first row, or what is wrong with its name. */
  function StartOf(spec: RowSpec): (r: Result<nat, SpecError>)
    ensures r.Ok? && spec.lettered ==> r.value + |spec.perRow| <= LETTERS
  {
    var rows := |spec.perRow|;
    if spec.lettered then
      var letter := ToUpper(Trim(spec.firstRow));
      if rows > LETTERS then Err(ErrTooManyRows)
      else if letter == "" then Ok(0)
      else
        var start := IndexFrom(letter, ROW_LETTERS, 0);
        if start < 0 then Err(ErrNotARowLetter)
        else if start + rows > LETTERS then Err(ErrPastTheLastLetter)
        else Ok(start)
    else if Trim(spec.firstRow) == "" then Ok(0)
    else if spec.firstNumber.None? || spec.firstNumber.value < 1 then Err(ErrNotARowNumber)
    else Ok(spec.firstNumber.value - 1)
  }

  ghost predicate KnownKinds(seats: seq<Seat>) {
    forall k | 0 <= k < |seats| :: !seats[k].kind.UnknownKind?
  }

  /** What a spec asks for: its block, or the first thing wrong with it. */
  ghost function Asked(section: string, spec: RowSpec): Result<seq<Seat>, SpecError> {
    if Trim(section) == "" then Err(ErrInvalidSection)
    else if spec.perRow == [] || spec.perRow[0] == 0 then Err(ErrEmptyBlock)
    else
      match StartOf(spec)
      case Err(e) => Err(e)
      case Ok(start) =>
        var seats := Block(section, spec, start, |spec.perRow|);
        if !KnownKinds(seats) then Err(ErrInvalidSeatKind)
        else if seats == [] then Err(ErrEverySeatSkipped)
        else Ok(seats)
  }

  lemma {:induction false} BlockGrows(section: string, spec: RowSpec, start: nat, rows: nat, more: nat)
    requires rows <= more <= |spec.perRow| && (spec.lettered ==> start + more <= LETTERS)
    ensures Block(section, spec, start, rows) <= Block(section, spec, start, more)
  {
    if rows < more {
      BlockGrows(section, spec, start, rows, more - 1);
    }
  }

  lemma {:induction false} RowGrows(section: string, spec: RowSpec, start: nat, row: nat, n: nat, more: nat)
    requires row < |spec.perRow| && n <= more <= spec.perRow[row] && (spec.lettered ==> start + row < LETTERS)
    ensures RowUpTo(section, spec, start, row, n) <= RowUpTo(section, spec, start, row, more)
  {
    if n < more {
      RowGrows(section, spec, start, row, n, more - 1);
    }
  }

  /** One row of the source's loop; it stops at a kind nobody knows. */
  method GenerateRow(section: string, spec: RowSpec, start: nat, row: nat) returns (seats: seq<Seat>, ok: bool)
    requires row < |spec.perRow| && (spec.lettered ==> start + row < LETTERS)
    ensures ok == KnownKinds(RowUpTo(section, spec, start, row, spec.perRow[row]))
    ensures ok ==> seats == RowUpTo(section, spec, start, row, spec.perRow[row])
  {
    var rowLabel := RowName(start + row, spec.lettered);
    seats := [];
    for position := 1 to spec.perRow[row] + 1
      invariant seats == RowUpTo(section, spec, start, row, position - 1) && KnownKinds(seats)
    {
      if position in spec.skips {
        continue;
      }
      var seatLabel := Label(spec.numbering, position, spec.perRow[row]);
      var kind := Standard;
      var key := SeatKindKey(rowLabel, seatLabel);
      if key in spec.kinds {
        kind := spec.kinds[key];
        if kind.UnknownKind? {
          RowGrows(section, spec, start, row, position, spec.perRow[row]);
          assert RowUpTo(section, spec, start, row, spec.perRow[row])[|seats|].kind == kind;
          return seats, false;
        }
      }
      seats := seats + [Seat(section, rowLabel, seatLabel, row, position, kind)];
    }
    return seats, true;
  }

  method Generate(section: string, spec: RowSpec) returns (r: Result<seq<Seat>, SpecError>)
    ensures r == Asked(section, spec)
  {
    if Trim(section) == "" {
      return Err(ErrInvalidSection);
    }
    if |spec.perRow| == 0 || spec.perRow[0] == 0 {
      return Err(ErrEmptyBlock);
    }
    var first := StartOf(spec);
    if first.Err? {
      return Err(first.error);
    }
    var seats := [];
    for row := 0 to |spec.perRow|
      invariant seats == Block(section, spec, first.value, row) && KnownKinds(seats)
    {
      var more, ok := GenerateRow(section, spec, first.value, row);
      if !ok {
        UnknownInRow(section, spec, first.value, row);
        return Err(ErrInvalidSeatKind);
      }
      seats := seats + more;
    }
    if |seats| == 0 {
      return Err(ErrEverySeatSkipped);
    }
    return Ok(seats);
  }

  lemma {:induction false} UnknownInRow(section: string, spec: RowSpec, start: nat, row: nat)
    requires row < |spec.perRow| && (spec.lettered ==> start + |spec.perRow| <= LETTERS)
    requires !KnownKinds(RowUpTo(section, spec, start, row, spec.perRow[row]))
    ensures !KnownKinds(Block(section, spec, start, |spec.perRow|))
  {
    var before, own := Block(section, spec, start, row), RowUpTo(section, spec, start, row, spec.perRow[row]);
    BlockGrows(section, spec, start, row + 1, |spec.perRow|);
    var k :| 0 <= k < |own| && own[k].kind.UnknownKind?;
    assert Block(section, spec, start, |spec.perRow|)[|before| + k] == own[k];
  }

  // --------------------------------------------------------------- theorems

  lemma {:induction false} SeatInRow(section: string, spec: RowSpec, start: nat, row: nat, n: nat, k: nat)
    requires row < |spec.perRow| && n <= spec.perRow[row] && (spec.lettered ==> start + row < LETTERS)
    requires k < |RowUpTo(section, spec, start, row, n)|
    ensures var seat := RowUpTo(section, spec, start, row, n)[k];
            && 1 <= seat.seatOrder <= n && seat.seatOrder !in spec.skips
            && seat == SeatAt(section, spec, start, row, seat.seatOrder)
  {
    if k < |RowUpTo(section, spec, start, row, n - 1)| {
      SeatInRow(section, spec, start, row, n - 1, k);
    }
  }

  lemma {:induction false} SeatInBlock(section: string, spec: RowSpec, start: nat, rows: nat, k: nat)
    requires rows <= |spec.perRow| && (spec.lettered ==> start + rows <= LETTERS)
    requires k < |Block(section, spec, start, rows)|
    ensures var seat := Block(section, spec, start, rows)[k];
            && seat.rowOrder < rows && 1 <= seat.seatOrder <= spec.perRow[seat.rowOrder]
            && seat == SeatAt(section, spec, start, seat.rowOrder, seat.seatOrder)
  {
    var m := |Block(section, spec, start, rows - 1)|;
    if k < m {
      SeatInBlock(section, spec, start, rows - 1, k);
    } else {
      SeatInRow(section, spec, start, rows - 1, spec.perRow[rows - 1], k - m);
    }
  }

  lemma {:induction false} RowIsOrdered(section: string, spec: RowSpec, start: nat, row: nat, n: nat, j: nat, k: nat)
    requires row < |spec.perRow| && n <= spec.perRow[row] && (spec.lettered ==> start + row < LETTERS)
    requires j < k < |RowUpTo(section, spec, start, row, n)|
    ensures RowUpTo(section, spec, start, row, n)[j].seatOrder < RowUpTo(section, spec, start, row, n)[k].seatOrder
  {
    var m := |RowUpTo(section, spec, start, row, n - 1)|;
    if k < m {
      RowIsOrdered(section, spec, start, row, n - 1, j, k);
    } else {
      SeatInRow(section, spec, start, row, n - 1, j);
    }
  }

  predicate Earlier(a: Seat, b: Seat) {
    a.rowOrder < b.rowOrder || (a.rowOrder == b.rowOrder && a.seatOrder < b.seatOrder)
  }

  lemma {:induction false} InLastRow(section: string, spec: RowSpec, start: nat, rows: nat, k: nat)
    requires 0 < rows <= |spec.perRow| && (spec.lettered ==> start + rows <= LETTERS)
    requires |Block(section, spec, start, rows - 1)| <= k < |Block(section, spec, start, rows)|
    ensures var own := RowUpTo(section, spec, start, rows - 1, spec.perRow[rows - 1]);
            var m := |Block(section, spec, start, rows - 1)|;
            k - m < |own| && Block(section, spec, start, rows)[k] == own[k - m] && own[k - m].rowOrder == rows - 1
  {
    SeatInRow(section, spec, start, rows - 1, spec.perRow[rows - 1], k - |Block(section, spec, start, rows - 1)|);
  }

  /** Every block lists its seats row by row, each row in position order, no place twice. */
  lemma {:induction false} BlockIsOrdered(section: string, spec: RowSpec, start: nat, rows: nat, j: nat, k: nat)
    requires rows <= |spec.perRow| && (spec.lettered ==> start + rows <= LETTERS)
    requires j < k < |Block(section, spec, start, rows)|
    ensures Earlier(Block(section, spec, start, rows)[j], Block(section, spec, start, rows)[k])
  {
    var before := Block(section, spec, start, rows - 1);
    if k < |before| {
      BlockIsOrdered(section, spec, start, rows - 1, j, k);
    } else {
      InLastRow(section, spec, start, rows, k);
      if j < |before| {
        SeatInBlock(section, spec, start, rows - 1, j);
        assert Block(section, spec, start, rows)[j] == before[j];
      } else {
        InLastRow(section, spec, start, rows, j);
        RowIsOrdered(section, spec, start, rows - 1, spec.perRow[rows - 1], j - |before|, k - |before|);
      }
    }
  }

  /** No two chairs of a block carry the same row and seat label, whatever the shape or numbering. */
  lemma {:induction false} LabelsAreDistinct(section: string, spec: RowSpec, start: nat, rows: nat, j: nat, k: nat)
    requires rows <= |spec.perRow| && (spec.lettered ==> start + rows <= LETTERS)
    requires j < k < |Block(section, spec, start, rows)|
    ensures var (a, b) := (Block(section, spec, start, rows)[j], Block(section, spec, start, rows)[k]);
            a.rowLabel != b.rowLabel || a.seatLabel != b.seatLabel
  {
    var a, b := Block(section, spec, start, rows)[j], Block(section, spec, start, rows)[k];
    SeatInBlock(section, spec, start, rows, j);
    SeatInBlock(section, spec, start, rows, k);
    BlockIsOrdered(section, spec, start, rows, j, k);
    if a.rowOrder < b.rowOrder {
      RowNamesDiffer(start + a.rowOrder, start + b.rowOrder, spec.lettered);
    } else {
      NumbersDiffer(spec.numbering, a.seatOrder, b.seatOrder, spec.perRow[a.rowOrder]);
    }
  }

  /** The positions of a row that are not skipped. */
  function Unskipped(skips: seq<int>, n: nat): nat {
    if n == 0 then 0 else Unskipped(skips, n - 1) + if n in skips then 0 else 1
  }

  lemma {:induction false} RowCounts(section: string, spec: RowSpec, start: nat, row: nat, n: nat)
    requires row < |spec.perRow| && n <= spec.perRow[row] && (spec.lettered ==> start + row < LETTERS)
    ensures |RowUpTo(section, spec, start, row, n)| == Unskipped(spec.skips, n)
  {
    if n > 0 {
      RowCounts(section, spec, start, row, n - 1);
    }
  }

  /** A linear block has its rows times the positions nobody skipped. */
  lemma {:induction false} LinearBlockCounts(section: string, spec: RowSpec, start: nat, rows: nat, perRow: nat)
    requires rows <= |spec.perRow| && (spec.lettered ==> start + rows <= LETTERS)
    requires forall row | 0 <= row < rows :: spec.perRow[row] == perRow
    ensures |Block(section, spec, start, rows)| == rows * Unskipped(spec.skips, perRow)
  {
    if rows > 0 {
      LinearBlockCounts(section, spec, start, rows - 1, perRow);
      RowCounts(section, spec, start, rows - 1, perRow);
      OneMoreTime(rows - 1, Unskipped(spec.skips, perRow));
    }
  }

  lemma {:induction false} OneMoreTime(n: nat, x: nat)
    ensures (n + 1) * x == n * x + x
  {
  }

  /** What `Generate` returns: seats in order, no two under one key. */
  lemma {:induction false} GeneratedBlocks(section: string, spec: RowSpec, j: nat, k: nat)
    requires Asked(section, spec).Ok? && j < k < |Asked(section, spec).value|
    ensures Earlier(Asked(section, spec).value[j], Asked(section, spec).value[k])
    ensures KeyOf(Asked(section, spec).value[j]) != KeyOf(Asked(section, spec).value[k])
  {
    var start, rows := StartOf(spec).value, |spec.perRow|;
    BlockIsOrdered(section, spec, start, rows, j, k);
    KeysAreDistinct(section, spec, start, rows, j, k);
  }

  function KeyOf(seat: Seat): string { SeatKindKey(seat.rowLabel, seat.seatLabel) }

  lemma {:induction false} KeysAreDistinct(section: string, spec: RowSpec, start: nat, rows: nat, j: nat, k: nat)
    requires rows <= |spec.perRow| && (spec.lettered ==> start + rows <= LETTERS)
    requires j < k < |Block(section, spec, start, rows)|
    ensures KeyOf(Block(section, spec, start, rows)[j]) != KeyOf(Block(section, spec, start, rows)[k])
  {
    var a, b := Block(section, spec, start, rows)[j], Block(section, spec, start, rows)[k];
    LabelsAreDistinct(section, spec, start, rows, j, k);
    SeatInBlock(section, spec, start, rows, j);
    SeatInBlock(section, spec, start, rows, k);
    RowNameIsPlain(start + a.rowOrder, spec.lettered);
    RowNameIsPlain(start + b.rowOrder, spec.lettered);
    if KeyOf(a) == KeyOf(b) {
      KeysSplit(a.rowLabel, a.seatLabel, b.rowLabel, b.seatLabel);
    }
  }

  lemma {:induction false} NoSlashBefore(row: string, seat: string)
    requires '/' !in row
    ensures forall k | 0 <= k < |row| :: SeatKindKey(row, seat)[k] != '/'
    ensures SeatKindKey(row, seat)[|row|] == '/'
  {
    assert forall k | 0 <= k < |row| :: SeatKindKey(row, seat)[k] == row[k];
  }

  /** A key is read back into its two labels, since a row's name has no slash. */
  lemma {:induction false} KeysSplit(row1: string, seat1: string, row2: string, seat2: string)
    requires SeatKindKey(row1, seat1) == SeatKindKey(row2, seat2) && '/' !in row1 && '/' !in row2
    ensures row1 == row2 && seat1 == seat2
  {
    var key := SeatKindKey(row1, seat1);
    NoSlashBefore(row1, seat1);
    NoSlashBefore(row2, seat2);
    assert !(|row1| < |row2|) && !(|row2| < |row1|);
    assert row1 == key[..|row1|] && row2 == key[..|row2|];
    assert seat1 == key[|row1| + 1..] && seat2 == key[|row2| + 1..];
  }

  lemma {:induction false} RowNameIsPlain(index: nat, lettered: bool)
    requires lettered ==> index < LETTERS
    ensures '/' !in RowName(index, lettered)
  {
    if !lettered {
      NumeralIsPlain(index + 1);
    }
  }

  lemma {:induction false} NumeralIsPlain(n: nat)
    ensures '/' !in Itoa(n)
  {
    if n >= 10 {
      NumeralIsPlain(n / 10);
    }
  }

  // ------------------------------------------------------- first row letters

  /** The search finds the first place, or there is none. */
  lemma {:induction false} IndexIsFirst(sub: string, s: string, k: nat)
    requires k <= |s|
    ensures var r := IndexFrom(sub, s, k);
            if r < 0 then forall j | k <= j :: !OccursAt(sub, s, j)
            else k <= r && OccursAt(sub, s, r)
    decreases |s| - k
  {
    if !OccursAt(sub, s, k) && k < |s| {
      IndexIsFirst(sub, s, k + 1);
    }
  }

  /** The letters all differ, so a text is found in one place only. */
  lemma {:induction false} OccursOnce(text: string, j: nat, k: nat)
    requires text != "" && OccursAt(text, ROW_LETTERS, j) && OccursAt(text, ROW_LETTERS, k)
    ensures j == k
  {
    assert ROW_LETTERS[j..j + |text|][0] == ROW_LETTERS[k..k + |text|][0];
    if j < k {
      LettersRise(j, k);
    } else if k < j {
      LettersRise(k, j);
    }
  }

  /** The text a first row is asked for by, as the source reads it. */
  function FirstRow(spec: RowSpec): string { ToUpper(Trim(spec.firstRow)) }

  /** There is a row letter the text starts at with enough letters left. */
  ghost predicate Fits(text: string, rows: nat) {
    exists k :: 0 <= k && OccursAt(text, ROW_LETTERS, k) && k + rows <= LETTERS
  }

  /**
   A lettered first row is accepted exactly when it is blank or any run of consecutive row letters, with
   letters left for every row; and the first row is then named what was asked for exactly when that
   was a single letter. A first row of "JK" starts at J.
   */
  lemma {:induction false} FirstRowIsAnyRunOfLetters(spec: RowSpec)
    requires spec.lettered
    ensures StartOf(spec).Ok? <==>
              |spec.perRow| <= LETTERS && (FirstRow(spec) == "" || Fits(FirstRow(spec), |spec.perRow|))
    ensures StartOf(spec).Ok? ==>
              if FirstRow(spec) == "" then StartOf(spec).value == 0
              else OccursAt(FirstRow(spec), ROW_LETTERS, StartOf(spec).value)
    ensures StartOf(spec).Ok? && spec.perRow != [] && FirstRow(spec) != "" ==>
              (RowName(StartOf(spec).value, true) == FirstRow(spec) <==> |FirstRow(spec)| == 1)
  {
    var text := FirstRow(spec);
    if text != "" {
      var r := IndexFrom(text, ROW_LETTERS, 0);
      IndexIsFirst(text, ROW_LETTERS, 0);
      if r >= 0 {
        forall k | 0 <= k && OccursAt(text, ROW_LETTERS, k)
          ensures k == r
        {
          OccursOnce(text, k, r);
        }
        assert ROW_LETTERS[r..r + |text|][0] == text[0];
      }
    }
  }
}
