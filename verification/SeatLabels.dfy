/**
 What is printed on the chairs of a block, and which chairs it has, said of each chair by itself.
 (domain/seating/generator.go)
 */
module SeatLabels {
  import opened Results
  import opened Text
  import opened SeatRows

  // ---------------------------------------------------------------- numbering

  /**
   Odd and even numbers start at one and two on either side of the middle and go up by two with every chair
   further out; sequential ones go up by one from the first chair.
   */
  lemma {:induction false} OutwardFromTheMiddle(perRow: nat, p: nat)
    requires 1 <= p <= perRow
    ensures p == perRow / 2 ==> Number(OddEven, p, perRow) == 1
    ensures p == perRow / 2 + 1 ==> Number(OddEven, p, perRow) == 2
    ensures 1 < p <= perRow / 2 ==> Number(OddEven, p - 1, perRow) == Number(OddEven, p, perRow) + 2
    ensures perRow / 2 < p < perRow ==> Number(OddEven, p + 1, perRow) == Number(OddEven, p, perRow) + 2
    ensures Number(Sequential, 1, perRow) == 1
    ensures p < perRow ==> Number(Sequential, p + 1, perRow) == Number(Sequential, p, perRow) + 1
  {
  }

  // --------------------------------------------------------------- each chair

  /** The name of a row, `n` rows into the block. */
  ghost predicate IsRowName(spec: RowSpec, name: string, n: nat) {
    if spec.lettered then
      exists k: nat ::
        && k + n < 24 && name == ["ABCDEFGHJKLMNPQRSTUVWXYZ"[k + n]]
        && StartsAtLetter(spec, k)
    else
      ReadNumeral(name) == n + (if Trim(spec.firstRow) == "" then 1 else if spec.firstNumber.Some? then spec.firstNumber.value else 0)
  }

  /** A blank first row is A; any other is the letter it begins with. */
  predicate StartsAtLetter(spec: RowSpec, k: nat) {
    if Trim(spec.firstRow) == "" then k == 0 else k < 24 && Upper(Trim(spec.firstRow)[0]) == "ABCDEFGHJKLMNPQRSTUVWXYZ"[k]
  }

  /** The number printed on the chair at a position, under either numbering. */
  predicate IsNumbered(spec: RowSpec, name: string, position: nat, perRow: nat) {
    ReadNumeral(name)
    == if spec.numbering.Sequential? then position
       else if position <= perRow / 2 then 2 * (perRow / 2 - position) + 1
       else 2 * (position - perRow / 2)
  }

  /** A chair of the block: in place, not skipped, named and numbered, and of the kind its key was given. */
  ghost predicate IsChairOf(section: string, spec: RowSpec, seat: Seat) {
    && seat.section == section && seat.rowOrder < |spec.perRow|
    && 1 <= seat.seatOrder <= spec.perRow[seat.rowOrder] && seat.seatOrder !in spec.skips
    && IsRowName(spec, seat.rowLabel, seat.rowOrder)
    && IsNumbered(spec, seat.seatLabel, seat.seatOrder, spec.perRow[seat.rowOrder])
    && (var key := seat.rowLabel + "/" + seat.seatLabel;
        seat.kind == if key in spec.kinds then spec.kinds[key] else Standard)
  }

  lemma {:induction false} ToUpperFirst(text: string)
    requires text != ""
    ensures ToUpper(text) != "" && ToUpper(text)[0] == Upper(text[0])
  {
  }

  lemma {:induction false} RowNameIs(spec: RowSpec, row: nat)
    requires StartOf(spec).Ok? && row < |spec.perRow|
    ensures IsRowName(spec, RowName(StartOf(spec).value + row, spec.lettered), row)
  {
    var start := StartOf(spec).value;
    if spec.lettered {
      FirstRowIsAnyRunOfLetters(spec);
      var text := Trim(spec.firstRow);
      if text != "" {
        ToUpperFirst(text);
        assert ROW_LETTERS[start..start + |text|][0] == Upper(text[0]);
      }
      assert StartsAtLetter(spec, start);
    } else {
      ItoaReadsBack(start + row + 1);
    }
  }

  lemma {:induction false} NotSkipped(section: string, spec: RowSpec, start: nat, rows: nat, k: nat)
    requires rows <= |spec.perRow| && (spec.lettered ==> start + rows <= LETTERS)
    requires k < |Block(section, spec, start, rows)|
    ensures Block(section, spec, start, rows)[k].seatOrder !in spec.skips
  {
    var m := |Block(section, spec, start, rows - 1)|;
    if k < m {
      NotSkipped(section, spec, start, rows - 1, k);
    } else {
      SeatInRow(section, spec, start, rows - 1, spec.perRow[rows - 1], k - m);
    }
  }

  /** Every chair generated is one the spec asks for, labelled as it asks. */
  lemma {:induction false} EveryChairIsAsked(section: string, spec: RowSpec, k: nat)
    requires Asked(section, spec).Ok? && k < |Asked(section, spec).value|
    ensures IsChairOf(section, spec, Asked(section, spec).value[k])
  {
    var start := StartOf(spec).value;
    var seat := Asked(section, spec).value[k];
    SeatInBlock(section, spec, start, |spec.perRow|, k);
    NotSkipped(section, spec, start, |spec.perRow|, k);
    RowNameIs(spec, seat.rowOrder);
    ItoaReadsBack(Number(spec.numbering, seat.seatOrder, spec.perRow[seat.rowOrder]));
  }

  // -------------------------------------------------------------- every place

  lemma {:induction false} PlaceInRow(section: string, spec: RowSpec, start: nat, row: nat, n: nat, position: nat) returns (k: nat)
    requires row < |spec.perRow| && n <= spec.perRow[row] && (spec.lettered ==> start + row < LETTERS)
    requires 1 <= position <= n && position !in spec.skips
    ensures k < |RowUpTo(section, spec, start, row, n)|
    ensures RowUpTo(section, spec, start, row, n)[k] == SeatAt(section, spec, start, row, position)
  {
    if position == n {
      k := |RowUpTo(section, spec, start, row, n - 1)|;
    } else {
      k := PlaceInRow(section, spec, start, row, n - 1, position);
    }
  }

  lemma {:induction false} PlaceInBlock(section: string, spec: RowSpec, start: nat, rows: nat, row: nat, position: nat) returns (k: nat)
    requires row < rows <= |spec.perRow| && (spec.lettered ==> start + rows <= LETTERS)
    requires 1 <= position <= spec.perRow[row] && position !in spec.skips
    ensures k < |Block(section, spec, start, rows)|
    ensures Block(section, spec, start, rows)[k] == SeatAt(section, spec, start, row, position)
  {
    if row == rows - 1 {
      k := PlaceInRow(section, spec, start, row, spec.perRow[row], position);
      k := |Block(section, spec, start, rows - 1)| + k;
    } else {
      k := PlaceInBlock(section, spec, start, rows - 1, row, position);
    }
  }

  /** And every place nobody skipped has its chair. */
  lemma {:induction false} EveryPlaceHasItsChair(section: string, spec: RowSpec, row: nat, position: nat) returns (k: nat)
    requires Asked(section, spec).Ok? && row < |spec.perRow|
    requires 1 <= position <= spec.perRow[row] && position !in spec.skips
    ensures k < |Asked(section, spec).value|
    ensures Asked(section, spec).value[k].rowOrder == row && Asked(section, spec).value[k].seatOrder == position
  {
    k := PlaceInBlock(section, spec, StartOf(spec).value, |spec.perRow|, row, position);
  }

  // ------------------------------------------------------------ when it is made

  /** The first row can be named so, and there are names for the others. */
  ghost predicate RowsCanBeNamed(spec: RowSpec) {
    if spec.lettered then
      && |spec.perRow| <= 24
      && (Trim(spec.firstRow) == "" || Fits(ToUpper(Trim(spec.firstRow)), |spec.perRow|))
    else Trim(spec.firstRow) == "" || (spec.firstNumber.Some? && spec.firstNumber.value >= 1)
  }

  /** Some place is left. */
  ghost predicate HasAPlace(spec: RowSpec) {
    exists row, position :: IsPlace(spec, row, position)
  }

  ghost predicate IsPlace(spec: RowSpec, row: int, position: int) {
    0 <= row < |spec.perRow| && 1 <= position <= spec.perRow[row] && position !in spec.skips
  }

  /** No place left is given a kind nobody knows. */
  ghost predicate KindsAreKnown(spec: RowSpec, start: nat)
    requires spec.lettered ==> start + |spec.perRow| <= LETTERS
  {
    forall row, position | IsPlace(spec, row, position) ::
      !KindAt(spec.kinds, RowName(start + row, spec.lettered), Label(spec.numbering, position, spec.perRow[row])).UnknownKind?
  }

  lemma {:induction false} KindsOfTheBlock(section: string, spec: RowSpec, start: nat)
    requires spec.lettered ==> start + |spec.perRow| <= LETTERS
    ensures KnownKinds(Block(section, spec, start, |spec.perRow|)) <==> KindsAreKnown(spec, start)
    ensures Block(section, spec, start, |spec.perRow|) != [] <==> HasAPlace(spec)
  {
    var seats := Block(section, spec, start, |spec.perRow|);
    forall row, position | IsPlace(spec, row, position)
      ensures seats != []
      ensures KnownKinds(seats) ==>
                !KindAt(spec.kinds, RowName(start + row, spec.lettered), Label(spec.numbering, position, spec.perRow[row])).UnknownKind?
    {
      var k := PlaceInBlock(section, spec, start, |spec.perRow|, row, position);
    }
    forall k | 0 <= k < |seats|
      ensures IsPlace(spec, seats[k].rowOrder, seats[k].seatOrder)
      ensures KindsAreKnown(spec, start) ==> !seats[k].kind.UnknownKind?
    {
      SeatInBlock(section, spec, start, |spec.perRow|, k);
      NotSkipped(section, spec, start, |spec.perRow|, k);
      assert IsPlace(spec, seats[k].rowOrder, seats[k].seatOrder);
    }
    if seats != [] {
      assert IsPlace(spec, seats[0].rowOrder, seats[0].seatOrder);
    }
  }

  lemma {:induction false} StartExactlyWhen(spec: RowSpec)
    ensures StartOf(spec).Ok? <==> RowsCanBeNamed(spec)
  {
    if spec.lettered {
      FirstRowIsAnyRunOfLetters(spec);
    }
  }

  /** A block is generated exactly when the section is named, there is a row of chairs, its rows can be named, and the places left are some and of known kinds. */
  lemma {:induction false} GeneratedExactlyWhen(section: string, spec: RowSpec)
    ensures Asked(section, spec).Ok? <==>
              && Trim(section) != "" && spec.perRow != [] && spec.perRow[0] > 0
              && RowsCanBeNamed(spec) && StartOf(spec).Ok? && HasAPlace(spec) && KindsAreKnown(spec, StartOf(spec).value)
  {
    StartExactlyWhen(spec);
    if StartOf(spec).Ok? {
      KindsOfTheBlock(section, spec, StartOf(spec).value);
    }
  }

  /** Anything else is refused, for the first of these that is wrong with it. */
  lemma {:induction false} RefusedFor(section: string, spec: RowSpec)
    requires Asked(section, spec).Err?
    ensures Asked(section, spec).error
            == if Trim(section) == "" then ErrInvalidSection
               else if spec.perRow == [] || spec.perRow[0] == 0 then ErrEmptyBlock
               else if !RowsCanBeNamed(spec) then
                 if !spec.lettered then ErrNotARowNumber
                 else if |spec.perRow| > 24 then ErrTooManyRows
                 else if forall k | 0 <= k :: !OccursAt(ToUpper(Trim(spec.firstRow)), ROW_LETTERS, k) then ErrNotARowLetter
                 else ErrPastTheLastLetter
               else if StartOf(spec).Ok? && !KindsAreKnown(spec, StartOf(spec).value) then ErrInvalidSeatKind
               else ErrEverySeatSkipped
  {
    StartExactlyWhen(spec);
    if StartOf(spec).Ok? {
      KindsOfTheBlock(section, spec, StartOf(spec).value);
    } else if spec.lettered && |spec.perRow| <= 24 {
      IndexIsFirst(ToUpper(Trim(spec.firstRow)), ROW_LETTERS, 0);
    }
  }
}
