/** The code on a ticket: its check character, its forgiving parser and its printer (domain/admission/code.go). */
module AdmissionCode {
  import opened Results
  import opened Text

  /** A prime number of characters; the index of a character is its value. */
  const ALPHABET := "0123456789ABCDEFGHJKMNPQRTVWXYZ"
  const PRIME := 31
  const DATA_LENGTH := 11
  const LENGTH := 12
  const GROUP_SIZE := 4

  lemma {:induction false} AlphabetIsPrime()
    ensures |ALPHABET| == PRIME
    ensures forall d | 2 <= d < PRIME :: PRIME % d != 0
  {
  }

  datatype CodeError = ErrMalformedCode

  // ------------------------------------------------------- the check character

  /** The value of a character, -1 for one outside the alphabet. */
  function Value(c: char): (v: int)
    ensures -1 <= v < PRIME
    ensures v >= 0 ==> ALPHABET[v] == c
  {
    IndexIn(c, PRIME)
  }

  function IndexIn(c: char, n: nat): (v: int)
    requires n <= PRIME
    ensures -1 <= v < n
    ensures v >= 0 ==> ALPHABET[v] == c
  {
    if n == 0 then -1 else if ALPHABET[n - 1] == c then n - 1 else IndexIn(c, n - 1)
  }

  predicate InAlphabet(c: char) { Value(c) >= 0 }

  lemma {:induction false} ValueOf(v: nat)
    requires v < PRIME
    ensures Value(ALPHABET[v]) == v
  {
    var c := ALPHABET[v];
    IndexFinds(c, v, PRIME);
    var w := Value(c);
    if w < v {
      DistinctCharacters(w, v);
    } else if v < w {
      DistinctCharacters(v, w);
    }
  }

  lemma {:induction false} IndexFinds(c: char, v: nat, n: nat)
    requires v < n <= PRIME && ALPHABET[v] == c
    ensures IndexIn(c, n) >= 0
  {
    if ALPHABET[n - 1] != c {
      IndexFinds(c, v, n - 1);
    }
  }

  /** The characters rise, so no two are the same. */
  lemma {:induction false} DistinctCharacters(v: nat, w: nat)
    requires v < w < PRIME
    ensures ALPHABET[v] < ALPHABET[w]
  {
    if v + 1 < w {
      DistinctCharacters(v, w - 1);
    }
    assert ALPHABET[w - 1] < ALPHABET[w];
  }

  /** The position-weighted sum of the first characters. */
  function Weighted(data: string): int {
    if data == "" then 0 else Weighted(data[..|data| - 1]) + |data| * Value(data[|data| - 1])
  }

  ghost predicate AllIn(s: string) {
    forall k | 0 <= k < |s| :: InAlphabet(s[k])
  }

  lemma {:induction false} WeightedIsNatural(data: string)
    requires AllIn(data)
    ensures Weighted(data) >= 0
  {
    if data != "" {
      WeightedIsNatural(data[..|data| - 1]);
    }
  }

  /** The source's loop; it gives up on a character it does not know. */
  method CheckCharacter(data: string) returns (c: char)
    ensures AllIn(data) ==> c == ALPHABET[Weighted(data) % PRIME]
    ensures !AllIn(data) ==> c == ALPHABET[0]
  {
    var sum := 0;
    for index := 0 to |data|
      invariant AllIn(data[..index]) && sum == Weighted(data[..index]) >= 0
    {
      assert data[..index + 1][..index] == data[..index];
      var value := Value(data[index]);
      if value < 0 {
        assert !InAlphabet(data[index]);
        return ALPHABET[0];
      }
      sum := sum + (index + 1) * value;
    }
    TakeAll(data);
    return ALPHABET[sum % PRIME];
  }

  lemma {:induction false} WeightedNext(data: string, k: nat)
    requires k < |data|
    ensures Weighted(data[..k + 1]) == Weighted(data[..k]) + (k + 1) * Value(data[k])
  {
    assert data[..k + 1][..k] == data[..k];
  }

  /** The eleven weights, one to eleven in the order the characters are printed. */
  lemma {:induction false} ElevenWeights(d: string)
    requires |d| == 11
    ensures Weighted(d) == Value(d[0]) + 2 * Value(d[1]) + 3 * Value(d[2]) + 4 * Value(d[3]) + 5 * Value(d[4])
                           + 6 * Value(d[5]) + 7 * Value(d[6]) + 8 * Value(d[7]) + 9 * Value(d[8]) + 10 * Value(d[9])
                           + 11 * Value(d[10])
  {
    assert Weighted(d[..0]) == 0;
    WeightedNext(d, 0);
    WeightedNext(d, 1);
    WeightedNext(d, 2);
    WeightedNext(d, 3);
    WeightedNext(d, 4);
    WeightedNext(d, 5);
    WeightedNext(d, 6);
    WeightedNext(d, 7);
    WeightedNext(d, 8);
    WeightedNext(d, 9);
    WeightedNext(d, 10);
    assert d[..11] == d;
  }

  /** Twelve characters of the alphabet, the last agreeing with the others. */
  ghost predicate IsCode(w: string) {
    && |w| == LENGTH && AllIn(w)
    && w[DATA_LENGTH] == ALPHABET[Weighted(w[..DATA_LENGTH]) % PRIME]
  }

  // -------------------------------------------------- what the check catches

  /** The weight of a position; the check character's own is -1. */
  function Weight(k: nat): int { if k < DATA_LENGTH then k + 1 else -1 }

  /** A code is a word whose weighted values, check character included, sum to a multiple of the prime. */
  function Syndrome(w: string): int
    requires |w| == LENGTH
  {
    Weighted(w[..DATA_LENGTH]) - Value(w[DATA_LENGTH])
  }

  lemma {:induction false} CodesAreNull(w: string)
    requires |w| == LENGTH && AllIn(w)
    ensures IsCode(w) <==> Syndrome(w) % PRIME == 0
  {
    var sum, v := Weighted(w[..DATA_LENGTH]), Value(w[DATA_LENGTH]);
    ValueOf(sum % PRIME);
    assert sum == PRIME * (sum / PRIME) + sum % PRIME;
    if Syndrome(w) % PRIME == 0 {
      RemainderIsUnique(sum, sum / PRIME, sum % PRIME, v, Syndrome(w) / PRIME);
    }
  }

  lemma {:induction false} RemainderIsUnique(sum: int, q: int, r: int, v: int, p: int)
    requires sum == PRIME * q + r && 0 <= r < PRIME && 0 <= v < PRIME && sum - v == PRIME * p
    ensures r == v
  {
  }

  lemma {:induction false} ProductChange(a: int, x: int, y: int)
    ensures a * x == a * y + a * (x - y)
  {
  }

  lemma {:induction false} WeightedChange(data: string, k: nat, c: char)
    requires k < |data|
    ensures Weighted(data[k := c]) == Weighted(data) + (k + 1) * (Value(c) - Value(data[k]))
  {
    var n := |data| - 1;
    var changed := data[k := c];
    assert Weighted(changed) == Weighted(changed[..n]) + (n + 1) * Value(changed[n]);
    assert Weighted(data) == Weighted(data[..n]) + (n + 1) * Value(data[n]);
    if k < n {
      WeightedChange(data[..n], k, c);
      assert changed[..n] == data[..n][k := c];
    } else {
      assert changed[..n] == data[..n];
      ProductChange(n + 1, Value(c), Value(data[n]));
    }
  }

  /** Changing one character moves the sum by the position's weight times the change. */
  lemma {:induction false} SyndromeChange(w: string, k: nat, c: char)
    requires |w| == LENGTH && k < LENGTH
    ensures Syndrome(w[k := c]) == Syndrome(w) + Weight(k) * (Value(c) - Value(w[k]))
  {
    if k < DATA_LENGTH {
      WeightedChange(w[..DATA_LENGTH], k, c);
      assert w[k := c][..DATA_LENGTH] == w[..DATA_LENGTH][k := c];
    } else {
      assert w[k := c][..DATA_LENGTH] == w[..DATA_LENGTH];
    }
  }

  /** No product of two numbers below the prime is a multiple of it. */
  lemma {:induction false} NoZeroProducts(a: int, b: int)
    requires 1 <= a <= 12 && 1 <= b < PRIME
    ensures (a * b) % PRIME != 0
  {
    var q := (a * b) / PRIME;
    assert a * b == PRIME * q + (a * b) % PRIME;
    if a <= 6 {
      assert a == 1 || a == 2 || a == 3 || a == 4 || a == 5 || a == 6;
    } else {
      assert a == 7 || a == 8 || a == 9 || a == 10 || a == 11 || a == 12;
    }
  }

  lemma {:induction false} NoZeroShift(x: int, a: int, b: int)
    requires x % PRIME == 0 && a != 0 && -12 <= a <= 12 && b != 0 && -PRIME < b < PRIME
    ensures (x + a * b) % PRIME != 0
  {
    var p, q := if a < 0 then -a else a, if b < 0 then -b else b;
    NoZeroProducts(p, q);
    assert a * b == p * q || a * b == -(p * q);
    var k := x / PRIME;
    assert x == PRIME * k;
    if (x + a * b) % PRIME == 0 {
      var m := (x + a * b) / PRIME;
      assert a * b == PRIME * (m - k);
      MultiplesDivide(p * q, if a * b == p * q then m - k else k - m);
    }
  }

  lemma {:induction false} MultiplesDivide(x: int, k: int)
    requires x == PRIME * k
    ensures x % PRIME == 0
  {
  }

  lemma {:induction false} ValuesDiffer(a: char, b: char)
    requires InAlphabet(a) && InAlphabet(b) && a != b
    ensures Value(a) != Value(b)
  {
  }

  /** Any one character of a code changed to another of the alphabet: it is not a code. */
  lemma {:induction false} SubstitutionsAreCaught(w: string, k: nat, c: char)
    requires IsCode(w) && k < LENGTH && InAlphabet(c) && c != w[k]
    ensures !IsCode(w[k := c])
  {
    var x := w[k := c];
    CodesAreNull(w);
    CodesAreNull(x);
    SyndromeChange(w, k, c);
    ValuesDiffer(c, w[k]);
    NoZeroShift(Syndrome(w), Weight(k), Value(c) - Value(w[k]));
  }

  /** Any two unequal characters of a code swapped, the check character included: it is not a code. */
  lemma {:induction false} TranspositionsAreCaught(w: string, i: nat, j: nat)
    requires IsCode(w) && i < j < LENGTH && w[i] != w[j]
    ensures !IsCode(w[i := w[j]][j := w[i]])
  {
    CodesAreNull(w);
    CodesAreNull(w[i := w[j]][j := w[i]]);
    ValuesDiffer(w[i], w[j]);
    SwappedSyndrome(w, i, j);
    NoZeroShift(Syndrome(w), Weight(i) - Weight(j), Value(w[j]) - Value(w[i]));
  }

  lemma {:induction false} SwappedSyndrome(w: string, i: nat, j: nat)
    requires |w| == LENGTH && i < j < LENGTH
    ensures Syndrome(w[i := w[j]][j := w[i]]) == Syndrome(w) + (Weight(i) - Weight(j)) * (Value(w[j]) - Value(w[i]))
  {
    SyndromeChange(w, i, w[j]);
    SyndromeChange(w[i := w[j]], j, w[i]);
    Distribute(Weight(i), Weight(j), Value(w[j]) - Value(w[i]));
  }

  lemma {:induction false} Distribute(a: int, b: int, d: int)
    ensures a * d + b * (-d) == (a - b) * d
  {
  }

  ghost function Differences(a: string, b: string): nat
    requires |a| == |b|
  {
    if a == "" then 0
    else Differences(a[..|a| - 1], b[..|b| - 1]) + if a[|a| - 1] != b[|b| - 1] then 1 else 0
  }

  lemma {:induction false} OneDifference(a: string, b: string) returns (k: nat)
    requires |a| == |b| && Differences(a, b) == 1
    ensures k < |a| && a[k] != b[k] && b == a[k := b[k]]
  {
    var n := |a| - 1;
    if a[n] != b[n] {
      NoDifference(a[..n], b[..n]);
      k := n;
      assert b == b[..n] + [b[n]];
    } else {
      k := OneDifference(a[..n], b[..n]);
      assert b == b[..n] + [b[n]];
    }
  }

  lemma {:induction false} NoDifference(a: string, b: string)
    requires |a| == |b| && Differences(a, b) == 0
    ensures a == b
  {
    if a != "" {
      NoDifference(a[..|a| - 1], b[..|b| - 1]);
      assert a == a[..|a| - 1] + [a[|a| - 1]] && b == b[..|b| - 1] + [b[|b| - 1]];
    }
  }

  /** Two different codes differ in at least two places: one slip never turns one into another. */
  lemma {:induction false} CodesAreFarApart(a: string, b: string)
    requires IsCode(a) && IsCode(b) && a != b
    ensures Differences(a, b) >= 2
  {
    if Differences(a, b) == 0 {
      NoDifference(a, b);
    } else if Differences(a, b) == 1 {
      var k := OneDifference(a, b);
      SubstitutionsAreCaught(a, k, b[k]);
    }
  }

  /** With thirty-two characters the same sum is blind at exactly the even weights. */
  lemma {:induction false} ThirtyTwoIsBlind(weight: int)
    requires 1 <= weight <= DATA_LENGTH
    ensures (exists d :: 0 < d < 32 && Unmoved(weight, d)) <==> weight % 2 == 0
  {
    if weight % 2 == 0 {
      var h := weight / 2;
      assert weight * 16 == 32 * h;
      assert Unmoved(weight, 16);
    } else {
      forall d | 0 < d < 32
        ensures !Unmoved(weight, d)
      {
        var q := (weight * d) / 32;
        assert weight == 1 || weight == 3 || weight == 5 || weight == 7 || weight == 9 || weight == 11;
      }
    }
  }

  predicate Unmoved(weight: int, d: int) { (weight * d) % 32 == 0 }

  // ---------------------------------------------------------------- reading

  predicate Separator(c: char) {
    c == ' ' || c == '-' || c == '.' || c == '\t' || c == '\n' || c == '\r' || c == '_'
  }

  /** The characters people mistake for others are read as those. */
  function Meant(c: char): char {
    if c == 'O' then '0' else if c == 'I' || c == 'L' then '1' else if c == 'S' then '5' else c
  }

  /** What is left once separators are dropped and every character is read for what it means. */
  function Cleaned(s: string): string {
    if s == "" then ""
    else
      var before, c := Cleaned(s[..|s| - 1]), Upper(s[|s| - 1]);
      if Separator(c) then before else before + [Meant(c)]
  }

  ghost function Parsed(raw: string): Result<string, CodeError> {
    if IsCode(Cleaned(Trim(raw))) then Ok(Cleaned(Trim(raw))) else Err(ErrMalformedCode)
  }

  lemma {:induction false} CleanedPrefix(s: string, n: nat)
    requires n <= |s|
    ensures Cleaned(s[..n]) <= Cleaned(s)
  {
    if n < |s| {
      CleanedPrefix(s[..|s| - 1], n);
      assert s[..|s| - 1][..n] == s[..n];
    } else {
      TakeAll(s);
    }
  }

  /** The source's loop, which gives up early, at the first bad character or the thirteenth good one. */
  method ParseCode(raw: string) returns (r: Result<string, CodeError>)
    ensures r == Parsed(raw)
  {
    var trimmed := Trim(raw);
    var normalised := "";
    for k := 0 to |trimmed|
      invariant normalised == Cleaned(trimmed[..k]) && |normalised| <= LENGTH && AllIn(normalised)
    {
      assert trimmed[..k + 1][..k] == trimmed[..k];
      var character := Upper(trimmed[k]);
      if Separator(character) {
        continue;
      }
      if character == 'O' {
        character := '0';
      } else if character == 'I' || character == 'L' {
        character := '1';
      } else if character == 'S' {
        character := '5';
      }
      CleanedPrefix(trimmed, k + 1);
      if Value(character) < 0 {
        assert Cleaned(trimmed)[|normalised|] == character;
        return Err(ErrMalformedCode);
      }
      normalised := normalised + [character];
      if |normalised| > LENGTH {
        return Err(ErrMalformedCode);
      }
    }
    TakeAll(trimmed);
    if |normalised| != LENGTH {
      return Err(ErrMalformedCode);
    }
    var check := CheckCharacter(normalised[..DATA_LENGTH]);
    if normalised[DATA_LENGTH] != check {
      return Err(ErrMalformedCode);
    }
    return Ok(normalised);
  }

  // --------------------------------------------------------------- printing

  /** The ways one character of a code may be written. */
  predicate ReadAs(written: char, c: char) { !Separator(Upper(written)) && Meant(Upper(written)) == c }

  /** `raw` is the code `c` with separators anywhere, and each character written in any way it is read. */
  ghost predicate Spells(raw: string, c: string) {
    if raw == "" then c == ""
    else
      var last, before := raw[|raw| - 1], raw[..|raw| - 1];
      if Separator(Upper(last)) then Spells(before, c)
      else c != "" && ReadAs(last, c[|c| - 1]) && Spells(before, c[..|c| - 1])
  }

  lemma {:induction false} SpellingIsCleaning(raw: string, c: string)
    ensures Spells(raw, c) <==> Cleaned(raw) == c
  {
    if raw != "" {
      var last, before := raw[|raw| - 1], raw[..|raw| - 1];
      if Separator(Upper(last)) {
        SpellingIsCleaning(before, c);
      } else if c != "" {
        SpellingIsCleaning(before, c[..|c| - 1]);
        assert c == c[..|c| - 1] + [c[|c| - 1]];
        if Cleaned(raw) == c {
          assert Cleaned(before) == Cleaned(raw)[..|Cleaned(raw)| - 1];
        }
      }
    }
  }

  /**
   The whole of what is forgiven: a letter in lower case, an O for a nought, an I or an L for a one, an S for
   a five, in either case, and the dotless i and the long s that upper-casing makes an I and an S of.
   */
  lemma {:induction false} WaysToWrite(written: char, c: char)
    requires InAlphabet(c)
    ensures ReadAs(written, c) <==>
              || written == c
              || ('A' <= c <= 'Z' && written as int == c as int + 32)
              || (c == '0' && (written == 'O' || written == 'o'))
              || (c == '1' && (written == 'I' || written == 'i' || written == 'L' || written == 'l' || written == '\U{0131}'))
              || (c == '5' && (written == 'S' || written == 's' || written == '\U{017F}'))
  {
    AlphabetIsVisible(Value(c));
  }

  /** The alphabet is the digits and the capitals, less I, L, O, S and U. */
  lemma {:induction false} AlphabetIs(c: char)
    ensures InAlphabet(c) <==>
              '0' <= c <= '9' || ('A' <= c <= 'Z' && c != 'I' && c != 'L' && c != 'O' && c != 'S' && c != 'U')
  {
    if InAlphabet(c) {
      AlphabetIsVisible(Value(c));
    } else if '0' <= c <= '9' {
      ValueOf(c as int - '0' as int);
    } else if 'A' <= c <= 'Z' && c != 'I' && c != 'L' && c != 'O' && c != 'S' && c != 'U' {
      ValueOf(LetterValue(c));
    }
  }

  /** Where a capital stands in the alphabet. */
  function LetterValue(c: char): (v: nat)
    requires 'A' <= c <= 'Z' && c != 'I' && c != 'L' && c != 'O' && c != 'S' && c != 'U'
    ensures v < PRIME && ALPHABET[v] == c
  {
    var place := c as int - 'A' as int + 10;
    place - (if c > 'I' then 1 else 0) - (if c > 'L' then 1 else 0) - (if c > 'O' then 1 else 0)
    - (if c > 'S' then 1 else 0) - (if c > 'U' then 1 else 0)
  }

  /** And what is passed over: blanks, tabs, line ends, hyphens, dots and underscores. */
  lemma {:induction false} PassedOver(written: char)
    ensures Separator(Upper(written)) <==>
              || written == ' ' || written == '\t' || written == '\n' || written == '\r'
              || written == '-' || written == '.' || written == '_'
  {
  }

  /** A code is recovered from exactly the strings that, white space around them apart, spell it. */
  lemma {:induction false} ParsesExactlyTheSpellings(raw: string, c: string)
    ensures Parsed(raw) == Ok(c) <==> IsCode(c) && Spells(Trim(raw), c)
  {
    SpellingIsCleaning(Trim(raw), c);
  }

  predicate Plain(s: string) {
    forall k | 0 <= k < |s| :: s[k] == '-' || InAlphabet(s[k])
  }

  lemma {:induction false} PlainIsTrimmed(s: string)
    requires Plain(s)
    ensures Trim(s) == s
  {
    forall k | 0 <= k < |s|
      ensures !IsSpace(s[k])
    {
      if InAlphabet(s[k]) {
        AlphabetIsVisible(Value(s[k]));
      }
    }
    TrimOfTrimmed(s);
  }

  /** Every character of the alphabet is a capital or a digit that is read as itself. */
  lemma {:induction false} AlphabetIsVisible(v: nat)
    requires v < PRIME
    ensures var c := ALPHABET[v]; '0' <= c <= 'Z' && !('9' < c < 'A') && c != 'O' && c != 'I' && c != 'L' && c != 'S' && c != 'U'
    ensures !IsSpace(ALPHABET[v]) && ReadAs(ALPHABET[v], ALPHABET[v])
  {
  }

  /** The code as it is encoded in the QR comes back as it was. */
  lemma {:induction false} StringRoundTrip(c: string)
    requires IsCode(c)
    ensures Parsed(c) == Ok(c)
  {
    assert c + "" == c;
    PlainIsTrimmed(c);
    SpelledByItself(c);
    SpellingIsCleaning(c, c);
  }

  lemma {:induction false} SpelledByItself(c: string)
    requires AllIn(c)
    ensures Spells(c, c)
  {
    if c != "" {
      AlphabetIsVisible(Value(c[|c| - 1]));
      SpelledByItself(c[..|c| - 1]);
    }
  }

  lemma {:induction false} CleanedOfConcat(a: string, b: string)
    ensures Cleaned(a + b) == Cleaned(a) + Cleaned(b)
    decreases |b|
  {
    if b == "" {
      assert a + b == a;
    } else {
      assert (a + b)[..|a + b| - 1] == a + b[..|b| - 1];
      CleanedOfConcat(a, b[..|b| - 1]);
    }
  }

  /** The first `n` characters, a hyphen before every fourth but the first. */
  function PrintedTo(c: string, n: nat): string
    requires n <= |c|
  {
    if n == 0 then ""
    else PrintedTo(c, n - 1) + Hyphen(n - 1) + [c[n - 1]]
  }

  function Hyphen(n: nat): string { if n > 0 && n % GROUP_SIZE == 0 then "-" else "" }

  function Printed(c: string): string { PrintedTo(c, |c|) }

  lemma {:induction false} Joins<T>(a: seq<T>, b: seq<T>, x: T)
    ensures a + b + [x] == a + (b + [x]) && a + [] + [x] == a + [x] && [] + [x] == [x]
  {
  }

  lemma {:induction false} SliceNext(c: string, a: nat, b: nat)
    requires a <= b < |c|
    ensures c[a..b + 1] == c[a..b] + [c[b]] && (a == b ==> c[a..b] == "")
  {
  }

  lemma {:induction false} PrintedGroup(c: string, start: nat, end: nat)
    requires start % GROUP_SIZE == 0 && start < end <= |c| && end <= start + GROUP_SIZE
    ensures PrintedTo(c, end) == PrintedTo(c, start) + Hyphen(start) + c[start..end]
  {
    SliceNext(c, start, end - 1);
    PrintedNext(c, end);
    Joins(PrintedTo(c, start) + Hyphen(start), c[start..end - 1], c[end - 1]);
    if end > start + 1 {
      PrintedGroup(c, start, end - 1);
      InsideAGroup(start, end - 1);
      Joins(PrintedTo(c, end - 1), "", c[end - 1]);
    }
  }

  lemma {:induction false} PrintedNext(c: string, end: nat)
    requires 0 < end <= |c|
    ensures PrintedTo(c, end) == PrintedTo(c, end - 1) + Hyphen(end - 1) + [c[end - 1]]
  {
  }

  lemma {:induction false} InsideAGroup(start: nat, k: nat)
    requires start % GROUP_SIZE == 0 && start < k < start + GROUP_SIZE
    ensures Hyphen(k) == ""
  {
  }

  /** Groups of four, hyphens between them. */
  method Formatted(c: string) returns (printed: string)
    ensures printed == Printed(c)
  {
    printed := "";
    var start := 0;
    while start < |c|
      invariant 0 <= start <= |c| && (start < |c| ==> start % GROUP_SIZE == 0)
      invariant printed == PrintedTo(c, start)
    {
      var end := if start + GROUP_SIZE > |c| then |c| else start + GROUP_SIZE;
      PrintedGroup(c, start, end);
      if start > 0 {
        printed := printed + "-";
      }
      printed := printed + c[start..end];
      start := end;
    }
  }

  /** A code is printed as three groups of four. */
  lemma {:induction false} ThreeGroups(c: string)
    requires |c| == 12
    ensures Printed(c) == c[..4] + "-" + c[4..8] + "-" + c[8..]
  {
    FirstGroup(c);
    GroupAfterHyphen(c, 4);
    GroupAfterHyphen(c, 8);
    ThreeJoined(c[..4], c[4..8], c[8..]);
  }

  lemma {:induction false} ThreeJoined(a: string, b: string, c: string)
    ensures a + "-" + b + ("-" + c) == a + "-" + b + "-" + c
  {
  }

  lemma {:induction false} FirstGroup(c: string)
    requires 4 <= |c|
    ensures PrintedTo(c, 4) == c[..4]
  {
    PrintedGroup(c, 0, 4);
    assert "" + "" + c[0..4] == c[..4];
  }

  lemma {:induction false} GroupAfterHyphen(c: string, start: nat)
    requires 0 < start && start % 4 == 0 && start + 4 <= |c|
    ensures PrintedTo(c, start + 4) == PrintedTo(c, start) + ("-" + c[start..start + 4])
  {
    PrintedGroup(c, start, start + 4);
    TwoJoined(PrintedTo(c, start), "-", c[start..start + 4]);
  }

  lemma {:induction false} TwoJoined(a: string, b: string, c: string)
    ensures a + b + c == a + (b + c)
  {
  }

  lemma {:induction false} PrintedIsPlain(c: string, n: nat)
    requires AllIn(c) && n <= |c|
    ensures Plain(PrintedTo(c, n))
  {
    if n > 0 {
      PrintedIsPlain(c, n - 1);
    }
  }

  /** Printing only adds hyphens. */
  lemma {:induction false} PrintedIsSpelled(c: string, n: nat)
    requires AllIn(c) && n <= |c|
    ensures Cleaned(PrintedTo(c, n)) == c[..n]
  {
    HyphensAreDropped();
    if n > 0 {
      PrintedIsSpelled(c, n - 1);
      CleanedOfConcat(PrintedTo(c, n - 1), Hyphen(n - 1));
      CleanedOfConcat(PrintedTo(c, n - 1) + Hyphen(n - 1), [c[n - 1]]);
      ReadsAsItself(c[n - 1]);
      Joins(c[..n - 1], "", c[n - 1]);
      TakeNext(c, n - 1);
    }
  }

  lemma {:induction false} ReadsAsItself(c: char)
    requires InAlphabet(c)
    ensures Cleaned([c]) == [c]
  {
    SpelledByItself([c]);
    SpellingIsCleaning([c], [c]);
  }

  lemma {:induction false} HyphensAreDropped()
    ensures Cleaned("-") == "" && Cleaned("") == ""
  {
    assert "-"[..0] == "";
  }

  /** The printed form comes back as the code it was printed from. */
  lemma {:induction false} FormattedRoundTrip(c: string)
    requires IsCode(c)
    ensures Parsed(Printed(c)) == Ok(c)
  {
    PrintedIsSpelled(c, |c|);
    TakeAll(c);
    PrintedIsPlain(c, |c|);
    PlainIsTrimmed(Printed(c));
  }

  // ----------------------------------------------------------------- minting

  const LIMIT := 248

  /** The characters drawn from a stream of bytes, the ones out of range redrawn. */
  function Drawn(bytes: seq<int>): string
    requires forall k | 0 <= k < |bytes| :: 0 <= bytes[k] < 256
  {
    if bytes == [] then ""
    else
      var before, b := Drawn(bytes[..|bytes| - 1]), bytes[|bytes| - 1];
      if b >= LIMIT then before else before + [ALPHABET[b % PRIME]]
  }

  lemma {:induction false} DrawnPrefix(bytes: seq<int>, n: nat)
    requires forall k | 0 <= k < |bytes| :: 0 <= bytes[k] < 256
    requires n <= |bytes|
    ensures Drawn(bytes[..n]) <= Drawn(bytes)
  {
    if n < |bytes| {
      DrawnPrefix(bytes[..|bytes| - 1], n);
      assert bytes[..|bytes| - 1][..n] == bytes[..n];
    } else {
      TakeAll(bytes);
    }
  }

  lemma {:induction false} Remainders(b: int, q: int, r: int)
    requires b == PRIME * q + r && 0 <= r < PRIME
    ensures b / PRIME == q && b % PRIME == r
  {
  }

  /** Each character comes from exactly eight bytes, so none is likelier than another. */
  lemma {:induction false} EveryCharacterIsAsLikely(c: char, b: int)
    requires InAlphabet(c) && 0 <= b < 256
    ensures (b < LIMIT && ALPHABET[b % PRIME] == c) <==> b == Value(c) + PRIME * (b / PRIME) && b / PRIME < 8
  {
    var q, r := b / PRIME, b % PRIME;
    assert b == PRIME * q + r;
    ValueOf(r);
    if b == Value(c) + PRIME * q {
      Remainders(b, q, Value(c));
    }
  }

  /** One byte a character, redrawn when it falls outside the whole multiples of the alphabet. */
  method DrawData(bytes: seq<int>) returns (data: string)
    requires forall k | 0 <= k < |bytes| :: 0 <= bytes[k] < 256
    requires |Drawn(bytes)| >= DATA_LENGTH
    ensures AllIn(data) && data == Drawn(bytes)[..DATA_LENGTH]
  {
    data := "";
    var read := 0;
    TakeAll(bytes);
    while |data| < DATA_LENGTH
      invariant 0 <= read <= |bytes| && data == Drawn(bytes[..read]) && |data| <= DATA_LENGTH && AllIn(data)
      decreases |bytes| - read
    {
      assert bytes[..read + 1][..read] == bytes[..read];
      var drawn := bytes[read];
      read := read + 1;
      if drawn >= LIMIT {
        continue;
      }
      ValueOf(drawn % PRIME);
      data := data + [ALPHABET[drawn % PRIME]];
    }
    DrawnPrefix(bytes, read);
  }

  /** Eleven drawn characters and their check character; `bytes` is as much of the stream as that takes. */
  method NewCode(bytes: seq<int>) returns (code: string)
    requires forall k | 0 <= k < |bytes| :: 0 <= bytes[k] < 256
    requires |Drawn(bytes)| >= DATA_LENGTH
    ensures IsCode(code) && code[..DATA_LENGTH] == Drawn(bytes)[..DATA_LENGTH]
  {
    var data := DrawData(bytes);
    var check := CheckCharacter(data);
    ValueOf(Weighted(data) % PRIME);
    code := data + [check];
    assert code[..DATA_LENGTH] == data;
  }
}
