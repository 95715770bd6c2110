/**
 Strings as the box office handles them: trimming, byte order and decimal numerals.

 Ids and labels are ordered the way Go orders strings. Comparing code points and comparing
 UTF-8 bytes give the same order, so `Less` works on characters.
 */
module Text {

  /** The characters `strings.TrimSpace` removes: Unicode White_Space. */
  predicate IsSpace(c: char) {
    var n := c as int;
    9 <= n <= 13 || n == 0x20 || n == 0x85 || n == 0xA0 || n == 0x1680 || 0x2000 <= n <= 0x200A
    || n == 0x2028 || n == 0x2029 || n == 0x202F || n == 0x205F || n == 0x3000
  }

  function TrimLeft(s: string): (r: string)
    ensures r == "" || !IsSpace(r[0])
  {
    if s == "" || !IsSpace(s[0]) then s else TrimLeft(s[1..])
  }

  function TrimRight(s: string): (r: string)
    ensures r == "" || (s != "" && r[0] == s[0] && !IsSpace(r[|r| - 1]))
  {
    if s == "" || !IsSpace(s[|s| - 1]) then s else TrimRight(s[..|s| - 1])
  }

  function Trim(s: string): (r: string)
    ensures Trimmed(r)
  {
    TrimRight(TrimLeft(s))
  }

  /** A string that trimming leaves alone. */
  predicate Trimmed(s: string) {
    s == "" || (!IsSpace(s[0]) && !IsSpace(s[|s| - 1]))
  }

  lemma {:induction false} TrimOfTrimmed(s: string)
    requires Trimmed(s)
    ensures Trim(s) == s
  {
  }

  predicate AllSpace(s: string) {
    forall k | 0 <= k < |s| :: IsSpace(s[k])
  }

  lemma {:induction false} TrimLeftCuts(s: string) returns (i: nat)
    ensures i <= |s| && TrimLeft(s) == s[i..] && AllSpace(s[..i])
  {
    if s == "" || !IsSpace(s[0]) {
      i := 0;
    } else {
      i := TrimLeftCuts(s[1..]);
      i := i + 1;
      assert s[..i] == [s[0]] + s[1..][..i - 1];
    }
  }

  lemma {:induction false} TrimRightCuts(s: string) returns (j: nat)
    ensures j <= |s| && TrimRight(s) == s[..j] && AllSpace(s[j..])
  {
    if s == "" || !IsSpace(s[|s| - 1]) {
      j := |s|;
    } else {
      var n := |s| - 1;
      j := TrimRightCuts(s[..n]);
      assert s[j..] == s[..n][j..] + [s[n]];
    }
  }

  /** Trimming cuts blank ends off and nothing else. */
  lemma {:induction false} TrimCuts(s: string) returns (i: nat, j: nat)
    ensures i <= j <= |s| && Trim(s) == s[i..j] && AllSpace(s[..i]) && AllSpace(s[j..])
  {
    i := TrimLeftCuts(s);
    j := TrimRightCuts(s[i..]);
    j := i + j;
    assert s[i..][..j - i] == s[i..j] && s[i..][j - i..] == s[j..];
  }

  /**
   What `strings.ToUpper` makes of a character, as far as ASCII capitals can tell: besides the
   ASCII letters only the dotless i and the long s become one.
   */
  function Upper(c: char): char {
    if 'a' <= c <= 'z' then c - 'a' + 'A'
    else if c == '\U{0131}' then 'I'
    else if c == '\U{017F}' then 'S'
    else c
  }

  function ToUpper(s: string): (r: string)
    ensures |r| == |s| && forall k | 0 <= k < |s| :: r[k] == Upper(s[k])
  {
    seq(|s|, k requires 0 <= k < |s| => Upper(s[k]))
  }

  // ---------------------------------------------------------------- order

  predicate Less(a: string, b: string)
    decreases a
  {
    if b == "" then false
    else if a == "" then true
    else a[0] < b[0] || (a[0] == b[0] && Less(a[1..], b[1..]))
  }

  /** At the first place where they differ the smaller has the smaller character, or ends. */
  lemma {:induction false} LessIs(a: string, b: string) returns (n: nat)
    ensures n <= |a| && n <= |b| && a[..n] == b[..n]
    ensures n < |a| && n < |b| ==> a[n] != b[n]
    ensures Less(a, b) <==> n < |b| && (n == |a| || a[n] < b[n])
    decreases a
  {
    if a == "" || b == "" || a[0] != b[0] {
      n := 0;
    } else {
      n := LessIs(a[1..], b[1..]);
      n := n + 1;
      assert a[..n] == [a[0]] + a[1..][..n - 1] && b[..n] == [b[0]] + b[1..][..n - 1];
    }
  }

  lemma {:induction false} LessTransitive(a: string, b: string, c: string)
    requires Less(a, b) && Less(b, c)
    ensures Less(a, c)
    decreases a
  {
    if a != "" && a[0] == b[0] == c[0] {
      LessTransitive(a[1..], b[1..], c[1..]);
    }
  }

  lemma {:induction false} LessTotal(a: string, b: string)
    ensures Less(a, b) || a == b || Less(b, a)
    decreases a
  {
    if a != "" && b != "" && a[0] == b[0] {
      LessTotal(a[1..], b[1..]);
      if a[1..] == b[1..] {
        assert a == [a[0]] + a[1..];
        assert b == [b[0]] + b[1..];
      }
    }
  }

  lemma {:induction false} LessIrreflexive(a: string)
    ensures !Less(a, a)
  {
    if a != "" {
      LessIrreflexive(a[1..]);
    }
  }

  lemma {:induction false} LessAsymmetric(a: string, b: string)
    requires Less(a, b)
    ensures !Less(b, a)
  {
    if Less(b, a) {
      LessTransitive(a, b, a);
      LessIrreflexive(a);
    }
  }

  /** Each string is followed by a larger one: sorted, and nothing twice. */
  ghost predicate StrictlySorted(xs: seq<string>) {
    |xs| <= 1
    || (StrictlySorted(xs[..|xs| - 1]) && Less(xs[|xs| - 2], xs[|xs| - 1]))
  }

  lemma {:induction false} SortedSnoc(xs: seq<string>, x: string)
    requires StrictlySorted(xs) && (xs != [] ==> Less(xs[|xs| - 1], x))
    ensures StrictlySorted(xs + [x])
  {
    assert (xs + [x])[..|xs|] == xs;
  }

  ghost function Elems(xs: seq<string>): set<string> {
    if xs == [] then {} else Elems(xs[..|xs| - 1]) + {xs[|xs| - 1]}
  }

  lemma {:induction false} ElemsAreMembers(xs: seq<string>, x: string)
    ensures x in Elems(xs) <==> x in xs
  {
    if xs != [] {
      ElemsAreMembers(xs[..|xs| - 1], x);
      assert xs == xs[..|xs| - 1] + [xs[|xs| - 1]];
    }
  }

  lemma {:induction false} ElemsOfSnoc(xs: seq<string>, x: string)
    ensures Elems(xs + [x]) == Elems(xs) + {x}
  {
    assert (xs + [x])[..|xs|] == xs;
  }

  lemma {:induction false} LastIsLargest(xs: seq<string>)
    requires xs != [] && StrictlySorted(xs)
    ensures forall x {:trigger x in Elems(xs[..|xs| - 1])} | x in Elems(xs[..|xs| - 1]) :: Less(x, xs[|xs| - 1])
    ensures xs[|xs| - 1] !in Elems(xs[..|xs| - 1])
  {
    var n := |xs| - 1;
    if n > 0 {
      var head := xs[..n];
      LastIsLargest(head);
      forall x | x in Elems(head)
        ensures Less(x, xs[n])
      {
        if x != head[n - 1] {
          LessTransitive(x, head[n - 1], xs[n]);
        }
      }
      LessIrreflexive(xs[n]);
    }
  }

  /** Sortedness at any two positions. */
  lemma {:induction false} SortedMeans(xs: seq<string>, i: nat, j: nat)
    requires StrictlySorted(xs) && i < j < |xs|
    ensures Less(xs[i], xs[j])
  {
    var n := |xs| - 1;
    if j < n {
      SortedMeans(xs[..n], i, j);
    } else {
      LastIsLargest(xs);
      ElemsAreMembers(xs[..n], xs[i]);
      assert xs[..n][i] == xs[i];
    }
  }

  /** A finite set of strings has exactly one strictly sorted listing. */
  lemma {:induction false} SortedListingIsUnique(xs: seq<string>, ys: seq<string>)
    requires StrictlySorted(xs) && StrictlySorted(ys) && Elems(xs) == Elems(ys)
    ensures xs == ys
    decreases |xs|
  {
    if xs != [] && ys != [] {
      var n, m := |xs| - 1, |ys| - 1;
      LastIsLargest(xs);
      LastIsLargest(ys);
      if xs[n] != ys[m] {
        assert xs[n] in Elems(ys) && ys[m] in Elems(xs);
        LessAsymmetric(xs[n], ys[m]);
      }
      SortedListingIsUnique(xs[..n], ys[..m]);
      assert xs == xs[..n] + [xs[n]] && ys == ys[..m] + [ys[m]];
    }
  }

  /** Puts `x` where it belongs in a sorted listing without it. */
  function Insert(x: string, xs: seq<string>): (r: seq<string>)
    requires StrictlySorted(xs) && x !in Elems(xs)
    ensures StrictlySorted(r) && Elems(r) == Elems(xs) + {x} && |r| == |xs| + 1
  {
    if xs == [] then [x]
    else
      var n := |xs| - 1;
      if Less(xs[n], x) then
        assert (xs + [x])[..|xs|] == xs;
        xs + [x]
      else
        assert Less(x, xs[n]) by { LessTotal(x, xs[n]); }
        var head := Insert(x, xs[..n]);
        var r := head + [xs[n]];
        assert r[..|head|] == head;
        assert Less(head[|head| - 1], xs[n]) by {
          LastIsLargest(xs);
          assert head[|head| - 1] in Elems(head);
        }
        r
  }

  /** No string is listed twice. */
  ghost predicate Distinct(xs: seq<string>) {
    xs == [] || (Distinct(xs[..|xs| - 1]) && xs[|xs| - 1] !in Elems(xs[..|xs| - 1]))
  }

  lemma {:induction false} DistinctPrefix(xs: seq<string>, n: nat)
    requires Distinct(xs) && n < |xs|
    ensures Distinct(xs[..n]) && xs[n] !in Elems(xs[..n])
  {
    var m := |xs| - 1;
    if n < m {
      assert xs[..m][..n] == xs[..n];
      DistinctPrefix(xs[..m], n);
    }
  }

  /** `sort.Strings` on a list without repetitions. */
  method Sort(xs: seq<string>) returns (r: seq<string>)
    requires Distinct(xs)
    ensures r == Listing(Elems(xs)) && |r| == |xs|
  {
    r := [];
    for i := 0 to |xs|
      invariant StrictlySorted(r) && Elems(r) == Elems(xs[..i]) && |r| == i
    {
      assert xs[..i + 1][..i] == xs[..i];
      DistinctPrefix(xs, i);
      r := Insert(xs[i], r);
    }
    assert xs[..|xs|] == xs;
    SortedListingIsUnique(r, Listing(Elems(xs)));
  }

  /** The sorted listing of a set, whatever order its elements were met in. */
  ghost function Listing(s: set<string>): (r: seq<string>)
    ensures StrictlySorted(r) && Elems(r) == s
  {
    if s == {} then []
    else
      var x :| x in s;
      Insert(x, Listing(s - {x}))
  }

  // ------------------------------------------------------------- numerals

  const DIGITS := "0123456789"

  /** `strconv.Itoa` of a non-negative number. */
  function Itoa(n: nat): (r: string)
    ensures |r| > 0 && forall c | c in r :: c in DIGITS
  {
    if n < 10 then [DIGITS[n]] else Itoa(n / 10) + [DIGITS[n % 10]]
  }

  /** What a numeral stands for, read from the left. */
  function ReadNumeral(s: string): int {
    if s == "" then 0 else 10 * ReadNumeral(s[..|s| - 1]) + (s[|s| - 1] as int - '0' as int)
  }

  /** A numeral reads back as its number, and has no nought in front. */
  lemma {:induction false} ItoaReadsBack(n: nat)
    ensures ReadNumeral(Itoa(n)) == n && (n > 0 ==> Itoa(n)[0] != '0')
  {
    if n >= 10 {
      ItoaReadsBack(n / 10);
      assert Itoa(n)[..|Itoa(n)| - 1] == Itoa(n / 10);
    } else {
      assert Itoa(n)[..0] == "" && ReadNumeral("") == 0;
    }
  }

  lemma {:induction false} ItoaInjective(m: nat, n: nat)
    requires Itoa(m) == Itoa(n)
    ensures m == n
    decreases m
  {
    var a, b := Itoa(m), Itoa(n);
    assert a[|a| - 1] == DIGITS[m % 10];
    assert b[|b| - 1] == DIGITS[n % 10];
    if m >= 10 || n >= 10 {
      if m >= 10 && n >= 10 {
        assert Itoa(m / 10) == a[..|a| - 1] == b[..|b| - 1] == Itoa(n / 10);
        ItoaInjective(m / 10, n / 10);
      }
    }
  }
}
