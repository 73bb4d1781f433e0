/** ISBN checksums and canonicalisation: three implementations of one function (the check digits of
    ISO 2108, section 4), what they agree on, and which typing errors the checksums catch. */
module Isbn {
  import opened Metadata

  // ---------------------------------------------------------------- text

  predicate IsDigit(c: char) {
    '0' <= c <= '9'
  }

  predicate Digits(s: string) {
    forall k :: 0 <= k < |s| ==> IsDigit(s[k])
  }

  /** ASCII upper-casing, which is all that can yield a digit or an X. */
  function Upper(c: char): char {
    if 'a' <= c <= 'z' then (c as int - 32) as char else c
  }

  function UpperAll(s: string): (r: string)
    ensures |r| == |s| && forall k :: 0 <= k < |s| ==> r[k] == Upper(s[k])
  {
    if s == [] then [] else UpperAll(s[..|s| - 1]) + [Upper(s[|s| - 1])]
  }

  predicate Relevant(c: char) {
    IsDigit(c) || c == 'X' || c == 'x'
  }

  /** Drop everything that is neither a digit nor an X. */
  function Clean(s: string): (r: string)
    ensures forall k :: 0 <= k < |r| ==> Relevant(r[k])
  {
    if s == [] then [] else Clean(s[..|s| - 1]) + if Relevant(s[|s| - 1]) then [s[|s| - 1]] else []
  }

  /** What a digit or a final X is worth. */
  function Worth(c: char): int {
    if c == 'X' then 10 else c as int - '0' as int
  }

  function DigitChar(d: int): (c: char)
    requires 0 <= d < 10
    ensures IsDigit(c) && Worth(c) == d
  {
    (d + '0' as int) as char
  }

  // ---------------------------------------------------------------- weighted sums

  /** `d * w`, as repeated addition: see `TimesIsProduct`. */
  function Times(d: int, w: nat): int {
    if w == 0 then 0 else d + Times(d, w - 1)
  }

  lemma {:induction false} TimesIsProduct(d: int, w: nat)
    ensures Times(d, w) == d * w
  {
    if w > 0 {
      TimesIsProduct(d, w - 1);
    }
  }

  function Sum(s: string, weight: int -> nat): int {
    if s == [] then 0 else Sum(s[..|s| - 1], weight) + Times(Worth(s[|s| - 1]), weight(|s| - 1))
  }

  function Weight10(k: int): nat {
    if k < 10 then 10 - k else 0
  }

  function Weight13(k: int): nat {
    if k % 2 == 0 then 1 else 3
  }

  // ---------------------------------------------------------------- rules/isbn.py

  predicate Form10(s: string) {
    |s| == 10 && Digits(s[..9]) && (IsDigit(s[9]) || s[9] == 'X')
  }

  predicate Checks10(s: string) {
    Form10(s) && (Sum(s[..9], Weight10) + Worth(s[9])) % 11 == 0
  }

  predicate Valid10(value: string) {
    Checks10(UpperAll(Clean(value)))
  }

  predicate Checks13(s: string) {
    |s| == 13 && Digits(s) && (10 - Sum(s[..12], Weight13) % 10) % 10 == Worth(s[12])
  }

  predicate Valid13(value: string) {
    Checks13(Clean(value))
  }

  function Prefixed(s: string): (r: string)
    requires |s| == 10
    ensures |r| == 13 && r[..3] == "978" && r[3..12] == s[..9]
    ensures IsDigit(r[12]) && Worth(r[12]) == (10 - Sum(r[..12], Weight13) % 10) % 10
  {
    var body := "978" + s[..9];
    var r := body + [DigitChar((10 - Sum(body, Weight13) % 10) % 10)];
    assert r[..12] == body;
    r
  }

  function Canonical13(value: string): Option<string> {
    var s := UpperAll(Clean(value));
    if |s| == 10 && Valid10(s) then Some(Prefixed(s))
    else if |s| == 13 && Valid13(s) then Some(s)
    else None
  }

  // ---------------------------------------------------------------- container_archaeology.py

  function MinedIsbn13(value: string): Option<string> {
    var s := UpperAll(Clean(value));
    if |s| == 13 && Valid13(s) then Some(s)
    else if |s| == 10 && Valid10(s) then Some(Prefixed(s))
    else None
  }

  // ---------------------------------------------------------------- entity_cleanser.py

  datatype Result = Returned(isbn: Option<string>) | Raised

  /** This one upper-cases first and converts the first nine characters without looking at them. */
  function CleansedIsbn13(value: string): Result {
    Converted(Clean(UpperAll(value)))
  }

  function Converted(s: string): Result {
    if |s| == 10 then
      if !Digits(s[..9]) then Raised
      else if s[9] != 'X' && !IsDigit(s[9]) then Returned(None)
      else if (Sum(s[..9], Weight10) + Worth(s[9])) % 11 != 0 then Returned(None)
      else Returned(Some(Prefixed(s)))
    else if |s| == 13 && Digits(s) then
      if (10 - Sum(s[..12], Weight13) % 10) % 10 == Worth(s[12]) then Returned(Some(s)) else Returned(None)
    else Returned(None)
  }

  // ---------------------------------------------------------------- cleaning

  lemma {:induction false} CleanFixes(s: string)
    requires forall k :: 0 <= k < |s| ==> Relevant(s[k])
    ensures Clean(s) == s
  {
    if s != [] {
      CleanFixes(s[..|s| - 1]);
    }
  }

  /** It does not matter whether letters are raised before or after the rest is dropped. */
  lemma {:induction false} CleanAndUpperCommute(s: string)
    ensures Clean(UpperAll(s)) == UpperAll(Clean(s))
  {
    if s != [] {
      var front, c := s[..|s| - 1], s[|s| - 1];
      CleanAndUpperCommute(front);
      var up := UpperAll(s);
      assert up[..|up| - 1] == UpperAll(front);
      assert Relevant(Upper(c)) <==> Relevant(c);
      if Relevant(c) {
        assert Clean(s)[..|Clean(s)| - 1] == Clean(front);
        assert UpperAll(Clean(s)) == UpperAll(Clean(front)) + [Upper(c)];
      }
    }
  }

  /** Digits and capital X only: what the cleaned, upper-case form looks like. */
  predicate Plain(s: string) {
    forall k :: 0 <= k < |s| ==> IsDigit(s[k]) || s[k] == 'X'
  }

  lemma CleanedIsPlain(value: string)
    ensures Plain(UpperAll(Clean(value)))
  {
    var s := UpperAll(Clean(value));
    forall k | 0 <= k < |s|
      ensures IsDigit(s[k]) || s[k] == 'X'
    {
      assert Relevant(Clean(value)[k]);
    }
  }

  lemma PlainIsFixed(s: string)
    requires Plain(s)
    ensures Clean(s) == s && UpperAll(s) == s
  {
    CleanFixes(s);
    assert UpperAll(s) == s;
  }

  // ---------------------------------------------------------------- one function

  /** An X before the last place of a ten-character form. */
  predicate MisplacedX(value: string) {
    var s := UpperAll(Clean(value));
    |s| == 10 && 'X' in s[..9]
  }

  lemma ValidPlain(s: string)
    requires Plain(s)
    ensures Valid10(s) <==> Checks10(s)
    ensures Valid13(s) <==> Checks13(s)
  {
    PlainIsFixed(s);
  }

  /** What the shared function returns, in terms of the cleaned form. */
  lemma CanonicalOf(value: string, s: string)
    requires s == UpperAll(Clean(value))
    ensures Canonical13(value) == if Checks10(s) then Some(Prefixed(s)) else if Checks13(s) then Some(s) else None
    ensures MinedIsbn13(value) == Canonical13(value)
  {
    CleanedIsPlain(value);
    ValidPlain(s);
  }

  lemma MisplacedIff(s: string)
    requires Plain(s) && |s| == 10
    ensures 'X' in s[..9] <==> !Digits(s[..9])
  {
    assert forall k :: 0 <= k < 9 ==> s[..9][k] == s[k];
  }

  lemma ConvertedOf(s: string)
    requires Plain(s)
    ensures Converted(s) == if |s| == 10 && 'X' in s[..9] then Raised
                            else Returned(if Checks10(s) then Some(Prefixed(s))
                                          else if Checks13(s) then Some(s) else None)
  {
    if |s| == 10 {
      MisplacedIff(s);
    }
  }

  /** The three implementations are one function, except that the third raises exactly on the inputs
      whose cleaned form has ten characters and an X before the last. */
  lemma ImplementationsAgree(value: string)
    ensures MinedIsbn13(value) == Canonical13(value)
    ensures CleansedIsbn13(value) == if MisplacedX(value) then Raised else Returned(Canonical13(value))
  {
    var s := UpperAll(Clean(value));
    CanonicalOf(value, s);
    CleanAndUpperCommute(value);
    CleanedIsPlain(value);
    ConvertedOf(s);
  }

  /** The misplaced X does occur. */
  lemma MisplacedExample()
    ensures MisplacedX("X000000000")
  {
    var v := "X000000000";
    PlainIsFixed(v);
    assert v[..9][0] == 'X';
  }

  lemma PrefixedChecks(s: string)
    requires Form10(s)
    ensures Checks13(Prefixed(s))
  {
    var r := Prefixed(s);
    assert forall k :: 3 <= k < 12 ==> r[k] == r[3..12][k - 3];
    assert forall k :: 0 <= k < 3 ==> r[k] == r[..3][k];
  }

  /** Every result is a valid ISBN-13, and canonicalising it again changes nothing. */
  lemma CanonicalIsValidAndStable(value: string)
    requires Canonical13(value).Some?
    ensures Valid13(Canonical13(value).value) && Canonical13(Canonical13(value).value) == Canonical13(value)
  {
    var s, r := UpperAll(Clean(value)), Canonical13(value).value;
    CanonicalOf(value, s);
    if Checks10(s) {
      PrefixedChecks(s);
    }
    PlainIsFixed(r);
    ValidPlain(r);
    CanonicalOf(r, r);
  }

  lemma SameBodySameCheck(s: string, t: string)
    requires Checks10(s) && Checks10(t) && s[..9] == t[..9]
    ensures s == t
  {
    assert Worth(s[9]) == Worth(t[9]);
    assert s == s[..9] + [s[9]] && t == t[..9] + [t[9]];
  }

  /** Two valid ISBN-10s with the same canonical form are the same ISBN-10. */
  lemma CanonicalIsInjective(u: string, v: string)
    requires Valid10(u) && Valid10(v) && Canonical13(u) == Canonical13(v)
    ensures UpperAll(Clean(u)) == UpperAll(Clean(v))
  {
    var s, t := UpperAll(Clean(u)), UpperAll(Clean(v));
    CanonicalOf(u, s);
    CanonicalOf(v, t);
    assert s[..9] == Prefixed(s)[3..12] == Prefixed(t)[3..12] == t[..9];
    SameBodySameCheck(s, t);
  }

  // ---------------------------------------------------------------- typing errors

  lemma {:induction false} SumUpdate(s: string, weight: int -> nat, k: nat, c: char)
    requires k < |s|
    ensures Sum(s[k := c], weight) == Sum(s, weight) - Times(Worth(s[k]), weight(k)) + Times(Worth(c), weight(k))
  {
    var n := |s| - 1;
    if k < n {
      assert s[k := c][..n] == s[..n][k := c];
      SumUpdate(s[..n], weight, k, c);
    } else {
      assert s[k := c][..n] == s[..n];
    }
  }

  /** The checksum of an ISBN-10 is one weighted sum over all ten places. */
  lemma Checks10Sum(s: string)
    requires Form10(s)
    ensures Checks10(s) <==> Sum(s, Weight10) % 11 == 0
  {
    assert Times(Worth(s[9]), 1) == Worth(s[9]);
  }

  lemma Checks13Sum(s: string)
    requires |s| == 13 && Digits(s)
    ensures Checks13(s) <==> Sum(s, Weight13) % 10 == 0
  {
    assert Times(Worth(s[12]), 1) == Worth(s[12]);
    CheckDigit(Sum(s[..12], Weight13), Worth(s[12]));
  }

  // ---------------------------------------------------------------- the checksums written out

  /** What the characters are worth. */
  lemma WorthIs()
    ensures Worth('0') == 0 && Worth('1') == 1 && Worth('2') == 2 && Worth('3') == 3 && Worth('4') == 4
    ensures Worth('5') == 5 && Worth('6') == 6 && Worth('7') == 7 && Worth('8') == 8 && Worth('9') == 9
    ensures Worth('X') == 10
  {
  }

  /** One more place, of weight `w`. */
  lemma SumNext(s: string, weight: int -> nat, k: nat, w: nat)
    requires k < |s| && weight(k) == w
    ensures Sum(s[..k + 1], weight) == Sum(s[..k], weight) + w * Worth(s[k])
  {
    assert s[..k + 1][..k] == s[..k];
    TimesIsProduct(Worth(s[k]), w);
  }

  lemma Front10Is(s: string)
    requires |s| == 10
    ensures Sum(s[..5], Weight10) ==
            10 * Worth(s[0]) + 9 * Worth(s[1]) + 8 * Worth(s[2]) + 7 * Worth(s[3]) + 6 * Worth(s[4])
  {
    SumNext(s, Weight10, 0, 10);
    SumNext(s, Weight10, 1, 9);
    SumNext(s, Weight10, 2, 8);
    SumNext(s, Weight10, 3, 7);
    SumNext(s, Weight10, 4, 6);
    assert s[..0] == "";
  }

  lemma Sum10Is(s: string)
    requires |s| == 10
    ensures Sum(s, Weight10) ==
            10 * Worth(s[0]) + 9 * Worth(s[1]) + 8 * Worth(s[2]) + 7 * Worth(s[3]) + 6 * Worth(s[4])
            + 5 * Worth(s[5]) + 4 * Worth(s[6]) + 3 * Worth(s[7]) + 2 * Worth(s[8]) + Worth(s[9])
  {
    Front10Is(s);
    SumNext(s, Weight10, 5, 5);
    SumNext(s, Weight10, 6, 4);
    SumNext(s, Weight10, 7, 3);
    SumNext(s, Weight10, 8, 2);
    SumNext(s, Weight10, 9, 1);
    assert s[..10] == s;
  }

  lemma Front13Is(s: string)
    requires |s| == 13
    ensures Sum(s[..6], Weight13) ==
            Worth(s[0]) + 3 * Worth(s[1]) + Worth(s[2]) + 3 * Worth(s[3]) + Worth(s[4]) + 3 * Worth(s[5])
  {
    SumNext(s, Weight13, 0, 1);
    SumNext(s, Weight13, 1, 3);
    SumNext(s, Weight13, 2, 1);
    SumNext(s, Weight13, 3, 3);
    SumNext(s, Weight13, 4, 1);
    SumNext(s, Weight13, 5, 3);
    assert s[..0] == "";
  }

  lemma Sum13Is(s: string)
    requires |s| == 13
    ensures Sum(s, Weight13) ==
            Worth(s[0]) + 3 * Worth(s[1]) + Worth(s[2]) + 3 * Worth(s[3]) + Worth(s[4]) + 3 * Worth(s[5])
            + Worth(s[6]) + 3 * Worth(s[7]) + Worth(s[8]) + 3 * Worth(s[9]) + Worth(s[10]) + 3 * Worth(s[11])
            + Worth(s[12])
  {
    Front13Is(s);
    SumNext(s, Weight13, 6, 1);
    SumNext(s, Weight13, 7, 3);
    SumNext(s, Weight13, 8, 1);
    SumNext(s, Weight13, 9, 3);
    SumNext(s, Weight13, 10, 1);
    SumNext(s, Weight13, 11, 3);
    SumNext(s, Weight13, 12, 1);
    assert s[..13] == s;
  }

  /** An ISBN-10 checks exactly when it is nine digits and a digit or X, and the sum of the digits weighted from
      ten down to one is a multiple of eleven. */
  lemma Checks10Iff(s: string)
    ensures Checks10(s) <==>
            && |s| == 10 && (forall k :: 0 <= k < 9 ==> '0' <= s[k] <= '9') && ('0' <= s[9] <= '9' || s[9] == 'X')
            && (10 * Worth(s[0]) + 9 * Worth(s[1]) + 8 * Worth(s[2]) + 7 * Worth(s[3]) + 6 * Worth(s[4])
                + 5 * Worth(s[5]) + 4 * Worth(s[6]) + 3 * Worth(s[7]) + 2 * Worth(s[8]) + Worth(s[9])) % 11 == 0
  {
    if |s| == 10 {
      assert forall k :: 0 <= k < 9 ==> s[..9][k] == s[k];
      Sum10Is(s);
      if Form10(s) {
        Checks10Sum(s);
      }
    }
  }

  /** An ISBN-13 checks exactly when it is thirteen digits whose sum, weighted one and three in turn, is a multiple
      of ten. */
  lemma Checks13Iff(s: string)
    ensures Checks13(s) <==>
            && |s| == 13 && (forall k :: 0 <= k < 13 ==> '0' <= s[k] <= '9')
            && (Worth(s[0]) + 3 * Worth(s[1]) + Worth(s[2]) + 3 * Worth(s[3]) + Worth(s[4]) + 3 * Worth(s[5])
                + Worth(s[6]) + 3 * Worth(s[7]) + Worth(s[8]) + 3 * Worth(s[9]) + Worth(s[10]) + 3 * Worth(s[11])
                + Worth(s[12])) % 10 == 0
  {
    if |s| == 13 && Digits(s) {
      Sum13Is(s);
      Checks13Sum(s);
    }
  }

  lemma SameBodySameCheck13(s: string, t: string)
    requires Checks13(s) && Checks13(t) && s[..12] == t[..12]
    ensures s == t
  {
    assert Worth(s[12]) == Worth(t[12]);
    assert s == s[..12] + [s[12]] && t == t[..12] + [t[12]];
  }

  lemma Example10Checks()
    ensures Checks10("0306406152")
  {
    var s := "0306406152";
    assert s[0] == '0' && s[1] == '3' && s[2] == '0' && s[3] == '6' && s[4] == '4' && s[5] == '0' && s[6] == '6';
    Checks10Iff(s);
  }

  lemma Example13Checks()
    ensures Checks13("9780306406157")
  {
    Checks13Iff("9780306406157");
  }

  lemma ExampleBody(t: string, s: string, r: string)
    requires s == "0306406152" && r == "9780306406157" && |t| == 13 && t[..3] == "978" && t[3..12] == s[..9]
    ensures t[..12] == r[..12]
  {
    assert t[..12] == t[..3] + t[3..12];
    assert r[..12] == "978" + s[..9];
  }

  /** For instance: a valid ISBN-10 and its canonical form. */
  lemma CanonicalExample()
    ensures Canonical13("0306406152") == Some("9780306406157")
  {
    var s, r := "0306406152", "9780306406157";
    Example10Checks();
    Example13Checks();
    PlainIsFixed(s);
    CanonicalOf(s, s);
    PrefixedChecks(s);
    ExampleBody(Prefixed(s), s, r);
    SameBodySameCheck13(Prefixed(s), r);
  }

  lemma CheckDigit(total: int, last: int)
    requires 0 <= last < 10
    ensures (10 - total % 10) % 10 == last <==> (total + last) % 10 == 0
  {
  }

  /** Eleven is prime: no weighted difference of two characters is a multiple of it. */
  lemma Shifted11(total: int, after: int, w: int, d: int)
    requires total % 11 == 0 && 1 <= w <= 10 && -10 <= d <= 10 && d != 0 && after == total + d * w
    ensures after % 11 != 0
  {
    match w
    case 1 => case 2 => case 3 => case 4 => case 5 =>
    case 6 => case 7 => case 8 => case 9 => case 10 =>
  }

  lemma Replaced11(total: int, after: int, a: int, b: int, w: nat)
    requires total % 11 == 0 && 1 <= w <= 10 && 0 <= a <= 10 && 0 <= b <= 10 && a != b
    requires after == total - Times(a, w) + Times(b, w)
    ensures after % 11 != 0
  {
    assert after == total + (b - a) * w by {
      TimesIsProduct(a, w);
      TimesIsProduct(b, w);
    }
    Shifted11(total, after, w, b - a);
  }

  lemma Exchanged11(total: int, after: int, a: int, b: int, u: nat, v: nat)
    requires total % 11 == 0 && 1 <= v < u <= 10 && 0 <= a <= 10 && 0 <= b <= 10 && a != b
    requires after == total - Times(a, u) + Times(b, u) - Times(b, v) + Times(a, v)
    ensures after % 11 != 0
  {
    TimesDifference(a, u, v);
    TimesDifference(b, u, v);
    Replaced11(total, after, a, b, u - v);
  }

  lemma TimesDifference(d: int, u: nat, v: nat)
    requires v <= u
    ensures Times(d, u) - Times(d, v) == Times(d, u - v)
  {
    TimesIsProduct(d, u);
    TimesIsProduct(d, v);
    TimesIsProduct(d, u - v);
  }

  lemma FormWorth(s: string, k: nat)
    requires Form10(s) && k < 10
    ensures 0 <= Worth(s[k]) <= 10 && (IsDigit(s[k]) || s[k] == 'X')
  {
    assert k < 9 ==> s[k] == s[..9][k];
  }

  lemma Changed10(s: string, k: nat, c: char)
    requires Checks10(s) && k < 10 && c != s[k]
    ensures !Checks10(s[k := c])
  {
    if Form10(s[k := c]) {
      Checks10Sum(s);
      Checks10Sum(s[k := c]);
      SumUpdate(s, Weight10, k, c);
      FormWorth(s, k);
      FormWorth(s[k := c], k);
      Replaced11(Sum(s, Weight10), Sum(s[k := c], Weight10), Worth(s[k]), Worth(c), Weight10(k));
    }
  }

  lemma Replaced10(total: int, after: int, a: int, b: int, w: nat)
    requires total % 10 == 0 && (w == 1 || w == 3) && 0 <= a < 10 && 0 <= b < 10 && a != b
    requires after == total - Times(a, w) + Times(b, w)
    ensures after % 10 != 0
  {
    var d := b - a;
    assert after == total + (if w == 1 then d else 3 * d) by {
      TimesIsProduct(a, w);
      TimesIsProduct(b, w);
    }
    Coprime10(total, d);
  }

  lemma Coprime10(total: int, d: int)
    requires total % 10 == 0 && -10 < d < 10 && d != 0
    ensures (total + d) % 10 != 0 && (total + 3 * d) % 10 != 0
  {
    var q := total / 10;
    assert total == 10 * q;
  }

  lemma ChangedSum13(s: string, k: nat, c: char)
    requires |s| == 13 && Digits(s) && IsDigit(c) && k < 13 && c != s[k] && Sum(s, Weight13) % 10 == 0
    ensures Sum(s[k := c], Weight13) % 10 != 0
  {
    SumUpdate(s, Weight13, k, c);
    Replaced10(Sum(s, Weight13), Sum(s[k := c], Weight13), Worth(s[k]), Worth(c), Weight13(k));
  }

  lemma Changed13(s: string, k: nat, c: char)
    requires Checks13(s) && k < 13 && c != s[k]
    ensures !Checks13(s[k := c])
  {
    if IsDigit(c) {
      Checks13Sum(s);
      ChangedSum13(s, k, c);
      Checks13Sum(s[k := c]);
    } else {
      assert s[k := c][k] == c;
    }
  }

  function Swap(s: string, j: nat, k: nat): string
    requires j < k < |s|
  {
    s[j := s[k]][k := s[j]]
  }

  lemma SwapSum(s: string, weight: int -> nat, j: nat, k: nat)
    requires j < k < |s|
    ensures var a, b := Worth(s[j]), Worth(s[k]);
            Sum(Swap(s, j, k), weight) ==
              Sum(s, weight) - Times(a, weight(j)) + Times(b, weight(j)) - Times(b, weight(k)) + Times(a, weight(k))
  {
    SumUpdate(s, weight, j, s[k]);
    SumUpdate(s[j := s[k]], weight, k, s[j]);
  }

  lemma Swapped10(s: string, j: nat, k: nat)
    requires Checks10(s) && j < k < 10 && s[j] != s[k]
    ensures !Checks10(Swap(s, j, k))
  {
    var t := Swap(s, j, k);
    if Form10(t) {
      FormWorth(s, j);
      FormWorth(s, k);
      SwapSum(s, Weight10, j, k);
      Checks10Sum(s);
      Checks10Sum(t);
      Exchanged11(Sum(s, Weight10), Sum(t, Weight10), Worth(s[j]), Worth(s[k]), Weight10(j), Weight10(k));
    }
  }

  lemma Residue(q: int, r: int)
    requires 0 <= r < 10
    ensures (10 * q + r) % 10 == r
  {
  }

  lemma Doubled(total: int, after: int, d: int)
    requires total % 10 == 0 && after == total + 2 * d
    ensures after % 10 == 0 <==> d % 5 == 0
  {
    var q, m, r := total / 10, d / 5, d % 5;
    assert after == 10 * (q + m) + 2 * r;
    Residue(q + m, 2 * r);
  }

  lemma Negated5(d: int)
    ensures (-d) % 5 == 0 <==> d % 5 == 0
  {
  }

  lemma Exchanged10(total: int, after: int, a: int, b: int, u: nat, v: nat)
    requires total % 10 == 0 && u in {1, 3} && v in {1, 3}
    requires after == total - Times(a, u) + Times(b, u) - Times(b, v) + Times(a, v)
    ensures after % 10 == 0 <==> u == v || (b - a) % 5 == 0
  {
    assert Times(a, 1) == a && Times(a, 3) == 3 * a && Times(b, 1) == b && Times(b, 3) == 3 * b;
    if u == 3 && v == 1 {
      Doubled(total, after, b - a);
    } else if u == 1 && v == 3 {
      Doubled(total, after, a - b);
      Negated5(a - b);
      assert -(a - b) == b - a;
    }
  }

  lemma SwappedSum13(s: string, j: nat, k: nat) returns (a: int, b: int, u: nat, v: nat)
    requires j < k < |s|
    ensures a == Worth(s[j]) && b == Worth(s[k]) && u == Weight13(j) && v == Weight13(k)
    ensures Sum(Swap(s, j, k), Weight13) ==
            Sum(s, Weight13) - Times(a, u) + Times(b, u) - Times(b, v) + Times(a, v)
  {
    a, b, u, v := Worth(s[j]), Worth(s[k]), Weight13(j), Weight13(k);
    SwapSum(s, Weight13, j, k);
  }

  lemma Swapped13(s: string, j: nat, k: nat)
    requires Checks13(s) && j < k < 13
    ensures Checks13(Swap(s, j, k)) <==> j % 2 == k % 2 || (Worth(s[k]) - Worth(s[j])) % 5 == 0
  {
    Checks13Sum(s);
    var a, b, u, v := SwappedSum13(s, j, k);
    Exchanged10(Sum(s, Weight13), Sum(Swap(s, j, k), Weight13), a, b, u, v);
    Checks13Sum(Swap(s, j, k));
  }

  // ---------------------------------------------------------------- typing errors in the raw text

  /** Where the character at `k` of the raw text stands in the cleaned form. */
  function Place(value: string, k: nat): nat
    requires k < |value|
  {
    |Clean(value[..k])|
  }

  /** Replacing one digit or X of the raw text replaces one character of the cleaned form. */
  lemma {:induction false} CleanUpdate(value: string, k: nat, c: char)
    requires k < |value| && Relevant(value[k]) && Relevant(c)
    ensures var p := Place(value, k);
            p < |Clean(value)| && Clean(value)[p] == value[k] && Clean(value[k := c]) == Clean(value)[p := c]
  {
    var n := |value| - 1;
    assert value[k := c][..n] == if k < n then value[..n][k := c] else value[..n];
    if k < n {
      CleanUpdate(value[..n], k, c);
      assert value[..n][..k] == value[..k];
    }
  }

  /** Distinct digits stand at distinct places, in the same order. */
  lemma {:induction false} PlacesIncrease(value: string, j: nat, k: nat)
    requires j < k < |value| && Relevant(value[j])
    ensures Place(value, j) < Place(value, k)
  {
    assert value[..k][..k - 1] == value[..k - 1];
    if j < k - 1 {
      PlacesIncrease(value, j, k - 1);
    }
  }

  lemma CleanSwap(value: string, j: nat, k: nat)
    requires j < k < |value| && Relevant(value[j]) && Relevant(value[k])
    ensures var p, q := Place(value, j), Place(value, k);
            && p < q < |Clean(value)| && Clean(value)[p] == value[j] && Clean(value)[q] == value[k]
            && Clean(Swap(value, j, k)) == Swap(Clean(value), p, q)
  {
    PlacesIncrease(value, j, k);
    CleanUpdate(value, j, value[k]);
    CleanUpdate(value, k, value[j]);
    var once := value[j := value[k]];
    CleanUpdate(once, k, value[j]);
    CleanUpdate(value[..k], j, value[k]);
    assert once[..k] == value[..k][j := value[k]];
    assert Place(once, k) == Place(value, k);
  }

  /** Replacing any digit or X of a valid ISBN-10, however it is punctuated, by a different one is detected. */
  lemma Isbn10DetectsChange(value: string, k: nat, c: char)
    requires Valid10(value) && k < |value| && Relevant(value[k]) && Relevant(c) && Upper(c) != Upper(value[k])
    ensures !Valid10(value[k := c])
  {
    var p := Place(value, k);
    CleanUpdate(value, k, c);
    Changed10(UpperAll(Clean(value)), p, Upper(c));
    assert UpperAll(Clean(value)[p := c]) == UpperAll(Clean(value))[p := Upper(c)];
  }

  /** So is exchanging any two of them. */
  lemma Isbn10DetectsSwap(value: string, j: nat, k: nat)
    requires Valid10(value) && j < k < |value| && Relevant(value[j]) && Relevant(value[k])
    requires Upper(value[j]) != Upper(value[k])
    ensures !Valid10(Swap(value, j, k))
  {
    var p, q := Place(value, j), Place(value, k);
    CleanSwap(value, j, k);
    Swapped10(UpperAll(Clean(value)), p, q);
    assert UpperAll(Swap(Clean(value), p, q)) == Swap(UpperAll(Clean(value)), p, q);
  }

  /** Replacing any digit of a valid ISBN-13, however it is punctuated, by a different digit or X is detected. */
  lemma Isbn13DetectsChange(value: string, k: nat, c: char)
    requires Valid13(value) && k < |value| && Relevant(value[k]) && Relevant(c) && c != value[k]
    ensures !Valid13(value[k := c])
  {
    CleanUpdate(value, k, c);
    Changed13(Clean(value), Place(value, k), c);
  }

  /** Exchanging two digits of a valid ISBN-13 goes undetected exactly when their places have the same
      parity or the digits differ by a multiple of five. */
  lemma Isbn13MissesSwapIff(value: string, j: nat, k: nat)
    requires Valid13(value) && j < k < |value| && Relevant(value[j]) && Relevant(value[k])
    ensures Valid13(Swap(value, j, k)) <==>
            Place(value, j) % 2 == Place(value, k) % 2 || (Worth(value[k]) - Worth(value[j])) % 5 == 0
  {
    CleanSwap(value, j, k);
    Swapped13(Clean(value), Place(value, j), Place(value, k));
  }
}
