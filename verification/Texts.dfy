/** The string primitives the boundary code relies on: printing integers, stripping, code-point order. */
module Texts {
  import opened Domain

  predicate IsDigit(c: char) { '0' <= c <= '9' }

  function Digit(d: nat): (c: char)
    requires d < 10
    ensures IsDigit(c) && c as int - '0' as int == d
  {
    ('0' as int + d) as char
  }

  function Decimal(n: nat): (s: string)
    ensures s != "" && forall c :: c in s ==> IsDigit(c)
  {
    if n < 10 then [Digit(n)] else Decimal(n / 10) + [Digit(n % 10)]
  }

  /** `str(i)`. */
  function Number(i: int): string { if i < 0 then "-" + Decimal(-i) else Decimal(i) }

  function ValueOf(s: string): nat
    requires forall c :: c in s ==> IsDigit(c)
  {
    if s == "" then 0
    else 10 * ValueOf(s[..|s| - 1]) + (assert IsDigit(s[|s| - 1]); s[|s| - 1] as int - '0' as int)
  }

  /** Printing is undone by reading. */
  lemma {:induction false} DecimalRoundTrip(n: nat)
    ensures ValueOf(Decimal(n)) == n
  {
    if n >= 10 {
      DecimalRoundTrip(n / 10);
      assert Decimal(n)[..|Decimal(n)| - 1] == Decimal(n / 10);
    } else {
      assert Decimal(n)[..|Decimal(n)| - 1] == "";
    }
  }

  lemma DecimalInjective(m: nat, n: nat)
    ensures Decimal(m) == Decimal(n) ==> m == n
  {
    DecimalRoundTrip(m);
    DecimalRoundTrip(n);
  }

  lemma NumberChars(i: int)
    ensures forall c :: c in Number(i) ==> IsDigit(c) || c == '-'
  {
  }

  lemma NumberSign(i: int)
    ensures Number(i) != "" && (i < 0 <==> Number(i)[0] == '-')
  {
    if i >= 0 {
      assert IsDigit(Decimal(i)[0]);
    }
  }

  lemma NumberInjective(i: int, j: int)
    ensures Number(i) == Number(j) ==> i == j
  {
    NumberSign(i);
    NumberSign(j);
    if Number(i) == Number(j) {
      if i < 0 {
        assert Number(i)[1..] == Decimal(-i) && Number(j)[1..] == Decimal(-j);
        DecimalInjective(-i, -j);
      } else {
        DecimalInjective(i, j);
      }
    }
  }

  lemma CutInside(inside: char -> bool, a: string, x: string, b: string, y: string)
    requires a + x == b + y && forall c :: c in x ==> inside(c)
    ensures |a| < |b| ==> inside(b[|b| - 1])
  {
    if |a| < |b| {
      assert (a + x)[|b| - 1] == x[|b| - 1 - |a|] && (b + y)[|b| - 1] == b[|b| - 1];
    }
  }

  /** A text cut after its last character outside a class is cut in one way only. */
  lemma OneCut(inside: char -> bool, a: string, x: string, b: string, y: string)
    requires a + x == b + y && a != "" && b != ""
    requires !inside(a[|a| - 1]) && !inside(b[|b| - 1])
    requires forall c :: c in x || c in y ==> inside(c)
    ensures a == b && x == y
  {
    CutInside(inside, a, x, b, y);
    CutInside(inside, b, y, a, x);
    assert a == (a + x)[..|a|] && b == (b + y)[..|b|];
    assert x == (a + x)[|a|..] && y == (b + y)[|b|..];
  }

  predicate IsSpace(c: char) {
    var n := c as int;
    || 9 <= n <= 13 || 28 <= n <= 32 || n == 0x85 || n == 0xA0 || n == 0x1680 || 0x2000 <= n <= 0x200A
    || n == 0x2028 || n == 0x2029 || n == 0x202F || n == 0x205F || n == 0x3000
  }

  /** `s.strip() == ""`. */
  predicate Blank(s: string) { forall i :: 0 <= i < |s| ==> IsSpace(s[i]) }

  function Strip(s: string): string {
    if s == "" then ""
    else if IsSpace(s[0]) then Strip(s[1..])
    else StripEnd(s)
  }

  function StripEnd(s: string): string {
    if s != "" && IsSpace(s[|s| - 1]) then StripEnd(s[..|s| - 1]) else s
  }

  function Lower(s: string): string {
    seq(|s|, i requires 0 <= i < |s| => if 'A' <= s[i] <= 'Z' then (s[i] as int + 32) as char else s[i])
  }

  lemma BlankCut(s: string, i: nat)
    requires i <= |s|
    ensures Blank(s[..i]) <==> forall k :: 0 <= k < i ==> IsSpace(s[k])
    ensures Blank(s[i..]) <==> forall k :: i <= k < |s| ==> IsSpace(s[k])
  {
    assert forall k :: i <= k < |s| ==> s[k] == s[i..][k - i];
  }

  lemma SpaceBefore(s: string, i: nat, j: nat)
    requires s != "" && IsSpace(s[0]) && i <= j <= |s| - 1
    requires Blank(s[1..][..i]) && Blank(s[1..][j..])
    ensures Blank(s[..i + 1]) && Blank(s[j + 1..]) && s[i + 1..j + 1] == s[1..][i..j]
  {
    var tail := s[1..];
    BlankCut(tail, i);
    BlankCut(tail, j);
    assert s == [s[0]] + tail;
    BlankCut(s, i + 1);
    BlankCut(s, j + 1);
    TailSlice(s, i, j);
  }

  lemma TailSlice(s: string, i: nat, j: nat)
    requires s != "" && i <= j <= |s| - 1
    ensures s[i + 1..j + 1] == s[1..][i..j]
  {
    assert forall k :: i <= k < j ==> s[k + 1] == s[1..][k];
  }

  /** What is left is the text between the first and the last character that is no whitespace. */
  lemma {:induction false} StripIs(s: string) returns (i: nat, j: nat)
    ensures i <= j <= |s| && Strip(s) == s[i..j] && Blank(s[..i]) && Blank(s[j..])
    ensures i < j ==> !IsSpace(s[i]) && !IsSpace(s[j - 1])
  {
    if s == "" {
      i, j := 0, 0;
    } else if IsSpace(s[0]) {
      i, j := StripIs(s[1..]);
      SpaceBefore(s, i, j);
      assert i < j ==> s[i + 1] == s[1..][i] && s[j] == s[1..][j - 1];
      i, j := i + 1, j + 1;
    } else {
      i := 0;
      j := StripEndIs(s);
    }
  }

  lemma {:induction false} StripEndIs(s: string) returns (j: nat)
    ensures j <= |s| && StripEnd(s) == s[..j] && Blank(s[j..]) && (j > 0 ==> !IsSpace(s[j - 1]))
    ensures (exists k :: 0 <= k < |s| && !IsSpace(s[k])) ==> j > 0
  {
    if s != "" && IsSpace(s[|s| - 1]) {
      var init := s[..|s| - 1];
      j := StripEndIs(init);
      assert init[..j] == s[..j];
      assert forall k :: j <= k < |init| ==> init[j..][k - j] == s[k];
      assert Blank(s[j..]);
      if k :| 0 <= k < |s| && !IsSpace(s[k]) {
        assert init[k] == s[k];
      }
    } else {
      j := |s|;
      assert s[..j] == s;
    }
  }

  predicate IsUpper(c: char) { 'A' <= c <= 'Z' }

  /** The text, with some of its letters capitalized. */
  predicate SpelledLike(s: string, text: string) {
    |s| == |text| && forall k :: 0 <= k < |s| ==> SameLetter(s[k], text[k])
  }

  predicate SameLetter(c: char, d: char) { c == d || (IsUpper(c) && c as int - 'A' as int == d as int - 'a' as int) }

  /** The text, perhaps in capitals and perhaps with whitespace around it. */
  ghost predicate SpelledAs(s: string, text: string) {
    exists i, j :: 0 <= i <= j <= |s| && Blank(s[..i]) && Blank(s[j..]) && SpelledLike(s[i..j], text)
  }

  predicate Tidy(text: string) {
    && text != "" && !IsSpace(text[0]) && !IsSpace(text[|text| - 1])
    && forall k :: 0 <= k < |text| ==> !IsUpper(text[k])
  }

  lemma LowerIs(s: string, text: string)
    requires forall k :: 0 <= k < |text| ==> !IsUpper(text[k])
    ensures Lower(s) == text <==> SpelledLike(s, text)
  {
    if SpelledLike(s, text) {
      assert forall k :: 0 <= k < |s| ==> Lower(s)[k] == text[k];
    }
    if Lower(s) == text {
      forall k | 0 <= k < |s| ensures SameLetter(s[k], text[k]) {
        assert Lower(s)[k] == text[k];
      }
    }
  }

  /** The whitespace around a text that neither starts nor ends with any is cut in one way. */
  lemma OneTrim(s: string, i: nat, j: nat, k: nat, l: nat)
    requires i < j <= |s| && k < l <= |s|
    requires Blank(s[..i]) && Blank(s[j..]) && Blank(s[..k]) && Blank(s[l..])
    requires !IsSpace(s[i]) && !IsSpace(s[j - 1]) && !IsSpace(s[k]) && !IsSpace(s[l - 1])
    ensures i == k && j == l
  {
    BlankCut(s, i);
    BlankCut(s, j);
    BlankCut(s, k);
    BlankCut(s, l);
  }

  /** A tidy text stands where the stripped text does. */
  lemma TidyIsStripped(s: string, text: string, i: nat, j: nat, k: nat, l: nat)
    requires Tidy(text) && i <= j <= |s| && k <= l <= |s|
    requires Blank(s[..i]) && Blank(s[j..]) && Blank(s[..k]) && Blank(s[l..])
    requires i < j ==> !IsSpace(s[i]) && !IsSpace(s[j - 1])
    requires SpelledLike(s[k..l], text)
    ensures i == k && j == l
  {
    assert s[k..l][0] == s[k] && s[k..l][l - k - 1] == s[l - 1];
    BlankCut(s, i);
    BlankCut(s, j);
    if i < j {
      OneTrim(s, i, j, k, l);
    }
  }

  /** Stripping and lower-casing reads a tidy text out of exactly its spellings. */
  lemma SpelledExactly(s: string, text: string)
    requires Tidy(text)
    ensures Lower(Strip(s)) == text <==> SpelledAs(s, text)
  {
    var i, j := StripIs(s);
    LowerIs(Strip(s), text);
    if SpelledAs(s, text) {
      var k, l :| 0 <= k <= l <= |s| && Blank(s[..k]) && Blank(s[l..]) && SpelledLike(s[k..l], text);
      TidyIsStripped(s, text, i, j, k, l);
    }
  }

  // ----- code-point order is a strict total order -----

  /** The first character that differs decides; a text comes after its own beginnings. */
  ghost predicate ComesBefore(a: string, b: string) {
    (a < b) || exists k :: 0 <= k < |a| && k < |b| && a[..k] == b[..k] && a[k] < b[k]
  }

  lemma {:induction false} StringLessIs(a: string, b: string)
    ensures StringLess(a, b) <==> ComesBefore(a, b)
    decreases |a|
  {
    if |a| > 0 && |b| > 0 && a[0] == b[0] {
      StringLessIs(a[1..], b[1..]);
      LaterDifference(a, b);
    } else if |a| > 0 && |b| > 0 && a[0] < b[0] {
      assert a[..0] == b[..0];
    }
  }

  lemma LaterDifference(a: string, b: string)
    requires |a| > 0 && |b| > 0 && a[0] == b[0]
    ensures ComesBefore(a, b) <==> ComesBefore(a[1..], b[1..])
  {
    var s, t := a[1..], b[1..];
    assert a == [a[0]] + s && b == [b[0]] + t;
    assert a < b <==> s < t;
    if k :| 0 <= k < |s| && k < |t| && s[..k] == t[..k] && s[k] < t[k] {
      MovedUp(a, b, k);
    }
    if k :| 0 <= k < |a| && k < |b| && a[..k] == b[..k] && a[k] < b[k] {
      MovedDown(a, b, k);
    }
  }

  lemma MovedUp(a: string, b: string, k: nat)
    requires |a| > 0 && |b| > 0 && a[0] == b[0] && k < |a| - 1 && k < |b| - 1
    requires a[1..][..k] == b[1..][..k] && a[1..][k] < b[1..][k]
    ensures ComesBefore(a, b)
  {
    assert a[..k + 1] == [a[0]] + a[1..][..k] && b[..k + 1] == [b[0]] + b[1..][..k];
    assert a[k + 1] < b[k + 1];
  }

  lemma MovedDown(a: string, b: string, k: nat)
    requires |a| > 0 && |b| > 0 && a[0] == b[0] && k < |a| && k < |b|
    requires a[..k] == b[..k] && a[k] < b[k]
    ensures ComesBefore(a[1..], b[1..])
  {
    assert a[1..][..k - 1] == a[..k][1..] && b[1..][..k - 1] == b[..k][1..];
    assert a[1..][k - 1] < b[1..][k - 1];
  }

  lemma {:induction false} LessTransitive(a: string, b: string, c: string)
    requires StringLess(a, b) && StringLess(b, c)
    ensures StringLess(a, c)
    decreases |a|
  {
    if |a| > 0 && a[0] == b[0] && b[0] == c[0] {
      LessTransitive(a[1..], b[1..], c[1..]);
    }
  }

  lemma {:induction false} LessIrreflexive(a: string)
    ensures !StringLess(a, a)
    decreases |a|
  {
    if |a| > 0 {
      LessIrreflexive(a[1..]);
    }
  }

  lemma {:induction false} LessTotal(a: string, b: string)
    ensures StringLess(a, b) || a == b || StringLess(b, a)
    decreases |a|
  {
    if |a| > 0 && |b| > 0 && a[0] == b[0] {
      LessTotal(a[1..], b[1..]);
      assert a == [a[0]] + a[1..] && b == [b[0]] + b[1..];
    }
  }

  predicate Ascending(s: seq<string>) { forall i, j :: 0 <= i < j < |s| ==> StringLess(s[i], s[j]) }

  function Insert(s: seq<string>, x: string): seq<string> {
    if s == [] then [x]
    else if x == s[0] then s
    else if StringLess(x, s[0]) then [x] + s
    else [s[0]] + Insert(s[1..], x)
  }

  lemma {:induction false} InsertMembers(s: seq<string>, x: string, y: string)
    ensures y in Insert(s, x) <==> y in s || y == x
  {
    if s != [] {
      assert s == [s[0]] + s[1..];
      InsertMembers(s[1..], x, y);
    }
  }

  lemma AscendingCons(x: string, s: seq<string>)
    requires Ascending(s) && forall y :: y in s ==> StringLess(x, y)
    ensures Ascending([x] + s)
  {
  }

  lemma {:induction false} InsertAscends(s: seq<string>, x: string)
    requires Ascending(s)
    ensures Ascending(Insert(s, x))
  {
    if s != [] && x != s[0] {
      LessTotal(x, s[0]);
      if StringLess(x, s[0]) {
        forall y | y in s ensures StringLess(x, y) {
          if y != s[0] {
            LessTransitive(x, s[0], y);
          }
        }
        AscendingCons(x, s);
      } else {
        InsertAscends(s[1..], x);
        forall y | y in Insert(s[1..], x) ensures StringLess(s[0], y) {
          InsertMembers(s[1..], x, y);
        }
        AscendingCons(s[0], Insert(s[1..], x));
      }
    }
  }

  /** `sorted(set(names))`. */
  function SortedDistinct(names: seq<string>): seq<string> {
    if names == [] then [] else Insert(SortedDistinct(names[..|names| - 1]), names[|names| - 1])
  }

  lemma {:induction false} SortedDistinctIs(names: seq<string>)
    ensures Ascending(SortedDistinct(names))
    ensures forall y :: y in SortedDistinct(names) <==> y in names
  {
    if names != [] {
      var n := |names| - 1;
      SortedDistinctIs(names[..n]);
      InsertAscends(SortedDistinct(names[..n]), names[n]);
      assert names == names[..n] + [names[n]];
      forall y ensures y in SortedDistinct(names) <==> y in names {
        InsertMembers(SortedDistinct(names[..n]), names[n], y);
      }
    }
  }

  lemma LeastFirst(s: seq<string>, t: seq<string>)
    requires Ascending(s) && Ascending(t) && s != [] && t != []
    requires s[0] in t && t[0] in s
    ensures s[0] == t[0]
  {
    if s[0] != t[0] {
      assert StringLess(t[0], s[0]) && StringLess(s[0], t[0]);
      LessTransitive(s[0], t[0], s[0]);
      LessIrreflexive(s[0]);
    }
  }

  lemma AscendingTail(s: seq<string>)
    requires Ascending(s) && s != []
    ensures Ascending(s[1..]) && s[0] !in s[1..]
  {
    LessIrreflexive(s[0]);
  }

  /** An ascending sequence is determined by its members. */
  lemma {:induction false} AscendingUnique(s: seq<string>, t: seq<string>)
    requires Ascending(s) && Ascending(t) && forall y :: y in s <==> y in t
    ensures s == t
  {
    assert s != [] ==> s[0] in t;
    assert t != [] ==> t[0] in s;
    if s != [] {
      LeastFirst(s, t);
      AscendingTail(s);
      AscendingTail(t);
      assert s == [s[0]] + s[1..] && t == [t[0]] + t[1..];
      forall y ensures y in s[1..] <==> y in t[1..] {
        assert y in s <==> y in t;
      }
      AscendingUnique(s[1..], t[1..]);
    }
  }

  /** No text occurs twice. */
  predicate Distinct(s: seq<string>) { forall i, j :: 0 <= i < j < |s| ==> s[i] != s[j] }

  lemma DistinctAppend(s: seq<string>, x: string)
    ensures Distinct(s + [x]) <==> Distinct(s) && x !in s
  {
    if Distinct(s + [x]) {
      forall i, j | 0 <= i < j < |s| ensures s[i] != s[j] {
        assert (s + [x])[i] != (s + [x])[j];
      }
      forall i | 0 <= i < |s| ensures s[i] != x {
        assert (s + [x])[i] != (s + [x])[|s|];
      }
    }
  }
}
