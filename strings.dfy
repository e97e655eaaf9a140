/**
 * String utilities used across the codec: decimal rendering of integers
 * (JavaScript's `String(n)` for integers and the id counters), the two string
 * orders the source relies on, and a few search helpers.
 *
 * JavaScript strings are sequences of UTF-16 code units, while a Dafny
 * `string` is a sequence of characters; `Utf16` gives the code units of a
 * string (a character above U+FFFF becomes a surrogate pair), so `s.length`
 * is `Utf16Length(s)`. `Array.prototype.sort()` without a comparator orders
 * strings by their code units: that is `CodeUnitLess`.
 * `String.prototype.localeCompare` uses the host's collation; it is modelled
 * by `LocaleLess`, which compares ASCII letters case-insensitively first and
 * puts lower case before upper case on a tie. The two orders disagree, for example on "B" and "a" (`OrdersDisagree`).
 */
module Strings {

  // ---------------------------------------------------------------------------
  // Decimal rendering
  // ---------------------------------------------------------------------------

  function DigitChar(d: nat): (c: char)
    requires d < 10
    ensures '0' <= c <= '9'
  {
    "0123456789"[d]
  }

  function DigitValue(c: char): nat
  {
    if '0' <= c <= '9' then (c as int - '0' as int) as nat else 0
  }

  predicate IsDigit(c: char) { '0' <= c <= '9' }

  predicate AllDigits(s: string) { forall i :: 0 <= i < |s| ==> IsDigit(s[i]) }

  /** The decimal text of a natural number, as `String(n)` renders it. */
  function NatToString(n: nat): (r: string)
    ensures |r| >= 1 && AllDigits(r)
    decreases n
  {
    if n < 10 then [DigitChar(n)] else NatToString(n / 10) + [DigitChar(n % 10)]
  }

  /** The value of a string of decimal digits. */
  function ParseDigits(s: string): nat
    decreases |s|
  {
    if s == [] then 0 else ParseDigits(s[..|s| - 1]) * 10 + DigitValue(s[|s| - 1])
  }

  lemma {:induction false} ParseNatToString(n: nat)
    ensures ParseDigits(NatToString(n)) == n
    decreases n
  {
    if n >= 10 {
      var r := NatToString(n);
      assert r[..|r| - 1] == NatToString(n / 10);
      ParseNatToString(n / 10);
    }
  }

  /** Distinct numbers have distinct decimal texts. */
  lemma NatToStringInjective(a: nat, b: nat)
    requires NatToString(a) == NatToString(b)
    ensures a == b
  {
    ParseNatToString(a);
    ParseNatToString(b);
  }

  /** The text of a JavaScript integer: an optional minus sign and digits. */
  function IntToString(i: int): (r: string)
    ensures |r| >= 1
    ensures i >= 0 ==> r == NatToString(i)
    ensures i < 0 ==> r == "-" + NatToString(-i)
  {
    if i >= 0 then NatToString(i) else "-" + NatToString(-i)
  }

  /** The text of an integer starts with '-' exactly when it is negative. */
  lemma IntToStringSign(i: int)
    ensures IntToString(i)[0] == '-' <==> i < 0
  {
    if i >= 0 {
      assert IsDigit(NatToString(i)[0]);
    }
  }

  /** Distinct integers have distinct texts. */
  lemma IntToStringInjective(a: int, b: int)
    requires IntToString(a) == IntToString(b)
    ensures a == b
  {
    IntToStringSign(a);
    IntToStringSign(b);
    if a >= 0 {
      NatToStringInjective(a, b);
    } else {
      assert NatToString(-a) == IntToString(a)[1..] == IntToString(b)[1..] == NatToString(-b);
      NatToStringInjective(-a, -b);
    }
  }

  /** The text of an integer ends in a decimal digit. */
  lemma IntToStringEndsInDigit(i: int)
    ensures IsDigit(IntToString(i)[|IntToString(i)| - 1])
  {
    var n := NatToString(if i >= 0 then i else -i);
    assert IsDigit(n[|n| - 1]);
    if i < 0 {
      assert IntToString(i)[|IntToString(i)| - 1] == n[|n| - 1];
    }
  }

  // ---------------------------------------------------------------------------
  // UTF-16: the code units JavaScript stores a string as
  // ---------------------------------------------------------------------------

  /** The code units of one character: the character itself below U+10000, otherwise its surrogate pair. */
  function CharUnits(c: char): (r: seq<int>)
    ensures |r| == 1 <==> c as int < 0x1_0000
    ensures 1 <= |r| <= 2
    ensures |r| == 2 ==> 0xD800 <= r[0] < 0xDC00 && 0xDC00 <= r[1] < 0xE000
    ensures |r| == 1 ==> !(0xD800 <= r[0] < 0xE000)
  {
    var v := c as int;
    if v < 0x1_0000 then [v]
    else [0xD800 + (v - 0x1_0000) / 0x400, 0xDC00 + (v - 0x1_0000) % 0x400]
  }

  /** A surrogate pair determines the character it encodes. */
  lemma CharUnitsInjective(c: char, d: char)
    requires CharUnits(c) == CharUnits(d)
    ensures c == d
  {
    var (v, w) := (c as int, d as int);
    if v >= 0x1_0000 {
      assert v - 0x1_0000 == (v - 0x1_0000) / 0x400 * 0x400 + (v - 0x1_0000) % 0x400;
      assert w - 0x1_0000 == (w - 0x1_0000) / 0x400 * 0x400 + (w - 0x1_0000) % 0x400;
    }
    assert v == w;
  }

  /** The code units of a string, the values `s.charCodeAt(i)` reads. */
  function Utf16(s: string): (r: seq<int>)
    ensures |s| <= |r| <= 2 * |s|
    ensures s == [] <==> r == []
    decreases |s|
  {
    if s == [] then [] else CharUnits(s[0]) + Utf16(s[1..])
  }

  /** `s.length`: the number of code units, which exceeds the number of characters by one per character above U+FFFF. */
  function Utf16Length(s: string): (r: nat)
    ensures |s| <= r <= 2 * |s|
  {
    |Utf16(s)|
  }

  /** Without characters above U+FFFF, `s.length` counts characters. */
  lemma {:induction false} Utf16LengthBasic(s: string)
    requires forall i :: 0 <= i < |s| ==> s[i] as int < 0x1_0000
    ensures Utf16Length(s) == |s|
    decreases |s|
  {
    if s != [] {
      Utf16LengthBasic(s[1..]);
    }
  }

  /** Each character adds its own code units: `(a + b).length == a.length + b.length`. */
  lemma {:induction false} Utf16Append(a: string, b: string)
    ensures Utf16(a + b) == Utf16(a) + Utf16(b)
    decreases |a|
  {
    if a == [] {
      assert a + b == b;
    } else {
      assert (a + b)[0] == a[0] && (a + b)[1..] == a[1..] + b;
      Utf16Append(a[1..], b);
    }
  }

  /** Distinct strings have distinct code units: the first unit tells a surrogate pair from a single unit. */
  lemma {:induction false} Utf16Injective(a: string, b: string)
    requires Utf16(a) == Utf16(b)
    ensures a == b
    decreases |a|
  {
    if a != [] {
      var (ca, cb) := (CharUnits(a[0]), CharUnits(b[0]));
      assert Utf16(a)[0] == ca[0] && Utf16(b)[0] == cb[0];
      assert |ca| == |cb|;
      assert Utf16(a)[..|ca|] == ca && Utf16(b)[..|cb|] == cb;
      CharUnitsInjective(a[0], b[0]);
      assert Utf16(a[1..]) == Utf16(a)[|ca|..] == Utf16(b)[|cb|..] == Utf16(b[1..]);
      Utf16Injective(a[1..], b[1..]);
      assert a == [a[0]] + a[1..] && b == [b[0]] + b[1..];
    }
  }

  // ---------------------------------------------------------------------------
  // Code-unit order: the default comparison of Array.prototype.sort()
  // ---------------------------------------------------------------------------

  /** Lexicographic order on code-unit sequences; a proper prefix comes first. */
  predicate UnitsLess(a: seq<int>, b: seq<int>)
    decreases |a|
  {
    if a == [] then b != []
    else if b == [] then false
    else if a[0] != b[0] then a[0] < b[0]
    else UnitsLess(a[1..], b[1..])
  }

  /** `a` sorts strictly before `b` when compared code unit by code unit, as `sort()` compares. */
  predicate CodeUnitLess(a: string, b: string)
  {
    UnitsLess(Utf16(a), Utf16(b))
  }

  predicate CodeUnitLe(a: string, b: string) { a == b || CodeUnitLess(a, b) }

  lemma {:induction false} UnitsIrreflexive(a: seq<int>)
    ensures !UnitsLess(a, a)
    decreases |a|
  {
    if a != [] { UnitsIrreflexive(a[1..]); }
  }

  lemma {:induction false} UnitsTransitive(a: seq<int>, b: seq<int>, c: seq<int>)
    requires UnitsLess(a, b) && UnitsLess(b, c)
    ensures UnitsLess(a, c)
    decreases |a|
  {
    if a != [] && b != [] && c != [] && a[0] == b[0] && b[0] == c[0] {
      UnitsTransitive(a[1..], b[1..], c[1..]);
    }
  }

  lemma {:induction false} UnitsTotal(a: seq<int>, b: seq<int>)
    ensures a == b || UnitsLess(a, b) || UnitsLess(b, a)
    decreases |a|
  {
    if a != [] && b != [] && a[0] == b[0] {
      UnitsTotal(a[1..], b[1..]);
      if a[1..] == b[1..] {
        assert a == [a[0]] + a[1..] && b == [b[0]] + b[1..];
      }
    }
  }

  lemma CodeUnitIrreflexive(a: string)
    ensures !CodeUnitLess(a, a)
  {
    UnitsIrreflexive(Utf16(a));
  }

  lemma CodeUnitTransitive(a: string, b: string, c: string)
    requires CodeUnitLess(a, b) && CodeUnitLess(b, c)
    ensures CodeUnitLess(a, c)
  {
    UnitsTransitive(Utf16(a), Utf16(b), Utf16(c));
  }

  lemma CodeUnitTotal(a: string, b: string)
    ensures a == b || CodeUnitLess(a, b) || CodeUnitLess(b, a)
  {
    UnitsTotal(Utf16(a), Utf16(b));
    if Utf16(a) == Utf16(b) { Utf16Injective(a, b); }
  }

  lemma CodeUnitAsymmetric(a: string, b: string)
    requires CodeUnitLess(a, b)
    ensures !CodeUnitLess(b, a)
  {
    if CodeUnitLess(b, a) {
      CodeUnitTransitive(a, b, a);
      CodeUnitIrreflexive(a);
    }
  }

  /**
   * Code units are not code points: U+1F600 is stored as the pair D83D DE00,
   * so it sorts before U+FFFF although its code point is larger.
   */
  lemma SurrogatesSortFirst()
    ensures "\U{FFFF}"[0] < "\U{1F600}"[0]
    ensures CodeUnitLess("\U{1F600}", "\U{FFFF}")
    ensures Utf16Length("\U{1F600}") == 2
  {
    assert Utf16("\U{1F600}") == [0xD83D, 0xDE00];
    assert Utf16("\U{FFFF}") == [0xFFFF];
  }

  // ---------------------------------------------------------------------------
  // Locale order: the model of String.prototype.localeCompare
  // ---------------------------------------------------------------------------

  function LowerChar(c: char): char
  {
    if 'A' <= c <= 'Z' then (c as int + 32) as char else c
  }

  function SwapCaseChar(c: char): char
  {
    if 'A' <= c <= 'Z' then (c as int + 32) as char
    else if 'a' <= c <= 'z' then (c as int - 32) as char
    else c
  }

  /** The string with ASCII letters folded to lower case. */
  function Fold(s: string): (r: string)
    ensures |r| == |s|
    ensures forall i :: 0 <= i < |s| ==> r[i] == LowerChar(s[i])
  {
    if s == [] then [] else [LowerChar(s[0])] + Fold(s[1..])
  }

  /** The string with the case of every ASCII letter swapped. */
  function SwapCase(s: string): (r: string)
    ensures |r| == |s|
    ensures forall i :: 0 <= i < |s| ==> r[i] == SwapCaseChar(s[i])
  {
    if s == [] then [] else [SwapCaseChar(s[0])] + SwapCase(s[1..])
  }

  lemma SwapCaseInjective(a: string, b: string)
    requires SwapCase(a) == SwapCase(b)
    ensures a == b
  {
    assert |a| == |b|;
    forall i | 0 <= i < |a| ensures a[i] == b[i] {
      assert SwapCaseChar(a[i]) == SwapCaseChar(b[i]);
    }
  }

  /**
   * `a` sorts strictly before `b` for localeCompare: first by the case-folded
   * text, then (for strings equal up to case) lower case first.
   */
  predicate LocaleLess(a: string, b: string)
  {
    CodeUnitLess(Fold(a), Fold(b))
    || (Fold(a) == Fold(b) && CodeUnitLess(SwapCase(a), SwapCase(b)))
  }

  lemma LocaleIrreflexive(a: string)
    ensures !LocaleLess(a, a)
  {
    CodeUnitIrreflexive(Fold(a));
    CodeUnitIrreflexive(SwapCase(a));
  }

  lemma LocaleTransitive(a: string, b: string, c: string)
    requires LocaleLess(a, b) && LocaleLess(b, c)
    ensures LocaleLess(a, c)
  {
    if CodeUnitLess(Fold(a), Fold(b)) && CodeUnitLess(Fold(b), Fold(c)) {
      CodeUnitTransitive(Fold(a), Fold(b), Fold(c));
    } else if Fold(a) == Fold(b) && Fold(b) == Fold(c) {
      CodeUnitTransitive(SwapCase(a), SwapCase(b), SwapCase(c));
    }
  }

  lemma LocaleTotal(a: string, b: string)
    ensures a == b || LocaleLess(a, b) || LocaleLess(b, a)
  {
    CodeUnitTotal(Fold(a), Fold(b));
    CodeUnitTotal(SwapCase(a), SwapCase(b));
    if SwapCase(a) == SwapCase(b) { SwapCaseInjective(a, b); }
  }

  lemma LocaleAsymmetric(a: string, b: string)
    requires LocaleLess(a, b)
    ensures !LocaleLess(b, a)
  {
    if LocaleLess(b, a) {
      LocaleTransitive(a, b, a);
      LocaleIrreflexive(a);
    }
  }

  /** The two orders really differ: sort() puts "B" first, localeCompare "a". */
  lemma OrdersDisagree()
    ensures CodeUnitLess("B", "a") && LocaleLess("a", "B")
  {
    assert Utf16("B") == ['B' as int] && Utf16("a") == ['a' as int];
    assert Fold("a") == "a" && Fold("B") == "b";
    assert SwapCase("a") == "A" && SwapCase("B") == "b";
    assert Utf16("b") == ['b' as int];
  }

  // ---------------------------------------------------------------------------
  // Search helpers
  // ---------------------------------------------------------------------------

  predicate Contains(s: string, c: char) { c in s }

  predicate StartsWith(s: string, prefix: string)
  {
    |prefix| <= |s| && s[..|prefix|] == prefix
  }

  predicate EndsWith(s: string, suffix: string)
  {
    |suffix| <= |s| && s[|s| - |suffix|..] == suffix
  }

  /** Index of the last occurrence of `c`, or -1 (String.prototype.lastIndexOf). */
  function LastIndexOf(s: string, c: char): (r: int)
    ensures -1 <= r < |s|
    ensures r >= 0 ==> s[r] == c && forall j :: r < j < |s| ==> s[j] != c
    ensures r == -1 ==> c !in s
    decreases |s|
  {
    if s == [] then -1
    else if s[|s| - 1] == c then |s| - 1
    else LastIndexOf(s[..|s| - 1], c)
  }
}
