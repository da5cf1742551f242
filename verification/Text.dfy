/** Go's string order, whitespace trimming and zero-padded decimals, as far as the graph code uses them. */
module Text {

  const NUL: char := '\0'

  /** `a < b` on Go strings. */
  predicate Less(a: string, b: string) {
    if b == [] then false
    else if a == [] then true
    else a[0] < b[0] || (a[0] == b[0] && Less(a[1..], b[1..]))
  }

  lemma LessTotal(a: string, b: string)
    ensures Less(a, b) || Less(b, a) || a == b
    ensures !(Less(a, b) && Less(b, a))
    ensures !Less(a, a)
  {
    if a != [] && b != [] {
      LessTotal(a[1..], b[1..]);
      assert a == [a[0]] + a[1..] && b == [b[0]] + b[1..];
    }
    if a != [] {
      LessTotal(a[1..], a[1..]);
    }
  }

  lemma {:induction false} LessTrans(a: string, b: string, c: string)
    requires Less(a, b) && Less(b, c)
    ensures Less(a, c)
  {
    if a != [] && a[0] == b[0] && b[0] == c[0] {
      LessTrans(a[1..], b[1..], c[1..]);
    }
  }

  /** a and b agree before k, and there a ends or has the smaller character. */
  ghost predicate LessAt(a: string, b: string, k: nat) {
    && k <= |a| && k < |b| && (forall i :: 0 <= i < k ==> a[i] == b[i])
    && (k < |a| ==> a[k] < b[k])
  }

  /** The order is the lexicographic one. */
  lemma {:induction false} LessMeaning(a: string, b: string)
    ensures Less(a, b) <==> exists k: nat :: LessAt(a, b, k)
  {
    if b != [] && a == [] {
      assert LessAt(a, b, 0);
    } else if b != [] && a[0] != b[0] {
      assert a[0] < b[0] ==> LessAt(a, b, 0);
    } else if b != [] {
      LessMeaning(a[1..], b[1..]);
      if k: nat :| LessAt(a[1..], b[1..], k) {
        assert forall i :: 0 <= i < k + 1 ==> a[i] == b[i] by {
          assert forall i :: 1 <= i < k + 1 ==> a[i] == a[1..][i - 1] && b[i] == b[1..][i - 1];
        }
        assert LessAt(a, b, k + 1);
      }
      if k: nat :| LessAt(a, b, k) {
        assert k > 0;
        assert forall i :: 0 <= i < k - 1 ==> a[1..][i] == a[i + 1] && b[1..][i] == b[i + 1];
        assert LessAt(a[1..], b[1..], k - 1);
      }
    }
  }

  /** unicode.IsSpace. */
  const SPACES: set<char> := {
    '\t', '\n', '\U{B}', '\U{C}', '\r', ' ', '\U{85}', '\U{A0}', '\U{1680}',
    '\U{2000}', '\U{2001}', '\U{2002}', '\U{2003}', '\U{2004}', '\U{2005}', '\U{2006}',
    '\U{2007}', '\U{2008}', '\U{2009}', '\U{200A}', '\U{2028}', '\U{2029}', '\U{202F}',
    '\U{205F}', '\U{3000}'}

  /** By ranges: the ASCII controls and the blank, NEL and NBSP, and the Unicode space separators. */
  lemma SpacesByRange(c: char)
    ensures c in SPACES <==>
            || '\t' <= c <= '\r' || c == ' ' || c == '\U{85}' || c == '\U{A0}' || c == '\U{1680}'
            || '\U{2000}' <= c <= '\U{200A}' || c == '\U{2028}' || c == '\U{2029}' || c == '\U{202F}'
            || c == '\U{205F}' || c == '\U{3000}'
  {
    assert '\t' <= c <= '\r' ==> c in {'\t', '\n', '\U{B}', '\U{C}', '\r'};
  }

  function TrimWithin(s: string, lo: nat, hi: nat): string
    requires lo <= hi <= |s|
    decreases hi - lo
  {
    if lo < hi && s[lo] in SPACES then TrimWithin(s, lo + 1, hi)
    else if lo < hi && s[hi - 1] in SPACES then TrimWithin(s, lo, hi - 1)
    else s[lo..hi]
  }

  /** strings.TrimSpace. */
  function TrimSpace(s: string): string {
    TrimWithin(s, 0, |s|)
  }

  /** Trimming cuts off white space on both sides, and all of it. */
  lemma {:induction false} TrimWithinMeaning(s: string, lo: nat, hi: nat) returns (a: nat, b: nat)
    requires lo <= hi <= |s|
    ensures lo <= a <= b <= hi && TrimWithin(s, lo, hi) == s[a..b]
    ensures forall i :: lo <= i < a || b <= i < hi ==> s[i] in SPACES
    ensures a < b ==> s[a] !in SPACES && s[b - 1] !in SPACES
    decreases hi - lo
  {
    if lo < hi && s[lo] in SPACES {
      a, b := TrimWithinMeaning(s, lo + 1, hi);
    } else if lo < hi && s[hi - 1] in SPACES {
      a, b := TrimWithinMeaning(s, lo, hi - 1);
    } else {
      a, b := lo, hi;
    }
  }

  /** The result is the input without the white space around it. */
  lemma TrimSpaceMeaning(s: string) returns (a: nat, b: nat)
    ensures a <= b <= |s| && TrimSpace(s) == s[a..b]
    ensures forall i :: 0 <= i < a || b <= i < |s| ==> s[i] in SPACES
    ensures TrimSpace(s) != "" ==> TrimSpace(s)[0] !in SPACES && TrimSpace(s)[b - a - 1] !in SPACES
    ensures Blank(s) <==> forall i :: 0 <= i < |s| ==> s[i] in SPACES
  {
    a, b := TrimWithinMeaning(s, 0, |s|);
  }

  predicate Blank(s: string) {
    TrimSpace(s) == []
  }

  predicate NulFree(s: string) {
    NUL !in s
  }

  // ---- NUL-joined keys ----

  /** Splitting at the first separator is unambiguous when the heads do not contain it. */
  lemma {:induction false} SplitAtFirst(sep: char, a: string, x: string, b: string, y: string)
    requires sep !in a && sep !in b
    requires a + [sep] + x == b + [sep] + y
    ensures a == b && x == y
  {
    var l, r := a + [sep] + x, b + [sep] + y;
    assert l[|a|] == sep && r[|b|] == sep;
    assert forall k :: 0 <= k < |a| ==> l[k] == a[k];
    assert forall k :: 0 <= k < |b| ==> r[k] == b[k];
    assert |a| == |b|;
    assert a == l[..|a|] && b == r[..|b|];
    assert x == l[|a| + 1..] && y == r[|b| + 1..];
  }

  // ---- fmt "%d" and "%03d" of a natural number ----

  predicate IsDigit(c: char) {
    '0' <= c <= '9'
  }

  function Digit(n: nat): (c: char)
    requires n < 10
    ensures IsDigit(c)
  {
    '0' + n as char
  }

  function Decimal(n: nat): (s: string)
    ensures |s| > 0 && forall c :: c in s ==> IsDigit(c)
  {
    if n < 10 then [Digit(n)] else Decimal(n / 10) + [Digit(n % 10)]
  }

  function Pad3(n: nat): (s: string)
    ensures forall c :: c in s ==> IsDigit(c)
  {
    if n < 10 then "00" + Decimal(n) else if n < 100 then "0" + Decimal(n) else Decimal(n)
  }

  /** Reads a run of digits back. */
  function ParseDigits(s: string): (n: nat)
    requires forall c :: c in s ==> IsDigit(c)
  {
    if s == [] then 0
    else
      var d := s[|s| - 1];
      assert IsDigit(d);
      ParseDigits(s[..|s| - 1]) * 10 + (d as int - '0' as int)
  }

  lemma {:induction false} ParseDecimal(n: nat)
    ensures ParseDigits(Decimal(n)) == n
  {
    var s := Decimal(n);
    if n >= 10 {
      ParseDecimal(n / 10);
      assert s[..|s| - 1] == Decimal(n / 10);
    }
  }

  lemma {:induction false} ParseLeadingZero(s: string)
    requires forall c :: c in s ==> IsDigit(c)
    ensures forall c :: c in "0" + s ==> IsDigit(c)
    ensures ParseDigits("0" + s) == ParseDigits(s)
  {
    var z := "0" + s;
    assert forall c :: c in z ==> IsDigit(c);
    if s != [] {
      ParseLeadingZero(s[..|s| - 1]);
      assert z[..|z| - 1] == "0" + s[..|s| - 1];
    }
  }

  /** "%03d" loses nothing. */
  lemma ParsePad3(n: nat)
    ensures ParseDigits(Pad3(n)) == n
  {
    ParseDecimal(n);
    ParseLeadingZero(Decimal(n));
    ParseLeadingZero("0" + Decimal(n));
    assert "0" + ("0" + Decimal(n)) == "00" + Decimal(n);
  }

  /** It pads with zeros to three digits and writes larger numbers in full. */
  lemma {:induction false} PadLength(n: nat)
    ensures |Pad3(n)| >= 3 && (|Pad3(n)| > 3 ==> Pad3(n)[0] != '0')
    ensures n >= 1000 ==> |Pad3(n)| > 3
  {
    if 10 <= n < 100 {
      assert |Decimal(n / 10)| == 1;
    }
    if n >= 100 {
      assert |Decimal(n / 10)| >= 2 && |Decimal(n)| == |Decimal(n / 10)| + 1;
      NoLeadingZero(n);
    }
    if n >= 1000 {
      assert |Decimal(n / 10 / 10)| >= 2;
    }
  }

  lemma {:induction false} NoLeadingZero(n: nat)
    requires n > 0
    ensures Decimal(n)[0] != '0'
  {
    if n >= 10 {
      NoLeadingZero(n / 10);
    }
  }
}
