/** Decimal rendering of integers, and cutting text at a separator. */
module Text {

  function NatToString(n: nat): (s: string)
    ensures s != []
    ensures forall c :: c in s ==> '0' <= c <= '9'
  {
    (if n < 10 then [] else NatToString(n / 10)) + ['0' + (n % 10) as char]
  }

  function IntToString(n: int): (s: string)
    ensures forall c :: c in s ==> c == '-' || '0' <= c <= '9'
  {
    if n < 0 then "-" + NatToString(-n) else NatToString(n)
  }

  lemma {:induction false} NatToStringInjective(m: nat, n: nat)
    requires NatToString(m) == NatToString(n)
    ensures m == n
  {
    var s, t := NatToString(m), NatToString(n);
    assert s[|s| - 1] == t[|t| - 1] && s[..|s| - 1] == t[..|t| - 1];
    if m >= 10 && n >= 10 {
      assert s[..|s| - 1] == NatToString(m / 10) && t[..|t| - 1] == NatToString(n / 10);
      NatToStringInjective(m / 10, n / 10);
    }
  }

  lemma SignShows(n: int)
    ensures IntToString(n) != []
    ensures n < 0 <==> IntToString(n)[0] == '-'
  {
    if n >= 0 {
      assert NatToString(n)[0] in NatToString(n);
    }
  }

  lemma {:induction false} IntToStringInjective(m: int, n: int)
    requires IntToString(m) == IntToString(n)
    ensures m == n
  {
    SignShows(m);
    SignShows(n);
    if m < 0 {
      assert NatToString(-m) == IntToString(m)[1..] == IntToString(n)[1..] == NatToString(-n);
      NatToStringInjective(-m, -n);
    } else {
      NatToStringInjective(m, n);
    }
  }

  /** Text before the first separator, and the text after it, are both determined by the whole. */
  lemma {:induction false} CutUnique(x: string, s: string, y: string, t: string, sep: char)
    requires sep !in x && sep !in y
    requires x + [sep] + s == y + [sep] + t
    ensures x == y && s == t
  {
    var w := x + [sep] + s;
    assert w[|x|] == sep && w[|y|] == (y + [sep] + t)[|y|] == sep;
    assert forall i :: 0 <= i < |x| ==> w[i] == x[i] && x[i] in x;
    assert forall i :: 0 <= i < |y| ==> w[i] == (y + [sep] + t)[i] == y[i] && y[i] in y;
    assert |x| == |y|;
    assert x == w[..|x|] && y == w[..|y|];
    assert s == w[|x| + 1..] && t == w[|y| + 1..];
  }
  /** The same for the last separator. */
  lemma CutUniqueRight(x: string, s: string, y: string, t: string, sep: char)
    requires sep !in s && sep !in t
    requires x + [sep] + s == y + [sep] + t
    ensures x == y && s == t
  {
    var w := x + [sep] + s;
    assert w[|x|] == sep && w[|y|] == (y + [sep] + t)[|y|] == sep;
    assert forall i :: |x| < i < |w| ==> w[i] == s[i - |x| - 1] && s[i - |x| - 1] in s;
    assert forall i :: |y| < i < |w| ==> w[i] == (y + [sep] + t)[i] == t[i - |y| - 1] && t[i - |y| - 1] in t;
    assert |x| == |y|;
    assert x == w[..|x|] && y == w[..|y|];
    assert s == w[|x| + 1..] && t == w[|y| + 1..];
  }

  /** What a sequence of decimal digits stands for. */
  function Value(s: string): int {
    if s == "" then 0 else 10 * Value(s[..|s| - 1]) + (s[|s| - 1] as int - '0' as int)
  }

  /** The rendering of a number is its decimal one, without leading zeros. */
  lemma {:induction false} NatToStringIs(n: nat)
    ensures Value(NatToString(n)) == n
    ensures n > 0 ==> NatToString(n)[0] != '0'
  {
    var s := NatToString(n);
    if n >= 10 {
      NatToStringIs(n / 10);
      assert s[..|s| - 1] == NatToString(n / 10) && s[0] == NatToString(n / 10)[0];
    } else {
      assert s[..|s| - 1] == "";
    }
  }
}
