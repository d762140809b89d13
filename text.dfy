/**
 * Text helpers shared by the compiler model: decimal rendering of
 * integers (Python's `str(int)`), concatenation and joining of
 * fragments, the `%s` placeholder count of a fragment and ASCII
 * lower-casing.
 */
module Text {
  import opened Outcomes

  predicate IsDigit(c: char) {
    '0' <= c <= '9'
  }

  predicate AllDigits(s: string) {
    forall i :: 0 <= i < |s| ==> IsDigit(s[i])
  }

  function Digit(d: nat): (c: char)
    requires d < 10
    ensures IsDigit(c)
  {
    (48 + d) as char
  }

  function DigitValue(c: char): (d: nat)
    requires IsDigit(c)
    ensures d < 10
  {
    c as int - 48
  }

  /** Python's `str(n)` for a non-negative integer: canonical decimal digits. */
  function NatToString(n: nat): (s: string)
    ensures |s| >= 1 && AllDigits(s)
    ensures s[0] == '0' ==> n == 0
    ensures n < 10 <==> |s| == 1
  {
    if n < 10 then [Digit(n)] else NatToString(n / 10) + [Digit(n % 10)]
  }

  /** The number a string of decimal digits denotes (the inverse of `NatToString`). */
  function DigitsValue(s: string): nat
    requires AllDigits(s)
  {
    if |s| == 0 then 0 else DigitsValue(s[..|s| - 1]) * 10 + DigitValue(s[|s| - 1])
  }

  lemma {:induction false} DigitsValueOfNatToString(n: nat)
    ensures DigitsValue(NatToString(n)) == n
    decreases n
  {
    if n >= 10 {
      var s := NatToString(n);
      assert s[..|s| - 1] == NatToString(n / 10);
      DigitsValueOfNatToString(n / 10);
    }
  }

  /** Distinct numbers render to distinct digit strings. */
  lemma NatToStringInjective(a: nat, b: nat)
    ensures NatToString(a) == NatToString(b) ==> a == b
  {
    DigitsValueOfNatToString(a);
    DigitsValueOfNatToString(b);
  }

  /** Python's `str(i)` for any integer. */
  function IntToString(i: int): (s: string)
    ensures |s| >= 1
    ensures s[0] == '-' <==> i < 0
  {
    if i < 0 then "-" + NatToString(-i) else NatToString(i)
  }

  /** Python's `int(s)` restricted to an optional minus sign and decimal digits. */
  function ParseInt(s: string): (r: Option<int>)
    ensures r.Some? ==> |s| >= 1
  {
    if |s| > 0 && s[0] == '-' then
      (if |s| > 1 && AllDigits(s[1..]) then Some(0 - DigitsValue(s[1..]) as int) else None)
    else if |s| > 0 && AllDigits(s) then Some(DigitsValue(s))
    else None
  }

  lemma {:induction false} ParseIntOfIntToString(i: int)
    ensures ParseInt(IntToString(i)) == Some(i)
  {
    var s := IntToString(i);
    if i < 0 {
      var digits := NatToString(-i);
      assert s == "-" + digits;
      assert s[1..] == digits;
      DigitsValueOfNatToString(-i);
    } else {
      assert s == NatToString(i);
      assert IsDigit(s[0]);
      DigitsValueOfNatToString(i);
    }
  }

  lemma AppendAssoc<T>(a: seq<T>, b: seq<T>, c: seq<T>)
    ensures (a + b) + c == a + (b + c)
  {
  }

  /** Fragments written one after another. */
  function Concat(frags: seq<string>): string {
    if |frags| == 0 then "" else Concat(frags[..|frags| - 1]) + frags[|frags| - 1]
  }

  lemma {:induction false} ConcatAppend(a: seq<string>, b: seq<string>)
    ensures Concat(a + b) == Concat(a) + Concat(b)
    decreases |b|
  {
    if |b| == 0 {
      assert a + b == a;
    } else {
      var b' := b[..|b| - 1];
      assert (a + b)[..|a + b| - 1] == a + b';
      ConcatAppend(a, b');
    }
  }

  /** The concatenation is empty exactly when every fragment is. */
  lemma {:induction false} EmptyConcat(frags: seq<string>)
    ensures |Concat(frags)| == 0 <==> forall i :: 0 <= i < |frags| ==> frags[i] == ""
    decreases |frags|
  {
    if |frags| > 0 {
      EmptyConcat(frags[..|frags| - 1]);
    }
  }

  /** Python's `sep.join(items)`. */
  function JoinWith(sep: string, items: seq<string>): string {
    if |items| == 0 then ""
    else if |items| == 1 then items[0]
    else JoinWith(sep, items[..|items| - 1]) + sep + items[|items| - 1]
  }

  /**
   * The number of `%s` placeholders in a fragment, counted left to right
   * without overlap. Every `%s` counts, also one written `%%s`, which
   * `%`-formatting reads as an escaped `%` and a plain `s`: the count equals
   * the placeholders Python sees only in text without `%%`.
   */
  function PlaceholderCount(s: string): nat
    ensures PlaceholderCount(s) <= |s| / 2
  {
    if |s| < 2 then 0
    else if s[0] == '%' && s[1] == 's' then 1 + PlaceholderCount(s[2..])
    else PlaceholderCount(s[1..])
  }

  /** The placeholders of a list of fragments taken together. */
  function PlaceholderTotal(frags: seq<string>): nat {
    if |frags| == 0 then 0
    else PlaceholderTotal(frags[..|frags| - 1]) + PlaceholderCount(frags[|frags| - 1])
  }

  lemma {:induction false} PlaceholderTotalAppend(a: seq<string>, b: seq<string>)
    ensures PlaceholderTotal(a + b) == PlaceholderTotal(a) + PlaceholderTotal(b)
    decreases |b|
  {
    if |b| == 0 {
      assert a + b == a;
    } else {
      var b' := b[..|b| - 1];
      assert (a + b)[..|a + b| - 1] == a + b';
      PlaceholderTotalAppend(a, b');
    }
  }

  /** A fragment without a percent sign holds no placeholder. */
  lemma {:induction false} NoPercentNoPlaceholder(s: string)
    requires forall i :: 0 <= i < |s| ==> s[i] != '%'
    ensures PlaceholderCount(s) == 0
    decreases |s|
  {
    if |s| >= 2 {
      NoPercentNoPlaceholder(s[1..]);
    }
  }

  /** The fragment ends with a `%` that a following `s` would complete into a placeholder. */
  predicate EndsOpen(s: string) {
    |s| > 0 && s[|s| - 1] == '%'
  }

  /** No fragment ends with an open `%`, so no placeholder spans two fragments. */
  predicate Sealed(frags: seq<string>) {
    forall i :: 0 <= i < |frags| ==> !EndsOpen(frags[i])
  }

  lemma SealedAppend(a: seq<string>, b: seq<string>)
    ensures Sealed(a + b) <==> Sealed(a) && Sealed(b)
  {
    if Sealed(a) && Sealed(b) {
      forall i | 0 <= i < |a + b|
        ensures !EndsOpen((a + b)[i])
      {
        if i >= |a| {
          assert (a + b)[i] == b[i - |a|];
        }
      }
    }
    if Sealed(a + b) {
      assert forall i :: 0 <= i < |a| ==> (a + b)[i] == a[i];
      forall i | 0 <= i < |b|
        ensures !EndsOpen(b[i])
      {
        assert (a + b)[|a| + i] == b[i];
      }
    }
  }

  /** A text that does not end with an open `%` counts its placeholders apart from whatever follows it. */
  lemma {:induction false} PlaceholderCountAppend(a: string, b: string)
    requires !EndsOpen(a)
    ensures PlaceholderCount(a + b) == PlaceholderCount(a) + PlaceholderCount(b)
    decreases |a|
  {
    if |a| == 0 {
      assert a + b == b;
    } else if |a| == 1 {
      assert (a + b)[1..] == b;
    } else if a[0] == '%' && a[1] == 's' {
      assert (a + b)[2..] == a[2..] + b;
      PlaceholderCountAppend(a[2..], b);
    } else {
      assert (a + b)[1..] == a[1..] + b;
      PlaceholderCountAppend(a[1..], b);
    }
  }

  /** Sealed fragments concatenate to a text that does not end with an open `%`. */
  lemma {:induction false} ConcatSealed(frags: seq<string>)
    requires Sealed(frags)
    ensures !EndsOpen(Concat(frags))
    decreases |frags|
  {
    if |frags| > 0 {
      var prefix, last := frags[..|frags| - 1], frags[|frags| - 1];
      assert Sealed(prefix) by {
        assert forall i :: 0 <= i < |prefix| ==> prefix[i] == frags[i];
      }
      ConcatSealed(prefix);
      if |last| == 0 {
        assert Concat(frags) == Concat(prefix);
      }
    }
  }

  /**
   * The joined text of sealed fragments holds exactly the placeholders of
   * the fragments taken one by one.
   */
  lemma {:induction false} ConcatPlaceholders(frags: seq<string>)
    requires Sealed(frags)
    ensures PlaceholderCount(Concat(frags)) == PlaceholderTotal(frags)
    decreases |frags|
  {
    if |frags| > 0 {
      var prefix := frags[..|frags| - 1];
      assert Sealed(prefix) by {
        assert forall i :: 0 <= i < |prefix| ==> prefix[i] == frags[i];
      }
      ConcatPlaceholders(prefix);
      ConcatSealed(prefix);
      PlaceholderCountAppend(Concat(prefix), frags[|frags| - 1]);
    }
  }

  lemma SealedPlaceholders(frags: seq<string>)
    ensures Sealed(frags) ==> PlaceholderCount(Concat(frags)) == PlaceholderTotal(frags)
  {
    if Sealed(frags) {
      ConcatPlaceholders(frags);
    }
  }

  /** Without the seal the counts can differ: `%` then `s` make a placeholder only once joined. */
  lemma SplitPlaceholder()
    ensures PlaceholderTotal(["%", "s"]) == 0
    ensures PlaceholderCount(Concat(["%", "s"])) == 1
  {
    assert ["%", "s"][..1] == ["%"];
    assert ["%"][..0] == [];
    assert Concat(["%", "s"]) == "%s";
  }

  function LowerChar(c: char): char {
    if 'A' <= c <= 'Z' then (c as int + 32) as char else c
  }

  /** Python's `str.lower()` on ASCII letters. */
  function Lower(s: string): (r: string)
    ensures |r| == |s|
    ensures forall i :: 0 <= i < |s| ==> r[i] == LowerChar(s[i])
  {
    seq(|s|, i requires 0 <= i < |s| => LowerChar(s[i]))
  }

  lemma LowerIdempotent(s: string)
    ensures Lower(Lower(s)) == Lower(s)
    ensures forall i :: 0 <= i < |s| ==> !('A' <= Lower(s)[i] <= 'Z')
  {
  }
}
