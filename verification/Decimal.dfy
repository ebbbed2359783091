/** Decimal rendering of integers, as std::to_string prints them, and joining with commas.
    Work unit ids and both odometer renderings are built from these. */
module Decimal {

  predicate IsDigit(c: char) {
    '0' <= c <= '9'
  }

  function Digit(d: nat): (c: char)
    requires d < 10
  {
    ('0' as int + d) as char
  }

  function NatToString(n: nat): string {
    if n < 10 then [Digit(n)] else NatToString(n / 10) + [Digit(n % 10)]
  }

  function ToString(n: int): string {
    if n < 0 then "-" + NatToString(-n) else NatToString(n)
  }

  /** The number a string of decimal digits stands for. */
  ghost function Value(s: string): int {
    if s == [] then 0 else 10 * Value(s[..|s| - 1]) + (s[|s| - 1] as int - '0' as int)
  }

  lemma {:induction false} NatToStringValue(n: nat)
    ensures NatToString(n) != []
    ensures forall i :: 0 <= i < |NatToString(n)| ==> IsDigit(NatToString(n)[i])
    ensures Value(NatToString(n)) == n
  {
    if n < 10 {
      assert [Digit(n)][..0] == [];
    } else {
      NatToStringValue(n / 10);
      var s := NatToString(n);
      assert s[..|s| - 1] == NatToString(n / 10);
    }
  }

  /** No leading zeros: the first digit is '0' for 0 alone. */
  lemma {:induction false} NoLeadingZero(n: nat)
    ensures NatToString(n) != []
    ensures NatToString(n)[0] == '0' <==> n == 0
    ensures n == 0 ==> |NatToString(n)| == 1
  {
    if n >= 10 {
      NoLeadingZero(n / 10);
      assert NatToString(n)[0] == NatToString(n / 10)[0];
    }
  }

  /** So a text of digits without leading zeros is the text of its value, and of no other number. */
  lemma {:induction false} TextOfValue(s: string)
    requires s != [] && (forall i :: 0 <= i < |s| ==> IsDigit(s[i])) && (s[0] == '0' ==> |s| == 1)
    ensures Value(s) >= 0 && NatToString(Value(s)) == s
  {
    var rest, d := s[..|s| - 1], s[|s| - 1] as int - '0' as int;
    assert s == rest + [Digit(d)];
    if rest != [] {
      TextOfValue(rest);
      NoLeadingZero(Value(rest));
      assert Value(s) / 10 == Value(rest) && Value(s) % 10 == d;
    }
  }

  /** Two integers with the same decimal text are equal. */
  lemma ToStringInjective(m: int, n: int)
    requires ToString(m) == ToString(n)
    ensures m == n
  {
    NatToStringValue(if m < 0 then -m else m);
    NatToStringValue(if n < 0 then -n else n);
    assert ToString(m)[0] == '-' <==> m < 0;
    assert ToString(n)[0] == '-' <==> n < 0;
    if m < 0 {
      assert ToString(m)[1..] == NatToString(-m);
      assert ToString(n)[1..] == NatToString(-n);
    }
  }

  lemma ToStringChars(n: int)
    ensures ToString(n) != []
    ensures forall i :: 0 <= i < |ToString(n)| ==> ToString(n)[i] == '-' || IsDigit(ToString(n)[i])
  {
    NatToStringValue(if n < 0 then -n else n);
  }

  // ---- comma-separated lists ----

  ghost predicate CommaFree(s: string) {
    forall i :: 0 <= i < |s| ==> s[i] != ','
  }

  ghost predicate AllCommaFree(tokens: seq<string>) {
    forall i :: 0 <= i < |tokens| ==> CommaFree(tokens[i])
  }

  /** Each token preceded by a comma. */
  function JoinTail(tokens: seq<string>): string {
    if tokens == [] then "" else "," + tokens[0] + JoinTail(tokens[1..])
  }

  /** The tokens with a comma between neighbours. */
  function Join(tokens: seq<string>): string {
    if tokens == [] then "" else tokens[0] + JoinTail(tokens[1..])
  }

  lemma {:induction false} JoinTailAppend(tokens: seq<string>, t: string)
    ensures JoinTail(tokens + [t]) == JoinTail(tokens) + "," + t
  {
    if tokens == [] {
      assert JoinTail([t]) == "," + t + JoinTail([]);
    } else {
      JoinTailAppend(tokens[1..], t);
      assert (tokens + [t])[1..] == tokens[1..] + [t];
      assert JoinTail(tokens) + "," + t == "," + tokens[0] + (JoinTail(tokens[1..]) + "," + t);
    }
  }

  lemma JoinAppend(tokens: seq<string>, t: string)
    ensures Join(tokens + [t]) == if tokens == [] then t else Join(tokens) + "," + t
  {
    if tokens != [] {
      JoinTailAppend(tokens[1..], t);
      assert (tokens + [t])[1..] == tokens[1..] + [t];
      assert Join(tokens) + "," + t == tokens[0] + (JoinTail(tokens[1..]) + "," + t);
    }
  }

  lemma FirstComma(s: string, a: string, rest: string)
    requires CommaFree(a) && s == a + rest
    requires rest == "" || rest[0] == ','
    ensures forall i :: 0 <= i < |a| ==> s[i] != ','
    ensures |a| < |s| ==> s[|a|] == ','
    ensures s[..|a|] == a && s[|a|..] == rest
  {
  }

  lemma SplitAtComma(a: string, restA: string, b: string, restB: string)
    requires CommaFree(a) && CommaFree(b)
    requires restA == "" || restA[0] == ','
    requires restB == "" || restB[0] == ','
    requires a + restA == b + restB
    ensures a == b && restA == restB
  {
    var s := a + restA;
    FirstComma(s, a, restA);
    FirstComma(s, b, restB);
    assert |a| == |b|;
  }

  lemma {:induction false} JoinTailInjective(a: seq<string>, b: seq<string>)
    requires AllCommaFree(a) && AllCommaFree(b)
    requires JoinTail(a) == JoinTail(b)
    ensures a == b
  {
    if a != [] && b != [] {
      var restA, restB := JoinTail(a[1..]), JoinTail(b[1..]);
      assert JoinTail(a)[1..] == a[0] + restA;
      assert JoinTail(b)[1..] == b[0] + restB;
      SplitAtComma(a[0], restA, b[0], restB);
      JoinTailInjective(a[1..], b[1..]);
      assert a == [a[0]] + a[1..] && b == [b[0]] + b[1..];
    }
  }

  /** A comma-separated list of non-empty, comma-free tokens determines its tokens. */
  lemma JoinInjective(a: seq<string>, b: seq<string>)
    requires AllCommaFree(a) && AllCommaFree(b)
    requires forall i :: 0 <= i < |a| ==> a[i] != ""
    requires forall i :: 0 <= i < |b| ==> b[i] != ""
    requires Join(a) == Join(b)
    ensures a == b
  {
    if a != [] && b != [] {
      SplitAtComma(a[0], JoinTail(a[1..]), b[0], JoinTail(b[1..]));
      JoinTailInjective(a[1..], b[1..]);
      assert a == [a[0]] + a[1..] && b == [b[0]] + b[1..];
    }
  }
}
