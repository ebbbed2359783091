/** The four character tables, and words spelled with them. */
module Characters {
  import opened Odometer

  const LOWER_ALPHA := "abcdefghijklmnopqrstuvwxyz"
  const UPPER_ALPHA := "ABCDEFGHIJKLMNOPQRSTUVWXYZ"
  const NUMERIC := "0123456789"
  const NON_ALPHA := "~-=_$%+.;:[({})]?@!#`^*,"

  predicate Indexed(d: int) {
    RANGE_LA_LOWER <= d <= RANGE_NA_UPPER
  }

  function Symbol(i: int): char {
    match i
    case 0 => '~'
    case 1 => '-'
    case 2 => '='
    case 3 => '_'
    case 4 => '$'
    case 5 => '%'
    case 6 => '+'
    case 7 => '.'
    case 8 => ';'
    case 9 => ':'
    case 10 => '['
    case 11 => '('
    case 12 => '{'
    case 13 => '}'
    case 14 => ')'
    case 15 => ']'
    case 16 => '?'
    case 17 => '@'
    case 18 => '!'
    case 19 => '#'
    case 20 => '`'
    case 21 => '^'
    case 22 => '*'
    case _ => ','
  }

  function SymbolIndex(c: char): int {
    match c
    case '~' => 0
    case '-' => 1
    case '=' => 2
    case '_' => 3
    case '$' => 4
    case '%' => 5
    case '+' => 6
    case '.' => 7
    case ';' => 8
    case ':' => 9
    case '[' => 10
    case '(' => 11
    case '{' => 12
    case '}' => 13
    case ')' => 14
    case ']' => 15
    case '?' => 16
    case '@' => 17
    case '!' => 18
    case '#' => 19
    case '`' => 20
    case '^' => 21
    case '*' => 22
    case ',' => 23
    case _ => -1
  }

  /** The character at an index of the four tables laid end to end. */
  function CharOf(d: int): char
    requires Indexed(d)
  {
    if d <= RANGE_LA_UPPER then ('a' as int + d - RANGE_LA_LOWER) as char
    else if d <= RANGE_UA_UPPER then ('A' as int + d - RANGE_UA_LOWER) as char
    else if d <= RANGE_NUM_UPPER then ('0' as int + d - RANGE_NUM_LOWER) as char
    else Symbol(d - RANGE_NA_LOWER)
  }

  /** CharOf reads the four tables. */
  lemma CharOfReadsTables(d: int)
    requires Indexed(d)
    ensures |LOWER_ALPHA| == LA_COUNT && |UPPER_ALPHA| == UA_COUNT && |NUMERIC| == NUM_COUNT && |NON_ALPHA| == NA_COUNT
    ensures d <= RANGE_LA_UPPER ==> CharOf(d) == LOWER_ALPHA[d - RANGE_LA_LOWER]
    ensures RANGE_UA_LOWER <= d <= RANGE_UA_UPPER ==> CharOf(d) == UPPER_ALPHA[d - RANGE_UA_LOWER]
    ensures RANGE_NUM_LOWER <= d <= RANGE_NUM_UPPER ==> CharOf(d) == NUMERIC[d - RANGE_NUM_LOWER]
    ensures RANGE_NA_LOWER <= d ==> CharOf(d) == NON_ALPHA[d - RANGE_NA_LOWER]
  {
  }

  /** The index of a character, or -1 for a character in no table. */
  function IndexOf(c: char): int {
    if 'a' <= c <= 'z' then RANGE_LA_LOWER + (c as int - 'a' as int)
    else if 'A' <= c <= 'Z' then RANGE_UA_LOWER + (c as int - 'A' as int)
    else if '0' <= c <= '9' then RANGE_NUM_LOWER + (c as int - '0' as int)
    else if SymbolIndex(c) >= 0 then RANGE_NA_LOWER + SymbolIndex(c)
    else -1
  }

  /** The tables together name 86 different characters: an index is recovered from its character. */
  lemma CharOfInjective(d: int)
    requires Indexed(d)
    ensures IndexOf(CharOf(d)) == d
  {
  }

  lemma IndexOfFound(c: char)
    requires IndexOf(c) != -1
    ensures Indexed(IndexOf(c)) && CharOf(IndexOf(c)) == c
  {
  }

  /** A word over the enabled characters. */
  ghost predicate IsWord(f: Flags, w: string) {
    forall i :: 0 <= i < |w| ==> Enabled(f, IndexOf(w[i]))
  }

  /** The word of a numeral: most significant digit first. */
  function Spell(ds: seq<int>): (w: string)
    requires forall i :: 0 <= i < |ds| ==> Indexed(ds[i])
    ensures |w| == |ds|
  {
    seq(|ds|, i requires 0 <= i < |ds| => CharOf(ds[|ds| - 1 - i]))
  }

  function Unspell(w: string): (ds: seq<int>)
    ensures |ds| == |w|
  {
    seq(|w|, i requires 0 <= i < |w| => IndexOf(w[|w| - 1 - i]))
  }

  lemma SpellUnspell(f: Flags, w: string)
    requires IsWord(f, w)
    ensures AllEnabled(f, Unspell(w)) && Spell(Unspell(w)) == w
  {
    forall i | 0 <= i < |w| ensures CharOf(IndexOf(w[i])) == w[i] {
      IndexOfFound(w[i]);
    }
  }

  lemma UnspellSpell(f: Flags, ds: seq<int>)
    requires AllEnabled(f, ds)
    ensures IsWord(f, Spell(ds)) && Unspell(Spell(ds)) == ds
  {
    forall i | 0 <= i < |ds| ensures IndexOf(Spell(ds)[i]) == ds[|ds| - 1 - i] {
      CharOfInjective(ds[|ds| - 1 - i]);
    }
  }

  /** Shortest first; words of one length by the first character, from the left, in which they
      differ, in the order of the tables. */
  ghost predicate WordBefore(u: string, w: string) {
    || |u| < |w|
    || (|u| == |w| && exists i :: FirstDiffer(u, w, i) && IndexOf(u[i]) < IndexOf(w[i]))
  }

  ghost predicate FirstDiffer(u: string, w: string, i: int) {
    0 <= i < |u| == |w| && u[..i] == w[..i] && u[i] != w[i]
  }

  lemma FirstDifferMirrors(a: seq<int>, b: seq<int>, i: int)
    requires forall j :: 0 <= j < |a| ==> Indexed(a[j])
    requires forall j :: 0 <= j < |b| ==> Indexed(b[j])
    requires DiffersFirstAt(a, b, i)
    ensures FirstDiffer(Spell(a), Spell(b), |a| - 1 - i)
  {
    var j := |a| - 1 - i;
    CharOfInjective(a[i]);
    CharOfInjective(b[i]);
    forall m | 0 <= m < j ensures Spell(a)[m] == Spell(b)[m] {
      assert a[i + 1..][|a| - 1 - m - (i + 1)] == b[i + 1..][|a| - 1 - m - (i + 1)];
    }
  }

  /** The order of numerals is the order of the words they spell. */
  lemma BeforeSpelled(f: Flags, a: seq<int>, b: seq<int>)
    requires AllEnabled(f, a) && AllEnabled(f, b) && Before(a, b)
    ensures WordBefore(Spell(a), Spell(b))
  {
    if |a| == |b| {
      var i :| DiffersFirstAt(a, b, i) && a[i] < b[i];
      FirstDifferMirrors(a, b, i);
      CharOfInjective(a[i]);
      CharOfInjective(b[i]);
      var j := |a| - 1 - i;
      assert FirstDiffer(Spell(a), Spell(b), j) && IndexOf(Spell(a)[j]) < IndexOf(Spell(b)[j]);
    }
  }
}
