/** The two printed forms of a generator position, and why neither is ambiguous. */
module PwdText {
  import opened Decimal
  import opened Odometer
  import opened Characters

  /** Symbols are spelled out in the text form. */
  function SymbolName(c: char): string {
    match c
    case '~' => "tilda"
    case '-' => "hyphen"
    case '=' => "equal"
    case '_' => "underscore"
    case '$' => "dollar"
    case '%' => "percent"
    case '+' => "plus"
    case '.' => "period"
    case ';' => "semicolon"
    case ':' => "colon"
    case '[' => "L brace"
    case '(' => "L parenthesis"
    case '{' => "L curly"
    case '}' => "R curly"
    case ')' => "R parenthesis"
    case ']' => "R brace"
    case '?' => "question"
    case '@' => "at"
    case '!' => "exclamation"
    case '#' => "number"
    case '`' => "grave"
    case '^' => "caret"
    case '*' => "asterisk"
    case ',' => "comma"
    case _ => "ERROR " + ToString(c as int)
  }

  /** How the text form shows one digit; a digit outside the tables shows as nothing. */
  function Token(d: int): string {
    if !Indexed(d) then ""
    else if d <= RANGE_NUM_UPPER then [CharOf(d)]
    else SymbolName(CharOf(d))
  }

  /** Digits from the most significant down, as both forms list them. */
  function Tokens(ds: seq<int>, show: int -> string): (ts: seq<string>)
    ensures |ts| == |ds|
    ensures forall i :: 0 <= i < |ds| ==> ts[i] == show(ds[|ds| - 1 - i])
  {
    seq(|ds|, i requires 0 <= i < |ds| => show(ds[|ds| - 1 - i]))
  }

  /** get_pwdAsIndicies: the length, then the indices. */
  function AsIndicies(ds: seq<int>): string {
    ToString(|ds|) + JoinTail(Tokens(ds, ToString))
  }

  /** get_pwdAsText: the length, then the characters. */
  function AsText(ds: seq<int>): string {
    ToString(|ds|) + " chars " + Join(Tokens(ds, Token))
  }

  /** How the text form names a character: a symbol by its name, any other by itself. */
  function NameOf(c: char): string {
    if SymbolIndex(c) >= 0 then SymbolName(c) else [c]
  }

  /** Both forms list the word's characters from left to right, behind its length. */
  lemma FormsListWord(ds: seq<int>)
    requires forall i :: 0 <= i < |ds| ==> Indexed(ds[i])
    ensures var w := Spell(ds);
      && AsIndicies(ds) == Join([ToString(|w|)] + seq(|w|, i requires 0 <= i < |w| => ToString(IndexOf(w[i]))))
      && AsText(ds) == ToString(|w|) + " chars " + Join(seq(|w|, i requires 0 <= i < |w| => NameOf(w[i])))
  {
    hide ToString, CharOf, IndexOf, SymbolName, SymbolIndex, JoinTail;
    var w := Spell(ds);
    forall i | 0 <= i < |ds|
      ensures ToString(IndexOf(w[i])) == ToString(ds[|ds| - 1 - i]) && NameOf(w[i]) == Token(ds[|ds| - 1 - i])
    {
      CharOfInjective(ds[|ds| - 1 - i]);
      TokenNames(ds[|ds| - 1 - i]);
    }
    var indices := seq(|w|, i requires 0 <= i < |w| => ToString(IndexOf(w[i])));
    assert indices == Tokens(ds, ToString);
    assert ([ToString(|w|)] + indices)[1..] == indices;
    assert seq(|w|, i requires 0 <= i < |w| => NameOf(w[i])) == Tokens(ds, Token);
  }

  lemma TokenNames(d: int)
    requires Indexed(d)
    ensures Token(d) == NameOf(CharOf(d))
  {
    hide SymbolName;
    SymbolsAreLast(d);
  }

  lemma SymbolsAreLast(d: int)
    requires Indexed(d)
    ensures SymbolIndex(CharOf(d)) >= 0 <==> d > RANGE_NUM_UPPER
  {
  }

  /** The index form with the digits above x written. */
  ghost function IndiciesDownTo(ds: seq<int>, x: int): string
    requires -1 <= x < |ds|
  {
    ToString(|ds|) + JoinTail(Tokens(ds, ToString)[..|ds| - 1 - x])
  }

  lemma IndiciesFrom(ds: seq<int>, x: int)
    requires -1 <= x < |ds|
    ensures x == |ds| - 1 ==> IndiciesDownTo(ds, x) == ToString(|ds|)
    ensures x >= 0 ==> IndiciesDownTo(ds, x - 1) == IndiciesDownTo(ds, x) + ("," + ToString(ds[x]))
    ensures x == -1 ==> IndiciesDownTo(ds, x) == AsIndicies(ds)
  {
    hide ToString;
    var ts, k := Tokens(ds, ToString), |ds| - 1 - x;
    if x >= 0 {
      JoinTailAppend(ts[..k], ts[k]);
      assert ts[..k] + [ts[k]] == ts[..k + 1];
    } else {
      assert ts[..k] == ts;
    }
  }

  /** The text form with the digits above x written, ready for digit x. */
  ghost function TextDownTo(ds: seq<int>, show: int -> string, x: int): string
    requires -1 <= x < |ds|
  {
    ToString(|ds|) + " chars " + Join(Tokens(ds, show)[..|ds| - 1 - x])
    + if 0 <= x < |ds| - 1 then "," else ""
  }

  lemma TextFrom(ds: seq<int>, show: int -> string, x: int)
    requires -1 <= x < |ds|
    ensures x == |ds| - 1 ==> TextDownTo(ds, show, x) == ToString(|ds|) + " chars "
    ensures x >= 0 ==>
      TextDownTo(ds, show, x - 1) == TextDownTo(ds, show, x) + show(ds[x]) + if x != 0 then "," else ""
    ensures x == -1 ==> TextDownTo(ds, show, x) == ToString(|ds|) + " chars " + Join(Tokens(ds, show))
  {
    hide ToString, Join;
    if x >= 0 {
      TextStep(ds, show, x);
    } else {
      assert Tokens(ds, show)[..|ds|] == Tokens(ds, show);
    }
    JoinNothing();
  }

  lemma JoinNothing()
    ensures Join([]) == ""
  {
  }

  lemma TextStep(ds: seq<int>, show: int -> string, x: int)
    requires 0 <= x < |ds|
    ensures TextDownTo(ds, show, x - 1) == TextDownTo(ds, show, x) + show(ds[x]) + if x != 0 then "," else ""
  {
    hide ToString, Join;
    var ts, k := Tokens(ds, show), |ds| - 1 - x;
    AppendToken(ToString(|ds|) + " chars ", ts[..k], ts[k], if x != 0 then "," else "");
    assert ts[..k] + [ts[k]] == ts[..k + 1];
  }

  lemma AppendToken(head: string, shown: seq<string>, t: string, comma: string)
    ensures head + Join(shown + [t]) + comma ==
      (head + Join(shown) + if shown != [] then "," else "") + t + comma
  {
    JoinAppend(shown, t);
    if shown != [] {
      assert head + (Join(shown) + "," + t) == (head + Join(shown) + ",") + t;
    }
  }

  /** The symbol a name was made from, told by the length of the name and two of its letters. */
  ghost function SymbolOf(name: string): char {
    if |name| == 2 then '@'
    else if |name| == 4 then '+'
    else if |name| == 9 then ';'
    else if |name| == 10 then '_'
    else if |name| == 11 then '!'
    else if |name| == 13 then if name[0] == 'L' then '(' else ')'
    else if |name| == 8 then if name[0] == 'q' then '?' else '*'
    else if |name| == 5 then
      if name[0] == 't' then '~' else if name[0] == 'e' then '=' else if name[0] == 'g' then '`'
      else if name[2] == 'l' then ':' else if name[2] == 'r' then '^' else ','
    else if |name| == 6 then
      if name[0] == 'h' then '-' else if name[0] == 'd' then '$' else if name[0] == 'p' then '.' else '#'
    else if |name| == 7 then
      if name[0] == 'p' then '%'
      else if name[0] == 'L' then if name[2] == 'b' then '[' else '{'
      else if name[2] == 'b' then ']' else '}'
    else '?'
  }

  /** Symbol names are longer than one character, hold no comma, and name one symbol each. */
  lemma SymbolNamesDistinct(c: char)
    requires SymbolIndex(c) >= 0
    ensures |SymbolName(c)| > 1 && CommaFree(SymbolName(c))
    ensures SymbolOf(SymbolName(c)) == c
  {
    if SymbolIndex(c) < 10 {
      PunctuationNames(c);
    } else {
      BracketNames(c);
    }
  }

  lemma PunctuationNames(c: char)
    requires 0 <= SymbolIndex(c) < 10
    ensures |SymbolName(c)| > 1 && CommaFree(SymbolName(c)) && SymbolOf(SymbolName(c)) == c
  {
  }

  lemma BracketNames(c: char)
    requires 10 <= SymbolIndex(c)
    ensures |SymbolName(c)| > 1 && CommaFree(SymbolName(c)) && SymbolOf(SymbolName(c)) == c
  {
  }

  lemma TokenShape(d: int)
    requires Indexed(d)
    ensures Token(d) != "" && CommaFree(Token(d))
    ensures d <= RANGE_NUM_UPPER <==> |Token(d)| == 1
  {
    if d > RANGE_NUM_UPPER {
      SymbolNamesDistinct(CharOf(d));
    }
  }

  /** A digit shows as nothing exactly when it is outside the tables. */
  lemma ShowsNothingIff(d: int)
    ensures Token(d) == "" <==> !Indexed(d)
  {
    if Indexed(d) {
      TokenShape(d);
    }
  }

  /** Different digits show differently. */
  lemma TokenInjective(d: int, e: int)
    requires Indexed(d) && Indexed(e) && Token(d) == Token(e)
    ensures d == e
  {
    TokenShape(d);
    TokenShape(e);
    CharOfInjective(d);
    CharOfInjective(e);
    if d > RANGE_NUM_UPPER {
      SymbolNamesDistinct(CharOf(d));
      SymbolNamesDistinct(CharOf(e));
    } else {
      assert Token(d)[0] == CharOf(d) && Token(e)[0] == CharOf(e);
    }
  }

  /** Two positions with the same index form have the same digits, whatever the digits are. */
  lemma IndiciesUnambiguous(a: seq<int>, b: seq<int>)
    requires AsIndicies(a) == AsIndicies(b)
    ensures a == b
  {
    var ta, tb := Tokens(a, ToString), Tokens(b, ToString);
    forall n ensures CommaFree(ToString(n)) {
      ToStringChars(n);
    }
    SplitAtComma(ToString(|a|), JoinTail(ta), ToString(|b|), JoinTail(tb));
    JoinTailInjective(ta, tb);
    forall i | 0 <= i < |a| == |b| && ToString(a[i]) == ToString(b[i]) ensures a[i] == b[i] {
      ToStringInjective(a[i], b[i]);
    }
    TokensDetermine(a, b, ToString);
  }

  /** A way of showing digits that tells them apart tells rows of digits apart. */
  lemma TokensDetermine(a: seq<int>, b: seq<int>, show: int -> string)
    requires Tokens(a, show) == Tokens(b, show)
    requires forall i :: 0 <= i < |a| == |b| && show(a[i]) == show(b[i]) ==> a[i] == b[i]
    ensures a == b
  {
    var ta, tb := Tokens(a, show), Tokens(b, show);
    assert |ta| == |a| && |tb| == |b|;
    forall i | 0 <= i < |a| ensures a[i] == b[i] {
      assert ta[|a| - 1 - i] == tb[|a| - 1 - i];
    }
  }

  lemma StripPrefix(p: string, s: string, q: string, t: string)
    requires p + s == q + t
    requires |p| == |q|
    ensures p == q && s == t
  {
    assert (p + s)[..|p|] == p && (p + s)[|p|..] == s;
    assert (q + t)[..|q|] == q && (q + t)[|q|..] == t;
  }

  /** Two positions over table characters with the same text form have the same digits. */
  lemma TextUnambiguous(a: seq<int>, b: seq<int>)
    requires forall i :: 0 <= i < |a| ==> Indexed(a[i])
    requires forall i :: 0 <= i < |b| ==> Indexed(b[i])
    requires AsText(a) == AsText(b)
    ensures a == b
  {
    var ta, tb := Tokens(a, Token), Tokens(b, Token);
    SameLengthWord(|a|, Join(ta), |b|, Join(tb));
    TokensShape(a);
    TokensShape(b);
    JoinInjective(ta, tb);
    forall i | 0 <= i < |a| == |b| && Token(a[i]) == Token(b[i]) ensures a[i] == b[i] {
      TokenInjective(a[i], b[i]);
    }
    TokensDetermine(a, b, Token);
  }

  lemma TokensShape(ds: seq<int>)
    requires forall i :: 0 <= i < |ds| ==> Indexed(ds[i])
    ensures AllCommaFree(Tokens(ds, Token))
    ensures forall i :: 0 <= i < |ds| ==> Tokens(ds, Token)[i] != ""
  {
    forall i | 0 <= i < |ds| ensures CommaFree(Tokens(ds, Token)[i]) && Tokens(ds, Token)[i] != "" {
      TokenShape(ds[|ds| - 1 - i]);
    }
  }

  /** The first space ends the length. */
  lemma SameLengthWord(m: nat, s: string, n: nat, t: string)
    requires ToString(m) + " chars " + s == ToString(n) + " chars " + t
    ensures s == t
  {
    var whole := ToString(m) + " chars " + s;
    NatToStringValue(m);
    NatToStringValue(n);
    assert whole[|ToString(m)|] == ' ' && forall i :: 0 <= i < |ToString(m)| ==> whole[i] == ToString(m)[i];
    assert whole[|ToString(n)|] == ' ' && forall i :: 0 <= i < |ToString(n)| ==> whole[i] == ToString(n)[i];
    assert |ToString(m)| == |ToString(n)|;
    StripPrefix(ToString(m) + " chars ", s, ToString(n) + " chars ", t);
  }
}
