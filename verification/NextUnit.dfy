/** The generator object itself: ten mutable digits advanced in place by a carry loop. */
module NextUnit {
  import opened Odometer
  import opened Characters
  import opened Decimal
  import opened Generator
  import opened PwdText

  const PERMUTE_SUCCESS := 0
  const PERMUTE_DONE := 1
  const PERMUTE_NO_OPTION := 2

  function CodeValue(c: Code): int {
    match c
    case Success => PERMUTE_SUCCESS
    case Done => PERMUTE_DONE
    case NoOption => PERMUTE_NO_OPTION
  }

  // ---- one pass of the carry loop ----

  /** The local variables of the loop. */
  datatype Loop = Loop(digits: seq<int>, at: nat, done: bool, code: int)

  /** What one pass does: stop on a blank or an advancing digit, move past a digit that carries,
      give up past the last place, and change nothing at a digit outside the enabled ranges. */
  function Pass(f: Flags, l: Loop): (r: Loop)
    requires f.Any() && !l.done && l.at < |l.digits|
    ensures |r.digits| == |l.digits| && (r.done || r.at < |r.digits|)
  {
    var d := l.digits[l.at];
    if d == BLANK || (Enabled(f, d) && d != Top(f)) then
      l.(digits := l.digits[l.at := Bump(f, d)], done := true)
    else if !Enabled(f, d) then l
    else if l.at + 1 < |l.digits| then
      l.(digits := l.digits[l.at := Lowest(f)], at := l.at + 1)
    else l.(at := l.at + 1, done := true, code := PERMUTE_DONE)
  }

  /** The loop after at most n passes. */
  function Passes(f: Flags, l: Loop, n: nat): (r: Loop)
    requires f.Any() && (l.done || l.at < |l.digits|)
    ensures |r.digits| == |l.digits| && (r.done || r.at < |r.digits|)
  {
    if n == 0 then l
    else
      var m := Passes(f, l, n - 1);
      if m.done then m else Pass(f, m)
  }

  function Start(ds: seq<int>): Loop {
    Loop(ds, 0, false, PERMUTE_SUCCESS)
  }

  /** The loop while it is still carrying. */
  function Carrying(f: Flags, ds: seq<int>, i: nat): Loop
    requires f.Any() && i <= |ds|
  {
    Loop(Repeat(Lowest(f), i) + ds[i..], i, false, PERMUTE_SUCCESS)
  }

  /** The loop when it has ended: with the advanced row, or past the last place. */
  function Ended(f: Flags, ds: seq<int>): Loop
    requires f.Any() && CanAdvance(f, ds) && ds != []
  {
    var n := Carries(f, ds);
    if n < |ds| then Loop(Advance(f, ds), n, true, PERMUTE_SUCCESS)
    else Loop(Repeat(Lowest(f), n - 1) + ds[n - 1..], n, true, PERMUTE_DONE)
  }

  /** A pass over a loop that is still carrying: one carry more, or the end. */
  lemma PassWhileCarrying(f: Flags, ds: seq<int>, i: nat)
    requires f.Any() && i <= Carries(f, ds) && i < |ds|
    requires i == Carries(f, ds) || i + 1 == |ds| ==> CanAdvance(f, ds)
    ensures Pass(f, Carrying(f, ds, i)) ==
      if i < Carries(f, ds) && i + 1 < |ds| then Carrying(f, ds, i + 1) else Ended(f, ds)
    ensures Carrying(f, ds, i).digits[i] == ds[i]
    ensures CanAdvance(f, ds) ==> ds[i] == BLANK || Enabled(f, ds[i])
  {
    EndsOfAlphabet(f);
    SetAfterRepeat(Lowest(f), ds, i, Lowest(f));
    if i == Carries(f, ds) {
      SetAfterRepeat(Lowest(f), ds, i, Bump(f, ds[i]));
    }
  }

  /** What holds of the loop variables between passes. */
  ghost predicate InLoop(f: Flags, ds: seq<int>, l: Loop) {
    && f.Any() && |ds| == MAX_PWD_LEN && CanAdvance(f, ds)
    && if l.done then l == Ended(f, ds)
       else l.at < |ds| && l.at <= Carries(f, ds) && l == Carrying(f, ds, l.at)
  }

  lemma InLoopPass(f: Flags, ds: seq<int>, l: Loop)
    requires InLoop(f, ds, l) && !l.done
    ensures l.at < |l.digits| == MAX_PWD_LEN && l.code == PERMUTE_SUCCESS
    ensures l.digits[l.at] == BLANK || Enabled(f, l.digits[l.at])
    ensures InLoop(f, ds, Pass(f, l))
    ensures Pass(f, l).done || Pass(f, l).at == l.at + 1
  {
    PassWhileCarrying(f, ds, l.at);
  }

  lemma SetAfterRepeat(lo: int, ds: seq<int>, i: nat, x: int)
    requires i < |ds|
    ensures (Repeat(lo, i) + ds[i..])[i] == ds[i]
    ensures (Repeat(lo, i) + ds[i..])[i := x] == Repeat(lo, i) + [x] + ds[i + 1..]
    ensures Repeat(lo, i) + [lo] + ds[i + 1..] == Repeat(lo, i + 1) + ds[i + 1..]
  {
  }

  lemma {:induction false} CarryingPasses(f: Flags, ds: seq<int>, i: nat)
    requires f.Any() && 0 < |ds| && i <= Carries(f, ds) && i < |ds|
    ensures Passes(f, Start(ds), i) == Carrying(f, ds, i)
  {
    if i == 0 {
      assert Repeat(Lowest(f), 0) + ds[0..] == ds;
    } else {
      CarryingPasses(f, ds, i - 1);
      PassWhileCarrying(f, ds, i - 1);
    }
  }

  /** At a digit outside the enabled ranges the loop repeats the same pass for ever. */
  lemma {:induction false} StuckForever(f: Flags, ds: seq<int>, n: nat)
    requires f.Any() && !CanAdvance(f, ds)
    ensures !Passes(f, Start(ds), n).done
  {
    var c := Carries(f, ds);
    if n <= c {
      CarryingPasses(f, ds, n);
    } else {
      StuckFrom(f, ds, n);
    }
  }

  lemma {:induction false} StuckFrom(f: Flags, ds: seq<int>, n: nat)
    requires f.Any() && !CanAdvance(f, ds) && Carries(f, ds) <= n
    ensures Passes(f, Start(ds), n) == Carrying(f, ds, Carries(f, ds))
  {
    var c := Carries(f, ds);
    if n == c {
      CarryingPasses(f, ds, n);
    } else {
      StuckFrom(f, ds, n - 1);
      assert Carrying(f, ds, c).digits[c] == ds[c];
    }
  }

  ghost predicate EndsAt(f: Flags, ds: seq<int>, n: nat)
    requires f.Any() && ds != []
  {
    Passes(f, Start(ds), n).done
  }

  /** The carry loop ends if and only if the carry stops at a blank or enabled digit, or runs off
      the row. */
  lemma LoopEndsIff(f: Flags, ds: seq<int>)
    requires f.Any() && ds != []
    ensures (exists n: nat :: EndsAt(f, ds, n)) <==> CanAdvance(f, ds)
  {
    hide Pass, Passes, EndsAt;
    if CanAdvance(f, ds) {
      var n := EndOfLoop(f, ds);
    } else {
      forall n: nat ensures !EndsAt(f, ds, n) {
        NeverEnds(f, ds, n);
      }
    }
  }

  /** setNext returns at once without a range or after the end, and otherwise if and only if its loop ends. */
  lemma ReturnsIff(g: Gen)
    requires g.digits != []
    ensures Returns(g) <==> !g.flags.Any() || g.done || exists n: nat :: EndsAt(g.flags, g.digits, n)
  {
    hide EndsAt, CanAdvance;
    if g.flags.Any() {
      LoopEndsIff(g.flags, g.digits);
    }
  }

  lemma EndOfLoop(f: Flags, ds: seq<int>) returns (n: nat)
    requires f.Any() && ds != [] && CanAdvance(f, ds)
    ensures EndsAt(f, ds, n)
  {
    hide Pass, Carrying, Carries;
    var c := Carries(f, ds);
    n := if c < |ds| then c + 1 else c;
    CarryingPasses(f, ds, n - 1);
    PassWhileCarrying(f, ds, n - 1);
  }

  lemma NeverEnds(f: Flags, ds: seq<int>, n: nat)
    requires f.Any() && ds != [] && !CanAdvance(f, ds)
    ensures !EndsAt(f, ds, n)
  {
    hide Passes, CanAdvance;
    StuckForever(f, ds, n);
  }

  /** A pass told range by range: inside a range the index goes up by one, from the end of a range
      it jumps to the start of the next enabled one, and from the end of the last it carries.  A digit
      outside the enabled ranges is left as it is, and so is everything else. */
  lemma PassByRanges(f: Flags, l: Loop)
    requires f.Any() && !l.done && l.at < |l.digits|
    ensures var d := l.digits[l.at];
      && (d == BLANK ==> Pass(f, l) == l.(digits := l.digits[l.at := Lowest(f)], done := true))
      && (d != BLANK && !Enabled(f, d) ==> Pass(f, l) == l)
      && (Enabled(f, d) && d !in {RANGE_LA_UPPER, RANGE_UA_UPPER, RANGE_NUM_UPPER, RANGE_NA_UPPER} ==>
            Pass(f, l) == l.(digits := l.digits[l.at := d + 1], done := true))
      && (Enabled(f, d) && d in {RANGE_LA_UPPER, RANGE_UA_UPPER, RANGE_NUM_UPPER, RANGE_NA_UPPER} ==>
            if d < RANGE_UA_LOWER && f.upper then
              Pass(f, l) == l.(digits := l.digits[l.at := RANGE_UA_LOWER], done := true)
            else if d < RANGE_NUM_LOWER && f.numeric then
              Pass(f, l) == l.(digits := l.digits[l.at := RANGE_NUM_LOWER], done := true)
            else if d < RANGE_NA_LOWER && f.nonAlpha then
              Pass(f, l) == l.(digits := l.digits[l.at := RANGE_NA_LOWER], done := true)
            else if l.at + 1 < |l.digits| then
              Pass(f, l) == l.(digits := l.digits[l.at := Lowest(f)], at := l.at + 1)
            else
              Pass(f, l) == l.(at := l.at + 1, done := true, code := PERMUTE_DONE))
  {
  }

  /** What a caller reads from a character buffer: the characters before the first NUL. */
  function CString(buffer: string): string {
    if buffer == "" || buffer[0] == 0 as char then "" else [buffer[0]] + CString(buffer[1..])
  }

  lemma {:induction false} CStringUpToNul(s: string, buffer: string)
    requires |s| < |buffer| && buffer[..|s|] == s && buffer[|s|] == 0 as char
    requires 0 as char !in s
    ensures CString(buffer) == s
  {
    if s != "" {
      assert buffer[0] == s[0] && s[0] in s;
      assert buffer[1..][..|s| - 1] == s[1..];
      CStringUpToNul(s[1..], buffer[1..]);
    }
  }

  lemma TableCharsNotNul(d: int)
    requires Indexed(d)
    ensures CharOf(d) != 0 as char
  {
    CharOfInjective(d);
    assert IndexOf(0 as char) == -1;
  }

  lemma SpelledHasNoNul(ds: seq<int>)
    requires forall i :: 0 <= i < |ds| ==> Indexed(ds[i])
    ensures 0 as char !in Spell(ds)
  {
    forall i | 0 <= i < |ds| ensures Spell(ds)[i] != 0 as char {
      TableCharsNotNul(ds[|ds| - 1 - i]);
    }
  }

  // ---- the object ----

  class PwdNextUnit {
    var testPassword: array<char>
    var testPwdLen: int
    var charIndicies: array<int>
    var useLAlpha: bool
    var useUAlpha: bool
    var useNAlpha: bool
    var useNumeric: bool
    var useNone: bool
    var permuteStatus: bool

    ghost predicate Valid()
      reads this
    {
      && charIndicies.Length == MAX_PWD_LEN
      && testPassword.Length == MAX_PWD_LEN + 1
      && useNone == !UsedFlags().Any()
    }

    function UsedFlags(): Flags
      reads this
    {
      Flags(useLAlpha, useUAlpha, useNumeric, useNAlpha)
    }

    /** The abstract value of this object. */
    ghost function View(): Gen
      reads this, charIndicies
    {
      Gen(UsedFlags(), charIndicies[..], testPwdLen, permuteStatus)
    }

    constructor ()
      ensures Valid() && fresh(charIndicies) && fresh(testPassword)
      ensures View() == Fresh(Flags(false, false, false, false), MAX_PWD_LEN)
    {
      testPwdLen := 0;
      useLAlpha, useUAlpha, useNAlpha, useNumeric := false, false, false, false;
      useNone := true;
      permuteStatus := false;
      var password, indicies := new char[MAX_PWD_LEN + 1], new int[MAX_PWD_LEN];
      for x := 0 to MAX_PWD_LEN
        invariant forall i :: 0 <= i < x ==> indicies[i] == BLANK
      {
        password[x] := 0 as char;
        indicies[x] := BLANK;
      }
      password[MAX_PWD_LEN] := 0 as char;
      testPassword, charIndicies := password, indicies;
    }

    method GetLowestIndex() returns (d: int)
      ensures d == if UsedFlags().Any() then Lowest(UsedFlags()) else BLANK
    {
      if useLAlpha { return RANGE_LA_LOWER; }
      if useUAlpha { return RANGE_UA_LOWER; }
      if useNumeric { return RANGE_NUM_LOWER; }
      if useNAlpha { return RANGE_NA_LOWER; }
      return -1;
    }

    /** One pass of the carry loop of setNext over the local copy of the digits, whatever they are: at a digit
        outside the enabled ranges it does nothing, which is why the loop then never ends (StuckForever). */
    method ScanDigit(local: array<int>, pwdCharIndex: nat, ghost f: Flags)
      returns (at: nat, done: bool, code: int)
      requires f == UsedFlags() && f.Any() && 0 <= pwdCharIndex < local.Length == MAX_PWD_LEN
      requires local != charIndicies
      modifies local
      ensures Loop(local[..], at, done, code) ==
        Pass(f, Loop(old(local[..]), pwdCharIndex, false, PERMUTE_SUCCESS))
    {
      PassByRanges(f, Loop(local[..], pwdCharIndex, false, PERMUTE_SUCCESS));
      at, done, code := pwdCharIndex, false, PERMUTE_SUCCESS;
      var charLookupIndex := local[at];
      if charLookupIndex == -1 {
        local[at] := GetLowestIndex();
        charLookupIndex := GetLowestIndex();
        done := true;
      }

      if useLAlpha && !done {
        if RANGE_LA_LOWER <= charLookupIndex < RANGE_LA_UPPER {
          local[at] := local[at] + 1;
          done := true;
        } else if charLookupIndex == RANGE_LA_UPPER {
          if useUAlpha {
            local[at] := RANGE_UA_LOWER;
            done := true;
            return;
          } else if useNumeric {
            local[at] := RANGE_NUM_LOWER;
            done := true;
            return;
          } else if useNAlpha {
            local[at] := RANGE_NA_LOWER;
            done := true;
            return;
          } else {
            at := at + 1;
            if at < MAX_PWD_LEN {
              local[at - 1] := GetLowestIndex();
            } else {
              done := true;
              code := PERMUTE_DONE;
            }
          }
        }
      }

      if useUAlpha && !done {
        if RANGE_UA_LOWER <= charLookupIndex < RANGE_UA_UPPER {
          local[at] := local[at] + 1;
          done := true;
        } else if charLookupIndex == RANGE_UA_UPPER {
          if useNumeric {
            local[at] := RANGE_NUM_LOWER;
            done := true;
            return;
          } else if useNAlpha {
            local[at] := RANGE_NA_LOWER;
            done := true;
            return;
          } else {
            at := at + 1;
            if at < MAX_PWD_LEN {
              local[at - 1] := GetLowestIndex();
            } else {
              done := true;
              code := PERMUTE_DONE;
            }
          }
        }
      }

      if useNumeric && !done {
        if RANGE_NUM_LOWER <= charLookupIndex < RANGE_NUM_UPPER {
          local[at] := local[at] + 1;
          done := true;
        } else if charLookupIndex == RANGE_NUM_UPPER {
          if useNAlpha {
            local[at] := RANGE_NA_LOWER;
            done := true;
            return;
          } else {
            at := at + 1;
            if at < MAX_PWD_LEN {
              local[at - 1] := GetLowestIndex();
            } else {
              done := true;
              code := PERMUTE_DONE;
            }
          }
        }
      }

      if useNAlpha && !done {
        if RANGE_NA_LOWER <= charLookupIndex < RANGE_NA_UPPER {
          local[at] := local[at] + 1;
          done := true;
        } else if charLookupIndex == RANGE_NA_UPPER {
          at := at + 1;
          if at < MAX_PWD_LEN {
            local[at - 1] := GetLowestIndex();
          } else {
            done := true;
            code := PERMUTE_DONE;
          }
        }
      }
    }

    /** The carry loop of setNext over the local copy of the digits. */
    method Carry(local: array<int>) returns (pwdCharIndex: nat, retVal: int)
      requires UsedFlags().Any() && local.Length == MAX_PWD_LEN
      requires local != charIndicies && CanAdvance(UsedFlags(), local[..])
      modifies local
      ensures Loop(local[..], pwdCharIndex, true, retVal) == Ended(UsedFlags(), old(local[..]))
    {
      ghost var f, ds := UsedFlags(), local[..];
      assert local[..] == Carrying(f, ds, 0).digits;
      var done := false;
      pwdCharIndex, retVal := 0, PERMUTE_SUCCESS;
      while !done
        invariant InLoop(f, ds, Loop(local[..], pwdCharIndex, done, retVal))
        decreases if done then 0 else 1, MAX_PWD_LEN - pwdCharIndex
      {
        ghost var l := Loop(local[..], pwdCharIndex, done, retVal);
        InLoopPass(f, ds, l);
        assert local[pwdCharIndex] == l.digits[pwdCharIndex];
        pwdCharIndex, done, retVal := ScanDigit(local, pwdCharIndex, f);
        assert Loop(local[..], pwdCharIndex, done, retVal) == Pass(f, l);
      }
    }

    /** The copy loops of setNext: ten digits from one array to another. */
    static method CopyDigits(from: array<int>, to: array<int>)
      requires from != to && from.Length == to.Length == MAX_PWD_LEN
      modifies to
      ensures to[..] == old(from[..])
    {
      for x := 0 to MAX_PWD_LEN
        invariant to[..x] == from[..x]
      {
        to[x] := from[x];
      }
    }

    /** Advances the row.  The precondition is exactly the condition under which the carry loop ends
        (ReturnsIff); each pass of that loop is Pass. */
    method SetNext() returns (ret: int)
      requires Valid() && Returns(View())
      modifies this`testPwdLen, this`permuteStatus, charIndicies
      ensures Valid()
      ensures View() == Next(old(View())).0
      ensures ret == CodeValue(Next(old(View())).1)
      ensures ret == PERMUTE_NO_OPTION <==> old(useNone)
      ensures ret == PERMUTE_DONE <==> !old(useNone) && permuteStatus
    {
      if useNone { return PERMUTE_NO_OPTION; }

      var local := new int[MAX_PWD_LEN];
      if !permuteStatus {
        CopyDigits(charIndicies, local);
      } else {
        return PERMUTE_DONE;
      }

      var pwdCharIndex, retVal := Carry(local);

      if retVal == PERMUTE_SUCCESS {
        CopyDigits(local, charIndicies);
        if pwdCharIndex + 1 > testPwdLen {
          testPwdLen := pwdCharIndex + 1;
        }
      } else {
        permuteStatus := retVal != 0;
      }
      return retVal;
    }

    // ---- what the position spells ----

    /** The table lookup of get_plainPassword. */
    static method LookUp(charLookupIndex: int) returns (found: bool, c: char)
      ensures found <==> Indexed(charLookupIndex)
      ensures found ==> c == CharOf(charLookupIndex)
    {
      if Indexed(charLookupIndex) {
        CharOfReadsTables(charLookupIndex);
      }
      if RANGE_LA_LOWER <= charLookupIndex <= RANGE_LA_UPPER {
        return true, LOWER_ALPHA[charLookupIndex - RANGE_LA_LOWER];
      } else if RANGE_UA_LOWER <= charLookupIndex <= RANGE_UA_UPPER {
        return true, UPPER_ALPHA[charLookupIndex - RANGE_UA_LOWER];
      } else if RANGE_NUM_LOWER <= charLookupIndex <= RANGE_NUM_UPPER {
        return true, NUMERIC[charLookupIndex - RANGE_NUM_LOWER];
      } else if RANGE_NA_LOWER <= charLookupIndex <= RANGE_NA_UPPER {
        return true, NON_ALPHA[charLookupIndex - RANGE_NA_LOWER];
      } else {
        return false, 0 as char;
      }
    }

    /** Fills testPassword with the word of the current position, most significant digit first and
        ended by NUL, unless some digit in use is outside the tables. */
    method GetPlainPassword() returns (found: bool)
      requires Valid() && 0 <= testPwdLen <= MAX_PWD_LEN
      modifies testPassword
      ensures found <==> forall i :: 0 <= i < testPwdLen ==> Indexed(charIndicies[i])
      ensures found ==> CString(testPassword[..]) == Spell(Numeral(View()))
    {
      hide CharOf, CString;
      ghost var ds := charIndicies[..testPwdLen];
      var y, x := 0, testPwdLen - 1;
      while x >= 0
        invariant y == testPwdLen - 1 - x && 0 <= y <= testPwdLen
        invariant forall i :: x < i < testPwdLen ==> Indexed(ds[i])
        invariant forall i :: x < i < testPwdLen ==> testPassword[testPwdLen - 1 - i] == CharOf(ds[i])
        modifies testPassword
      {
        var known, c := LookUp(charIndicies[x]);
        if !known { return false; }
        testPassword[y] := c;
        x, y := x - 1, y + 1;
      }
      testPassword[testPwdLen] := 0 as char;
      forall j | 0 <= j < testPwdLen ensures testPassword[j] == Spell(ds)[j] {
        assert testPassword[testPwdLen - 1 - (testPwdLen - 1 - j)] == CharOf(ds[testPwdLen - 1 - j]);
      }
      SpelledHasNoNul(ds);
      CStringUpToNul(Spell(ds), testPassword[..]);
      return true;
    }

    method GetPwdAsIndicies() returns (s: string)
      requires Valid() && 0 <= testPwdLen <= MAX_PWD_LEN
      ensures s == AsIndicies(Numeral(View()))
    {
      hide AsIndicies, IndiciesDownTo, ToString;
      ghost var ds := charIndicies[..testPwdLen];
      s := ToString(testPwdLen);
      var x := testPwdLen - 1;
      IndiciesFrom(ds, x);
      while x >= 0
        invariant -1 <= x < testPwdLen
        invariant s == IndiciesDownTo(ds, x)
      {
        IndiciesFrom(ds, x);
        s := s + ("," + ToString(charIndicies[x]));
        x := x - 1;
      }
      IndiciesFrom(ds, -1);
    }

    /** The table lookup and symbol names of get_pwdAsText. */
    static method AppendToken(pwdStr: string, d: int) returns (s: string)
      ensures s == pwdStr + Token(d)
    {
      if Indexed(d) {
        CharOfReadsTables(d);
      }
      if RANGE_LA_LOWER <= d <= RANGE_LA_UPPER {
        s := pwdStr + [LOWER_ALPHA[d - RANGE_LA_LOWER]];
      } else if RANGE_UA_LOWER <= d <= RANGE_UA_UPPER {
        s := pwdStr + [UPPER_ALPHA[d - RANGE_UA_LOWER]];
      } else if RANGE_NUM_LOWER <= d <= RANGE_NUM_UPPER {
        s := pwdStr + [NUMERIC[d - RANGE_NUM_LOWER]];
      } else if RANGE_NA_LOWER <= d <= RANGE_NA_UPPER {
        s := pwdStr + SymbolName(NON_ALPHA[d - RANGE_NA_LOWER]);
      } else {
        s := pwdStr;
      }
    }

    method GetPwdAsText() returns (s: string)
      requires Valid() && 0 <= testPwdLen <= MAX_PWD_LEN
      ensures s == AsText(Numeral(View()))
    {
      hide Token, TextDownTo, Join, ToString;
      ghost var ds := charIndicies[..testPwdLen];
      s := ToString(testPwdLen) + " chars ";
      var x := testPwdLen - 1;
      TextFrom(ds, Token, x);
      while x >= 0
        invariant -1 <= x < testPwdLen
        invariant s == TextDownTo(ds, Token, x)
      {
        TextFrom(ds, Token, x);
        s := AppendToken(s, charIndicies[x]);
        if x != 0 { s := s + ","; }
        x := x - 1;
      }
      TextFrom(ds, Token, -1);
    }

    // ---- flags and checkpoint accessors ----

    method SetUseLAlpha(newValue: bool)
      requires Valid()
      modifies this`useLAlpha, this`useNone
      ensures Valid()
      ensures View() == old(View()).(flags := old(UsedFlags()).(lower := newValue))
    {
      useLAlpha := newValue;
      useNone := !(useLAlpha || useUAlpha || useNumeric || useNAlpha);
    }

    method SetUseUAlpha(newValue: bool)
      requires Valid()
      modifies this`useUAlpha, this`useNone
      ensures Valid()
      ensures View() == old(View()).(flags := old(UsedFlags()).(upper := newValue))
    {
      useUAlpha := newValue;
      useNone := !(useLAlpha || useUAlpha || useNumeric || useNAlpha);
    }

    method SetUseNAlpha(newValue: bool)
      requires Valid()
      modifies this`useNAlpha, this`useNone
      ensures Valid()
      ensures View() == old(View()).(flags := old(UsedFlags()).(nonAlpha := newValue))
    {
      useNAlpha := newValue;
      useNone := !(useLAlpha || useUAlpha || useNumeric || useNAlpha);
    }

    method SetUseNumeric(newValue: bool)
      requires Valid()
      modifies this`useNumeric, this`useNone
      ensures Valid()
      ensures View() == old(View()).(flags := old(UsedFlags()).(numeric := newValue))
    {
      useNumeric := newValue;
      useNone := !(useLAlpha || useUAlpha || useNumeric || useNAlpha);
    }

    method SetCharIndicies(charIdx: int, charIdxValue: int)
      requires Valid() && 0 <= charIdx < MAX_PWD_LEN
      modifies charIndicies
      ensures Valid()
      ensures View() == old(View()).(digits := old(View()).digits[charIdx := charIdxValue])
    {
      charIndicies[charIdx] := charIdxValue;
    }

    /** The status is stored in a bool, so any non-zero value reads back as 1. */
    method SetPermuteStatus(status: int)
      requires Valid()
      modifies this`permuteStatus
      ensures Valid()
      ensures View() == old(View()).(done := status != 0)
    {
      permuteStatus := status != 0;
    }

    method GetPermuteStatus() returns (status: int)
      ensures status == if permuteStatus then PERMUTE_DONE else PERMUTE_SUCCESS
    {
      status := if permuteStatus then 1 else 0;
    }
  }
}
