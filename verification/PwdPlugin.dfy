/** The PWD plugin around the generator: numbered jobs, checkpoint and resume. */
module PwdPlugin {
  import opened Odometer
  import opened Characters
  import opened Generator
  import opened NextUnit
  import PwdText
  import opened Sequences
  import opened Wrappers

  const INT_MAX := 0x7FFF_FFFF
  const INT_MIN := -0x8000_0000

  /** Incrementing a 32-bit signed counter wraps round. */
  function Inc32(n: int): int {
    if n == INT_MAX then INT_MIN else n + 1
  }

  datatype Job = Job(password: string, indicies: string, text: string, seqNo: int)

  datatype State = State(gen: Gen, seqNo: int)

  /** The fields of the resume document; each may be missing. */
  datatype Resume = Resume(
    charIndicies: Option<seq<int>>, testPwdLen: Option<int>, permuteStatus: Option<int>, seqNo: Option<int>)

  const NO_RESUME := Resume(None, None, None, None)

  ghost predicate Ready(s: State) {
    WellFormed(s.gen)
  }

  /** The job made from a position: its word, its two printed forms and its number. */
  function JobOf(ds: seq<int>, seqNo: int): Job {
    Job(if forall i :: 0 <= i < |ds| ==> Indexed(ds[i]) then Spell(ds) else "",
        PwdText.AsIndicies(ds), PwdText.AsText(ds), seqNo)
  }

  /** A digit outside the tables spells no password, whatever the others are. */
  lemma UnspelledJob(ds: seq<int>, seqNo: int, i: nat)
    requires i < |ds| && !Indexed(ds[i])
    ensures JobOf(ds, seqNo).password == ""
  {
  }

  /** One call of next_unit. */
  function NextJob(s: State): (r: (State, Option<Job>))
    requires Returns(s.gen) && 0 <= s.gen.len <= |s.gen.digits|
  {
    var (g, code) := Next(s.gen);
    if code != Success then (s.(gen := g), None)
    else
      var n := Inc32(s.seqNo);
      (State(g, n), Some(JobOf(Numeral(g), n)))
  }

  /** The row with its first digits replaced, as far as the replacement and the row both go. */
  function Overwrite(row: seq<int>, ci: seq<int>): (r: seq<int>)
    ensures |r| == |row| && forall i :: 0 <= i < |row| ==> r[i] == if i < |ci| then ci[i] else row[i]
  {
    if |ci| <= |row| then ci + row[|ci|..] else ci[..|row|]
  }

  lemma OverwriteNext(row: seq<int>, ci: seq<int>, i: nat)
    requires i < |row| && i < |ci|
    ensures Overwrite(row, ci[..i + 1]) == Overwrite(row, ci[..i])[i := ci[i]]
  {
  }

  /** The plugin after startup with the given character ranges and resume document. */
  function Startup(f: Flags, r: Resume): State {
    State(Restored(Fresh(f, MAX_PWD_LEN), r), if r.seqNo.Some? then r.seqNo.value else 0)
  }

  /** The generator after the three generator keys of the resume document were applied. */
  function Restored(g: Gen, r: Resume): Gen {
    g.(digits := if r.charIndicies.Some? then Overwrite(g.digits, r.charIndicies.value) else g.digits,
       len := if r.testPwdLen.Some? then r.testPwdLen.value else g.len,
       done := if r.permuteStatus.Some? then r.permuteStatus.value != 0 else g.done)
  }

  function Checkpoint(s: State): Resume {
    Resume(Some(s.gen.digits), Some(s.gen.len),
           Some(if s.gen.done then PERMUTE_DONE else PERMUTE_SUCCESS), Some(s.seqNo))
  }

  /** Startup from a checkpoint restores the position, the status and the numbering. */
  lemma ResumeRestores(s: State)
    requires |s.gen.digits| == MAX_PWD_LEN
    ensures Startup(s.gen.flags, Checkpoint(s)) == s
  {
    assert Startup(s.gen.flags, Checkpoint(s)).gen.digits == s.gen.digits;
  }

  /** A key missing from the checkpoint leaves its field as in a fresh plugin and the others as they were saved; any
      status but zero means exhausted. */
  lemma MissingKeys(s: State, status: int)
    requires |s.gen.digits| == MAX_PWD_LEN
    ensures var f, c := s.gen.flags, Checkpoint(s);
      && Startup(f, c.(charIndicies := None)) == s.(gen := s.gen.(digits := Repeat(BLANK, MAX_PWD_LEN)))
      && Startup(f, c.(testPwdLen := None)) == s.(gen := s.gen.(len := 0))
      && Startup(f, c.(permuteStatus := None)) == s.(gen := s.gen.(done := false))
      && Startup(f, c.(seqNo := None)) == s.(seqNo := 0)
      && Startup(f, c.(permuteStatus := Some(status))) == s.(gen := s.gen.(done := status != 0))
  {
    assert Overwrite(Repeat(BLANK, MAX_PWD_LEN), s.gen.digits) == s.gen.digits;
  }

  lemma NextJobStaysReady(s: State)
    requires Ready(s)
    ensures Returns(s.gen) && Ready(NextJob(s).0)
    ensures NextJob(s).0.gen.flags == s.gen.flags && |NextJob(s).0.gen.digits| == |s.gen.digits|
  {
    if s.gen.flags.Any() {
      NextStaysWellFormed(s.gen);
    }
  }

  /** The plugin after n calls of next_unit. */
  ghost function AfterCalls(s: State, n: nat): (r: State)
    requires Ready(s)
    ensures Ready(r) && r.gen.flags == s.gen.flags && |r.gen.digits| == |s.gen.digits|
  {
    if n == 0 then s
    else
      var mid := AfterCalls(s, n - 1);
      NextJobStaysReady(mid);
      NextJob(mid).0
  }

  /** The jobs handed out by n calls, in order. */
  ghost function Jobs(s: State, n: nat): seq<Job>
    requires Ready(s)
  {
    if n == 0 then []
    else
      var mid := AfterCalls(s, n - 1);
      NextJobStaysReady(mid);
      Jobs(s, n - 1) + Listed(NextJob(mid).1)
  }

  function Listed(job: Option<Job>): seq<Job> {
    if job.Some? then [job.value] else []
  }

  lemma {:induction false} RunSplits(s: State, n: nat, m: nat)
    requires Ready(s)
    ensures AfterCalls(s, n + m) == AfterCalls(AfterCalls(s, n), m)
    ensures Jobs(s, n + m) == Jobs(s, n) + Jobs(AfterCalls(s, n), m)
  {
    if m > 0 {
      RunSplits(s, n, m - 1);
      var mid := AfterCalls(s, n);
      NextJobStaysReady(AfterCalls(mid, m - 1));
      Associate(Jobs(s, n), Jobs(mid, m - 1), Listed(NextJob(AfterCalls(mid, m - 1)).1));
    }
  }

  /** Stopping after n calls and resuming a fresh plugin from the checkpoint hands out the same
      jobs, with the same numbers, as going on, also when the generator is already exhausted. */
  lemma ResumeContinues(s: State, n: nat, m: nat)
    requires Ready(s) && |s.gen.digits| == MAX_PWD_LEN
    ensures Ready(Startup(s.gen.flags, Checkpoint(AfterCalls(s, n))))
    ensures Jobs(s, n + m) == Jobs(s, n) + Jobs(Startup(s.gen.flags, Checkpoint(AfterCalls(s, n))), m)
    ensures AfterCalls(s, n + m) == AfterCalls(Startup(s.gen.flags, Checkpoint(AfterCalls(s, n))), m)
  {
    ResumeRestores(AfterCalls(s, n));
    RunSplits(s, n, m);
  }

  /** What one call adds: the generator moves on, and a success is described and numbered. */
  lemma NextJobFollowsGenerator(s: State)
    requires Ready(s) && s.gen.flags.Any()
    ensures Returns(s.gen) && WellFormed(Next(s.gen).0)
    ensures NextJob(s).0.gen == Next(s.gen).0
    ensures NextJob(s).1.Some? <==> Next(s.gen).1 == Success
    ensures NextJob(s).1.None? ==> NextJob(s).0.seqNo == s.seqNo
    ensures NextJob(s).1.Some? ==>
      var n := Inc32(s.seqNo);
      NextJob(s).0.seqNo == n && NextJob(s).1.value.seqNo == n
    ensures NextJob(s).1.Some? ==>
      var job, ds := NextJob(s).1.value, Numeral(Next(s.gen).0);
      job.password == Spell(ds) && job.indicies == PwdText.AsIndicies(ds) && job.text == PwdText.AsText(ds)
  {
    NextStaysWellFormed(s.gen);
  }

  /** The counter after n increments from zero. */
  ghost function Numbered(n: nat): int {
    if n == 0 then 0 else Inc32(Numbered(n - 1))
  }

  /** The counter is the count, wrapped to 32 bits. */
  lemma {:induction false} NumberedWraps(n: nat)
    ensures Numbered(n) == (n + 0x8000_0000) % 0x1_0000_0000 - 0x8000_0000
  {
    if n > 0 {
      NumberedWraps(n - 1);
    }
  }

  /** The jobs of a run are the passwords in enumeration order, numbered from 1. */
  ghost predicate InOrder(f: Flags, width: nat, jobs: seq<Job>)
    requires f.Any()
  {
    forall i :: 0 <= i < |jobs| ==> IsJob(f, width, i + 1, jobs[i])
  }

  /** The n-th password in both printed forms, with the number n. */
  ghost predicate IsJob(f: Flags, width: nat, n: nat, job: Job)
    requires f.Any()
  {
    Describes(f, width, n, job) && job.seqNo == Numbered(n)
  }

  ghost predicate Describes(f: Flags, width: nat, n: nat, job: Job)
    requires f.Any()
  {
    && job.password == Password(f, width, n)
    && job.indicies == PwdText.AsIndicies(Numeral(After(f, width, n)))
    && job.text == PwdText.AsText(Numeral(After(f, width, n)))
  }

  lemma FreshIsReady(f: Flags)
    ensures Ready(Startup(f, NO_RESUME))
    ensures Startup(f, NO_RESUME) == State(Fresh(f, MAX_PWD_LEN), 0)
  {
  }

  lemma {:induction false} GeneratorOfRun(f: Flags, width: nat, s: State, n: nat)
    requires f.Any() && Ready(s) && s == State(Fresh(f, width), 0)
    ensures AfterCalls(s, n).gen == After(f, width, n)
  {
    hide NextJob, Next;
    if n > 0 {
      GeneratorOfRun(f, width, s, n - 1);
      NextJobFollowsGenerator(AfterCalls(s, n - 1));
    }
  }

  /** The n-th call of a fresh plugin hands out the n-th password, while there is one. */
  lemma NthCall(f: Flags, width: nat, s: State, n: nat)
    requires f.Any() && Ready(s) && s == State(Fresh(f, width), 0) && n > 0
    ensures n > Total(f, width) ==>
      Jobs(s, n) == Jobs(s, n - 1) && AfterCalls(s, n).seqNo == AfterCalls(s, n - 1).seqNo
    ensures n <= Total(f, width) ==> exists job :: IsNthJob(f, width, s, n, job)
  {
    hide Next, NextJob, Total, After, Password, Spell, Describes, PwdText.AsIndicies, PwdText.AsText;
    var mid := AfterCalls(s, n - 1);
    GeneratorOfRun(f, width, s, n - 1);
    GeneratorOfRun(f, width, s, n);
    CallsSucceedExactlyTotalTimes(f, width, n);
    NextJobFollowsGenerator(mid);
    var job := NextJob(mid).1;
    if job.None? {
      assert Jobs(s, n - 1) + [] == Jobs(s, n - 1);
    } else {
      DescribesNth(f, width, n, job.value);
      assert IsNthJob(f, width, s, n, job.value);
    }
  }

  lemma DescribesNth(f: Flags, width: nat, n: nat, job: Job)
    requires f.Any()
    ensures var ds := Numeral(After(f, width, n));
      Describes(f, width, n, job) <==>
        job.password == Spell(ds) && job.indicies == PwdText.AsIndicies(ds) && job.text == PwdText.AsText(ds)
  {
    hide After, PwdText.AsIndicies, PwdText.AsText;
  }

  /** The job that the n-th call of a fresh plugin hands out. */
  ghost predicate IsNthJob(f: Flags, width: nat, s: State, n: nat, job: Job)
    requires f.Any() && Ready(s) && n > 0
  {
    && Jobs(s, n) == Jobs(s, n - 1) + [job]
    && Describes(f, width, n, job)
    && job.seqNo == AfterCalls(s, n).seqNo == Inc32(AfterCalls(s, n - 1).seqNo)
  }

  lemma {:induction false} JobCount(f: Flags, width: nat, s: State, n: nat)
    requires f.Any() && Ready(s) && s == State(Fresh(f, width), 0)
    ensures |Jobs(s, n)| == if n <= Total(f, width) then n else Total(f, width)
  {
    hide NextJob, Total, After;
    if n > 0 {
      JobCount(f, width, s, n - 1);
      NthCall(f, width, s, n);
    }
  }

  lemma {:induction false} JobsNumbered(f: Flags, width: nat, s: State, n: nat)
    requires f.Any() && Ready(s) && s == State(Fresh(f, width), 0)
    ensures AfterCalls(s, n).seqNo == Numbered(|Jobs(s, n)|)
  {
    hide NextJob, Total, After;
    if n > 0 {
      JobsNumbered(f, width, s, n - 1);
      NthCall(f, width, s, n);
    }
  }

  lemma {:induction false} JobsInOrder(f: Flags, width: nat, s: State, n: nat)
    requires f.Any() && Ready(s) && s == State(Fresh(f, width), 0)
    ensures InOrder(f, width, Jobs(s, n))
  {
    hide NextJob, Total, After, Describes, InOrder;
    if n > 0 {
      JobsInOrder(f, width, s, n - 1);
      NthCall(f, width, s, n);
      if n <= Total(f, width) {
        var job :| IsNthJob(f, width, s, n, job);
        JobCount(f, width, s, n - 1);
        JobsNumbered(f, width, s, n - 1);
        InOrderAppend(f, width, Jobs(s, n - 1), job);
      }
    } else {
      NoneInOrder(f, width);
    }
  }

  lemma NoneInOrder(f: Flags, width: nat)
    requires f.Any()
    ensures InOrder(f, width, [])
  {
  }

  lemma InOrderAppend(f: Flags, width: nat, jobs: seq<Job>, job: Job)
    requires f.Any() && InOrder(f, width, jobs)
    requires IsJob(f, width, |jobs| + 1, job)
    ensures InOrder(f, width, jobs + [job])
  {
    hide IsJob;
  }

  /** A fresh plugin hands out every password once, in order, numbered from 1, and then no more. */
  lemma JobsAreTheEnumeration(f: Flags, width: nat, n: nat)
    requires f.Any() && width == MAX_PWD_LEN
    ensures Ready(Startup(f, NO_RESUME))
    ensures |Jobs(Startup(f, NO_RESUME), n)| == if n <= Total(f, width) then n else Total(f, width)
    ensures InOrder(f, width, Jobs(Startup(f, NO_RESUME), n))
  {
    FreshIsReady(f);
    JobCount(f, width, Startup(f, NO_RESUME), n);
    JobsInOrder(f, width, Startup(f, NO_RESUME), n);
  }

  /** Without a range the plugin is exhausted from the start, whatever it was resumed from, and never changes. */
  lemma {:induction false} NoRangesNoJobs(s: State, n: nat)
    requires Ready(s) && !s.gen.flags.Any()
    ensures AfterCalls(s, n) == s && Jobs(s, n) == []
  {
    if n > 0 {
      NoRangesNoJobs(s, n - 1);
      CodeTells(s.gen);
    }
  }

  // ---- resuming with other ranges ----

  /** Every range of f is switched on in g. */
  predicate Covers(g: Flags, f: Flags) {
    && (f.lower ==> g.lower) && (f.upper ==> g.upper)
    && (f.numeric ==> g.numeric) && (f.nonAlpha ==> g.nonAlpha)
  }

  /** The position of a run with ranges f, n units on, resumed under a configuration with ranges g. */
  ghost function Resumed(f: Flags, g: Flags, n: nat): State {
    FreshIsReady(f);
    Startup(g, Checkpoint(AfterCalls(Startup(f, NO_RESUME), n)))
  }

  lemma ResumedIs(f: Flags, g: Flags, n: nat)
    ensures Ready(Startup(f, NO_RESUME))
    ensures var s := AfterCalls(Startup(f, NO_RESUME), n);
      && Resumed(f, g, n) == s.(gen := s.gen.(flags := g))
      && WellFormed(s.gen) && s.gen.flags == f && |s.gen.digits| == MAX_PWD_LEN
  {
    hide AfterCalls, Restored, WellFormed;
    FreshIsReady(f);
    var s := AfterCalls(Startup(f, NO_RESUME), n);
    SameRow(f, g, s);
  }

  lemma SameRow(f: Flags, g: Flags, s: State)
    requires |s.gen.digits| == MAX_PWD_LEN
    ensures Startup(g, Checkpoint(s)) == s.(gen := s.gen.(flags := g))
  {
    assert Startup(g, Checkpoint(s)).gen.digits == s.gen.digits;
  }

  /** With all the old ranges on, the position is well formed, and every call from there on returns. */
  lemma MoreRangesAreFine(f: Flags, g: Flags, n: nat)
    requires Covers(g, f)
    ensures Ready(Resumed(f, g, n)) && Returns(Resumed(f, g, n).gen)
  {
    hide AfterCalls, Resumed, Returns;
    ResumedIs(f, g, n);
    NextJobStaysReady(Resumed(f, g, n));
  }

  /** A digit enabled in f and not in g: the first word it makes is a position where setNext under g hangs. */
  lemma MissingRangeHangs(f: Flags, g: Flags, width: nat, d: int) returns (n: nat)
    requires width == MAX_PWD_LEN && g.Any() && Enabled(f, d) && !Enabled(g, d)
    ensures !Returns(Resumed(f, g, n).gen)
  {
    hide AfterCalls, Resumed, Total, Rank;
    n := Rank(f, [d]);
    SingleDigit(f, d, width);
    RunReachesEveryRank(f, width, n);
    var h := After(f, width, n);
    RankInjective(f, [d], Numeral(h));
    FreshIsReady(f);
    GeneratorOfRun(f, width, Startup(f, NO_RESUME), n);
    ResumedIs(f, g, n);
    assert Resumed(f, g, n).gen.digits[0] == Numeral(h)[0] == d;
    EndsOfAlphabet(g);
  }

  lemma SingleDigit(f: Flags, d: int, width: nat)
    requires Enabled(f, d) && width > 0
    ensures f.Any() && AllEnabled(f, [d]) && 0 < Rank(f, [d]) <= Total(f, width)
  {
    RankBounds(f, [d]);
    WordCountMonotone(Base(f), 1, width);
  }

  /** A digit of a range of f that g lacks. */
  function MissingDigit(f: Flags, g: Flags): (d: int)
    requires !Covers(g, f)
    ensures Enabled(f, d) && !Enabled(g, d)
  {
    if f.lower && !g.lower then RANGE_LA_LOWER
    else if f.upper && !g.upper then RANGE_UA_LOWER
    else if f.numeric && !g.numeric then RANGE_NUM_LOWER
    else RANGE_NA_LOWER
  }

  ghost predicate AlwaysReturns(f: Flags, g: Flags) {
    forall n: nat :: Returns(Resumed(f, g, n).gen)
  }

  /** A checkpoint taken with ranges f can be resumed under ranges g, wherever the run stood, if and only if g has
      all the ranges of f, or none at all; otherwise there is a position from which next_unit never returns. */
  lemma ResumeReturnsIff(f: Flags, g: Flags, width: nat)
    requires width == MAX_PWD_LEN
    ensures AlwaysReturns(f, g) <==> !g.Any() || Covers(g, f)
  {
    hide Resumed, Covers;
    if g.Any() {
      if Covers(g, f) {
        forall n: nat
          ensures Returns(Resumed(f, g, n).gen)
        {
          MoreRangesAreFine(f, g, n);
        }
      } else {
        var n := MissingRangeHangs(f, g, width, MissingDigit(f, g));
      }
    } else {
      NoRangeReturns(f, g);
    }
  }

  lemma NoRangeReturns(f: Flags, g: Flags)
    requires !g.Any()
    ensures AlwaysReturns(f, g)
  {
    hide AfterCalls;
    forall n: nat
      ensures Returns(Resumed(f, g, n).gen)
    {
      ResumedIs(f, g, n);
    }
  }

  const LOWER_ONLY := Flags(true, false, false, false)
  const UPPER_ONLY := Flags(false, true, false, false)

  /** For one: lower case only, one unit, and then upper case only. */
  lemma EditedRangesHang()
    ensures !Returns(Resumed(LOWER_ONLY, UPPER_ONLY, 1).gen)
  {
    hide AfterCalls, Resumed, Returns;
    ResumedIs(LOWER_ONLY, UPPER_ONLY, 1);
    FirstUnit(LOWER_ONLY, MAX_PWD_LEN);
    HangsAt(Resumed(LOWER_ONLY, UPPER_ONLY, 1).gen);
  }

  lemma FirstUnit(f: Flags, width: nat)
    requires f.lower && width == MAX_PWD_LEN
    ensures Ready(Startup(f, NO_RESUME))
    ensures AfterCalls(Startup(f, NO_RESUME), 1).gen == Fresh(f, width).(digits := [0] + Repeat(BLANK, width - 1), len := 1)
  {
    hide AfterCalls;
    FreshIsReady(f);
    GeneratorOfRun(f, width, Startup(f, NO_RESUME), 1);
    FirstCall(f, width);
  }

  lemma FirstCall(f: Flags, width: nat)
    requires f.lower && width > 0
    ensures After(f, width, 1) == Fresh(f, width).(digits := [0] + Repeat(BLANK, width - 1), len := 1)
  {
    var g := After(f, width, 0);
    assert g == Fresh(f, width);
    EndsOfAlphabet(f);
    assert Carries(f, g.digits) == 0;
    NextStaysWellFormed(g);
    assert After(f, width, 1) == Next(g).0;
    assert Advance(f, g.digits) == [0] + Repeat(BLANK, width - 1);
  }

  lemma HangsAt(g: Gen)
    requires g.flags == UPPER_ONLY && !g.done && g.digits != [] && g.digits[0] == 0
    ensures !Returns(g)
  {
    EndsOfAlphabet(g.flags);
  }

  // ---- the plugin object ----

  class PwdPlugin {
    var generator: PwdNextUnit
    var seqNo: int

    ghost predicate Valid()
      reads this, generator
    {
      generator.Valid()
    }

    ghost function View(): State
      reads this, generator, generator.charIndicies
    {
      State(generator.View(), seqNo)
    }

    /** startup: a new generator with the configured ranges, then the resume document. */
    constructor (lower: bool, upper: bool, numeric: bool, nonAlpha: bool, resume: Resume)
      ensures Valid() && fresh(generator) && fresh(generator.charIndicies) && fresh(generator.testPassword)
      ensures View() == Startup(Flags(lower, upper, numeric, nonAlpha), resume)
    {
      hide Overwrite, Repeat;
      var g := Configured(lower, upper, numeric, nonAlpha);
      RestoreGenerator(g, resume);
      generator := g;
      seqNo := if resume.seqNo.Some? then resume.seqNo.value else 0;
    }

    /** A new generator with the configured ranges. */
    static method Configured(lower: bool, upper: bool, numeric: bool, nonAlpha: bool) returns (g: PwdNextUnit)
      ensures g.Valid() && fresh(g) && fresh(g.charIndicies) && fresh(g.testPassword)
      ensures g.View() == Fresh(Flags(lower, upper, numeric, nonAlpha), MAX_PWD_LEN)
    {
      hide Repeat;
      g := new PwdNextUnit();
      g.SetUseLAlpha(lower);
      g.SetUseUAlpha(upper);
      g.SetUseNumeric(numeric);
      g.SetUseNAlpha(nonAlpha);
    }

    /** startup's three generator keys of the resume document. */
    static method RestoreGenerator(g: PwdNextUnit, resume: Resume)
      requires g.Valid()
      modifies g, g.charIndicies
      ensures g.Valid() && g.charIndicies == old(g.charIndicies) && g.testPassword == old(g.testPassword)
      ensures g.View() == Restored(old(g.View()), resume)
    {
      hide Overwrite, Repeat;
      if resume.charIndicies.Some? {
        RestoreDigits(g, resume.charIndicies.value);
      }
      if resume.testPwdLen.Some? {
        g.testPwdLen := resume.testPwdLen.value;
      }
      if resume.permuteStatus.Some? {
        g.SetPermuteStatus(resume.permuteStatus.value);
      }
    }

    /** The loop of startup that puts the saved digits back, as many as there are up to ten. */
    static method RestoreDigits(g: PwdNextUnit, ci: seq<int>)
      requires g.Valid()
      modifies g.charIndicies
      ensures g.Valid()
      ensures g.View() == old(g.View()).(digits := Overwrite(old(g.View()).digits, ci))
    {
      ghost var row := g.charIndicies[..];
      var i := 0;
      while i < 10 && i < |ci|
        invariant 0 <= i <= 10 && i <= |ci|
        invariant g.charIndicies[..] == Overwrite(row, ci[..i])
      {
        OverwriteNext(row, ci, i);
        g.SetCharIndicies(i, ci[i]);
        i := i + 1;
      }
      if i < |ci| {
        assert Overwrite(row, ci[..i]) == Overwrite(row, ci);
      } else {
        assert ci[..i] == ci;
      }
    }

    /** The job document of next_unit. */
    method Describe() returns (job: Job)
      requires Valid() && 0 <= generator.testPwdLen <= MAX_PWD_LEN
      modifies generator.testPassword
      ensures job == JobOf(Numeral(generator.View()), seqNo)
    {
      hide PwdText.AsText, PwdText.AsIndicies, Spell, CString;
      ghost var ds := Numeral(generator.View());
      var found := generator.GetPlainPassword();
      var password := if found then CString(generator.testPassword[..]) else "";
      var indicies := generator.GetPwdAsIndicies();
      var text := generator.GetPwdAsText();
      assert found <==> forall i :: 0 <= i < |ds| ==> Indexed(ds[i]);
      job := Job(password, indicies, text, seqNo);
    }

    method NextUnit() returns (job: Option<Job>)
      requires Valid() && Returns(generator.View()) && 0 <= generator.testPwdLen <= MAX_PWD_LEN
      modifies this`seqNo, generator, generator.charIndicies, generator.testPassword
      ensures Valid()
      ensures (View(), job) == NextJob(old(View()))
    {
      var ret := generator.SetNext();
      if ret != PERMUTE_SUCCESS { return None; }
      seqNo := Inc32(seqNo);
      var described := Describe();
      job := Some(described);
    }

    method GetCheckpoint() returns (r: Resume)
      requires Valid()
      ensures r == Checkpoint(View())
    {
      var status := generator.GetPermuteStatus();
      var ci := [];
      for i := 0 to MAX_PWD_LEN
        invariant ci == generator.charIndicies[..i]
      {
        ci := ci + [generator.charIndicies[i]];
      }
      assert ci == generator.charIndicies[..];
      r := Resume(Some(ci), Some(generator.testPwdLen), Some(status), Some(seqNo));
    }
  }
}
