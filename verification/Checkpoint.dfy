/** The two-file checkpoint, with a crash possible after every single write. */
module Checkpoint {
  import opened Wrappers

  /** How a state is written as text and read back. */
  datatype Codec<!S(!new)> = Codec(dump: S -> string, parse: string -> Option<S>) {
    /** Text is never empty, reads back as what was written, and does not read when cut short. */
    ghost predicate Sound() {
      forall s :: WritesCompletely(s)
    }

    ghost predicate WritesCompletely(s: S) {
      && dump(s) != ""
      && parse(dump(s)) == Some(s)
      && forall n :: 0 <= n < |dump(s)| ==> parse(dump(s)[..n]).None?
    }
  }

  /** The contents of the two files; None when a file is missing. */
  datatype Disk = Disk(primary: Option<string>, backup: Option<string>)

  /** Which of the three opens inside save succeed. */
  datatype Opens = Opens(input: bool, backup: bool, primary: bool)

  const ALL_OPEN := Opens(true, true, true)

  function Read<S(!new)>(c: Codec<S>, file: Option<string>): Option<S> {
    if file.Some? then c.parse(file.value) else None
  }

  /** load: the primary if it reads, else the backup. */
  function Load<S(!new)>(c: Codec<S>, d: Disk): Option<S> {
    if Read(c, d.primary).Some? then Read(c, d.primary) else Read(c, d.backup)
  }

  predicate Copies(d: Disk, o: Opens) {
    d.primary.Some? && o.input && o.backup
  }

  /** The disk after a whole save. */
  function Saved(d: Disk, text: string, o: Opens): Disk {
    var backup := if Copies(d, o) then d.primary else d.backup;
    if o.primary then Disk(Some(text), backup) else d.(backup := backup)
  }

  /** The disks that one save passes through, one per character written: the disk it starts from,
      the copy of the primary growing in the backup, then the new text growing in the primary. */
  function CrashPoints(start: Disk, text: string, o: Opens): seq<Disk> {
    [start]
    + (if Copies(start, o) then BackupGrowing(start.primary, start.primary.value) else [])
    + (if o.primary then PrimaryGrowing(text, Saved(start, text, o).backup) else [])
  }

  function BackupGrowing(primary: Option<string>, text: string): seq<Disk> {
    seq(|text| + 1, n requires 0 <= n <= |text| => Disk(primary, Some(text[..n])))
  }

  function PrimaryGrowing(text: string, backup: Option<string>): seq<Disk> {
    seq(|text| + 1, n requires 0 <= n <= |text| => Disk(Some(text[..n]), backup))
  }

  /** A save passes from the disk it finds to the saved one, also when the primary does not open. */
  lemma CrashPointsEnd(start: Disk, text: string, o: Opens)
    ensures var ds := CrashPoints(start, text, o);
      |ds| > 0 && ds[0] == start && ds[|ds| - 1] == Saved(start, text, o)
  {
    assert text[..|text|] == text;
    if Copies(start, o) {
      var copied := start.primary.value;
      assert copied[..|copied|] == copied;
    }
  }

  /** A file changes only when it could be opened, and the backup only when the primary could be read too. */
  lemma UnopenedIsUntouched(start: Disk, text: string, o: Opens, d: Disk)
    requires CrashDisk(start, text, o, d)
    ensures !o.primary ==> d.primary == start.primary
    ensures start.primary.None? || !o.input || !o.backup ==> d.backup == start.backup
  {
    CrashDiskKinds(start, text, o, d);
  }

  /** A crash inside save can leave d. */
  predicate CrashDisk(start: Disk, text: string, o: Opens, d: Disk) {
    d in CrashPoints(start, text, o)
  }

  /** The first n characters of the backup are written. */
  ghost predicate PartialBackup(primary: Option<string>, text: string, n: int, d: Disk) {
    0 <= n <= |text| && d == Disk(primary, Some(text[..n]))
  }

  /** The first n characters of the primary are written. */
  ghost predicate PartialPrimary(backup: Option<string>, text: string, n: int, d: Disk) {
    0 <= n <= |text| && d == Disk(Some(text[..n]), backup)
  }

  lemma CrashDiskKinds(start: Disk, text: string, o: Opens, d: Disk)
    requires CrashDisk(start, text, o, d)
    ensures
      || d == start
      || (Copies(start, o) && exists n :: PartialBackup(start.primary, start.primary.value, n, d))
      || (o.primary && exists n :: PartialPrimary(Saved(start, text, o).backup, text, n, d))
  {
    if Copies(start, o) && d in BackupGrowing(start.primary, start.primary.value) {
      var n :| 0 <= n <= |start.primary.value| && BackupGrowing(start.primary, start.primary.value)[n] == d;
      assert PartialBackup(start.primary, start.primary.value, n, d);
    } else if o.primary && d in PrimaryGrowing(text, Saved(start, text, o).backup) {
      var n :| 0 <= n <= |text| && PrimaryGrowing(text, Saved(start, text, o).backup)[n] == d;
      assert PartialPrimary(Saved(start, text, o).backup, text, n, d);
    }
  }

  /** The first moment of each of the two writes, when the file has just been truncated. */
  lemma TruncatedIsCrashDisk(start: Disk, text: string, o: Opens)
    ensures Copies(start, o) ==> CrashDisk(start, text, o, start.(backup := Some("")))
    ensures o.primary ==> CrashDisk(start, text, o, Disk(Some(""), Saved(start, text, o).backup))
  {
    if Copies(start, o) {
      var growing := BackupGrowing(start.primary, start.primary.value);
      assert start.primary.value[..0] == "" && growing[0] in growing;
    }
    if o.primary {
      var growing := PrimaryGrowing(text, Saved(start, text, o).backup);
      assert text[..0] == "" && growing[0] in growing;
    }
  }

  /** Whatever moment a save of s is cut at, load then gives the state from before or the new one. */
  ghost predicate CrashSafe<S(!new)>(c: Codec<S>, start: Disk, s: S, o: Opens) {
    forall d :: CrashDisk(start, c.dump(s), o, d) ==> Load(c, d) == Load(c, start) || Load(c, d) == Some(s)
  }

  /** No beginning of the text reads as a state other than s. */
  ghost predicate NoBeginningReads<S(!new)>(c: Codec<S>, text: string, s: S) {
    forall n :: 0 <= n <= |text| ==> c.parse(text[..n]).None? || c.parse(text[..n]) == Some(s)
  }

  /** The condition a caller could check before saving. */
  ghost predicate SafeToSave<S(!new)>(c: Codec<S>, start: Disk, s: S, o: Opens) {
    if Copies(start, o) then
      Read(c, start.primary).Some? || (Load(c, start).None? && NoBeginningReads(c, start.primary.value, s))
    else !o.primary || Read(c, start.backup) == Load(c, start) || Read(c, start.backup) == Some(s)
  }

  /** A save is crash safe if and only if the primary it copies is complete, or, when nothing loads, has no
      readable beginning, or, when nothing is copied, the backup already holds one of the two states. */
  lemma CrashSafeIff<S(!new)>(c: Codec<S>, start: Disk, s: S, o: Opens)
    requires c.Sound()
    ensures CrashSafe(c, start, s, o) <==> SafeToSave(c, start, s, o)
  {
    assert c.WritesCompletely(s);
    if SafeToSave(c, start, s, o) {
      forall d | CrashDisk(start, c.dump(s), o, d)
        ensures Load(c, d) == Load(c, start) || Load(c, d) == Some(s)
      {
        SafeCrash(c, start, s, o, d);
      }
    } else {
      var d := UnsafeCrash(c, start, s, o);
      assert CrashDisk(start, c.dump(s), o, d);
    }
  }

  lemma SafeCrash<S(!new)>(c: Codec<S>, start: Disk, s: S, o: Opens, d: Disk)
    requires c.WritesCompletely(s)
    requires SafeToSave(c, start, s, o) && CrashDisk(start, c.dump(s), o, d)
    ensures Load(c, d) == Load(c, start) || Load(c, d) == Some(s)
  {
    var text := c.dump(s);
    CrashDiskKinds(start, text, o, d);
    var backup := Saved(start, text, o).backup;
    if o.primary && exists n :: PartialPrimary(backup, text, n, d) {
      var n :| PartialPrimary(backup, text, n, d);
      if n == |text| {
        assert text[..n] == text;
      }
    } else if d != start {
      var n :| PartialBackup(start.primary, start.primary.value, n, d);
      assert Read(c, d.primary) == Read(c, start.primary);
    }
  }

  lemma UnsafeCrash<S(!new)>(c: Codec<S>, start: Disk, s: S, o: Opens) returns (d: Disk)
    requires c.WritesCompletely(s)
    requires !SafeToSave(c, start, s, o)
    ensures CrashDisk(start, c.dump(s), o, d)
    ensures Load(c, d) != Load(c, start) && Load(c, d) != Some(s)
  {
    TruncatedIsCrashDisk(start, c.dump(s), o);
    assert c.dump(s)[..0] == "";
    if !Copies(start, o) {
      d := Disk(Some(""), Saved(start, c.dump(s), o).backup);
    } else if Load(c, start).Some? {
      d := start.(backup := Some(""));
    } else {
      var text := start.primary.value;
      var n :| 0 <= n <= |text| && !(c.parse(text[..n]).None? || c.parse(text[..n]) == Some(s));
      d := start.(backup := Some(text[..n]));
      CopyPassesThrough(start, c.dump(s), o, n);
    }
  }

  lemma CopyPassesThrough(start: Disk, text: string, o: Opens, n: nat)
    requires Copies(start, o) && n <= |start.primary.value|
    ensures CrashDisk(start, text, o, start.(backup := Some(start.primary.value[..n])))
  {
    var growing := BackupGrowing(start.primary, start.primary.value);
    assert growing[n] == start.(backup := Some(start.primary.value[..n]));
    assert growing[n] in growing;
  }

  /** A save without a primary, such as the first into an empty directory, is crash safe. */
  lemma FirstSaveIsSafe<S(!new)>(c: Codec<S>, start: Disk, s: S, o: Opens)
    requires c.Sound() && start.primary.None?
    ensures CrashSafe(c, start, s, o)
  {
    CrashSafeIff(c, start, s, o);
  }

  /** And so is a save over a primary torn by an earlier crash, when nothing loads, for no beginning of it reads. */
  lemma TornPrimaryIsSafe<S(!new)>(c: Codec<S>, start: Disk, s: S, t: S, n: nat, o: Opens)
    requires c.Sound() && n < |c.dump(t)| && start.primary == Some(c.dump(t)[..n]) && Load(c, start).None?
    ensures CrashSafe(c, start, s, o)
  {
    var text := c.dump(t)[..n];
    assert c.WritesCompletely(t);
    forall m | 0 <= m <= |text|
      ensures c.parse(text[..m]).None?
    {
      assert text[..m] == c.dump(t)[..m];
    }
    CrashSafeIff(c, start, s, o);
  }

  /** With every open succeeding and a complete primary, a save is crash safe. */
  lemma CompletePrimaryIsSafe<S(!new)>(c: Codec<S>, start: Disk, s: S)
    requires c.Sound() && Read(c, start.primary).Some?
    ensures CrashSafe(c, start, s, ALL_OPEN)
  {
    CrashSafeIff(c, start, s, ALL_OPEN);
  }

  /** A crash inside a save of s from start leaves torn, and one inside a save of t from torn leaves
      lost, from which nothing loads. */
  ghost predicate LosesBoth<S(!new)>(c: Codec<S>, start: Disk, s: S, t: S, torn: Disk, lost: Disk) {
    && CrashDisk(start, c.dump(s), ALL_OPEN, torn) && Load(c, torn) == Load(c, start)
    && CrashDisk(torn, c.dump(t), ALL_OPEN, lost) && Load(c, lost).None?
  }

  /** One crash costs nothing, but a second crash, in the first save after it, can lose both files. */
  lemma TwoCrashesCanLoseBoth<S(!new)>(c: Codec<S>, start: Disk, s: S, t: S)
    requires c.Sound() && Read(c, start.primary).Some?
    ensures exists torn, lost :: LosesBoth(c, start, s, t, torn, lost)
  {
    assert c.WritesCompletely(s) && c.dump(s)[..0] == "";
    var torn := Disk(Some(""), start.primary);
    TruncatedIsCrashDisk(start, c.dump(s), ALL_OPEN);
    var lost := Disk(Some(""), Some(""));
    TruncatedIsCrashDisk(torn, c.dump(t), ALL_OPEN);
    assert LosesBoth(c, start, s, t, torn, lost);
  }

  // ---- runs of saves without a crash ----

  ghost function AfterSaves<S(!new)>(c: Codec<S>, start: Disk, states: seq<S>): Disk {
    if states == [] then start
    else Saved(AfterSaves(c, start, states[..|states| - 1]), c.dump(states[|states| - 1]), ALL_OPEN)
  }

  /** After k saves the primary holds the k-th state and, from the second on, the backup the one
      before it; load returns the last. */
  lemma LastTwoStatesKept<S(!new)>(c: Codec<S>, start: Disk, states: seq<S>)
    requires c.Sound() && states != []
    ensures var d, k := AfterSaves(c, start, states), |states|;
      && d.primary == Some(c.dump(states[k - 1]))
      && (k >= 2 ==> d.backup == Some(c.dump(states[k - 2])))
      && Load(c, d) == Some(states[k - 1])
  {
    var k := |states|;
    assert c.WritesCompletely(states[k - 1]);
    if k >= 2 {
      assert states[..k - 1][k - 2] == states[k - 2];
      LastTwoStatesKept(c, start, states[..k - 1]);
    }
  }

  // ---- the manager ----

  class CheckpointManager<!S(!new)> {
    const codec: Codec<S>
    var primary: Option<string>
    var backup: Option<string>
    /** The disk contents since the last save began, one entry per change. */
    ghost var trace: seq<Disk>

    ghost function View(): Disk
      reads this
    {
      Disk(primary, backup)
    }

    constructor (codec: Codec<S>, primary: Option<string>, backup: Option<string>)
      ensures this.codec == codec && View() == Disk(primary, backup)
    {
      this.codec, this.primary, this.backup := codec, primary, backup;
    }

    method WriteBackup(content: string)
      modifies this`backup, this`trace
      ensures backup == Some(content)
      ensures trace == old(trace) + BackupGrowing(primary, content)
    {
      ghost var all := BackupGrowing(primary, content);
      backup := Some("");
      trace := trace + [View()];
      assert content[..0] == "" && all[..1] == [all[0]];
      for i := 0 to |content|
        invariant backup == Some(content[..i])
        invariant trace == old(trace) + all[..i + 1]
      {
        backup := Some(backup.value + [content[i]]);
        trace := trace + [View()];
        assert content[..i + 1] == content[..i] + [content[i]];
        assert all[..i + 2] == all[..i + 1] + [all[i + 1]];
      }
      assert content[..|content|] == content && all[..|content| + 1] == all;
    }

    method WritePrimary(content: string)
      modifies this`primary, this`trace
      ensures primary == Some(content)
      ensures trace == old(trace) + PrimaryGrowing(content, backup)
    {
      ghost var all := PrimaryGrowing(content, backup);
      primary := Some("");
      trace := trace + [View()];
      assert content[..0] == "" && all[..1] == [all[0]];
      for i := 0 to |content|
        invariant primary == Some(content[..i])
        invariant trace == old(trace) + all[..i + 1]
      {
        primary := Some(primary.value + [content[i]]);
        trace := trace + [View()];
        assert content[..i + 1] == content[..i] + [content[i]];
        assert all[..i + 2] == all[..i + 1] + [all[i + 1]];
      }
      assert content[..|content|] == content && all[..|content| + 1] == all;
    }

    /** The disks passed through are exactly the crash points. */
    method Save(state: S, o: Opens)
      modifies this
      ensures View() == Saved(old(View()), codec.dump(state), o)
      ensures trace == CrashPoints(old(View()), codec.dump(state), o)
    {
      trace := [View()];
      var text := codec.dump(state);
      if primary.Some? {
        if o.input {
          if o.backup {
            WriteBackup(primary.value);
          }
        }
      }
      if !o.primary { return; }
      WritePrimary(text);
    }

    method LoadState() returns (r: Option<S>)
      ensures r == Load(codec, View())
    {
      if primary.Some? {
        var j := codec.parse(primary.value);
        if j.Some? { return j; }
      }
      if backup.Some? {
        var j := codec.parse(backup.value);
        if j.Some? { return j; }
      }
      return None;
    }
  }
}
