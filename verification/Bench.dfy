/** The BENCH plugin, which cuts a file into chunks, and the handler that compares a chunk with its own
    copy of the file. */
module Bench {
  import opened Arithmetic
  import opened Bytes
  import opened Sequences
  import Base64
  import Hash
  import opened Wrappers

  /** The plugin's global state; sizes and offsets are in bytes. */
  datatype Plugin = Plugin(named: bool, chunkSize: int, fileSize: nat, offset: int, seqNo: int)

  /** The job of a work unit. */
  datatype Job = Job(offset: int, chunkSize: int, data: string, hash: string, seqNo: int)

  datatype Outcome = Unit(job: Job) | Exhausted | Throws

  datatype Checkpoint = Checkpoint(offset: int, seqNo: int)

  /** n bytes read at an offset into a buffer of zeros: a seek before the start fails, and a short read
      leaves the rest of the buffer. */
  function ReadAt(content: seq<byte>, offset: int, n: nat): (r: seq<byte>)
    ensures |r| == n
  {
    if offset < 0 || offset >= |content| then seq(n, _ => 0)
    else if offset + n <= |content| then content[offset..offset + n]
    else content[offset..] + seq(n - (|content| - offset), _ => 0)
  }

  /** Byte by byte: the content where there is any, and zero elsewhere; nothing is read before the start. */
  lemma ReadAtIs(content: seq<byte>, offset: int, n: nat, i: nat)
    requires i < n
    ensures ReadAt(content, offset, n)[i] == if 0 <= offset && offset + i < |content| then content[offset + i] else 0
  {
  }

  function ToRead(p: Plugin): int {
    Min(p.chunkSize, p.fileSize - p.offset)
  }

  function Cut(chunk: seq<byte>, offset: int, seqNo: int): Job {
    Job(offset, |chunk|, Base64.Encode(chunk), Hash.Digest(chunk), seqNo)
  }

  /** What next_unit returns, given what opening the source file yields. */
  function Next(p: Plugin, disk: Option<seq<byte>>): (Outcome, Plugin) {
    if !p.named || p.offset >= p.fileSize || disk.None? then (Exhausted, p)
    else if ToRead(p) < 0 then (Throws, p)
    else
      var job := Cut(ReadAt(disk.value, p.offset, ToRead(p)), p.offset, p.seqNo + 1);
      (Unit(job), p.(seqNo := p.seqNo + 1, offset := p.offset + ToRead(p)))
  }

  /** Which of the three next_unit does, for every plugin and file; only a unit changes anything. */
  lemma NextCases(p: Plugin, disk: Option<seq<byte>>)
    ensures var out, q := Next(p, disk).0, Next(p, disk).1;
      && (out.Unit? <==> p.named && p.offset < p.fileSize && disk.Some? && p.chunkSize >= 0)
      && (out.Throws? <==> p.named && p.offset < p.fileSize && disk.Some? && p.chunkSize < 0)
      && (!out.Unit? ==> q == p)
      && (out.Unit? ==> q.seqNo == p.seqNo + 1 == out.job.seqNo && q.offset == p.offset + out.job.chunkSize <= p.fileSize
                        && out.job.chunkSize <= p.chunkSize)
  {
    hide Base64.Encode, Hash.Digest, ReadAt;
  }

  function ExitConditions(p: Plugin): bool {
    p.offset >= p.fileSize
  }

  function Save(p: Plugin): Checkpoint {
    Checkpoint(p.offset, p.seqNo)
  }

  /** startup, from a configuration's chunk size and perhaps a checkpoint. */
  function Startup(chunkSize: int, resume: Option<Checkpoint>): Plugin {
    if resume.None? then Plugin(false, chunkSize, 0, 0, 0)
    else Plugin(false, chunkSize, 0, resume.value.offset, resume.value.seqNo)
  }

  /** set_bench_source_file for a name that is not empty: the size is taken when the file exists. */
  function SetSource(p: Plugin, disk: Option<seq<byte>>): Plugin {
    if disk.None? then p.(named := true) else p.(named := true, fileSize := |disk.value|)
  }

  /** The chunk count set_bench_source_file computes. */
  function TotalChunks(fileSize: nat, chunkSize: int): nat
    requires chunkSize > 0
  {
    (fileSize + chunkSize - 1) / chunkSize
  }

  /** Without a source file, or with one that does not exist, there is never a unit; chunk size and position are those
      of startup. */
  lemma NoSourceNoUnit(chunkSize: int, resume: Option<Checkpoint>, disk: Option<seq<byte>>)
    requires resume.Some? ==> resume.value.offset >= 0
    ensures Next(Startup(chunkSize, resume), disk).0.Exhausted?
    ensures Next(SetSource(Startup(chunkSize, resume), None), disk).0.Exhausted?
    ensures SetSource(Startup(chunkSize, resume), disk).named
  {
    hide Base64.Encode, Hash.Digest, ReadAt;
  }

  // ---- a whole run over an unchanging file ----

  ghost predicate Ready(p: Plugin, content: seq<byte>) {
    p.named && p.chunkSize > 0 && 0 <= p.offset && p.fileSize == |content|
  }

  ghost function After(p: Plugin, content: seq<byte>): Plugin {
    Next(p, Some(content)).1
  }

  /** The jobs of all units still to come. */
  ghost function Jobs(p: Plugin, content: seq<byte>): seq<Job>
    requires Ready(p, content)
    decreases p.fileSize - p.offset
  {
    if ExitConditions(p) then []
    else [Next(p, Some(content)).0.job] + Jobs(After(p, content), content)
  }

  ghost function AfterUnits(p: Plugin, content: seq<byte>, n: nat): Plugin {
    if n == 0 then p else After(AfterUnits(p, content, n - 1), content)
  }

  /** The run ends just where exit_conditions says so, and next_unit is exhausted there for good. */
  lemma ExhaustedIffExit(p: Plugin, content: seq<byte>)
    requires Ready(p, content)
    ensures Next(p, Some(content)).0.Exhausted? <==> ExitConditions(p)
    ensures ExitConditions(p) ==> After(p, content) == p
    ensures !ExitConditions(p) ==> Next(p, Some(content)).0.Unit?
    ensures Ready(After(p, content), content)
  {
    hide Cut, ReadAt;
  }

  /** The chunk of the file a unit stands for. */
  ghost function Chunk(p: Plugin, content: seq<byte>): (c: seq<byte>)
    requires Ready(p, content) && !ExitConditions(p)
  {
    content[p.offset..p.offset + ToRead(p)]
  }

  lemma ReadsChunk(p: Plugin, content: seq<byte>)
    requires Ready(p, content) && !ExitConditions(p)
    ensures ReadAt(content, p.offset, ToRead(p)) == Chunk(p, content) != []
    ensures Next(p, Some(content)).0 == Unit(Cut(Chunk(p, content), p.offset, p.seqNo + 1))
  {
    hide Cut;
  }

  ghost function Decoded(jobs: seq<Job>): seq<byte> {
    if jobs == [] then [] else Base64.Decode(jobs[0].data) + Decoded(jobs[1..])
  }

  /** One step of a run, in the terms the run lemmas need. */
  lemma StepOf(p: Plugin, content: seq<byte>)
    requires Ready(p, content) && !ExitConditions(p)
    ensures var q := After(p, content);
      && Ready(q, content)
      && q == p.(seqNo := p.seqNo + 1, offset := p.offset + ToRead(p))
      && p.offset < q.offset <= p.fileSize
    ensures Next(p, Some(content)).0.Unit?
    ensures var j := Next(p, Some(content)).0.job;
      && j.data == Base64.Encode(Chunk(p, content))
      && j.hash == Hash.Digest(Chunk(p, content))
      && j.offset == p.offset && j.seqNo == p.seqNo + 1 && j.chunkSize == ToRead(p)
  {
    ReadsChunk(p, content);
  }

  lemma JobsUnfold(p: Plugin, content: seq<byte>)
    requires Ready(p, content) && !ExitConditions(p)
    ensures Ready(After(p, content), content)
    ensures Next(p, Some(content)).0.Unit?
    ensures Jobs(p, content) == [Next(p, Some(content)).0.job] + Jobs(After(p, content), content)
  {
    hide Next;
    StepOf(p, content);
  }

  lemma DecodedCons(job: Job, jobs: seq<Job>)
    ensures Decoded([job] + jobs) == Base64.Decode(job.data) + Decoded(jobs)
  {
    assert ([job] + jobs)[1..] == jobs;
  }

  lemma SplitContent(content: seq<byte>, i: int, j: int)
    requires 0 <= i <= j <= |content|
    ensures content[i..j] + content[j..] == content[i..]
    ensures content[|content|..] == []
  {
  }

  /** The decoded data of all units, in order, is the file from the offset on. */
  lemma {:induction false} JobsCoverFile(p: Plugin, content: seq<byte>)
    requires Ready(p, content)
    ensures Decoded(Jobs(p, content)) == if ExitConditions(p) then [] else content[p.offset..]
    decreases p.fileSize - p.offset
  {
    hide Cut, Next, After, Jobs, Base64.Decode, Base64.Encode, Hash.Digest;
    if ExitConditions(p) {
      NoJobs(p, content);
    } else {
      var q := After(p, content);
      StepOf(p, content);
      JobsUnfold(p, content);
      JobsCoverFile(q, content);
      DecodedCons(Next(p, Some(content)).0.job, Jobs(q, content));
      Base64.DecodeEncode(Chunk(p, content));
      SplitContent(content, p.offset, q.offset);
    }
  }

  lemma NoJobs(p: Plugin, content: seq<byte>)
    requires Ready(p, content) && ExitConditions(p)
    ensures Jobs(p, content) == []
  {
  }

  lemma CeilStep(rest: int, chunk: int)
    requires rest > 0 && chunk > 0
    ensures rest <= chunk ==> (rest + chunk - 1) / chunk == 1
    ensures rest > chunk ==> (rest + chunk - 1) / chunk == 1 + (rest - chunk + chunk - 1) / chunk
  {
    DivShift(rest - 1, chunk);
  }

  /** ceil(bytes left / chunk size) units are still to come. */
  lemma {:induction false} CountJobs(p: Plugin, content: seq<byte>)
    requires Ready(p, content)
    ensures |Jobs(p, content)| == if ExitConditions(p) then 0 else TotalChunks(p.fileSize - p.offset, p.chunkSize)
    decreases p.fileSize - p.offset
  {
    hide Next, After, Jobs, Base64.Encode, Hash.Digest;
    if ExitConditions(p) {
      NoJobs(p, content);
    } else {
      StepOf(p, content);
      JobsUnfold(p, content);
      CountJobs(After(p, content), content);
      CeilStep(p.fileSize - p.offset, p.chunkSize);
    }
  }

  /** The units of a run are numbered on from the counter, one chunk size apart. */
  ghost predicate Numbered(jobs: seq<Job>, seqNo: int, offset: int, chunkSize: int) {
    forall i :: 0 <= i < |jobs| ==> jobs[i].seqNo == seqNo + 1 + i && jobs[i].offset == offset + i * chunkSize
  }

  lemma {:induction false} JobsNumbered(p: Plugin, content: seq<byte>)
    requires Ready(p, content)
    ensures Numbered(Jobs(p, content), p.seqNo, p.offset, p.chunkSize)
    decreases p.fileSize - p.offset
  {
    hide Next, After, Jobs, Base64.Encode, Hash.Digest;
    if ExitConditions(p) {
      NoJobs(p, content);
    } else {
      var q := After(p, content);
      StepOf(p, content);
      JobsUnfold(p, content);
      if ExitConditions(q) {
        NoJobs(q, content);
      } else {
        JobsNumbered(q, content);
        NumberedCons(Next(p, Some(content)).0.job, Jobs(q, content), p.seqNo, p.offset, p.chunkSize);
      }
    }
  }

  lemma NumberedCons(job: Job, jobs: seq<Job>, seqNo: int, offset: int, chunkSize: int)
    requires job.seqNo == seqNo + 1 && job.offset == offset
    requires Numbered(jobs, seqNo + 1, offset + chunkSize, chunkSize)
    ensures Numbered([job] + jobs, seqNo, offset, chunkSize)
  {
    var all := [job] + jobs;
    forall i | 0 <= i < |all|
      ensures all[i].seqNo == seqNo + 1 + i && all[i].offset == offset + i * chunkSize
    {
      if i > 0 {
        assert all[i] == jobs[i - 1];
        assert (i - 1) * chunkSize == i * chunkSize - chunkSize;
      }
    }
  }

  /** From a fresh start every byte is handed out once, in total_chunks units numbered from 1. */
  lemma WholeFile(chunkSize: int, content: seq<byte>)
    requires chunkSize > 0
    ensures var p := SetSource(Startup(chunkSize, None), Some(content));
      && Ready(p, content)
      && Decoded(Jobs(p, content)) == content
      && |Jobs(p, content)| == TotalChunks(|content|, chunkSize)
      && Numbered(Jobs(p, content), 0, 0, chunkSize)
  {
    hide Decoded, Jobs, Numbered;
    var p := SetSource(Startup(chunkSize, None), Some(content));
    JobsCoverFile(p, content);
    JobsNumbered(p, content);
    CountJobs(p, content);
    if content == [] {
      DivShift(chunkSize - 1, chunkSize);
    }
  }

  lemma {:induction false} AfterUnitsReady(p: Plugin, content: seq<byte>, n: nat)
    requires Ready(p, content)
    ensures Ready(AfterUnits(p, content, n), content)
  {
    hide Next;
    if n > 0 {
      AfterUnitsReady(p, content, n - 1);
      ExhaustedIffExit(AfterUnits(p, content, n - 1), content);
    }
  }

  lemma {:induction false} AfterUnitsShift(p: Plugin, content: seq<byte>, n: nat)
    ensures AfterUnits(p, content, n + 1) == AfterUnits(After(p, content), content, n)
  {
    hide After;
    if n > 0 {
      AfterUnitsShift(p, content, n - 1);
    }
  }

  /** After n units the units to come are the old ones without the first n. */
  lemma {:induction false} JobsSplit(p: Plugin, content: seq<byte>, n: nat)
    requires Ready(p, content)
    ensures Ready(AfterUnits(p, content, n), content)
    ensures Jobs(AfterUnits(p, content, n), content) == From(Jobs(p, content), n)
    decreases n
  {
    hide Next, After, Jobs;
    AfterUnitsReady(p, content, n);
    if n > 0 {
      AfterUnitsShift(p, content, n - 1);
      ExhaustedIffExit(p, content);
      JobsSplit(After(p, content), content, n - 1);
      if ExitConditions(p) {
        NoJobs(p, content);
      } else {
        JobsUnfold(p, content);
        DropFirst(Next(p, Some(content)).0.job, Jobs(After(p, content), content), n - 1);
      }
    }
  }

  lemma DropFirst(job: Job, jobs: seq<Job>, n: nat)
    ensures From([job] + jobs, n + 1) == From(jobs, n)
  {
  }

  /** Stopping after any n units, and starting a new plugin from the checkpoint with the same chunk size,
      leaves exactly the remaining units, with their offsets and numbers. */
  lemma ResumeContinues(p: Plugin, content: seq<byte>, n: nat)
    requires Ready(p, content)
    ensures var q := SetSource(Startup(p.chunkSize, Some(Save(AfterUnits(p, content, n)))), Some(content));
      Ready(q, content) && Jobs(q, content) == From(Jobs(p, content), n)
  {
    hide Jobs;
    JobsSplit(p, content, n);
    SameSettings(p, content, n);
  }

  lemma {:induction false} SameSettings(p: Plugin, content: seq<byte>, n: nat)
    ensures var q := AfterUnits(p, content, n);
      q.named == p.named && q.chunkSize == p.chunkSize && q.fileSize == p.fileSize
  {
    hide Cut, ReadAt;
    if n > 0 {
      SameSettings(p, content, n - 1);
    }
  }

  /** A chunk size of zero hands out empty units for ever, a negative one throws: neither makes progress. */
  lemma ChunkSizeMustBePositive(p: Plugin, content: seq<byte>)
    requires p.named && p.chunkSize <= 0 && p.offset < p.fileSize
    ensures After(p, content).offset == p.offset
    ensures p.chunkSize < 0 ==> Next(p, Some(content)).0.Throws?
    ensures p.chunkSize == 0 ==> Next(p, Some(content)).0.Unit? && Next(p, Some(content)).0.job.chunkSize == 0
  {
    hide Base64.Encode, Hash.Digest, ReadAt;
  }

  // ---- the handler ----

  /** A JSON number read as a 32-bit int. */
  function AsInt32(v: int): (r: int)
    ensures -0x8000_0000 <= r < 0x8000_0000
  {
    (v + 0x8000_0000) % 0x1_0000_0000 - 0x8000_0000
  }

  datatype Verdict = Success(matches: bool, actualHash: string) | Failure

  /** handle's result, given what opening the consumer's copy yields. */
  function Handle(job: Job, local: Option<seq<byte>>): Verdict {
    var offset, n := AsInt32(job.offset), AsInt32(job.chunkSize);
    if local.None? then Success(false, "")
    else if n < 0 then Failure
    else
      var chunk := ReadAt(local.value, offset, n);
      if chunk == [] then Success(false, "")
      else Success(Hash.Digest(chunk) == job.hash, Hash.Digest(chunk))
  }

  /** When the handler says what: a failure for a negative size of a file that is there, and a match only for a file
      that is there, with bytes read and their digest equal to the job's. */
  lemma VerdictCases(job: Job, local: Option<seq<byte>>)
    ensures var v, n := Handle(job, local), AsInt32(job.chunkSize);
      && (v.Failure? <==> local.Some? && n < 0)
      && (local.None? || n == 0 ==> v == Success(false, ""))
      && (v.Success? && v.matches ==> local.Some? && n > 0 && v.actualHash == job.hash)
  {
    hide Hash.Digest;
  }

  lemma AsInt32Same(v: int)
    requires 0 <= v < 0x8000_0000
    ensures AsInt32(v) == v
  {
  }

  ghost predicate Matches(job: Job, content: seq<byte>) {
    Handle(job, Some(content)) == Success(true, job.hash)
  }

  /** The job's chunk lies in the file, and its size is an int. */
  ghost predicate InFile(job: Job, content: seq<byte>) {
    0 <= job.offset && 0 < job.chunkSize < 0x8000_0000 && job.offset + job.chunkSize <= |content|
  }

  /** The bytes the handler hashes are those of the chunk. */
  ghost predicate ReadRight(job: Job, content: seq<byte>)
    requires InFile(job, content)
  {
    ReadAt(content, AsInt32(job.offset), job.chunkSize) == content[job.offset..job.offset + job.chunkSize]
  }

  /** Below 2^31 the handler reads at the job's own offset. */
  lemma LowOffsetReadRight(job: Job, content: seq<byte>)
    requires InFile(job, content) && job.offset < 0x8000_0000
    ensures ReadRight(job, content)
  {
    AsInt32Same(job.offset);
  }

  /** A file of zeros with a single 1. */
  function OneAt(size: nat, at: int): (content: seq<byte>)
    ensures |content| == size
  {
    seq(size, i => if i == at then 1 else 0)
  }

  /** From 2^31 on the int is another place, or none: a file whose only 1 is at the offset is misread. */
  lemma HighOffsetMisread(job: Job, size: nat)
    requires InFile(job, OneAt(size, job.offset)) && job.offset >= 0x8000_0000
    ensures !ReadRight(job, OneAt(size, job.offset))
  {
    var content := OneAt(size, job.offset);
    var o := AsInt32(job.offset);
    assert o < job.offset;
    assert content[job.offset..job.offset + job.chunkSize][0] == 1;
    assert ReadAt(content, o, job.chunkSize)[0] == 0;
  }

  /** The handler's verdict on a job cut from the chunk: a match if it read the chunk; and if it did not, then a
      match only by two different byte strings with one digest. */
  lemma MatchMeansSameDigest(job: Job, content: seq<byte>)
    requires InFile(job, content)
    ensures Matches(job, content) <==>
            Hash.Digest(ReadAt(content, AsInt32(job.offset), job.chunkSize)) == job.hash
    ensures CarriesDigest(job, content) && ReadRight(job, content) ==> Matches(job, content)
  {
    hide Hash.Digest, ReadAt;
    AsInt32Same(job.chunkSize);
  }

  ghost predicate CarriesDigest(job: Job, content: seq<byte>)
    requires InFile(job, content)
  {
    job.hash == Hash.Digest(content[job.offset..job.offset + job.chunkSize])
  }

  /** What the plugin hands out lies in the file and carries its digest. */
  lemma JobInFile(p: Plugin, content: seq<byte>)
    requires Ready(p, content) && !ExitConditions(p) && p.chunkSize < 0x8000_0000
    ensures Next(p, Some(content)).0.Unit?
    ensures var job := Next(p, Some(content)).0.job;
      && InFile(job, content) && job.offset == p.offset
      && job.hash == Hash.Digest(content[job.offset..job.offset + job.chunkSize])
  {
    hide Next, After, Base64.Encode, Hash.Digest;
    StepOf(p, content);
  }

  /** The unit the plugin hands out next is read right. */
  ghost predicate UnitRight(p: Plugin, content: seq<byte>)
    requires Ready(p, content) && !ExitConditions(p) && p.chunkSize < 0x8000_0000
  {
    JobInFile(p, content);
    ReadRight(Next(p, Some(content)).0.job, content)
  }

  ghost predicate UnitAlwaysRight(p: Plugin)
    requires !ExitConditions(p) && p.chunkSize < 0x8000_0000
  {
    forall content :: Ready(p, content) ==> UnitRight(p, content)
  }

  /** One unit is read right in every file exactly when it starts below 2^31. */
  lemma UnitReadRightIff(p: Plugin)
    requires p.named && 0 < p.chunkSize < 0x8000_0000 && 0 <= p.offset && !ExitConditions(p)
    ensures UnitAlwaysRight(p) <==> p.offset < 0x8000_0000
  {
    hide Next, ReadRight, InFile, OneAt, Base64.Encode, Hash.Digest;
    if p.offset < 0x8000_0000 {
      forall content | Ready(p, content)
        ensures UnitRight(p, content)
      {
        JobInFile(p, content);
        LowOffsetReadRight(Next(p, Some(content)).0.job, content);
      }
    } else {
      var content := OneAt(p.fileSize, p.offset);
      assert Ready(p, content);
      JobInFile(p, content);
      HighOffsetMisread(Next(p, Some(content)).0.job, p.fileSize);
      assert !UnitRight(p, content);
    }
  }

  /** The offset of the last unit still to come. */
  function LastOffset(p: Plugin): int
    requires p.chunkSize > 0 && !ExitConditions(p)
  {
    p.offset + (TotalChunks(p.fileSize - p.offset, p.chunkSize) - 1) * p.chunkSize
  }

  lemma LastOffsetStep(p: Plugin)
    requires p.chunkSize > 0 && !ExitConditions(p)
    ensures p.fileSize - p.offset <= p.chunkSize ==> LastOffset(p) == p.offset
    ensures p.fileSize - p.offset > p.chunkSize ==>
              var q := p.(seqNo := p.seqNo + 1, offset := p.offset + p.chunkSize);
              !ExitConditions(q) && LastOffset(q) == LastOffset(p)
  {
    var rest, k := p.fileSize - p.offset, p.chunkSize;
    CeilStep(rest, k);
    if rest > k {
      var n := TotalChunks(rest - k, k);
      assert TotalChunks(rest, k) == n + 1;
      assert k + (n - 1) * k == n * k;
    }
  }

  ghost predicate AllIn(jobs: seq<Job>, content: seq<byte>) {
    forall i :: 0 <= i < |jobs| ==> InFile(jobs[i], content)
  }

  /** Every unit of a run lies in the file; the last one starts at LastOffset, the others below it. */
  lemma {:induction false} JobOffsets(p: Plugin, content: seq<byte>)
    requires Ready(p, content) && p.chunkSize < 0x8000_0000
    ensures ExitConditions(p) <==> Jobs(p, content) == []
    ensures AllIn(Jobs(p, content), content)
    ensures !ExitConditions(p) ==> Jobs(p, content)[|Jobs(p, content)| - 1].offset == LastOffset(p) >= p.offset
    ensures forall i :: 0 <= i < |Jobs(p, content)| ==> Jobs(p, content)[i].offset <= LastOffset(p)
    decreases p.fileSize - p.offset
  {
    hide Next, After, Jobs, TotalChunks, Base64.Encode, Hash.Digest;
    if ExitConditions(p) {
      NoJobs(p, content);
    } else {
      var q := After(p, content);
      StepOf(p, content);
      JobInFile(p, content);
      JobsUnfold(p, content);
      LastOffsetStep(p);
      JobOffsets(q, content);
    }
  }

  /** The handler reads every chunk of a run right. */
  ghost predicate RunRight(p: Plugin, content: seq<byte>)
    requires Ready(p, content) && p.chunkSize < 0x8000_0000
  {
    JobOffsets(p, content);
    forall i :: 0 <= i < |Jobs(p, content)| ==> ReadRight(Jobs(p, content)[i], content)
  }

  /** And so it does in every file of the plugin's size. */
  ghost predicate AlwaysRight(p: Plugin)
    requires p.chunkSize < 0x8000_0000
  {
    forall content :: Ready(p, content) ==> RunRight(p, content)
  }

  lemma RunRightIfLow(p: Plugin, content: seq<byte>)
    requires Ready(p, content) && p.chunkSize < 0x8000_0000
    requires ExitConditions(p) || LastOffset(p) < 0x8000_0000
    ensures RunRight(p, content)
  {
    hide Jobs, ReadRight, LastOffset, InFile;
    JobOffsets(p, content);
    var jobs := Jobs(p, content);
    forall i | 0 <= i < |jobs|
      ensures ReadRight(jobs[i], content)
    {
      LowOffsetReadRight(jobs[i], content);
    }
  }

  lemma LastUnitMisread(p: Plugin)
    requires p.named && 0 < p.chunkSize < 0x8000_0000 && 0 <= p.offset && !ExitConditions(p)
    requires LastOffset(p) >= 0x8000_0000
    ensures var content := OneAt(p.fileSize, LastOffset(p));
      Ready(p, content) && !RunRight(p, content)
  {
    hide Jobs, ReadRight, LastOffset, InFile, OneAt;
    var content := OneAt(p.fileSize, LastOffset(p));
    assert Ready(p, content);
    JobOffsets(p, content);
    var jobs := Jobs(p, content);
    HighOffsetMisread(jobs[|jobs| - 1], p.fileSize);
  }

  /** The handler reads every chunk of every file right exactly when the last unit starts below 2^31. */
  lemma ReadRightIff(p: Plugin)
    requires p.named && 0 < p.chunkSize < 0x8000_0000 && 0 <= p.offset && !ExitConditions(p)
    ensures AlwaysRight(p) <==> LastOffset(p) < 0x8000_0000
  {
    hide RunRight, LastOffset, OneAt;
    if LastOffset(p) < 0x8000_0000 {
      forall content | Ready(p, content)
        ensures RunRight(p, content)
      {
        RunRightIfLow(p, content);
      }
    } else {
      LastUnitMisread(p);
    }
  }

  /** A consumer with the same file reports a match for every unit, if the last one starts below 2^31. */
  lemma EveryUnitMatches(p: Plugin, content: seq<byte>)
    requires Ready(p, content) && p.chunkSize < 0x8000_0000
    requires ExitConditions(p) || LastOffset(p) < 0x8000_0000
    ensures forall i :: 0 <= i < |Jobs(p, content)| ==> Matches(Jobs(p, content)[i], content)
  {
    hide Jobs, ReadRight, LastOffset, InFile, Matches, Hash.Digest;
    RunRightIfLow(p, content);
    JobOffsets(p, content);
    JobsCarryDigests(p, content);
    var jobs := Jobs(p, content);
    forall i | 0 <= i < |jobs|
      ensures Matches(jobs[i], content)
    {
      MatchMeansSameDigest(jobs[i], content);
    }
  }

  lemma {:induction false} JobsCarryDigests(p: Plugin, content: seq<byte>)
    requires Ready(p, content) && p.chunkSize < 0x8000_0000
    ensures AllIn(Jobs(p, content), content)
    ensures forall i :: 0 <= i < |Jobs(p, content)| ==> CarriesDigest(Jobs(p, content)[i], content)
    decreases p.fileSize - p.offset
  {
    hide Next, After, Jobs, InFile, Base64.Encode, Hash.Digest;
    JobOffsets(p, content);
    if !ExitConditions(p) {
      StepOf(p, content);
      JobInFile(p, content);
      JobsUnfold(p, content);
      JobsCarryDigests(After(p, content), content);
    }
  }

  /** What the handler hashes at any offset: the file from the offset modulo 2^32 on when that is below 2^31, and
      otherwise, where the int is negative, zeros. */
  lemma HandlerReadsWrapped(job: Job, content: seq<byte>)
    requires job.offset >= 0 && 0 < job.chunkSize < 0x8000_0000
    ensures var o, zeros := job.offset % 0x1_0000_0000, seq(job.chunkSize, _ => 0 as byte);
      var bytes := if o < 0x8000_0000 then ReadAt(content, o, job.chunkSize) else zeros;
      Handle(job, Some(content)) == Success(Hash.Digest(bytes) == job.hash, Hash.Digest(bytes))
  {
    hide Hash.Digest;
    AsInt32Same(job.chunkSize);
    AsInt32Wraps(job.offset);
  }

  /** Every number, negative ones too, is cut to the int that agrees with it modulo 2^32. */
  lemma AsInt32Wraps(v: int)
    ensures var o := v % 0x1_0000_0000; AsInt32(v) == if o < 0x8000_0000 then o else o - 0x1_0000_0000
    ensures -0x8000_0000 <= v < 0x8000_0000 ==> AsInt32(v) == v
  {
  }

  // ---- the loops and the plugin's fields ----

  /** A read at an offset into a buffer that the caller filled with zeros. */
  method ReadInto(content: seq<byte>, offset: int, n: nat) returns (buffer: array<byte>)
    ensures fresh(buffer) && buffer[..] == ReadAt(content, offset, n)
  {
    buffer := new byte[n](_ => 0);
    if 0 <= offset < |content| {
      var count := Min(n, |content| - offset);
      forall i | 0 <= i < count {
        buffer[i] := content[offset + i];
      }
    }
  }

  class BenchPlugin {
    var named: bool
    const chunkSize: int
    var fileSize: nat
    var offset: int
    var seqNo: int

    function View(): Plugin
      reads this
    {
      Plugin(named, chunkSize, fileSize, offset, seqNo)
    }

    constructor (chunkSize: int, resume: Option<Checkpoint>)
      ensures View() == Startup(chunkSize, resume)
    {
      this.chunkSize, named, fileSize := chunkSize, false, 0;
      offset := if resume.Some? then resume.value.offset else 0;
      seqNo := if resume.Some? then resume.value.seqNo else 0;
    }

    /** The chunk count divides by the chunk size as soon as the file exists. */
    method SetSourceFile(disk: Option<seq<byte>>)
      requires disk.Some? ==> chunkSize != 0
      modifies this
      ensures View() == SetSource(old(View()), disk)
    {
      named := true;
      if disk.Some? {
        fileSize := |disk.value|;
      }
    }

    method NextUnit(disk: Option<seq<byte>>) returns (outcome: Outcome)
      modifies this
      ensures (outcome, View()) == Next(old(View()), disk)
    {
      hide ReadAt, Base64.Encode, Hash.Digest;
      if !named || offset >= fileSize || disk.None? {
        return Exhausted;
      }
      var remaining := fileSize - offset;
      var toRead := Min(chunkSize, remaining);
      if toRead < 0 {
        return Throws;
      }
      var chunk := ReadInto(disk.value, offset, toRead);
      var text := Base64.Base64Encode(chunk[..]);
      var hash := Hash.Sha256Bytes(chunk[..]);
      seqNo := seqNo + 1;
      outcome := Unit(Job(offset, toRead, text, hash, seqNo));
      offset := offset + toRead;
    }

    method GetCheckpoint() returns (c: Checkpoint)
      ensures c == Save(View())
    {
      c := Checkpoint(offset, seqNo);
    }
  }

  /** The handler: it decodes the data but compares only the hash with that of its own bytes. */
  method HandleWork(job: Job, local: Option<seq<byte>>) returns (verdict: Verdict)
    requires Base64.IsText(job.data)
    ensures verdict == Handle(job, local)
  {
    hide ReadAt, Hash.Digest, AsInt32, Base64.Decode;
    var offset, n := AsInt32(job.offset), AsInt32(job.chunkSize);
    var expected := Base64.Base64Decode(job.data);
    var chunk: seq<byte> := [];
    if local.Some? {
      if n < 0 {
        return Failure;
      }
      var buffer := ReadInto(local.value, offset, n);
      chunk := buffer[..];
    }
    var matches, actual := false, "";
    if chunk != [] {
      actual := Hash.Sha256Bytes(chunk);
      matches := actual == job.hash;
    }
    verdict := Success(matches, actual);
  }
}
