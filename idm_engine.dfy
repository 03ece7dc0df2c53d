/** idm.py's HttpDownloader as a class whose fields are updated in place.
    The files a transfer owns are fields as well: the resume file (an
    abstract record), the part files by part number, and the output file.
    Workers run one after another instead of in threads, and what the
    network answers is given as parameters. */
module IdmEngine {
  import opened Common
  import opened IdmPlan

  /** A `Content-Length` header: absent, empty (both falsy in Python), not a
      number (int() raises), or a length. */
  datatype HeaderValue = Missing | Blank | Malformed | Number(n: nat)

  /** The answer to the HEAD request: an exception, or the headers that
      matter (`Accept-Ranges` by presence only). */
  datatype HeadReply = Unreachable | Head(contentLength: HeaderValue, acceptRanges: bool)

  class HttpDownloader {
    const url: string
    const filename: string
    var numThreads: Pos
    /** The worker count the parts were planned with; kept across resumes. */
    var originalNumThreads: Pos
    var fileSize: nat
    var downloadedBytes: int
    var partProgress: map<nat, int>
    var errorCount: nat
    var supportsPartial: bool
    var unknownSize: bool
    /** The shutdown event. */
    var shutdown: bool
    // The files of the transfer.
    var resumeFile: Option<StoredResume>
    var partFiles: map<nat, seq<Byte>>
    var outputFile: Option<seq<Byte>>

    /** `__init__` followed by `_init_resume_data`; the disk holds the given
        resume file and part files, and no output file. */
    constructor (url: string, lastPathComponent: string, numThreads: Pos,
                 resumeOnDisk: Option<StoredResume>, partsOnDisk: map<nat, seq<Byte>>)
      ensures this.url == url && filename == CleanFilename(lastPathComponent)
      ensures this.numThreads == numThreads && fileSize == 0 && errorCount == 0
      ensures supportsPartial && !unknownSize && !shutdown && outputFile == None
      ensures resumeOnDisk.None? ==>
                resumeFile == None && partFiles == partsOnDisk && partProgress == map[]
                && downloadedBytes == 0 && originalNumThreads == numThreads
      ensures resumeOnDisk.Some? && !Accepts(resumeOnDisk.value, url, filename) ==>
                resumeFile == None && partFiles == map[] && partProgress == map[]
                && downloadedBytes == 0 && originalNumThreads == numThreads
      ensures resumeOnDisk.Some? && Accepts(resumeOnDisk.value, url, filename) ==>
                resumeFile == resumeOnDisk && partFiles == partsOnDisk
                && partProgress == KeepExisting(resumeOnDisk.value.parts.value, partsOnDisk.Keys)
                && downloadedBytes == Total(partProgress)
                && originalNumThreads == resumeOnDisk.value.originalThreads.GetOr(numThreads)
    {
      this.url := url;
      filename := CleanFilename(lastPathComponent);
      this.numThreads := numThreads;
      originalNumThreads := numThreads;
      fileSize := 0;
      downloadedBytes := 0;
      partProgress := map[];
      errorCount := 0;
      supportsPartial := true;
      unknownSize := false;
      shutdown := false;
      resumeFile := resumeOnDisk;
      partFiles := partsOnDisk;
      outputFile := None;
      new;
      InitResumeData();
    }

    /** `_init_resume_data`: a record that cannot be read or is rejected is
        cleared; an accepted one gives the parts, the byte count and the
        original worker count, and then missing part files are reset. */
    method InitResumeData()
      modifies this`partProgress, this`downloadedBytes, this`originalNumThreads,
               this`resumeFile, this`partFiles
      ensures old(resumeFile).None? ==>
                resumeFile == None && partFiles == old(partFiles) && partProgress == old(partProgress)
                && downloadedBytes == old(downloadedBytes) && originalNumThreads == old(originalNumThreads)
      ensures old(resumeFile).Some? && !Accepts(old(resumeFile).value, url, filename) ==>
                resumeFile == None && partFiles == map[] && partProgress == map[]
                && downloadedBytes == old(downloadedBytes) && originalNumThreads == old(originalNumThreads)
      ensures old(resumeFile).Some? && Accepts(old(resumeFile).value, url, filename) ==>
                resumeFile == old(resumeFile) && partFiles == old(partFiles)
                && partProgress == KeepExisting(old(resumeFile).value.parts.value, partFiles.Keys)
                && downloadedBytes == Total(partProgress)
                && originalNumThreads == old(resumeFile).value.originalThreads.GetOr(numThreads)
    {
      if resumeFile.Some? {
        var rec := resumeFile.value;
        if Accepts(rec, url, filename) {
          partProgress := rec.parts.value;
          downloadedBytes := SumValues(partProgress);
          originalNumThreads := rec.originalThreads.GetOr(numThreads);
          VerifyExistingParts();
        } else {
          ClearResumeData();
        }
      }
    }

    /** `_verify_existing_parts`: parts whose file is missing start again
        from 0; the byte count becomes the new sum. */
    method VerifyExistingParts()
      modifies this`partProgress, this`downloadedBytes
      ensures partProgress == KeepExisting(old(partProgress), partFiles.Keys)
      ensures downloadedBytes == Total(partProgress)
    {
      var keys := partProgress.Keys;
      var rest := keys;
      while rest != {}
        invariant rest <= keys && partProgress.Keys == keys
        invariant forall k :: k in keys && k !in rest ==>
                    partProgress[k] == KeepExisting(old(partProgress), partFiles.Keys)[k]
        invariant forall k :: k in rest ==> partProgress[k] == old(partProgress)[k]
        decreases rest
      {
        var k :| k in rest;
        if k !in partFiles {
          partProgress := partProgress[k := 0];
        }
        rest := rest - {k};
      }
      downloadedBytes := SumValues(partProgress);
    }

    /** `_clear_resume_data`: no resume file, no part files, no progress;
        with nothing on disk and no progress it changes nothing. */
    method ClearResumeData()
      modifies this`resumeFile, this`partProgress, this`partFiles
      ensures resumeFile == None && partProgress == map[] && partFiles == map[]
    {
      resumeFile := None;
      partProgress := map[];
      partFiles := map[];
    }

    /** `_save_resume_data`: nothing is written for a single stream of
        unknown size, or when the write fails (`writable` false); otherwise
        the resume file holds the current snapshot. */
    method SaveResumeData(writable: bool)
      modifies this`resumeFile
      ensures (!supportsPartial && unknownSize) || !writable ==> resumeFile == old(resumeFile)
      ensures !(!supportsPartial && unknownSize) && writable ==>
                resumeFile == Some(Snapshot(url, filename, fileSize, partProgress, originalNumThreads))
    {
      if !supportsPartial && unknownSize {
        return;
      }
      if writable {
        resumeFile := Some(Snapshot(url, filename, fileSize, partProgress, originalNumThreads));
      }
    }

    /** `get_file_size`: the size and the capability flags from the HEAD
        answer; without ranges a single worker is used and any resume state
        is discarded. A failed request or a length that is not a number
        returns false and changes nothing. */
    method GetFileSize(reply: HeadReply) returns (ok: bool)
      modifies this`fileSize, this`unknownSize, this`supportsPartial, this`numThreads,
               this`resumeFile, this`partProgress, this`partFiles
      ensures ok <==> reply.Head? && !reply.contentLength.Malformed?
      ensures !ok ==>
                fileSize == old(fileSize) && unknownSize == old(unknownSize)
                && supportsPartial == old(supportsPartial) && numThreads == old(numThreads)
                && resumeFile == old(resumeFile) && partProgress == old(partProgress)
                && partFiles == old(partFiles)
      ensures ok && reply.contentLength.Number? ==> fileSize == reply.contentLength.n && !unknownSize
      ensures ok && !reply.contentLength.Number? ==> fileSize == 0 && unknownSize
      ensures ok ==> supportsPartial == reply.acceptRanges
      ensures ok && reply.acceptRanges ==>
                numThreads == old(numThreads) && resumeFile == old(resumeFile)
                && partProgress == old(partProgress) && partFiles == old(partFiles)
      ensures ok && !reply.acceptRanges ==> numThreads == 1
      ensures ok && !reply.acceptRanges && (old(partProgress) != map[] || old(resumeFile).Some?) ==>
                resumeFile == None && partProgress == map[] && partFiles == map[]
      ensures ok && !reply.acceptRanges && old(partProgress) == map[] && old(resumeFile).None? ==>
                resumeFile == None && partProgress == map[] && partFiles == old(partFiles)
    {
      if reply.Unreachable? || reply.contentLength.Malformed? {
        return false;
      }
      if reply.contentLength.Number? {
        fileSize := reply.contentLength.n;
        unknownSize := false;
      } else {
        unknownSize := true;
        fileSize := 0;
      }
      if reply.acceptRanges {
        supportsPartial := true;
      } else {
        supportsPartial := false;
        numThreads := 1;
        if partProgress != map[] {
          ClearResumeData();
        }
      }
      if !supportsPartial && resumeFile.Some? {
        ClearResumeData();
      }
      return true;
    }
    /** The part files, the progress of each part and the byte count. */
    function CurrentWork(): Work
      reads this`partFiles, this`partProgress, this`downloadedBytes
    {
      Work(partFiles, partProgress, downloadedBytes)
    }

    /** The inner loop of `download_segment`: the blocks of one response are
        appended to the open part file until the stream ends or the shutdown
        flag is seen before a block. Empty blocks write nothing; each written
        block adds its length to the byte count and sets the part's progress
        to the part file's length. */
    method StreamBody(partId: nat, body: seq<seq<Byte>>, ending: Ending) returns (interrupted: bool)
      requires partId in partFiles
      modifies this`partFiles, this`downloadedBytes, this`partProgress
      ensures interrupted <==> ending.ShutdownAt? && ending.index < |body|
      ensures CurrentWork() == Appended(old(CurrentWork()), partId, true,
                                        Flatten(if interrupted then body[..ending.index] else body))
    {
      ghost var w0 := CurrentWork();
      assert body[..0] == [];
      AppendedNothing(w0, partId);
      var j := 0;
      while j < |body|
        invariant j <= |body|
        invariant ending.ShutdownAt? ==> j <= ending.index
        invariant CurrentWork() == Appended(w0, partId, true, Flatten(body[..j]))
      {
        if ending.ShutdownAt? && ending.index == j {
          return true;
        }
        ghost var done := Flatten(body[..j]);
        assert body[..j + 1] == body[..j] + [body[j]];
        FlattenSnoc(body[..j], body[j]);
        if body[j] != [] {
          ghost var before := CurrentWork();
          partFiles := partFiles[partId := partFiles[partId] + body[j]];
          downloadedBytes := downloadedBytes + |body[j]|;
          partProgress := partProgress[partId := |partFiles[partId]|];
          assert CurrentWork() == Appended(before, partId, true, body[j]);
          AppendedTwice(w0, partId, true, done, true, body[j]);
        } else {
          assert done + body[j] == done;
        }
        j := j + 1;
      }
      assert body[..|body|] == body;
      return false;
    }

    /** One attempt of `download_segment` with the given answer: the part
        file is opened (and created when missing) for a response it streams;
        the step says how the attempt ends, and the flag is set exactly when
        it ends in a pause. */
    method TryAttempt(partId: nat, a: Attempt, writable: bool) returns (step: Step)
      requires !shutdown
      modifies this`partFiles, this`partProgress, this`downloadedBytes, this`shutdown, this`resumeFile
      ensures (CurrentWork(), step) == AttemptOutcome(supportsPartial, partId, a, old(CurrentWork()))
      ensures shutdown == step.Paused?
      ensures resumeFile == (if step == Paused(true) && writable && !(!supportsPartial && unknownSize)
                             then Some(Snapshot(url, filename, fileSize, partProgress, originalNumThreads))
                             else old(resumeFile))
    {
      if a.ShutdownSeen? {
        shutdown := true;
        return Paused(false);
      }
      if a.Raised? || !StatusAccepted(supportsPartial, a.status) {
        return Retry;
      }
      StreamedEffect(supportsPartial, a);
      ghost var w0 := old(CurrentWork());
      if partId !in partFiles {
        partFiles := partFiles[partId := []];
      } else {
        AppendedNothing(w0, partId);
      }
      assert CurrentWork() == Appended(w0, partId, true, []);
      var interrupted := StreamBody(partId, a.body, a.ending);
      ghost var written := Flatten(AttemptEffect(supportsPartial, a).blocks);
      AppendedTwice(w0, partId, true, [], true, written);
      assert [] + written == written;
      assert CurrentWork() == Appended(w0, partId, true, written);
      if interrupted {
        shutdown := true;
        SaveResumeData(writable);
        return Paused(true);
      }
      if a.ending.Dropped? {
        return Retry;
      }
      return Done;
    }

    /** The settings a round of workers reads and never changes. */
    function CurrentSetup(writable: bool): Setup
      reads this`supportsPartial, this`unknownSize, this`fileSize, this`originalNumThreads
    {
      Setup(url, filename, supportsPartial, unknownSize, fileSize, originalNumThreads, writable)
    }

    /** Everything a worker may change. */
    function CurrentSim(): Sim
      reads this`partFiles, this`partProgress, this`downloadedBytes, this`errorCount,
            this`shutdown, this`resumeFile
    {
      Sim(CurrentWork(), errorCount, shutdown, resumeFile)
    }

    /** `download_segment` for one part, with the answers its (at most
        three) attempts meet. Returns the request it sends; the new state is
        the one `WorkerRun` gives. */
    method DownloadSegment(partId: nat, attempts: seq<Attempt>, writable: bool) returns (req: Request)
      modifies this`partFiles, this`partProgress, this`downloadedBytes, this`errorCount,
               this`shutdown, this`resumeFile
      ensures req == SegmentRequest(supportsPartial, fileSize, originalNumThreads, partId, Get(old(partProgress), partId))
      ensures CurrentSim() == WorkerRun(CurrentSetup(writable), partId, attempts, old(CurrentSim()))
    {
      req := SegmentRequest(supportsPartial, fileSize, originalNumThreads, partId, Get(partProgress, partId));
      if req.NoRequest? || shutdown {
        return;
      }
      AttemptsFromAppends(supportsPartial, attempts, partId, 0, CurrentWork());
      RetryAttempts(partId, attempts, writable);
    }

    /** The retry loop of `download_segment`: up to three attempts, stopping
        at the first that does not fail, then one error when all failed. */
    method RetryAttempts(partId: nat, attempts: seq<Attempt>, writable: bool)
      requires !shutdown
      modifies this`partFiles, this`partProgress, this`downloadedBytes, this`errorCount,
               this`shutdown, this`resumeFile
      ensures var r := AttemptsFrom(supportsPartial, attempts, partId, 0, old(CurrentWork()));
              && CurrentWork() == r.0
              && errorCount == old(errorCount) + (if r.1 == Retry then 1 else 0)
              && shutdown == r.1.Paused?
              && resumeFile == (if r.1 == Paused(true) && writable && !(!supportsPartial && unknownSize)
                                then Some(Snapshot(url, filename, fileSize, partProgress, originalNumThreads))
                                else old(resumeFile))
    {
      var sp := supportsPartial;
      ghost var w := CurrentWork();
      ghost var goal := AttemptsFrom(sp, attempts, partId, 0, w);
      var i := 0;
      while i < MaxAttempts
        modifies this`partFiles, this`partProgress, this`downloadedBytes, this`shutdown, this`resumeFile
        invariant i <= MaxAttempts && !shutdown && resumeFile == old(resumeFile)
        invariant CurrentWork() == w
        invariant AttemptsFrom(sp, attempts, partId, i, w) == goal
      {
        var step := TryAttempt(partId, AttemptAt(attempts, i), writable);
        w := AttemptOutcome(sp, partId, AttemptAt(attempts, i), w).0;
        if step != Retry {
          return;
        }
        i := i + 1;
      }
      errorCount := errorCount + 1;
    }

    /** One round of `start_download`: the error count starts at 0 and
        every planned part, in ascending order, gets a worker when its
        progress is below its expected size. */
    method RunRound(answers: map<nat, seq<Attempt>>, writable: bool)
      modifies this`partFiles, this`partProgress, this`downloadedBytes, this`errorCount,
               this`shutdown, this`resumeFile
      ensures CurrentSim() == RoundFrom(CurrentSetup(writable), Ascending(old(partProgress).Keys), answers,
                                        Sim(old(CurrentWork()), 0, old(shutdown), old(resumeFile)))
    {
      errorCount := 0;
      ghost var goal := RoundFrom(CurrentSetup(writable), Ascending(partProgress.Keys), answers, CurrentSim());
      var rest := partProgress.Keys;
      while rest != {}
        invariant RoundFrom(CurrentSetup(writable), Ascending(rest), answers, CurrentSim()) == goal
        decreases rest
      {
        var k := PickMin(rest);
        assert Ascending(rest) == [k] + Ascending(rest - {k});
        if NeedsWorker(supportsPartial, unknownSize, fileSize, originalNumThreads, k, Get(partProgress, k)) {
          var _ := DownloadSegment(k, AnswersFor(answers, k), writable);
        }
        rest := rest - {k};
      }
    }

    /** The first loop of `merge_files`: every planned part's file exists
        and, when the size is known, holds exactly the part's size. */
    method VerifyParts() returns (ok: bool)
      ensures ok == PartsVerified(partProgress, partFiles, supportsPartial, unknownSize, fileSize, originalNumThreads)
    {
      var rest := partProgress.Keys;
      while rest != {}
        invariant rest <= partProgress.Keys
        invariant forall k :: k in partProgress && k !in rest ==>
                    k in partFiles && (unknownSize || |partFiles[k]| == PartSize(supportsPartial, fileSize, originalNumThreads, k))
        decreases rest
      {
        var k := PickMin(rest);
        if k !in partFiles {
          return false;
        }
        if |partFiles[k]| != PartSize(supportsPartial, fileSize, originalNumThreads, k) && !unknownSize {
          return false;
        }
        rest := rest - {k};
      }
      return true;
    }

    /** `merge_files`: when every part passes the check, the output is the
        part files in ascending part order and the resume state is cleared;
        a failed check writes nothing and changes nothing. */
    method MergeFiles() returns (ok: bool)
      modifies this`outputFile, this`resumeFile, this`partProgress, this`partFiles
      ensures ok == PartsVerified(old(partProgress), old(partFiles), supportsPartial, unknownSize, fileSize,
                                  originalNumThreads)
      ensures ok ==> outputFile == Some(Join(old(partFiles), Ascending(old(partProgress).Keys)))
                     && resumeFile == None && partProgress == map[] && partFiles == map[]
      ensures !ok ==> outputFile == old(outputFile) && resumeFile == old(resumeFile)
                      && partProgress == old(partProgress) && partFiles == old(partFiles)
    {
      ok := VerifyParts();
      if !ok {
        return;
      }
      var merged := JoinParts(partFiles, partProgress.Keys);
      outputFile := Some(merged);
      ClearResumeData();
    }

    /** The round loop of `start_download`: at most three rounds run while
        the flag is clear. Returns whether the merge is to be tried: after
        a round that passes the completion test, or when the flag was set
        before the first round. A pause seen after a round, or a third
        round that does not pass the test, ends the transfer with false. */
    method SuperviseRounds(rounds: seq<map<nat, seq<Attempt>>>, writable: bool)
      returns (merge: bool, ghost roundsRun: nat)
      modifies this`partFiles, this`partProgress, this`downloadedBytes, this`errorCount,
               this`shutdown, this`resumeFile
      ensures roundsRun <= GlobalRetries
      ensures merge <==> (old(shutdown) && roundsRun == 0)
                         || (!shutdown && roundsRun >= 1 && ReadyToMerge(errorCount, downloadedBytes, fileSize))
      ensures old(shutdown) ==> merge && roundsRun == 0 && unchanged(this)
      ensures !old(shutdown) && shutdown ==> !merge
      ensures !old(shutdown) ==> (CurrentSim(), merge, roundsRun) == Supervise(CurrentSetup(writable), rounds, 0, old(CurrentSim()))
      ensures partProgress.Keys == old(partProgress).Keys
    {
      roundsRun := 0;
      var globalRetry := GlobalRetries;
      ghost var c := CurrentSetup(writable);
      ghost var goal := Supervise(c, rounds, 0, CurrentSim());
      SuperviseKeepsParts(c, rounds, 0, CurrentSim());
      while globalRetry > 0 && !shutdown
        invariant 0 < globalRetry && roundsRun + globalRetry == GlobalRetries
        invariant shutdown ==> old(shutdown)
        invariant old(shutdown) ==> roundsRun == 0 && unchanged(this)
        invariant !shutdown ==> Supervise(c, rounds, roundsRun, CurrentSim()) == goal
      {
        var stop;
        stop, merge := RoundTurn(c, rounds, GlobalRetries - globalRetry, writable);
        roundsRun := roundsRun + 1;
        if stop {
          return merge, roundsRun;
        }
        globalRetry := globalRetry - 1;
      }
      merge := true;
    }

    /** One turn of the round loop of `start_download`, round `r`: the
        round runs; a pause ends the loop without a merge, passing the
        completion test ends it with one, and so does giving up after the
        third round. */
    method RoundTurn(ghost c: Setup, rounds: seq<map<nat, seq<Attempt>>>, r: nat, writable: bool)
      returns (stop: bool, merge: bool)
      requires c == CurrentSetup(writable) && r < GlobalRetries && !shutdown
      modifies this`partFiles, this`partProgress, this`downloadedBytes, this`errorCount,
               this`shutdown, this`resumeFile
      ensures merge <==> !shutdown && ReadyToMerge(errorCount, downloadedBytes, fileSize)
      ensures stop <==> shutdown || merge || r + 1 == GlobalRetries
      ensures stop ==> Supervise(c, rounds, r, old(CurrentSim())) == (CurrentSim(), merge, r + 1)
      ensures !stop ==> Supervise(c, rounds, r, old(CurrentSim())) == Supervise(c, rounds, r + 1, CurrentSim())
    {
      ghost var before := CurrentSim();
      assert Sim(CurrentWork(), 0, shutdown, resumeFile) == before.(errors := 0);
      RunRound(RoundAnswers(rounds, r), writable);
      SuperviseStep(CurrentSetup(writable), rounds, r, before, CurrentSim());
      if shutdown {
        return true, false;
      }
      if ReadyToMerge(errorCount, downloadedBytes, fileSize) {
        return true, true;
      }
      return r + 1 == GlobalRetries, false;
    }

    /** The first steps of `start_download`: `get_file_size`, then the
        fresh plan when there is no plan. With a size, the state the rounds
        start from is `SizedStart` of the old one; without, nothing
        changes. */
    method PlanTransfer(head: HeadReply) returns (sized: bool)
      modifies this`fileSize, this`unknownSize, this`supportsPartial, this`numThreads,
               this`resumeFile, this`partProgress, this`partFiles
      ensures sized <==> head.Head? && !head.contentLength.Malformed?
      ensures !sized ==> partProgress == old(partProgress) && partFiles == old(partFiles) && resumeFile == old(resumeFile)
      ensures sized ==>
                && supportsPartial == head.acceptRanges
                && CurrentSim() == SizedStart(old(CurrentWork()), errorCount, old(resumeFile), head.acceptRanges,
                                              originalNumThreads).(paused := shutdown)
    {
      sized := GetFileSize(head);
      if !sized {
        return;
      }
      if partProgress == map[] {
        partProgress := FreshPlan(supportsPartial, originalNumThreads);
      }
    }

    /** `start_download` with the HEAD answer and, for each round, the
        answers the workers meet. The size and flags come from the HEAD
        answer (false when it fails); an empty plan becomes the fresh plan;
        then the rounds run and, when they allow it, the merge decides the
        result. Besides the result, the number of rounds run and the plan
        and part files the merge saw are returned as ghost values. */
    method StartDownload(head: HeadReply, rounds: seq<map<nat, seq<Attempt>>>, writable: bool)
      returns (ok: bool, ghost roundsRun: nat, ghost planAtMerge: map<nat, int>, ghost filesAtMerge: map<nat, seq<Byte>>)
      modifies this`fileSize, this`unknownSize, this`supportsPartial, this`numThreads,
               this`resumeFile, this`partProgress, this`partFiles, this`downloadedBytes,
               this`errorCount, this`shutdown, this`outputFile
      ensures !(head.Head? && !head.contentLength.Malformed?) ==> !ok && roundsRun == 0
      ensures roundsRun <= GlobalRetries
      ensures !old(shutdown) && shutdown ==> !ok
      ensures outputFile != old(outputFile) ==> ok
      ensures ok ==> (old(shutdown) && roundsRun == 0) || (roundsRun >= 1 && ReadyToMerge(errorCount, downloadedBytes, fileSize))
      ensures ok ==> PartsVerified(planAtMerge, filesAtMerge, supportsPartial, unknownSize, fileSize, originalNumThreads)
                     && outputFile == Some(Join(filesAtMerge, Ascending(planAtMerge.Keys)))
                     && resumeFile == None && partProgress == map[] && partFiles == map[]
      ensures ok ==> planAtMerge.Keys == (if head.acceptRanges && old(partProgress) != map[] then old(partProgress).Keys
                                          else FreshPlan(head.acceptRanges, originalNumThreads).Keys)
      ensures ok && !unknownSize && (old(partProgress) == map[] || !head.acceptRanges) ==> |outputFile.value| == fileSize
      ensures ok ==>
                var s0 := SizedStart(old(CurrentWork()), old(errorCount), old(resumeFile), head.acceptRanges, originalNumThreads);
                if old(shutdown) then planAtMerge == s0.work.progress && filesAtMerge == s0.work.files
                else
                  var v := Supervise(CurrentSetup(writable), rounds, 0, s0);
                  v.1 && v.2 == roundsRun && v.0.work == Work(filesAtMerge, planAtMerge, downloadedBytes)
    {
      roundsRun := 0;
      planAtMerge := map[];
      filesAtMerge := map[];
      var sized := PlanTransfer(head);
      if !sized {
        return false, roundsRun, planAtMerge, filesAtMerge;
      }
      ghost var s0 := SizedStart(old(CurrentWork()), old(errorCount), old(resumeFile), head.acceptRanges, originalNumThreads);
      ghost var c := CurrentSetup(writable);
      assert CurrentSim() == s0.(paused := shutdown);
      var merge;
      merge, roundsRun := SuperviseRounds(rounds, writable);
      if !merge {
        return false, roundsRun, planAtMerge, filesAtMerge;
      }
      planAtMerge := partProgress;
      filesAtMerge := partFiles;
      assert old(shutdown) ==> planAtMerge == s0.work.progress && filesAtMerge == s0.work.files;
      assert !old(shutdown) ==> var v := Supervise(c, rounds, 0, s0);
                                v.1 && v.2 == roundsRun && v.0.work == Work(filesAtMerge, planAtMerge, downloadedBytes);
      ok := MergeFiles();
      assert CurrentSetup(writable) == c;
      if ok && !unknownSize && planAtMerge.Keys == FreshPlan(supportsPartial, originalNumThreads).Keys {
        PartsVerifiedByKeys(planAtMerge, FreshPlan(supportsPartial, originalNumThreads), filesAtMerge, supportsPartial,
                            unknownSize, fileSize, originalNumThreads);
        VerifiedMergeHasFileSize(filesAtMerge, supportsPartial, fileSize, originalNumThreads);
      }
    }

    /** `pause_download`: the flag is set and the resume file saved. */
    method PauseDownload(writable: bool)
      modifies this`shutdown, this`resumeFile
      ensures shutdown
      ensures resumeFile == (if writable && !(!supportsPartial && unknownSize)
                             then Some(Snapshot(url, filename, fileSize, partProgress, originalNumThreads))
                             else old(resumeFile))
    {
      shutdown := true;
      SaveResumeData(writable);
    }

    /** `resume_download`: the flag is cleared and the transfer started
        again (its result, returned here as a ghost value, is dropped). The
        output is written only after a round that passed the completion
        test; it is then the join of the part files the merge saw, and the
        resume state is gone. */
    method ResumeDownload(head: HeadReply, rounds: seq<map<nat, seq<Attempt>>>, writable: bool)
      returns (ghost ok: bool, ghost planAtMerge: map<nat, int>, ghost filesAtMerge: map<nat, seq<Byte>>)
      modifies this`fileSize, this`unknownSize, this`supportsPartial, this`numThreads,
               this`resumeFile, this`partProgress, this`partFiles, this`downloadedBytes,
               this`errorCount, this`shutdown, this`outputFile
      ensures outputFile != old(outputFile) ==> ok
      ensures ok ==> head.Head? && !head.contentLength.Malformed?
      ensures ok ==>
                && ReadyToMerge(errorCount, downloadedBytes, fileSize)
                && PartsVerified(planAtMerge, filesAtMerge, supportsPartial, unknownSize, fileSize, originalNumThreads)
                && outputFile == Some(Join(filesAtMerge, Ascending(planAtMerge.Keys)))
                && resumeFile == None && partProgress == map[] && partFiles == map[]
      ensures ok ==> planAtMerge.Keys == (if head.acceptRanges && old(partProgress) != map[] then old(partProgress).Keys
                                          else FreshPlan(head.acceptRanges, originalNumThreads).Keys)
      ensures ok && !unknownSize && (old(partProgress) == map[] || !head.acceptRanges) ==> |outputFile.value| == fileSize
      ensures ok ==>
                var v := Supervise(CurrentSetup(writable), rounds, 0,
                                   SizedStart(old(CurrentWork()), old(errorCount), old(resumeFile), head.acceptRanges,
                                              originalNumThreads));
                v.1 && v.0.work == Work(filesAtMerge, planAtMerge, downloadedBytes)
    {
      shutdown := false;
      var result;
      ghost var roundsRun;
      result, roundsRun, planAtMerge, filesAtMerge := StartDownload(head, rounds, writable);
      ok := result;
    }
  }

  /** The second loop of `merge_files`: the files of the parts, read in
      ascending part order and written one after another. */
  method JoinParts(files: map<nat, seq<Byte>>, keys: set<nat>) returns (merged: seq<Byte>)
    ensures merged == Join(files, Ascending(keys))
  {
    merged := [];
    var rest := keys;
    while rest != {}
      invariant merged + Join(files, Ascending(rest)) == Join(files, Ascending(keys))
      decreases rest
    {
      var k := PickMin(rest);
      ghost var tail := Ascending(rest - {k});
      assert Ascending(rest) == [k] + tail;
      JoinCons(files, k, tail);
      var piece := FileOrEmpty(files, k);
      assert merged + (piece + Join(files, tail)) == (merged + piece) + Join(files, tail);
      merged := merged + piece;
      rest := rest - {k};
    }
    assert Ascending(rest) == [];
  }

  lemma JoinCons(files: map<nat, seq<Byte>>, k: nat, tail: seq<nat>)
    ensures Join(files, [k] + tail) == FileOrEmpty(files, k) + Join(files, tail)
  {
    assert ([k] + tail)[1..] == tail;
  }

  /** The work after one attempt for part `p` that meets `a`, and how the
      attempt ends. */
  function AttemptOutcome(supportsPartial: bool, p: nat, a: Attempt, w: Work): (Work, Step) {
    var e := AttemptEffect(supportsPartial, a);
    (Appended(w, p, e.opens, Flatten(e.blocks)), e.step)
  }

  /** The work and the final step of attempts i, i+1, ... of one worker,
      starting from `w`. */
  ghost function AttemptsFrom(supportsPartial: bool, attempts: seq<Attempt>, p: nat, i: nat, w: Work): (Work, Step)
    decreases MaxAttempts - i
  {
    if i >= MaxAttempts then (w, Retry)
    else
      var r := AttemptOutcome(supportsPartial, p, AttemptAt(attempts, i), w);
      if r.1 == Retry then AttemptsFrom(supportsPartial, attempts, p, i + 1, r.0) else r
  }

  /** Running the remaining attempts appends all they write to the part at once. */
  lemma {:induction false} AttemptsFromAppends(supportsPartial: bool, attempts: seq<Attempt>, p: nat, i: nat, w: Work)
    ensures AttemptsFrom(supportsPartial, attempts, p, i, w)
            == (Appended(w, p, SegmentOpens(supportsPartial, attempts, i), SegmentData(supportsPartial, attempts, i)),
                SegmentEnd(supportsPartial, attempts, i))
    decreases MaxAttempts - i
  {
    if i >= MaxAttempts {
      AppendedNone(w, p);
    } else {
      var e := AttemptEffect(supportsPartial, AttemptAt(attempts, i));
      var d := Flatten(e.blocks);
      var o := e.opens;
      assert !o ==> d == [];
      if e.step == Retry {
        var w' := Appended(w, p, o, d);
        AttemptsFromAppends(supportsPartial, attempts, p, i + 1, w');
        assert !SegmentOpens(supportsPartial, attempts, i + 1) ==> SegmentData(supportsPartial, attempts, i + 1) == [] by {
          SegmentNoOpenNoData(supportsPartial, attempts, i + 1);
        }
        AppendedTwice(w, p, o, d, SegmentOpens(supportsPartial, attempts, i + 1), SegmentData(supportsPartial, attempts, i + 1));
      } else {
        assert SegmentData(supportsPartial, attempts, i) == d + [];
        assert d + [] == d;
      }
    }
  }

  /** What a worker changes besides the flag and the resume file: the part
      files, the progress of each part and the byte count. */
  datatype Work = Work(files: map<nat, seq<Byte>>, progress: map<nat, int>, downloaded: int)

  /** The work after a worker appended `data` to part `p`'s file, which it
      opened (creating it when missing) if `opens`: the byte count grows by
      |data| and, when anything was written, the part's progress becomes the
      length of its file. */
  function Appended(w: Work, p: nat, opens: bool, data: seq<Byte>): Work {
    var base := FileOrEmpty(w.files, p);
    Work(if opens then w.files[p := base + data] else w.files,
         if |data| > 0 then w.progress[p := |base| + |data|] else w.progress,
         w.downloaded + |data|)
  }

  /** `Appended` with the progress update of idm.py:277 as written: the
      position at which the part file was opened (its length then) plus
      the position after the write. The model runs `Appended`, the
      corrected update. */
  function AppendedAsWritten(w: Work, p: nat, opens: bool, data: seq<Byte>): Work {
    var base := FileOrEmpty(w.files, p);
    Work(if opens then w.files[p := base + data] else w.files,
         if |data| > 0 then w.progress[p := ProgressAsWritten(|base|, |base| + |data|)] else w.progress,
         w.downloaded + |data|)
  }

  /** A part resumed with bytes already in its file: both updates write the
      same file, but with the update as written the part's next request
      starts past the end of its file, skipping as many bytes as the file
      held before, while the corrected update asks for the byte right after
      the file's end. */
  lemma AsWrittenResumeSkipsBytes(w: Work, p: nat, data: seq<Byte>, fileSize: nat, threads: Pos)
    requires p in w.files && |w.files[p]| > 0 && |data| > 0
    ensures var bad := AppendedAsWritten(w, p, true, data);
            var good := Appended(w, p, true, data);
            && bad.files == good.files && bad.downloaded == good.downloaded
            && SegmentRequest(true, fileSize, threads, p, Get(bad.progress, p)).first
               == PartStart(fileSize, threads, p) + |good.files[p]| + |w.files[p]|
            && SegmentRequest(true, fileSize, threads, p, Get(good.progress, p)).first
               == PartStart(fileSize, threads, p) + |good.files[p]|
  {
    AsWrittenDoubleCountsExistingBytes(|w.files[p]|, |data|);
  }

  /** A worker that opens nothing and writes nothing changes nothing. */
  lemma AppendedNone(w: Work, p: nat)
    ensures Appended(w, p, false, []) == w
  {
  }

  /** Opening an existing part file without writing changes nothing. */
  lemma AppendedNothing(w: Work, p: nat)
    requires p in w.files
    ensures Appended(w, p, true, []) == w
  {
    assert w.files[p] + [] == w.files[p];
    assert w.files[p := w.files[p]] == w.files;
  }

  /** Two appends by the same worker are one append of both pieces. */
  lemma AppendedTwice(w: Work, p: nat, o1: bool, d1: seq<Byte>, o2: bool, d2: seq<Byte>)
    requires !o1 ==> d1 == []
    requires !o2 ==> d2 == []
    ensures Appended(Appended(w, p, o1, d1), p, o2, d2) == Appended(w, p, o1 || o2, d1 + d2)
  {
    var base := FileOrEmpty(w.files, p);
    if !o1 {
      assert d1 + d2 == d2;
    } else if o2 {
      assert base + d1 + d2 == base + (d1 + d2);
    } else {
      assert d1 + d2 == d1;
    }
  }

  /** The content of part file `p`, empty when it does not exist. */
  function FileOrEmpty(files: map<nat, seq<Byte>>, p: nat): (r: seq<Byte>)
    ensures p in files ==> r == files[p]
    ensures p !in files ==> r == []
  {
    if p in files then files[p] else []
  }

  // ---------------------------------------------------------------------------
  // A round of workers (idm.py:243-318, idm.py:380-392)

  /** What the workers of a round read: the names, the capability flags,
      the size, the planned worker count, and whether writing the resume
      file succeeds. */
  datatype Setup = Setup(url: string, filename: string, supportsPartial: bool, unknownSize: bool,
                         fileSize: nat, threads: Pos, writable: bool)

  /** What the workers of a round change: the work, the error count, the
      shutdown flag and the resume file. */
  datatype Sim = Sim(work: Work, errors: nat, paused: bool, saved: Option<StoredResume>)

  /** One `download_segment` run for part `p` meeting `attempts`: nothing
      happens when the flag is already set or the part sends no request;
      otherwise the part file grows by what the attempts write, an
      exhausted part adds one error, and a pause sets the flag (after saving
      the resume file when it streamed). */
  ghost function WorkerRun(c: Setup, p: nat, attempts: seq<Attempt>, s: Sim): Sim {
    if s.paused then s
    else if SegmentRequest(c.supportsPartial, c.fileSize, c.threads, p, Get(s.work.progress, p)).NoRequest? then s
    else
      var end := SegmentEnd(c.supportsPartial, attempts, 0);
      var w := Appended(s.work, p, SegmentOpens(c.supportsPartial, attempts, 0), SegmentData(c.supportsPartial, attempts, 0));
      Sim(w, s.errors + (if end == Retry then 1 else 0), end.Paused?,
          if end == Paused(true) && c.writable && !(!c.supportsPartial && c.unknownSize)
          then Some(Snapshot(c.url, c.filename, c.fileSize, w.progress, c.threads))
          else s.saved)
  }

  /** The answers part `k`'s attempts meet in a round; a part without
      answers meets only failures. */
  function AnswersFor(answers: map<nat, seq<Attempt>>, k: nat): seq<Attempt> {
    if k in answers then answers[k] else []
  }

  /** The answers of round `r`; a round without answers meets only failures. */
  function RoundAnswers(rounds: seq<map<nat, seq<Attempt>>>, r: nat): map<nat, seq<Attempt>> {
    if r < |rounds| then rounds[r] else map[]
  }

  /** The workers of one round over the parts `ks`, in that order: a part
      gets a worker only while its progress is below its expected size. */
  ghost function RoundFrom(c: Setup, ks: seq<nat>, answers: map<nat, seq<Attempt>>, s: Sim): Sim
  {
    if ks == [] then s
    else
      var k := ks[0];
      var s' := if NeedsWorker(c.supportsPartial, c.unknownSize, c.fileSize, c.threads, k, Get(s.work.progress, k))
                then WorkerRun(c, k, AnswersFor(answers, k), s) else s;
      RoundFrom(c, ks[1..], answers, s')
  }

  /** A worker adds one error exactly when it runs (the flag is clear and
      the part sends a request) and all three of its attempts fail; it
      never adds more. */
  lemma WorkerErrorsIff(c: Setup, p: nat, attempts: seq<Attempt>, s: Sim)
    ensures var s' := WorkerRun(c, p, attempts, s);
            && (s'.errors == s.errors || s'.errors == s.errors + 1)
            && (s'.errors == s.errors + 1 <==>
                  && !s.paused
                  && !SegmentRequest(c.supportsPartial, c.fileSize, c.threads, p, Get(s.work.progress, p)).NoRequest?
                  && forall j :: 0 <= j < MaxAttempts ==> AttemptEffect(c.supportsPartial, AttemptAt(attempts, j)).step == Retry)
  {
    SegmentExhaustedIff(c.supportsPartial, attempts, 0);
  }

  /** A worker changes no other part's file or progress, and keeps the set
      of planned parts when its own part is planned. */
  lemma WorkerTouchesOnlyItsPart(c: Setup, p: nat, attempts: seq<Attempt>, s: Sim, q: nat)
    requires q != p
    ensures var s' := WorkerRun(c, p, attempts, s);
            && (q in s'.work.files <==> q in s.work.files)
            && FileOrEmpty(s'.work.files, q) == FileOrEmpty(s.work.files, q)
            && Get(s'.work.progress, q) == Get(s.work.progress, q)
            && (p in s.work.progress ==> s'.work.progress.Keys == s.work.progress.Keys)
  {
  }

  /** The byte count grows by exactly what the worker's part file grows by,
      and that part's progress, when it changes, is its file's length. */
  lemma WorkerCountsItsBytes(c: Setup, p: nat, attempts: seq<Attempt>, s: Sim)
    ensures var s' := WorkerRun(c, p, attempts, s);
            && s'.work.downloaded - s.work.downloaded
               == |FileOrEmpty(s'.work.files, p)| - |FileOrEmpty(s.work.files, p)|
            && (Get(s'.work.progress, p) != Get(s.work.progress, p) ==>
                  Get(s'.work.progress, p) == |FileOrEmpty(s'.work.files, p)|)
  {
    var s' := WorkerRun(c, p, attempts, s);
    if !s.paused && !SegmentRequest(c.supportsPartial, c.fileSize, c.threads, p, Get(s.work.progress, p)).NoRequest? {
      SegmentNoOpenNoData(c.supportsPartial, attempts, 0);
    }
  }

  /** A round over parts that do not include `q` leaves `q` alone. */
  lemma {:induction false} RoundLeavesOthers(c: Setup, ks: seq<nat>, answers: map<nat, seq<Attempt>>, s: Sim, q: nat)
    requires forall i :: 0 <= i < |ks| ==> ks[i] != q
    ensures var s' := RoundFrom(c, ks, answers, s);
            && FileOrEmpty(s'.work.files, q) == FileOrEmpty(s.work.files, q)
            && Get(s'.work.progress, q) == Get(s.work.progress, q)
  {
    if ks != [] {
      var k := ks[0];
      WorkerTouchesOnlyItsPart(c, k, AnswersFor(answers, k), s, q);
      var s' := if NeedsWorker(c.supportsPartial, c.unknownSize, c.fileSize, c.threads, k, Get(s.work.progress, k))
                then WorkerRun(c, k, AnswersFor(answers, k), s) else s;
      RoundLeavesOthers(c, ks[1..], answers, s', q);
    }
  }

  /** A part whose progress already reaches its expected size gets no
      worker: its file and its progress are the same after the round. */
  lemma {:induction false} RoundSkipsCompleteParts(c: Setup, ks: seq<nat>, answers: map<nat, seq<Attempt>>, s: Sim, k: nat)
    requires forall i, j :: 0 <= i < j < |ks| ==> ks[i] < ks[j]
    requires !NeedsWorker(c.supportsPartial, c.unknownSize, c.fileSize, c.threads, k, Get(s.work.progress, k))
    ensures var s' := RoundFrom(c, ks, answers, s);
            && FileOrEmpty(s'.work.files, k) == FileOrEmpty(s.work.files, k)
            && Get(s'.work.progress, k) == Get(s.work.progress, k)
  {
    if ks != [] {
      var h := ks[0];
      if h == k {
        RoundLeavesOthers(c, ks[1..], answers, s, k);
      } else {
        WorkerTouchesOnlyItsPart(c, h, AnswersFor(answers, h), s, k);
        var s' := if NeedsWorker(c.supportsPartial, c.unknownSize, c.fileSize, c.threads, h, Get(s.work.progress, h))
                  then WorkerRun(c, h, AnswersFor(answers, h), s) else s;
        RoundSkipsCompleteParts(c, ks[1..], answers, s', k);
      }
    }
  }

  /** A round adds at most one error per part, and none when no part's
      attempts all fail. */
  lemma {:induction false} RoundErrors(c: Setup, ks: seq<nat>, answers: map<nat, seq<Attempt>>, s: Sim)
    ensures s.errors <= RoundFrom(c, ks, answers, s).errors <= s.errors + |ks|
    ensures (forall i :: 0 <= i < |ks| ==> SegmentEnd(c.supportsPartial, AnswersFor(answers, ks[i]), 0) != Retry) ==>
              RoundFrom(c, ks, answers, s).errors == s.errors
  {
    if ks != [] {
      var k := ks[0];
      var s' := if NeedsWorker(c.supportsPartial, c.unknownSize, c.fileSize, c.threads, k, Get(s.work.progress, k))
                then WorkerRun(c, k, AnswersFor(answers, k), s) else s;
      WorkerErrorsIff(c, k, AnswersFor(answers, k), s);
      RoundErrors(c, ks[1..], answers, s');
      if forall i :: 0 <= i < |ks| ==> SegmentEnd(c.supportsPartial, AnswersFor(answers, ks[i]), 0) != Retry {
        assert forall i :: 0 <= i < |ks[1..]| ==> ks[1..][i] == ks[i + 1];
      }
    }
  }

  /** A round over planned parts keeps the set of planned parts. */
  lemma {:induction false} RoundKeepsParts(c: Setup, ks: seq<nat>, answers: map<nat, seq<Attempt>>, s: Sim)
    requires forall i :: 0 <= i < |ks| ==> ks[i] in s.work.progress
    ensures RoundFrom(c, ks, answers, s).work.progress.Keys == s.work.progress.Keys
  {
    if ks != [] {
      var k := ks[0];
      WorkerTouchesOnlyItsPart(c, k, AnswersFor(answers, k), s, k + 1);
      var s' := if NeedsWorker(c.supportsPartial, c.unknownSize, c.fileSize, c.threads, k, Get(s.work.progress, k))
                then WorkerRun(c, k, AnswersFor(answers, k), s) else s;
      RoundKeepsParts(c, ks[1..], answers, s');
    }
  }

  // ---------------------------------------------------------------------------
  // The round loop (idm.py:380-404)

  /** The round loop of `start_download` from round `r` with the flag clear
      in `s`: the round runs with the error count reset; a pause ends the
      loop without a merge, a round that passes the completion test ends
      it with one, and after the third round the loop gives up. Gives the
      state after the last round, whether the merge is tried and how many
      rounds ran. */
  ghost function Supervise(c: Setup, rounds: seq<map<nat, seq<Attempt>>>, r: nat, s: Sim): (Sim, bool, nat)
    decreases GlobalRetries - r
  {
    var s' := RoundFrom(c, Ascending(s.work.progress.Keys), RoundAnswers(rounds, r), s.(errors := 0));
    if s'.paused then (s', false, r + 1)
    else if ReadyToMerge(s'.errors, s'.work.downloaded, c.fileSize) then (s', true, r + 1)
    else if r + 1 >= GlobalRetries then (s', false, r + 1)
    else Supervise(c, rounds, r + 1, s')
  }

  /** One turn of the round loop: the round from `s` gives `s'`, after
      which the loop stops or goes on with round r+1 from `s'`. */
  lemma SuperviseStep(c: Setup, rounds: seq<map<nat, seq<Attempt>>>, r: nat, s: Sim, s': Sim)
    requires s' == RoundFrom(c, Ascending(s.work.progress.Keys), RoundAnswers(rounds, r), s.(errors := 0))
    ensures s'.paused ==> Supervise(c, rounds, r, s) == (s', false, r + 1)
    ensures !s'.paused && ReadyToMerge(s'.errors, s'.work.downloaded, c.fileSize) ==> Supervise(c, rounds, r, s) == (s', true, r + 1)
    ensures !s'.paused && !ReadyToMerge(s'.errors, s'.work.downloaded, c.fileSize) ==>
              Supervise(c, rounds, r, s) == if r + 1 >= GlobalRetries then (s', false, r + 1) else Supervise(c, rounds, r + 1, s')
  {
  }

  /** A round over the planned parts keeps the set of planned parts. */
  lemma RoundOfPlanKeepsParts(c: Setup, answers: map<nat, seq<Attempt>>, s: Sim)
    ensures RoundFrom(c, Ascending(s.work.progress.Keys), answers, s).work.progress.Keys == s.work.progress.Keys
  {
    AscendingIsSortedEnumeration(s.work.progress.Keys);
    RoundKeepsParts(c, Ascending(s.work.progress.Keys), answers, s);
  }

  /** The rounds keep the set of planned parts, run at least one round
      and at most the three of the loop, and try the merge only when the
      last round passed the completion test. */
  lemma {:induction false} SuperviseKeepsParts(c: Setup, rounds: seq<map<nat, seq<Attempt>>>, r: nat, s: Sim)
    requires r < GlobalRetries
    ensures var v := Supervise(c, rounds, r, s);
            && v.0.work.progress.Keys == s.work.progress.Keys
            && r < v.2 <= GlobalRetries
            && (v.1 ==> !v.0.paused && ReadyToMerge(v.0.errors, v.0.work.downloaded, c.fileSize))
    decreases GlobalRetries - r
  {
    var s' := RoundFrom(c, Ascending(s.work.progress.Keys), RoundAnswers(rounds, r), s.(errors := 0));
    RoundOfPlanKeepsParts(c, RoundAnswers(rounds, r), s.(errors := 0));
    SuperviseStep(c, rounds, r, s, s');
    if !s'.paused && !ReadyToMerge(s'.errors, s'.work.downloaded, c.fileSize) && r + 1 < GlobalRetries {
      SuperviseKeepsParts(c, rounds, r + 1, s');
    }
  }

  /** The state `start_download` hands to the rounds after a HEAD answer
      that gives a size: with ranges the plan is kept, otherwise any
      resume state is discarded; an empty plan becomes the fresh plan. */
  function SizedStart(w: Work, errors: nat, saved: Option<StoredResume>, acceptRanges: bool, threads: Pos): Sim {
    var cleared := !acceptRanges && (w.progress != map[] || saved.Some?);
    var plan := if acceptRanges && w.progress != map[] then w.progress else FreshPlan(acceptRanges, threads);
    Sim(Work(if cleared then map[] else w.files, plan, w.downloaded), errors, false, if acceptRanges then saved else None)
  }
}
