/** The pure bookkeeping of idm.py's HttpDownloader: the cleaned file name,
    the partition of the file into parts, the byte range each worker asks
    for, the resume record and its validation, what one segment's attempts
    amount to, and the check that precedes the merge. */
module IdmPlan {
  import opened Common

  // ---------------------------------------------------------------------------
  // File name (idm.py:63-67)

  predicate IsAsciiAlnum(c: char) {
    ('a' <= c <= 'z') || ('A' <= c <= 'Z') || ('0' <= c <= '9')
  }

  /** The characters `_clean_filename` keeps. */
  predicate Allowed(c: char) {
    IsAsciiAlnum(c) || c == '.' || c == '-' || c == '_'
  }

  predicate AllAllowed(s: string) {
    forall i :: 0 <= i < |s| ==> Allowed(s[i])
  }

  /** The allowed characters of `name`, in their original order. */
  function KeepAllowed(name: string): (r: string)
    ensures AllAllowed(r) && |r| <= |name|
    ensures AllAllowed(name) ==> r == name
  {
    if name == [] then []
    else (if Allowed(name[0]) then [name[0]] else []) + KeepAllowed(name[1..])
  }

  const MaxNameLength: nat := 255
  const FallbackName: string := "download"

  /** `_clean_filename`, given the last component of the URL's path. */
  function CleanFilename(lastComponent: string): (r: string)
    ensures 0 < |r| <= MaxNameLength
    ensures AllAllowed(r)
  {
    var kept := KeepAllowed(lastComponent);
    var cut := if |kept| <= MaxNameLength then kept else kept[..MaxNameLength];
    if cut == [] then FallbackName else cut
  }

  /** Nothing is kept exactly when no character of the name is allowed. */
  lemma {:induction false} KeepAllowedEmptyIff(name: string)
    ensures KeepAllowed(name) == [] <==> forall i :: 0 <= i < |name| ==> !Allowed(name[i])
  {
    if name != [] {
      KeepAllowedEmptyIff(name[1..]);
      assert forall i :: 1 <= i < |name| ==> name[i] == name[1..][i - 1];
    }
  }

  /** The fallback name is used exactly when the name has no allowed
      character; otherwise the result is the first kept characters. */
  lemma CleanFilenameCases(lastComponent: string)
    ensures (forall i :: 0 <= i < |lastComponent| ==> !Allowed(lastComponent[i]))
              ==> CleanFilename(lastComponent) == FallbackName
    ensures (exists i :: 0 <= i < |lastComponent| && Allowed(lastComponent[i]))
              ==> CleanFilename(lastComponent) <= KeepAllowed(lastComponent)
    ensures (|KeepAllowed(lastComponent)| <= MaxNameLength && KeepAllowed(lastComponent) != [])
              ==> CleanFilename(lastComponent) == KeepAllowed(lastComponent)
  {
    KeepAllowedEmptyIff(lastComponent);
  }

  /** A name that is already clean is left as it is, so cleaning is idempotent. */
  lemma CleanFilenameIdempotent(lastComponent: string)
    ensures (AllAllowed(lastComponent) && 0 < |lastComponent| <= MaxNameLength)
              ==> CleanFilename(lastComponent) == lastComponent
    ensures CleanFilename(CleanFilename(lastComponent)) == CleanFilename(lastComponent)
  {
  }

  // ---------------------------------------------------------------------------
  // Parts (idm.py:212-219)

  /** The size of every part but the last. */
  function ChunkSize(fileSize: nat, threads: Pos): nat {
    fileSize / threads
  }

  /** The first byte of a part when ranges are supported. */
  function PartStart(fileSize: nat, threads: Pos, partId: nat): nat {
    partId * ChunkSize(fileSize, threads)
  }

  /** `_calculate_part_size`; `threads` is the original worker count. */
  function PartSize(supportsPartial: bool, fileSize: nat, threads: Pos, partId: nat): int {
    if !supportsPartial then fileSize
    else if partId == threads - 1 then fileSize - ChunkSize(fileSize, threads) * (threads - 1)
    else ChunkSize(fileSize, threads)
  }

  /** Sum of the part sizes of the listed parts. */
  function SumPartSizes(supportsPartial: bool, fileSize: nat, threads: Pos, ks: seq<nat>): int {
    if ks == [] then 0
    else PartSize(supportsPartial, fileSize, threads, ks[0]) + SumPartSizes(supportsPartial, fileSize, threads, ks[1..])
  }

  /** The last part gets the floor size plus the remainder: it is never
      smaller than the others and exceeds them by less than `threads`. */
  lemma LastPartAbsorbsRemainder(fileSize: nat, threads: Pos)
    ensures PartSize(true, fileSize, threads, threads - 1)
              == ChunkSize(fileSize, threads) + fileSize % threads
    ensures ChunkSize(fileSize, threads) <= PartSize(true, fileSize, threads, threads - 1)
              < ChunkSize(fileSize, threads) + threads
  {
    var c := ChunkSize(fileSize, threads);
    assert fileSize == c * threads + fileSize % threads;
    assert c * (threads - 1) == c * threads - c;
  }

  lemma {:induction false} SumPartSizesTail(fileSize: nat, threads: Pos, k: nat)
    requires k <= threads - 1
    ensures SumPartSizes(true, fileSize, threads, Interval(k, threads))
              == (threads - 1 - k) * ChunkSize(fileSize, threads) + PartSize(true, fileSize, threads, threads - 1)
    decreases threads - k
  {
    var c := ChunkSize(fileSize, threads);
    var iv := Interval(k, threads);
    assert iv == [k] + Interval(k + 1, threads);
    assert iv[1..] == Interval(k + 1, threads);
    if k < threads - 1 {
      SumPartSizesTail(fileSize, threads, k + 1);
      assert (threads - 1 - k) * c == c + (threads - 1 - (k + 1)) * c;
    } else {
      assert Interval(k + 1, threads) == [];
    }
  }

  /** The sizes of parts 0 .. threads-1 add up to exactly the file size. */
  lemma PartSizesSumToFileSize(fileSize: nat, threads: Pos)
    ensures SumPartSizes(true, fileSize, threads, Interval(0, threads)) == fileSize
  {
    SumPartSizesTail(fileSize, threads, 0);
    var c := ChunkSize(fileSize, threads);
    assert (threads - 1) * c == c * (threads - 1);
  }

  // ---------------------------------------------------------------------------
  // Fresh plan (idm.py:369-373) and expected size (idm.py:207-210)

  /** The part map of a transfer that has no usable resume record. */
  function FreshPlan(supportsPartial: bool, threads: Pos): (plan: map<nat, int>)
    ensures supportsPartial ==> plan.Keys == Span(0, threads)
    ensures !supportsPartial ==> plan.Keys == {0}
    ensures forall k :: k in plan ==> plan[k] == 0
  {
    if supportsPartial then map k | k in Span(0, threads) :: 0 else map[0 := 0]
  }

  /** `_calculate_expected_size`. */
  ghost function ExpectedTotal(parts: map<nat, int>, supportsPartial: bool, unknownSize: bool,
                               fileSize: nat, threads: Pos): int
  {
    if parts == map[] || unknownSize then 0
    else SumPartSizes(supportsPartial, fileSize, threads, Ascending(parts.Keys))
  }

  /** A fresh plan has nothing downloaded, its parts are 0 .. threads-1 in
      ascending order (part 0 alone without range support), and when the size
      is known their expected sizes add up to the file size. */
  lemma FreshPlanCoversFile(supportsPartial: bool, unknownSize: bool, fileSize: nat, threads: Pos)
    ensures Total(FreshPlan(supportsPartial, threads)) == 0
    ensures Ascending(FreshPlan(supportsPartial, threads).Keys)
              == if supportsPartial then Interval(0, threads) else [0]
    ensures !unknownSize ==> ExpectedTotal(FreshPlan(supportsPartial, threads), supportsPartial,
                                           unknownSize, fileSize, threads) == fileSize
  {
    var plan := FreshPlan(supportsPartial, threads);
    assert 0 in plan;
    if supportsPartial {
      AscendingOfSpan(0, threads);
      PartSizesSumToFileSize(fileSize, threads);
    } else {
      AscendingOfSpan(0, 1);
      assert Span(0, 1) == {0};
      assert [0][1..] == [];
      assert SumPartSizes(false, fileSize, threads, [0]) == fileSize;
    }
    var ks := Ascending(plan.Keys);
    AscendingIsSortedEnumeration(plan.Keys);
    SumAtZero(plan, ks);
    assert 0 in plan;
  }

  // ---------------------------------------------------------------------------
  // The request a worker sends (idm.py:221-241)

  /** NoRequest: the worker returns at once; Ranged: `bytes=first-last`;
      From: `bytes=first-`; Plain: no Range header. */
  datatype Request = NoRequest | Ranged(first: int, last: int) | From(first: int) | Plain

  function SegmentRequest(supportsPartial: bool, fileSize: nat, threads: Pos, partId: nat,
                          progress: int): Request
  {
    if supportsPartial then
      Ranged(PartStart(fileSize, threads, partId) + progress,
             if partId == threads - 1 then fileSize - 1
             else (partId + 1) * ChunkSize(fileSize, threads) - 1)
    else if partId != 0 then NoRequest
    else if progress > 0 then From(progress)
    else Plain
  }

  /** With no progress, the ranges of parts 0 .. threads-1 tile the file:
      part 0 starts at byte 0, each range ends just before the next starts,
      each has the length of its part, and the last ends at the last byte. */
  lemma FreshRangesTileFile(fileSize: nat, threads: Pos, p: nat)
    requires p < threads
    ensures var r := SegmentRequest(true, fileSize, threads, p, 0);
      && r.Ranged?
      && (p == 0 ==> r.first == 0)
      && r.last - r.first + 1 == PartSize(true, fileSize, threads, p)
      && (p + 1 < threads ==> r.last + 1 == SegmentRequest(true, fileSize, threads, p + 1, 0).first)
      && (p == threads - 1 ==> r.last == fileSize - 1)
  {
    var c := ChunkSize(fileSize, threads);
    assert (p + 1) * c == p * c + c;
  }

  /** Resuming a part asks for exactly the bytes after those already
      downloaded: the range keeps its end and starts `progress` bytes later;
      without range support only part 0 asks, from its progress onward. */
  lemma ResumedRangeSkipsDownloaded(supportsPartial: bool, fileSize: nat, threads: Pos, p: nat, progress: nat)
    ensures var initial := SegmentRequest(supportsPartial, fileSize, threads, p, 0);
      var resumed := SegmentRequest(supportsPartial, fileSize, threads, p, progress);
      && (supportsPartial ==> resumed.Ranged? && resumed.first == initial.first + progress
                              && resumed.last == initial.last)
      && (!supportsPartial && p != 0 ==> resumed.NoRequest?)
      && (!supportsPartial && p == 0 ==> (if progress > 0 then resumed == From(progress) else resumed.Plain?))
  {
  }

  // ---------------------------------------------------------------------------
  // Resume record (idm.py:69-99, idm.py:121-135)

  /** What the resume file holds: unparsable JSON, or an object whose keys
      may be missing (None) and whose timestamp is not modelled. */
  datatype StoredResume =
    | Unreadable
    | Stored(url: Option<string>, filename: Option<string>, fileSize: Option<int>,
             parts: Option<map<nat, int>>, originalThreads: Option<Pos>)

  /** `_validate_resume_data` does not raise. */
  predicate Accepts(rec: StoredResume, url: string, filename: string) {
    && rec.Stored?
    && rec.url.Some? && rec.filename.Some? && rec.fileSize.Some? && rec.parts.Some?
    && rec.url.value == url
    && rec.filename.value == filename
  }

  /** The record `_save_resume_data` writes. */
  function Snapshot(url: string, filename: string, fileSize: nat, parts: map<nat, int>,
                    originalThreads: Pos): StoredResume
  {
    Stored(Some(url), Some(filename), Some(fileSize), Some(parts), Some(originalThreads))
  }

  /** A saved record is accepted by a downloader exactly when it has the
      same url and file name, and then it gives back the same parts and the
      same original worker count. */
  lemma SnapshotRoundTrip(url: string, filename: string, fileSize: nat, parts: map<nat, int>,
                          threads: Pos, url': string, filename': string, requested: Pos)
    ensures Accepts(Snapshot(url, filename, fileSize, parts, threads), url', filename') <==> (url == url' && filename == filename')
    ensures Snapshot(url, filename, fileSize, parts, threads).parts.value == parts
    ensures Snapshot(url, filename, fileSize, parts, threads).originalThreads.GetOr(requested) == threads
  {
  }

  /** `_verify_existing_parts`: the progress of a part whose file is missing
      goes back to 0. */
  function KeepExisting(parts: map<nat, int>, present: set<nat>): (r: map<nat, int>)
    ensures r.Keys == parts.Keys
  {
    map k | k in parts :: if k in present then parts[k] else 0
  }

  /** Resetting keeps the progress of every part whose file exists, so a
      resumed transfer re-downloads nothing recorded for such a part; when
      every file exists nothing changes, and resetting twice is resetting once. */
  lemma KeepExistingProperties(parts: map<nat, int>, present: set<nat>)
    ensures forall k :: k in parts && k in present ==> KeepExisting(parts, present)[k] == parts[k]
    ensures forall k :: k in parts && k !in present ==> KeepExisting(parts, present)[k] == 0
    ensures parts.Keys <= present ==> KeepExisting(parts, present) == parts
    ensures KeepExisting(KeepExisting(parts, present), present) == KeepExisting(parts, present)
  {
  }

  /** Resetting parts to 0 never raises the total when counters are not negative. */
  lemma {:induction false} KeepExistingLowersTotal(parts: map<nat, int>, present: set<nat>, ks: seq<nat>)
    requires forall k :: k in parts ==> parts[k] >= 0
    ensures SumAt(KeepExisting(parts, present), ks) <= SumAt(parts, ks)
  {
    if ks != [] {
      KeepExistingLowersTotal(parts, present, ks[1..]);
    }
  }

  // ---------------------------------------------------------------------------
  // One segment's attempts (idm.py:243-318)

  const MaxAttempts: nat := 3

  /** How a response stream ends: all of it is read; the connection drops
      after the listed blocks (an exception); or the shutdown flag is seen
      before block `index`. */
  datatype Ending = Finished | Dropped | ShutdownAt(index: nat)

  /** What one attempt meets: the shutdown flag already set; an exception
      raised by the request; or a response with a status and body blocks. */
  datatype Attempt = ShutdownSeen | Raised | Reply(status: int, body: seq<seq<Byte>>, ending: Ending)

  /** Done: the part's worker returns normally; Paused: it returns because
      of the shutdown flag, after saving the resume record when the flag was
      seen in the middle of a stream; Retry: the attempt failed. */
  datatype Step = Done | Paused(saved: bool) | Retry

  /** A response the worker streams: 200 or 206, and 206 when ranges are used. */
  predicate StatusAccepted(supportsPartial: bool, status: int) {
    (status == 200 || status == 206) && (!supportsPartial || status == 206)
  }

  /** What one attempt does: whether it opens the part file (a response it
      streams), the blocks it writes there, and how it ends. */
  datatype Effect = Effect(opens: bool, blocks: seq<seq<Byte>>, step: Step)

  function AttemptEffect(supportsPartial: bool, a: Attempt): (e: Effect)
    ensures !e.opens ==> e.blocks == []
  {
    match a
    case ShutdownSeen => Effect(false, [], Paused(false))
    case Raised => Effect(false, [], Retry)
    case Reply(status, body, ending) =>
      if !StatusAccepted(supportsPartial, status) then Effect(false, [], Retry)
      else
        match ending
        case Finished => Effect(true, body, Done)
        case Dropped => Effect(true, body, Retry)
        case ShutdownAt(k) => if k < |body| then Effect(true, body[..k], Paused(true)) else Effect(true, body, Done)
  }

  /** The answer attempt `i` of a worker meets; a script that runs out
      stands for attempts that raise. */
  function AttemptAt(attempts: seq<Attempt>, i: nat): Attempt {
    if i < |attempts| then attempts[i] else Raised
  }

  /** A streamed response writes its blocks up to the point the flag is seen. */
  lemma StreamedEffect(supportsPartial: bool, a: Attempt)
    requires a.Reply? && StatusAccepted(supportsPartial, a.status)
    ensures var cut := a.ending.ShutdownAt? && a.ending.index < |a.body|;
            AttemptEffect(supportsPartial, a)
            == Effect(true, if cut then a.body[..a.ending.index] else a.body,
                      if cut then Paused(true) else if a.ending.Dropped? then Retry else Done)
  {
  }

  /** The bytes written by attempts i, i+1, ... up to the first attempt
      that does not fail (all attempts append to the same part file). */
  function SegmentData(supportsPartial: bool, attempts: seq<Attempt>, i: nat): seq<Byte>
    decreases MaxAttempts - i
  {
    if i >= MaxAttempts then []
    else
      var e := AttemptEffect(supportsPartial, AttemptAt(attempts, i));
      Flatten(e.blocks) + (if e.step == Retry then SegmentData(supportsPartial, attempts, i + 1) else [])
  }

  /** Whether attempts i, i+1, ... open the part file before the worker ends. */
  function SegmentOpens(supportsPartial: bool, attempts: seq<Attempt>, i: nat): bool
    decreases MaxAttempts - i
  {
    if i >= MaxAttempts then false
    else
      var e := AttemptEffect(supportsPartial, AttemptAt(attempts, i));
      e.opens || (e.step == Retry && SegmentOpens(supportsPartial, attempts, i + 1))
  }

  /** How the worker ends, from attempt i on; Retry means every attempt failed. */
  function SegmentEnd(supportsPartial: bool, attempts: seq<Attempt>, i: nat): Step
    decreases MaxAttempts - i
  {
    if i >= MaxAttempts then Retry
    else
      var e := AttemptEffect(supportsPartial, AttemptAt(attempts, i));
      if e.step == Retry then SegmentEnd(supportsPartial, attempts, i + 1) else e.step
  }

  /** Attempts that never open the part file write nothing. */
  lemma {:induction false} SegmentNoOpenNoData(supportsPartial: bool, attempts: seq<Attempt>, i: nat)
    ensures !SegmentOpens(supportsPartial, attempts, i) ==> SegmentData(supportsPartial, attempts, i) == []
    decreases MaxAttempts - i
  {
    if i < MaxAttempts {
      SegmentNoOpenNoData(supportsPartial, attempts, i + 1);
    }
  }

  /** A segment is given up (and counted as an error) exactly when every one
      of its attempts fails. */
  lemma {:induction false} SegmentExhaustedIff(supportsPartial: bool, attempts: seq<Attempt>, i: nat)
    requires i <= MaxAttempts
    ensures SegmentEnd(supportsPartial, attempts, i) == Retry <==>
              (forall j :: i <= j < MaxAttempts ==> AttemptEffect(supportsPartial, AttemptAt(attempts, j)).step == Retry)
    decreases MaxAttempts - i
  {
    if i < MaxAttempts {
      SegmentExhaustedIff(supportsPartial, attempts, i + 1);
    }
  }

  // ---------------------------------------------------------------------------
  // The progress update of idm.py:277

  /** As written: file position when the part file was opened plus the file
      position after the write. In append mode both count the bytes that
      were already in the file. */
  function ProgressAsWritten(positionAtOpen: nat, positionAfterWrite: nat): nat {
    positionAtOpen + positionAfterWrite
  }

  /** Corrected: the file position after the write, which is the length of
      the part file. */
  function ProgressCorrected(positionAtOpen: nat, positionAfterWrite: nat): nat {
    positionAfterWrite
  }

  /** Appending n bytes to a part file that already holds e > 0 bytes: as
      written the progress becomes 2e + n while the file holds e + n bytes;
      corrected, it is the file length. Example: e = 5, n = 3 gives 13 for
      an 8-byte file. */
  lemma AsWrittenDoubleCountsExistingBytes(existing: nat, appended: nat)
    ensures existing > 0 ==> ProgressAsWritten(existing, existing + appended) != existing + appended
    ensures ProgressAsWritten(existing, existing + appended) == 2 * existing + appended
    ensures ProgressCorrected(existing, existing + appended) == existing + appended
    ensures ProgressAsWritten(5, 8) == 13
  {
  }

  /** With the corrected update a part's progress is its file length, so the
      next request of that part starts right after the bytes in the file and
      ends where the fresh range ends. */
  lemma CorrectedProgressResumesAtFileEnd(fileSize: nat, threads: Pos, p: nat, fileLength: nat, appended: nat)
    ensures var progress := ProgressCorrected(fileLength, fileLength + appended);
      var r := SegmentRequest(true, fileSize, threads, p, progress);
      r.first == PartStart(fileSize, threads, p) + fileLength + appended
      && r.last == SegmentRequest(true, fileSize, threads, p, 0).last
  {
  }

  // ---------------------------------------------------------------------------
  // Merge (idm.py:329-360)

  /** The check of `merge_files`' first loop: every part's file exists and,
      when the size is known, holds exactly the part's size. */
  predicate PartsVerified(parts: map<nat, int>, files: map<nat, seq<Byte>>, supportsPartial: bool,
                          unknownSize: bool, fileSize: nat, threads: Pos)
  {
    forall k :: k in parts ==>
      k in files && (unknownSize || |files[k]| == PartSize(supportsPartial, fileSize, threads, k))
  }

  /** The files of the listed parts, concatenated in the listed order. */
  function Join(files: map<nat, seq<Byte>>, ks: seq<nat>): seq<Byte> {
    if ks == [] then [] else (if ks[0] in files then files[ks[0]] else []) + Join(files, ks[1..])
  }

  /** A part whose file is one byte short (or missing) makes the check fail. */
  lemma TruncatedPartRefused(parts: map<nat, int>, files: map<nat, seq<Byte>>, supportsPartial: bool,
                             fileSize: nat, threads: Pos, k: nat)
    requires k in parts
    requires k !in files || |files[k]| == PartSize(supportsPartial, fileSize, threads, k) - 1
    ensures !PartsVerified(parts, files, supportsPartial, false, fileSize, threads)
  {
  }

  lemma {:induction false} JoinLength(files: map<nat, seq<Byte>>, supportsPartial: bool, fileSize: nat,
                                      threads: Pos, ks: seq<nat>)
    requires forall i :: 0 <= i < |ks| ==>
               ks[i] in files && |files[ks[i]]| == PartSize(supportsPartial, fileSize, threads, ks[i])
    ensures |Join(files, ks)| == SumPartSizes(supportsPartial, fileSize, threads, ks)
  {
    if ks != [] {
      JoinLength(files, supportsPartial, fileSize, threads, ks[1..]);
    }
  }

  /** The merge check depends only on which parts are planned, not on
      their progress. */
  lemma PartsVerifiedByKeys(p1: map<nat, int>, p2: map<nat, int>, files: map<nat, seq<Byte>>, supportsPartial: bool,
                            unknownSize: bool, fileSize: nat, threads: Pos)
    requires p1.Keys == p2.Keys
    ensures PartsVerified(p1, files, supportsPartial, unknownSize, fileSize, threads)
            == PartsVerified(p2, files, supportsPartial, unknownSize, fileSize, threads)
  {
    assert forall k :: k in p1 <==> k in p2;
  }

  /** When the check passes on a fresh plan of known size, the merged file
      has exactly the file size. */
  lemma VerifiedMergeHasFileSize(files: map<nat, seq<Byte>>, supportsPartial: bool, fileSize: nat, threads: Pos)
    requires PartsVerified(FreshPlan(supportsPartial, threads), files, supportsPartial, false, fileSize, threads)
    ensures |Join(files, Ascending(FreshPlan(supportsPartial, threads).Keys))| == fileSize
  {
    var plan := FreshPlan(supportsPartial, threads);
    FreshPlanCoversFile(supportsPartial, false, fileSize, threads);
    var ks := Ascending(plan.Keys);
    AscendingIsSortedEnumeration(plan.Keys);
    JoinLength(files, supportsPartial, fileSize, threads, ks);
  }

  /** Part p's file holds exactly its byte range of `content`. */
  ghost predicate HoldsRange(files: map<nat, seq<Byte>>, content: seq<Byte>, threads: Pos, p: nat) {
    var lo := PartStart(|content|, threads, p);
    var hi := lo + PartSize(true, |content|, threads, p);
    p in files && lo <= hi <= |content| && files[p] == content[lo..hi]
  }

  lemma PartEnd(fileSize: nat, threads: Pos, p: nat)
    requires p < threads
    ensures PartSize(true, fileSize, threads, p) >= 0
    ensures p + 1 < threads ==> PartStart(fileSize, threads, p) + PartSize(true, fileSize, threads, p)
                                  == PartStart(fileSize, threads, p + 1)
    ensures p == threads - 1 ==> PartStart(fileSize, threads, p) + PartSize(true, fileSize, threads, p) == fileSize
  {
    var c := ChunkSize(fileSize, threads);
    assert (p + 1) * c == p * c + c;
    assert c * threads <= fileSize;
    assert c * (threads - 1) == c * threads - c;
    LastPartAbsorbsRemainder(fileSize, threads);
  }

  lemma {:induction false} JoinTail(files: map<nat, seq<Byte>>, content: seq<Byte>, threads: Pos, p: nat)
    requires p < threads
    requires forall q: nat :: p <= q < threads ==> HoldsRange(files, content, threads, q)
    ensures PartStart(|content|, threads, p) <= |content|
    ensures Join(files, Interval(p, threads)) == content[PartStart(|content|, threads, p)..]
    decreases threads - p
  {
    var n := |content|;
    var lo := PartStart(n, threads, p);
    var hi := lo + PartSize(true, n, threads, p);
    assert HoldsRange(files, content, threads, p);
    assert lo <= hi <= n && files[p] == content[lo..hi];
    var iv := Interval(p, threads);
    assert iv == [p] + Interval(p + 1, threads);
    assert Join(files, iv) == files[p] + Join(files, Interval(p + 1, threads));
    if p + 1 < threads {
      JoinTail(files, content, threads, p + 1);
      PartEnd(n, threads, p);
      assert PartStart(n, threads, p + 1) == hi;
      assert content[lo..] == content[lo..hi] + content[hi..];
    } else {
      PartEnd(n, threads, p);
      assert hi == n;
      assert Interval(p + 1, threads) == [];
    }
  }

  /** A completed transfer reproduces the resource: if every part file of a
      fresh ranged plan holds its byte range of `content`, the merge's
      concatenation in ascending part order is `content` itself. */
  lemma MergedOutputIsResource(files: map<nat, seq<Byte>>, content: seq<Byte>, threads: Pos)
    requires forall q: nat :: q < threads ==> HoldsRange(files, content, threads, q)
    ensures Join(files, Ascending(FreshPlan(true, threads).Keys)) == content
  {
    FreshPlanCoversFile(true, false, |content|, threads);
    JoinTail(files, content, threads, 0);
  }

  // ---------------------------------------------------------------------------
  // The supervisor's tests (idm.py:377-417)

  const GlobalRetries: nat := 3

  /** Whether a round spawns a worker for a part (None in the source is
      float('inf'): a single stream of unknown size always gets one). */
  predicate NeedsWorker(supportsPartial: bool, unknownSize: bool, fileSize: nat, threads: Pos,
                        partId: nat, progress: int)
  {
    if supportsPartial then progress < PartSize(true, fileSize, threads, partId)
    else unknownSize || progress < fileSize
  }

  /** The test after a round that leads to the merge. */
  predicate ReadyToMerge(errorCount: nat, downloadedBytes: int, fileSize: nat) {
    errorCount == 0 && downloadedBytes >= fileSize && fileSize > 0
  }
}
