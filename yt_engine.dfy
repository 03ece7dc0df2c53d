/** test_yt.py's YoutubeDownloader: a second segmented engine that writes
    every chunk in place into one preallocated temp file. The disk is two
    fields: the binary files by path, and the progress file (an abstract
    record). Chunk workers run one after another; the stream choice, the
    HEAD answer and the chunk responses are parameters. */
module YtEngine {
  import opened Common

  /** A chunk of the temp file: bytes `start..end` (inclusive) of which the
      first `downloaded` have been written. */
  datatype Chunk = Chunk(start: int, end: int, downloaded: int)

  /** The progress file's content. */
  datatype ProgressRecord = ProgressRecord(url: string, totalSize: int, chunks: seq<Chunk>,
                                           outputPath: string, tempFile: string)

  /** The stream the front end picks: an error of the video site, no
      suitable stream, or a stream with its direct url and the title. */
  datatype StreamChoice = SiteError | NoStream | Picked(streamUrl: string, title: string)

  /** A `Content-Length` header: absent, not an integer, or an integer
      (`int()` also accepts a negative one). */
  datatype LengthHeader = Absent | NotANumber | Length(n: int)

  /** The HEAD answer: an error status (raise_for_status raises), or the
      length header. */
  datatype SizeReply = HeadError | Sized(contentLength: LengthHeader)

  /** The answer to one chunk's ranged GET: a request error, or the blocks
      of the stream; `stopBefore` says before which block the stop event is
      seen set from outside (None: never during this stream). */
  datatype ChunkReply = RequestFailed | Stream(blocks: seq<seq<Byte>>, stopBefore: Option<nat>)

  /** How `download` ends (it returns nothing in the source). */
  datatype Outcome = Completed | Paused | Failed

  // ---------------------------------------------------------------------------
  // Chunk plan (test_yt.py:54-64)

  /** Chunk i of a fresh plan: i*(total/n) up to the next chunk's start, the
      last one up to the last byte. */
  function PlannedChunk(totalSize: int, numThreads: Pos, i: nat): Chunk {
    var c := totalSize / numThreads;
    Chunk(i * c, if i < numThreads - 1 then i * c + c - 1 else totalSize - 1, 0)
  }

  /** `_initialize_chunks`' plan: chunks 0 .. numThreads-1. */
  function FreshChunks(totalSize: int, numThreads: Pos): seq<Chunk> {
    seq(numThreads, i requires 0 <= i => PlannedChunk(totalSize, numThreads, i))
  }

  function Len(ch: Chunk): int {
    ch.end - ch.start + 1
  }

  function SumLengths(cs: seq<Chunk>): int {
    if cs == [] then 0 else Len(cs[0]) + SumLengths(cs[1..])
  }

  /** The chunks of a fresh plan are contiguous, start at 0, end at the
      last byte, have nothing downloaded, and their lengths add up to the
      total size. */
  lemma PlanCoversFile(totalSize: nat, numThreads: Pos)
    ensures var cs := FreshChunks(totalSize, numThreads);
            && cs[0].start == 0
            && cs[numThreads - 1].end == totalSize - 1
            && (forall i :: 0 <= i < numThreads - 1 ==> cs[i].end + 1 == cs[i + 1].start)
            && (forall i :: 0 <= i < numThreads ==> cs[i].downloaded == 0 && cs[i].start == i * (totalSize / numThreads))
            && SumLengths(cs) == totalSize
  {
    var cs := FreshChunks(totalSize, numThreads);
    forall i | 0 <= i < numThreads - 1 ensures cs[i].end + 1 == cs[i + 1].start {
      PlannedChunksMeet(totalSize, numThreads, i);
    }
    SumLengthsOfPlan(totalSize, numThreads, 0);
    assert cs[0..] == cs;
  }

  /** Chunk i of a fresh plan ends right before chunk i+1 starts. */
  lemma PlannedChunksMeet(totalSize: int, numThreads: Pos, i: nat)
    requires i < numThreads - 1
    ensures PlannedChunk(totalSize, numThreads, i).end + 1 == PlannedChunk(totalSize, numThreads, i + 1).start
  {
    var c := totalSize / numThreads;
    assert (i + 1) * c == i * c + c;
  }

  /** The lengths of chunks k.. of a fresh plan. */
  lemma {:induction false} SumLengthsOfPlan(totalSize: nat, numThreads: Pos, k: nat)
    requires k < numThreads
    ensures var cs := FreshChunks(totalSize, numThreads);
            SumLengths(cs[k..]) == totalSize - k * (totalSize / numThreads)
    decreases numThreads - k
  {
    var cs := FreshChunks(totalSize, numThreads);
    var c := totalSize / numThreads;
    assert cs[k..][0] == cs[k];
    assert cs[k..][1..] == cs[k + 1..];
    if k < numThreads - 1 {
      SumLengthsOfPlan(totalSize, numThreads, k + 1);
      assert (k + 1) * c == k * c + c;
    } else {
      assert cs[k + 1..] == [];
    }
  }

  /** The sum of the chunks' `downloaded` counters. */
  function DownloadedSum(cs: seq<Chunk>): int {
    if cs == [] then 0 else cs[0].downloaded + DownloadedSum(cs[1..])
  }

  /** A fresh plan has nothing downloaded: the counters of chunks k.. sum
      to 0. */
  lemma {:induction false} FreshChunksNothingDownloaded(totalSize: int, numThreads: Pos, k: nat)
    requires k <= numThreads
    ensures DownloadedSum(FreshChunks(totalSize, numThreads)[k..]) == 0
    decreases numThreads - k
  {
    var cs := FreshChunks(totalSize, numThreads);
    if k < numThreads {
      assert cs[k..][1..] == cs[k + 1..];
      FreshChunksNothingDownloaded(totalSize, numThreads, k + 1);
    } else {
      assert cs[k..] == [];
    }
  }

  /** Adding x to one chunk's counter adds x to the sum. */
  lemma {:induction false} DownloadedSumUpdate(cs: seq<Chunk>, i: nat, x: int)
    requires i < |cs|
    ensures DownloadedSum(cs[i := cs[i].(downloaded := cs[i].downloaded + x)]) == DownloadedSum(cs) + x
  {
    var cs' := cs[i := cs[i].(downloaded := cs[i].downloaded + x)];
    assert cs'[1..] == if i == 0 then cs[1..] else cs[1..][i - 1 := cs[i].(downloaded := cs[i].downloaded + x)];
    if i > 0 {
      DownloadedSumUpdate(cs[1..], i - 1, x);
    }
  }

  /** The resume offset and the last byte of a chunk's ranged request, or
      None when the chunk is already complete (no request is sent). */
  function ChunkRange(ch: Chunk): Option<(int, int)> {
    var start := ch.start + ch.downloaded;
    if start > ch.end then None else Some((start, ch.end))
  }

  // ---------------------------------------------------------------------------
  // Writing into the temp file (test_yt.py:105-113)

  /** The file after writing `data` at offset `pos` (seek, then write). */
  function WriteAt(buf: seq<Byte>, pos: nat, data: seq<Byte>): seq<Byte> {
    if data == [] then buf
    else
      var padded := if pos <= |buf| then buf else buf + Zeros(pos - |buf|);
      padded[..pos] + data + (if pos + |data| < |padded| then padded[pos + |data|..] else [])
  }

  /** The written bytes replace what was there, the file grows when the
      write runs past its end, and a gap before `pos` reads as zeros;
      writing nothing leaves the file as it is, wherever the offset. */
  lemma WriteAtContents(buf: seq<Byte>, pos: nat, data: seq<Byte>)
    ensures var r := WriteAt(buf, pos, data);
            && |r| == (if data != [] && pos + |data| > |buf| then pos + |data| else |buf|)
            && (forall k :: 0 <= k < |data| ==> r[pos + k] == data[k])
            && (forall k :: 0 <= k < |buf| && !(pos <= k < pos + |data|) ==> r[k] == buf[k])
            && (forall k :: |buf| <= k < pos && data != [] ==> r[k] == 0)
  {
  }

  /** The file's length after a write: it grows only when a non-empty
      write runs past its end. */
  lemma WriteAtLength(buf: seq<Byte>, pos: nat, data: seq<Byte>)
    ensures |WriteAt(buf, pos, data)| == if data != [] && pos + |data| > |buf| then pos + |data| else |buf|
  {
  }

  /** Byte `k` of the file after the write: the written byte inside the
      written span, the old byte elsewhere, and 0 in a gap past the old end. */
  lemma WriteAtIndex(buf: seq<Byte>, pos: nat, data: seq<Byte>, k: nat)
    requires k < |WriteAt(buf, pos, data)|
    ensures WriteAt(buf, pos, data)[k]
            == if pos <= k < pos + |data| then data[k - pos] else if k < |buf| then buf[k] else 0
  {
    WriteAtContents(buf, pos, data);
    if pos <= k < pos + |data| {
      assert WriteAt(buf, pos, data)[pos + (k - pos)] == data[k - pos];
    }
  }

  /** Two consecutive writes are one write of both pieces. */
  lemma WriteAtTwice(buf: seq<Byte>, pos: nat, d1: seq<Byte>, d2: seq<Byte>)
    ensures WriteAt(WriteAt(buf, pos, d1), pos + |d1|, d2) == WriteAt(buf, pos, d1 + d2)
  {
    if d1 == [] {
      assert d1 + d2 == d2;
    } else if d2 == [] {
      assert d1 + d2 == d1;
    } else {
      var mid := WriteAt(buf, pos, d1);
      var lhs := WriteAt(mid, pos + |d1|, d2);
      var rhs := WriteAt(buf, pos, d1 + d2);
      WriteAtLength(buf, pos, d1);
      WriteAtLength(mid, pos + |d1|, d2);
      WriteAtLength(buf, pos, d1 + d2);
      assert |lhs| == |rhs|;
      forall k | 0 <= k < |lhs| ensures lhs[k] == rhs[k] {
        WriteAtIndex(mid, pos + |d1|, d2, k);
        WriteAtIndex(buf, pos, d1 + d2, k);
        if k < |mid| {
          WriteAtIndex(buf, pos, d1, k);
        }
      }
    }
  }

  /** The blocks a stream writes: none when the stop event is already set,
      otherwise those before the block where the event is seen. */
  function StreamedBlocks(alreadyStopped: bool, blocks: seq<seq<Byte>>, stopBefore: Option<nat>): seq<seq<Byte>> {
    if alreadyStopped && blocks != [] then []
    else if stopBefore.Some? && stopBefore.value < |blocks| then blocks[..stopBefore.value]
    else blocks
  }

  /** Whether the stop event is set once the stream is over. */
  predicate StoppedAfter(alreadyStopped: bool, blocks: seq<seq<Byte>>, stopBefore: Option<nat>) {
    alreadyStopped || (stopBefore.Some? && stopBefore.value < |blocks|)
  }

  /** Where the stream loop ends: after `j` blocks, having broken off at
      block j (`broke`) or having run out of blocks. */
  lemma StreamCut(alreadyStopped: bool, blocks: seq<seq<Byte>>, stopBefore: Option<nat>, j: nat, broke: bool)
    requires j <= |blocks| && (alreadyStopped ==> j == 0)
    requires stopBefore.Some? ==> j <= stopBefore.value
    requires broke ==> j < |blocks| && (alreadyStopped || stopBefore == Some(j))
    requires !broke ==> j == |blocks|
    ensures StreamedBlocks(alreadyStopped, blocks, stopBefore) == blocks[..j]
    ensures StoppedAfter(alreadyStopped, blocks, stopBefore) == (alreadyStopped || broke)
  {
    assert blocks[..|blocks|] == blocks;
  }

  /** The answer chunk `i`'s request meets; missing answers are failures. */
  function ReplyFor(replies: seq<ChunkReply>, i: nat): ChunkReply {
    if i < |replies| then replies[i] else RequestFailed
  }

  // ---------------------------------------------------------------------------
  // The chunk workers in sequence (test_yt.py:90-113, test_yt.py:139-162)

  /** What the chunk workers change: the files, the chunks, the running
      total and the stop event. */
  datatype Transfer = Transfer(files: map<string, seq<Byte>>, chunks: seq<Chunk>, downloadedSize: int, stopped: bool)

  /** One `_download_chunk` for chunk `i` meeting `reply`, with the temp
      file at `temp`: nothing changes when the chunk is complete, the
      request fails, the temp file is missing or the offset is negative;
      otherwise the streamed blocks are written from the chunk's resume
      offset and counted. */
  function ChunkStep(t: Transfer, temp: string, i: nat, reply: ChunkReply): Transfer {
    if i >= |t.chunks| then t
    else
      var ch := t.chunks[i];
      var req := ChunkRange(ch);
      if req.Some? && reply.Stream? && temp in t.files && req.value.0 >= 0 then
        var data := Flatten(StreamedBlocks(t.stopped, reply.blocks, reply.stopBefore));
        Transfer(t.files[temp := WriteAt(t.files[temp], req.value.0, data)],
                 t.chunks[i := ch.(downloaded := ch.downloaded + |data|)],
                 t.downloadedSize + |data|,
                 StoppedAfter(t.stopped, reply.blocks, reply.stopBefore))
      else t
  }

  /** Chunks 0 to n-1 run one after another from `t`, chunk i meeting
      `replies[i]`. */
  function ChunksUpTo(t: Transfer, temp: string, replies: seq<ChunkReply>, n: nat): Transfer {
    if n == 0 then t
    else ChunkStep(ChunksUpTo(t, temp, replies, n - 1), temp, n - 1, ReplyFor(replies, n - 1))
  }

  /** One chunk keeps the chunk count and the gap between the total and
      the chunk counters, never shortens the temp file and never clears
      the stop event. */
  lemma ChunkStepKeeps(t: Transfer, temp: string, i: nat, reply: ChunkReply)
    ensures var t' := ChunkStep(t, temp, i, reply);
            && |t'.chunks| == |t.chunks|
            && t'.downloadedSize - DownloadedSum(t'.chunks) == t.downloadedSize - DownloadedSum(t.chunks)
            && (temp in t.files ==> temp in t'.files && |t'.files[temp]| >= |t.files[temp]|)
            && (t.stopped ==> t'.stopped)
  {
    if i < |t.chunks| {
      var ch := t.chunks[i];
      var req := ChunkRange(ch);
      if req.Some? && reply.Stream? && temp in t.files && req.value.0 >= 0 {
        var data := Flatten(StreamedBlocks(t.stopped, reply.blocks, reply.stopBefore));
        WriteAtLength(t.files[temp], req.value.0, data);
        DownloadedSumUpdate(t.chunks, i, |data|);
      }
    }
  }

  /** The same holds for any number of chunks run in sequence. */
  lemma {:induction false} ChunksUpToKeeps(t: Transfer, temp: string, replies: seq<ChunkReply>, n: nat)
    ensures var t' := ChunksUpTo(t, temp, replies, n);
            && |t'.chunks| == |t.chunks|
            && t'.downloadedSize - DownloadedSum(t'.chunks) == t.downloadedSize - DownloadedSum(t.chunks)
            && (temp in t.files ==> temp in t'.files && |t'.files[temp]| >= |t.files[temp]|)
            && (t.stopped ==> t'.stopped)
  {
    if n > 0 {
      ChunksUpToKeeps(t, temp, replies, n - 1);
      ChunkStepKeeps(ChunksUpTo(t, temp, replies, n - 1), temp, n - 1, ReplyFor(replies, n - 1));
    }
  }

  /** The last periodic save point below `n`, if any. */
  function LastSave(saves: set<nat>, n: nat): (r: Option<nat>)
    ensures r.Some? ==> r.value < n && r.value in saves && forall k :: r.value < k < n ==> k !in saves
    ensures r.None? <==> forall k :: 0 <= k < n ==> k !in saves
  {
    if n == 0 then None
    else if n - 1 in saves then Some(n - 1)
    else LastSave(saves, n - 1)
  }

  /** The progress record after chunks 0 to n-1 have run from `t0` with
      a save after every chunk in `saves`: the one saved after the last
      such chunk, or `p0` when there was none. */
  function SavedProgress(p0: Option<ProgressRecord>, url: string, totalSize: int, outputPath: string, temp: string,
                         t0: Transfer, replies: seq<ChunkReply>, saves: set<nat>, n: nat): Option<ProgressRecord> {
    match LastSave(saves, n)
    case None => p0
    case Some(k) => Some(ProgressRecord(url, totalSize, ChunksUpTo(t0, temp, replies, k + 1).chunks, outputPath, temp))
  }

  /** The transfer `download` starts its workers from: the loaded record's
      chunks with their counters summed over the files as they are, or
      the fresh plan over a temp file of `totalSize` zero bytes. */
  function StartState(record: Option<ProgressRecord>, files: map<string, seq<Byte>>, downloadedSize: int,
                      stopped: bool, temp: string, totalSize: int, numThreads: Pos): Transfer
    requires record.None? ==> totalSize >= 0
  {
    if record.Some? then Transfer(files, record.value.chunks, DownloadedSum(record.value.chunks), stopped)
    else Transfer(files[temp := Zeros(totalSize)], FreshChunks(totalSize, numThreads), downloadedSize, stopped)
  }

  /** Whether the set-up half of `download` gets through: a resume needs a
      url, from the record or a picked stream; a fresh start needs a picked
      stream and a positive `Content-Length`. */
  predicate SetupOk(record: Option<ProgressRecord>, choice: StreamChoice, size: SizeReply) {
    if record.Some? then record.value.url != "" || choice.Picked?
    else choice.Picked? && size.Sized? && size.contentLength.Length? && size.contentLength.n > 0
  }

  /** The url the set-up leaves: the record's unless it is empty and a
      stream is picked, else the picked stream's, else the old one. */
  function SetupUrl(record: Option<ProgressRecord>, choice: StreamChoice, url: string): string {
    if record.Some? && (record.value.url != "" || !choice.Picked?) then record.value.url
    else if choice.Picked? then choice.streamUrl
    else url
  }

  /** The size the set-up leaves: the record's; on a fresh start with a
      picked stream, the `Content-Length` (0 when it is absent) once the
      HEAD answers without error and with no unreadable value; else the old
      size. */
  function SetupSize(record: Option<ProgressRecord>, choice: StreamChoice, size: SizeReply, totalSize: int): int {
    if record.Some? then record.value.totalSize
    else if choice.Picked? && size.Sized? && size.contentLength.Length? then size.contentLength.n
    else if choice.Picked? && size.Sized? && size.contentLength.Absent? then 0
    else totalSize
  }

  /** The chunks the set-up leaves: the record's, or on a fresh start the
      fresh plan once a non-zero size is read (a negative one included),
      else the old chunks. */
  function SetupChunks(record: Option<ProgressRecord>, choice: StreamChoice, size: SizeReply,
                       chunks: seq<Chunk>, numThreads: Pos): seq<Chunk>
  {
    if record.Some? then record.value.chunks
    else if choice.Picked? && size.Sized? && size.contentLength.Length? && size.contentLength.n != 0
    then FreshChunks(size.contentLength.n, numThreads)
    else chunks
  }

  /** The files the set-up leaves: a fresh start that reads a non-zero size
      opens the temp file with 'wb', and preallocates it with zeros when the
      size is positive (a negative one makes the seek raise). */
  function SetupFiles(record: Option<ProgressRecord>, choice: StreamChoice, size: SizeReply,
                      files: map<string, seq<Byte>>, temp: string): map<string, seq<Byte>>
  {
    if record.None? && choice.Picked? && size.Sized? && size.contentLength.Length? && size.contentLength.n != 0
    then files[temp := if size.contentLength.n > 0 then Zeros(size.contentLength.n) else []]
    else files
  }

  /** Chunk i's bytes of `content` under the fresh plan for `numThreads`
      chunks (empty for a chunk that covers nothing). */
  function ChunkBytes(content: seq<Byte>, numThreads: Pos, i: nat): seq<Byte> {
    var ch := PlannedChunk(|content|, numThreads, i);
    if 0 <= ch.start <= ch.end + 1 <= |content| then content[ch.start..ch.end + 1] else []
  }

  lemma {:induction false} MulMono(a: nat, b: nat, c: nat)
    requires a <= b
    ensures a * c <= b * c
    decreases b - a
  {
    if a < b {
      MulMono(a, b - 1, c);
      assert b * c == (b - 1) * c + c;
    }
  }

  /** How far into the file the fresh plan's chunks 0 to n-1 reach. */
  function Reach(totalSize: nat, numThreads: Pos, n: nat): (r: nat)
    ensures r <= totalSize
  {
    if n < numThreads then
      MulMono(n, numThreads, totalSize / numThreads);
      n * (totalSize / numThreads)
    else totalSize
  }

  /** Chunk m of a fresh plan starts where chunks 0 to m-1 reach; it
      either covers nothing (a zero chunk size, not the last chunk) or
      ends inside the file, and chunks 0 to m then reach its end. */
  lemma PlanStep(totalSize: nat, numThreads: Pos, m: nat)
    requires 0 < totalSize && m < numThreads
    ensures var ch := PlannedChunk(totalSize, numThreads, m);
            && ch.start == Reach(totalSize, numThreads, m)
            && (ch.start > ch.end ==> m < numThreads - 1 && Reach(totalSize, numThreads, m + 1) == ch.start)
            && (ch.start <= ch.end ==> ch.end + 1 <= totalSize && Reach(totalSize, numThreads, m + 1) == ch.end + 1)
  {
    var c := totalSize / numThreads;
    MulMono(m + 1, numThreads, c);
    assert (m + 1) * c == m * c + c;
    assert c * numThreads <= totalSize;
    if m * c > m * c + c - 1 {
      assert c == 0;
    }
  }

  /** Writing bytes lo to hi-1 of `content` into a file that holds
      `content` up to lo and zeros after it extends the prefix to hi. */
  lemma WriteExtendsPrefix(content: seq<Byte>, lo: nat, hi: nat)
    requires lo < hi <= |content|
    ensures WriteAt(content[..lo] + Zeros(|content| - lo), lo, content[lo..hi]) == content[..hi] + Zeros(|content| - hi)
  {
    var buf := content[..lo] + Zeros(|content| - lo);
    assert buf[..lo] == content[..lo];
    assert (if hi < |buf| then buf[hi..] else []) == Zeros(|content| - hi);
    assert content[..lo] + content[lo..hi] == content[..hi];
  }

  /** The state of a fresh download after chunks 0 to n-1 have each met
      their bytes of `content`. */
  predicate Filled(t: Transfer, content: seq<Byte>, numThreads: Pos, temp: string, n: nat)
    requires n <= numThreads
  {
    && |t.chunks| == numThreads && t.chunks[n..] == FreshChunks(|content|, numThreads)[n..]
    && temp in t.files && !t.stopped
    && t.files[temp] == content[..Reach(|content|, numThreads, n)] + Zeros(|content| - Reach(|content|, numThreads, n))
  }

  /** Chunk m answered by one block holding its bytes of `content` extends
      the filled prefix to its end. */
  lemma FillStep(t: Transfer, content: seq<Byte>, numThreads: Pos, temp: string, reply: ChunkReply, m: nat)
    requires |content| > 0 && m < numThreads && Filled(t, content, numThreads, temp, m)
    requires reply == Stream([ChunkBytes(content, numThreads, m)], None)
    ensures Filled(ChunkStep(t, temp, m, reply), content, numThreads, temp, m + 1)
  {
    var ch := PlannedChunk(|content|, numThreads, m);
    assert t.chunks[m] == t.chunks[m..][0] == ch;
    PlanStep(|content|, numThreads, m);
    if ch.start <= ch.end {
      var data := content[ch.start..ch.end + 1];
      var rest: seq<seq<Byte>> := [];
      assert [data][1..] == rest;
      assert Flatten(StreamedBlocks(false, [data], None)) == data;
      WriteExtendsPrefix(content, ch.start, ch.end + 1);
      assert ChunkStep(t, temp, m, reply).chunks[m + 1..] == t.chunks[m..][1..];
    }
  }

  /** When every chunk of a fresh plan is answered by one block holding its
      bytes of `content`, the chunks 0 to n-1 fill the zero-filled temp file
      with `content` up to their reach, leave the later chunks as planned
      and never set the stop event. */
  lemma {:induction false} FreshChunksWriteContent(content: seq<Byte>, numThreads: Pos, files: map<string, seq<Byte>>,
                                                   downloadedSize: int, temp: string, replies: seq<ChunkReply>, n: nat)
    requires |content| > 0 && n <= numThreads && |replies| >= numThreads
    requires forall i :: 0 <= i < numThreads ==> replies[i] == Stream([ChunkBytes(content, numThreads, i)], None)
    ensures Filled(ChunksUpTo(StartState(None, files, downloadedSize, false, temp, |content|, numThreads), temp, replies, n),
                   content, numThreads, temp, n)
  {
    var t0 := StartState(None, files, downloadedSize, false, temp, |content|, numThreads);
    if n == 0 {
      assert content[..0] + Zeros(|content|) == Zeros(|content|);
    } else {
      FreshChunksWriteContent(content, numThreads, files, downloadedSize, temp, replies, n - 1);
      FillStep(ChunksUpTo(t0, temp, replies, n - 1), content, numThreads, temp, replies[n - 1], n - 1);
    }
  }

  /** A fresh download whose every chunk is answered with its bytes of
      `content` leaves exactly `content` in the temp file, unstopped. */
  lemma ContentRepliesRebuildFile(content: seq<Byte>, numThreads: Pos, files: map<string, seq<Byte>>,
                                  downloadedSize: int, temp: string, replies: seq<ChunkReply>)
    requires |content| > 0 && |replies| >= numThreads
    requires forall i :: 0 <= i < numThreads ==> replies[i] == Stream([ChunkBytes(content, numThreads, i)], None)
    ensures var t := ChunksUpTo(StartState(None, files, downloadedSize, false, temp, |content|, numThreads), temp, replies, numThreads);
            && temp in t.files && !t.stopped && t.files[temp] == content
  {
    FreshChunksWriteContent(content, numThreads, files, downloadedSize, temp, replies, numThreads);
    FilledAll(ChunksUpTo(StartState(None, files, downloadedSize, false, temp, |content|, numThreads), temp, replies, numThreads),
              content, numThreads, temp);
  }

  /** Once every chunk is filled, the temp file is the whole content. */
  lemma FilledAll(t: Transfer, content: seq<Byte>, numThreads: Pos, temp: string)
    requires Filled(t, content, numThreads, temp, numThreads)
    ensures temp in t.files && !t.stopped && t.files[temp] == content
  {
    var r := Reach(|content|, numThreads, numThreads);
    assert r == |content|;
    assert content[..r] == content;
    assert Zeros(|content| - r) == [];
  }

  class YoutubeDownloader {
    const url: string
    var outputPath: string
    const numThreads: Pos
    const formatType: string
    var tempFile: string
    const progressFile: string
    /** The `stopped` event. */
    var stopped: bool
    var chunks: seq<Chunk>
    var totalSize: int
    var downloadedSize: int
    var title: string
    var downloadUrl: string
    // The disk: binary files by path, and the progress file's record.
    var files: map<string, seq<Byte>>
    var progress: Option<ProgressRecord>

    /** The part of the state the chunk workers change. */
    function CurrentTransfer(): Transfer
      reads this`files, this`chunks, this`downloadedSize, this`stopped
    {
      Transfer(files, chunks, downloadedSize, stopped)
    }

    /** `__init__`, on a disk holding the given files and progress record. */
    constructor (url: string, outputPath: string, numThreads: Pos, formatType: string,
                 progressOnDisk: Option<ProgressRecord>, filesOnDisk: map<string, seq<Byte>>)
      ensures this.url == url && this.outputPath == outputPath && this.numThreads == numThreads
      ensures this.formatType == formatType
      ensures tempFile == outputPath + ".tmp" && progressFile == outputPath + ".progress"
      ensures !stopped && chunks == [] && totalSize == 0 && downloadedSize == 0
      ensures title == "" && downloadUrl == ""
      ensures files == filesOnDisk && progress == progressOnDisk
    {
      this.url := url;
      this.outputPath := outputPath;
      this.numThreads := numThreads;
      this.formatType := formatType;
      tempFile := outputPath + ".tmp";
      progressFile := outputPath + ".progress";
      stopped := false;
      chunks := [];
      totalSize := 0;
      downloadedSize := 0;
      title := "";
      downloadUrl := "";
      files := filesOnDisk;
      progress := progressOnDisk;
    }

    /** `select_stream`: the picked stream's url and the title; false (the
        source raises) when the site fails or offers no stream. */
    method SelectStream(choice: StreamChoice) returns (ok: bool)
      modifies this`downloadUrl, this`title
      ensures ok <==> choice.Picked?
      ensures ok ==> downloadUrl == choice.streamUrl && title == choice.title
      ensures !ok ==> downloadUrl == old(downloadUrl) && title == old(title)
    {
      if !choice.Picked? {
        return false;
      }
      downloadUrl := choice.streamUrl;
      title := choice.title;
      return true;
    }

    /** `_get_total_size`: false (the source raises) on an error status, a
        length that is not a number, and a missing or zero length; a
        missing length still sets the size to 0, and a negative length
        passes. */
    method GetTotalSize(reply: SizeReply) returns (ok: bool)
      modifies this`totalSize
      ensures ok <==> reply.Sized? && reply.contentLength.Length? && reply.contentLength.n != 0
      ensures reply.Sized? && reply.contentLength.Length? ==> totalSize == reply.contentLength.n
      ensures reply.Sized? && reply.contentLength.Absent? ==> totalSize == 0
      ensures reply.HeadError? || (reply.Sized? && reply.contentLength.NotANumber?) ==> totalSize == old(totalSize)
    {
      if reply.HeadError? || reply.contentLength.NotANumber? {
        return false;
      }
      totalSize := if reply.contentLength.Length? then reply.contentLength.n else 0;
      return totalSize != 0;
    }

    /** `_initialize_chunks`: `numThreads` chunks of the fresh plan, appended
        one by one. */
    method InitializeChunks()
      modifies this`chunks
      ensures chunks == FreshChunks(totalSize, numThreads)
    {
      chunks := [];
      var i := 0;
      while i < numThreads
        invariant i <= numThreads
        invariant chunks == FreshChunks(totalSize, numThreads)[..i]
      {
        chunks := chunks + [PlannedChunk(totalSize, numThreads, i)];
        i := i + 1;
      }
    }

    /** `_load_progress`: with a progress file, its record gives the size,
        the chunks, the paths and the stream url, and the byte count becomes
        the sum of the chunks' counters. */
    method LoadProgress() returns (resumed: bool)
      modifies this`totalSize, this`chunks, this`tempFile, this`outputPath, this`downloadUrl, this`downloadedSize
      ensures resumed <==> progress.Some?
      ensures resumed ==>
                var rec := progress.value;
                && totalSize == rec.totalSize && chunks == rec.chunks && tempFile == rec.tempFile
                && outputPath == rec.outputPath && downloadUrl == rec.url
                && downloadedSize == DownloadedSum(chunks)
      ensures !resumed ==>
                totalSize == old(totalSize) && chunks == old(chunks) && tempFile == old(tempFile)
                && outputPath == old(outputPath) && downloadUrl == old(downloadUrl)
                && downloadedSize == old(downloadedSize)
    {
      if progress.None? {
        return false;
      }
      var rec := progress.value;
      totalSize := rec.totalSize;
      chunks := rec.chunks;
      tempFile := rec.tempFile;
      outputPath := rec.outputPath;
      downloadUrl := rec.url;
      downloadedSize := SumDownloaded(chunks);
      return true;
    }

    /** `_save_progress`: the progress file holds the current record. */
    method SaveProgress()
      modifies this`progress
      ensures progress == Some(ProgressRecord(downloadUrl, totalSize, chunks, outputPath, tempFile))
    {
      progress := Some(ProgressRecord(downloadUrl, totalSize, chunks, outputPath, tempFile));
    }

    /** One block of `_download_chunk`, under the lock: `data` written at
        `pos` and counted in chunk `i` and in the total. */
    method WriteBlock(i: nat, pos: nat, data: seq<Byte>)
      requires i < |chunks| && tempFile in files
      modifies this`files, this`chunks, this`downloadedSize
      ensures files == old(files)[tempFile := WriteAt(old(files)[tempFile], pos, data)]
      ensures chunks == old(chunks)[i := old(chunks[i]).(downloaded := old(chunks[i]).downloaded + |data|)]
      ensures downloadedSize == old(downloadedSize) + |data|
    {
      files := files[tempFile := WriteAt(files[tempFile], pos, data)];
      chunks := chunks[i := chunks[i].(downloaded := chunks[i].downloaded + |data|)];
      downloadedSize := downloadedSize + |data|;
    }

    /** `_download_chunk`: the ranged request from the chunk's resume
        offset, and, when it gets a stream and the temp file opens and seeks,
        the streamed blocks written at consecutive offsets from there, each
        block counted in the chunk's counter and in the running total. A
        failed request, a missing temp file or a negative offset (the
        source's thread dies on it) leave everything as it was. */
    method DownloadChunk(i: nat, reply: ChunkReply) returns (req: Option<(int, int)>)
      requires i < |chunks|
      modifies this`files, this`chunks, this`downloadedSize, this`stopped
      ensures req == ChunkRange(old(chunks[i]))
      ensures CurrentTransfer() == ChunkStep(old(CurrentTransfer()), tempFile, i, reply)
      ensures |chunks| == |old(chunks)|
      ensures tempFile in old(files) ==> tempFile in files && |files[tempFile]| >= |old(files)[tempFile]|
      ensures downloadedSize - DownloadedSum(chunks) == old(downloadedSize - DownloadedSum(chunks))
      ensures var ch := old(chunks[i]);
              if req.Some? && reply.Stream? && tempFile in old(files) && req.value.0 >= 0 then
                var data := Flatten(StreamedBlocks(old(stopped), reply.blocks, reply.stopBefore));
                && files == old(files)[tempFile := WriteAt(old(files)[tempFile], req.value.0, data)]
                && chunks == old(chunks)[i := ch.(downloaded := ch.downloaded + |data|)]
                && downloadedSize == old(downloadedSize) + |data|
                && stopped == StoppedAfter(old(stopped), reply.blocks, reply.stopBefore)
              else
                files == old(files) && chunks == old(chunks)
                && downloadedSize == old(downloadedSize) && stopped == old(stopped)
    {
      var ch := chunks[i];
      var start := ch.start + ch.downloaded;
      if start > ch.end {
        return None;
      }
      req := Some((start, ch.end));
      if !reply.Stream? || tempFile !in files || start < 0 {
        return;
      }
      ghost var data := Flatten(StreamedBlocks(stopped, reply.blocks, reply.stopBefore));
      WriteAtLength(files[tempFile], start, data);
      DownloadedSumUpdate(chunks, i, |data|);
      WriteBlocks(i, start, reply.blocks, reply.stopBefore);
    }

    /** The `iter_content` loop of `_download_chunk`: before each block the
        stop event is checked; a block is written at the current offset and
        counted in chunk `i` and in the total. `stopBefore` is the block at
        which a pause sets the event. */
    method WriteBlocks(i: nat, start: nat, blocks: seq<seq<Byte>>, stopBefore: Option<nat>)
      requires i < |chunks| && tempFile in files
      modifies this`files, this`chunks, this`downloadedSize, this`stopped
      ensures var data := Flatten(StreamedBlocks(old(stopped), blocks, stopBefore));
              && files == old(files)[tempFile := WriteAt(old(files)[tempFile], start, data)]
              && chunks == old(chunks)[i := old(chunks[i]).(downloaded := old(chunks[i]).downloaded + |data|)]
              && downloadedSize == old(downloadedSize) + |data|
              && stopped == StoppedAfter(old(stopped), blocks, stopBefore)
    {
      ghost var buf0 := files[tempFile];
      ghost var ch := chunks[i];
      ghost var written: seq<Byte> := [];
      ghost var broke := false;
      var pos := start;
      var j := 0;
      while j < |blocks|
        invariant j <= |blocks| && (old(stopped) ==> j == 0)
        invariant stopBefore.Some? ==> j <= stopBefore.value
        invariant stopped == (old(stopped) || broke)
        invariant broke ==> j < |blocks| && stopBefore == Some(j)
        invariant written == Flatten(blocks[..j]) && pos == start + |written|
        invariant files == old(files)[tempFile := WriteAt(buf0, start, written)]
        invariant chunks == old(chunks)[i := ch.(downloaded := ch.downloaded + |written|)]
        invariant downloadedSize == old(downloadedSize) + |written|
      {
        if stopped || stopBefore == Some(j) {
          broke := !old(stopped);
          stopped := true;
          break;
        }
        var data := blocks[j];
        WriteAtTwice(buf0, start, written, data);
        FlattenSnoc(blocks[..j], data);
        assert blocks[..j + 1] == blocks[..j] + [data];
        WriteBlock(i, pos, data);
        pos := pos + |data|;
        written := written + data;
        j := j + 1;
      }
      StreamCut(old(stopped), blocks, stopBefore, j, broke || (old(stopped) && j < |blocks|));
    }

    /** `_combine_chunks`: an existing output is removed, then the temp file
        is renamed to the output (false, the source raises, when there is no
        temp file to rename) and the progress file is removed. */
    method CombineChunks() returns (ok: bool)
      modifies this`files, this`progress
      ensures var kept := old(files) - {outputPath};
              && (ok <==> tempFile in kept)
              && (ok ==> files == (kept - {tempFile})[outputPath := kept[tempFile]] && progress == None)
              && (!ok ==> files == kept && progress == old(progress))
    {
      if outputPath in files {
        files := files - {outputPath};
      }
      if tempFile !in files {
        return false;
      }
      var content := files[tempFile];
      files := (files - {tempFile})[outputPath := content];
      progress := None;
      return true;
    }

    /** The set-up half of `download`: resume from the progress record
        (selecting the stream again only when the record has no url), or
        select the stream, get the size, plan the chunks and preallocate the
        temp file with `totalSize` zero bytes (a negative size makes the seek
        raise). False where the source raises. */
    method Prepare(choice: StreamChoice, size: SizeReply) returns (ok: bool, resumed: bool)
      modifies this`totalSize, this`chunks, this`tempFile, this`outputPath, this`downloadUrl,
               this`downloadedSize, this`title, this`files
      ensures resumed <==> old(progress).Some?
      ensures resumed ==>
                var rec := old(progress).value;
                && (ok <==> rec.url != "" || choice.Picked?)
                && totalSize == rec.totalSize && chunks == rec.chunks && tempFile == rec.tempFile
                && outputPath == rec.outputPath && downloadedSize == DownloadedSum(chunks)
                && downloadUrl == (if rec.url != "" || !choice.Picked? then rec.url else choice.streamUrl)
                && files == old(files)
      ensures !resumed ==>
                && (ok <==> choice.Picked? && size.Sized? && size.contentLength.Length? && size.contentLength.n > 0)
                && tempFile == old(tempFile) && outputPath == old(outputPath)
                && downloadedSize == old(downloadedSize)
      ensures !resumed && ok ==>
                && downloadUrl == choice.streamUrl && totalSize == size.contentLength.n
                && chunks == FreshChunks(totalSize, numThreads) && DownloadedSum(chunks) == 0
                && files == old(files)[tempFile := Zeros(totalSize)]
      ensures !resumed && !ok ==>
                files == if choice.Picked? && size.Sized? && size.contentLength.Length? && size.contentLength.n < 0
                         then old(files)[tempFile := []] else old(files)
      ensures ok == SetupOk(old(progress), choice, size)
      ensures downloadUrl == SetupUrl(old(progress), choice, old(downloadUrl))
      ensures totalSize == SetupSize(old(progress), choice, size, old(totalSize))
      ensures chunks == SetupChunks(old(progress), choice, size, old(chunks), numThreads)
      ensures files == SetupFiles(old(progress), choice, size, old(files), old(tempFile))
    {
      resumed := LoadProgress();
      if resumed {
        ok := true;
        if downloadUrl == "" {
          ok := SelectStream(choice);
        }
        return;
      }
      ok := SelectStream(choice);
      if !ok {
        return;
      }
      ok := GetTotalSize(size);
      if !ok {
        return;
      }
      InitializeChunks();
      FreshChunksNothingDownloaded(totalSize, numThreads, 0);
      assert chunks[0..] == chunks;
      if totalSize < 0 {
        // Opening with 'wb' empties the temp file; the seek to
        // `totalSize - 1` then raises.
        files := files[tempFile := []];
        ok := false;
        return;
      }
      files := files[tempFile := Zeros(totalSize)];
    }

    /** The worker half of `download`, run one chunk after another:
        `replies[i]` answers chunk i, and after chunk i a periodic save
        happens when i is in `saves`. */
    method RunChunks(replies: seq<ChunkReply>, saves: set<nat>)
      modifies this`files, this`chunks, this`downloadedSize, this`stopped, this`progress
      ensures |chunks| == |old(chunks)|
      ensures downloadedSize - DownloadedSum(chunks) == old(downloadedSize - DownloadedSum(chunks))
      ensures tempFile in old(files) ==> tempFile in files && |files[tempFile]| >= |old(files)[tempFile]|
      ensures old(stopped) ==> stopped
      ensures (forall k :: 0 <= k < |chunks| ==> k !in saves) ==> progress == old(progress)
      ensures (|chunks| - 1) in saves ==> progress == Some(ProgressRecord(downloadUrl, totalSize, chunks, outputPath, tempFile))
      ensures CurrentTransfer() == ChunksUpTo(old(CurrentTransfer()), tempFile, replies, |old(chunks)|)
      ensures progress == SavedProgress(old(progress), downloadUrl, totalSize, outputPath, tempFile,
                                        old(CurrentTransfer()), replies, saves, |old(chunks)|)
    {
      ghost var t0 := CurrentTransfer();
      var i := 0;
      while i < |chunks|
        invariant i <= |chunks| == |t0.chunks|
        invariant CurrentTransfer() == ChunksUpTo(t0, tempFile, replies, i)
        invariant progress == SavedProgress(old(progress), downloadUrl, totalSize, outputPath, tempFile, t0, replies, saves, i)
      {
        var _ := DownloadChunk(i, ReplyFor(replies, i));
        if i in saves {
          SaveProgress();
        }
        i := i + 1;
      }
      ChunksUpToKeeps(t0, tempFile, replies, i);
    }

    /** `download`: set up, run every chunk, then combine when the stop
        event is not set (the download is complete) and leave everything
        for a later resume when it is (paused). Any failure sets the event
        and saves the progress record. */
    method Download(choice: StreamChoice, size: SizeReply, replies: seq<ChunkReply>, saves: set<nat>)
      returns (ghost outcome: Outcome)
      modifies this
      ensures outcome.Completed? <==> !stopped
      ensures outcome.Failed? ==> progress == Some(ProgressRecord(downloadUrl, totalSize, chunks, outputPath, tempFile))
      ensures downloadUrl == SetupUrl(old(progress), choice, old(downloadUrl))
      ensures totalSize == SetupSize(old(progress), choice, size, old(totalSize))
      ensures tempFile == if old(progress).Some? then old(progress).value.tempFile else old(tempFile)
      ensures outputPath == if old(progress).Some? then old(progress).value.outputPath else old(outputPath)
      ensures outcome.Failed? && !SetupOk(old(progress), choice, size) ==>
                && chunks == SetupChunks(old(progress), choice, size, old(chunks), numThreads)
                && downloadedSize == (if old(progress).Some? then DownloadedSum(chunks) else old(downloadedSize))
                && files == SetupFiles(old(progress), choice, size, old(files), old(tempFile))
      ensures outcome.Failed? && SetupOk(old(progress), choice, size) ==>
                var t0 := StartState(old(progress), old(files), old(downloadedSize), old(stopped), tempFile, totalSize, numThreads);
                var x := ChunksUpTo(t0, tempFile, replies, |chunks|);
                && chunks == x.chunks && downloadedSize == x.downloadedSize
                && tempFile !in x.files - {outputPath} && files == x.files - {outputPath}
      ensures outcome.Completed? ==> progress == None && tempFile !in files && outputPath in files
      ensures old(progress).None? && !outcome.Failed? ==>
                && choice.Picked? && downloadUrl == choice.streamUrl
                && size.Sized? && size.contentLength.Length? && totalSize == size.contentLength.n > 0
                && |chunks| == numThreads
      ensures old(progress).None? && outcome.Completed? ==> |files[outputPath]| >= totalSize
      ensures !outcome.Failed? ==> downloadedSize - DownloadedSum(chunks) == (if old(progress).Some? then 0 else old(downloadedSize))
      ensures !outcome.Failed? ==>
                var t0 := StartState(old(progress), old(files), old(downloadedSize), old(stopped), tempFile, totalSize, numThreads);
                var x := ChunksUpTo(t0, tempFile, replies, |chunks|);
                && chunks == x.chunks && downloadedSize == x.downloadedSize && stopped == x.stopped
                && (outcome.Paused? ==>
                      && files == x.files
                      && progress == SavedProgress(old(progress), downloadUrl, totalSize, outputPath, tempFile,
                                                   t0, replies, saves, |chunks|))
                && (outcome.Completed? ==>
                      && tempFile in x.files - {outputPath}
                      && files == ((x.files - {outputPath}) - {tempFile})[outputPath := x.files[tempFile]])
    {
      var ok, resumed := Prepare(choice, size);
      if !ok {
        outcome := Fail();
        return;
      }
      RunChunks(replies, saves);
      if stopped {
        return Paused;
      }
      ok := CombineChunks();
      if !ok {
        outcome := Fail();
        return;
      }
      outcome := Completed;
    }

    /** The `except` branch of `download`. */
    method Fail() returns (ghost outcome: Outcome)
      modifies this`stopped, this`progress
      ensures outcome == Failed && stopped
      ensures progress == Some(ProgressRecord(downloadUrl, totalSize, chunks, outputPath, tempFile))
    {
      stopped := true;
      SaveProgress();
      outcome := Failed;
    }

    /** A save followed by a load (a failed `download` and the next one)
        gives back the same size, chunks, paths and url, with the byte count
        equal to the chunks' sum. */
    method SaveThenLoad() returns (resumed: bool)
      modifies this`progress, this`totalSize, this`chunks, this`tempFile, this`outputPath,
               this`downloadUrl, this`downloadedSize
      ensures resumed
      ensures totalSize == old(totalSize) && chunks == old(chunks) && tempFile == old(tempFile)
              && outputPath == old(outputPath) && downloadUrl == old(downloadUrl)
      ensures downloadedSize == DownloadedSum(chunks)
    {
      SaveProgress();
      resumed := LoadProgress();
    }
  }

  /** `sum(chunk['downloaded'] for chunk in chunks)`. */
  method SumDownloaded(cs: seq<Chunk>) returns (total: int)
    ensures total == DownloadedSum(cs)
  {
    total := 0;
    var i := 0;
    while i < |cs|
      invariant i <= |cs|
      invariant total + DownloadedSum(cs[i..]) == DownloadedSum(cs)
    {
      assert cs[i..][1..] == cs[i + 1..];
      total := total + cs[i].downloaded;
      i := i + 1;
    }
  }
}
