/** internal/deploysource/deploysource.go: RunSourceUpload's tail and the chunked declare.
    The client's answers are parameters; the calls it received are the log. */
module SourceUpload {
  import UploadPool

  const DECLARE_CHUNK_FILES: nat := 800

  datatype File = File(path: string, sha256: string, size: nat)

  datatype Pack = Pack(files: seq<File>, composePath: string)

  datatype Chunk = Whole | Part(part: nat, totalParts: nat, totalBytes: nat)

  datatype Verify = NoVerify | VerifyFiles(files: seq<(string, string)>)

  /** Uploads(c): the PUTs of the uploads that declare call c presigned. */
  datatype Call =
    | Declare(files: seq<File>, composePath: string, chunk: Chunk)
    | Uploads(chunk: Chunk)
    | Complete(verify: Verify)

  /** Which calls succeed: declare and uploadAll by call, and complete. */
  datatype Answers = Answers(declareOk: Chunk -> bool, uploadOk: Chunk -> bool, completeOk: bool)

  function Min(a: int, b: int): int {
    if a < b then a else b
  }

  function TotalBytes(files: seq<File>): nat {
    if files == [] then 0 else TotalBytes(files[..|files| - 1]) + files[|files| - 1].size
  }

  /** The total of a list is the sizes of its parts together. */
  lemma {:induction false} TotalBytesAppend(a: seq<File>, b: seq<File>)
    ensures TotalBytes(a + b) == TotalBytes(a) + TotalBytes(b)
    ensures |b| == 1 ==> TotalBytes(b) == b[0].size
  {
    if b == [] {
      assert a + b == a;
    } else {
      var n := |b| - 1;
      TotalBytesAppend(a, b[..n]);
      assert (a + b)[..|a + b| - 1] == a + b[..n];
    }
  }

  function Projection(files: seq<File>): (r: seq<(string, string)>)
    ensures |r| == |files|
    ensures forall i | 0 <= i < |files| :: r[i] == (files[i].path, files[i].sha256)
  {
    seq(|files|, i requires 0 <= i < |files| => (files[i].path, files[i].sha256))
  }

  function TotalParts(n: nat): nat {
    (n + DECLARE_CHUNK_FILES - 1) / DECLARE_CHUNK_FILES
  }

  /** The files, chunk record and compose path of part k. */
  function Slice(pack: Pack, k: nat): seq<File>
    requires k < TotalParts(|pack.files|)
  {
    pack.files[k * DECLARE_CHUNK_FILES..Min((k + 1) * DECLARE_CHUNK_FILES, |pack.files|)]
  }

  function PartOf(pack: Pack, k: nat): Chunk {
    Part(k, TotalParts(|pack.files|), TotalBytes(pack.files))
  }

  function PartDeclare(pack: Pack, k: nat): Call
    requires k < TotalParts(|pack.files|)
  {
    Declare(Slice(pack, k), if k == TotalParts(|pack.files|) - 1 then pack.composePath else "", PartOf(pack, k))
  }

  /** Both calls of each of the first k parts. */
  function PartsDone(pack: Pack, k: nat): (r: seq<Call>)
    requires k <= TotalParts(|pack.files|)
    ensures |r| == 2 * k
  {
    if k == 0 then [] else PartsDone(pack, k - 1) + [PartDeclare(pack, k - 1), Uploads(PartOf(pack, k - 1))]
  }

  predicate AllWentThrough(pack: Pack, answers: Answers, k: nat) {
    forall i | 0 <= i < k :: answers.declareOk(PartOf(pack, i)) && answers.uploadOk(PartOf(pack, i))
  }

  /** The calls of a chunked upload whose first failing part is k; k == TotalParts means every
      part went through. */
  predicate ChunkedLog(pack: Pack, answers: Answers, k: nat, log: seq<Call>)
    requires k <= TotalParts(|pack.files|)
  {
    && AllWentThrough(pack, answers, k)
    && if k == TotalParts(|pack.files|) then log == PartsDone(pack, k) + [Complete(VerifyFiles(Projection(pack.files)))]
       else if !answers.declareOk(PartOf(pack, k)) then log == PartsDone(pack, k) + [PartDeclare(pack, k)]
       else !answers.uploadOk(PartOf(pack, k)) && log == PartsDone(pack, k + 1)
  }

  method SumSizes(files: seq<File>) returns (totalBytes: nat)
    ensures totalBytes == TotalBytes(files)
  {
    totalBytes := 0;
    for i := 0 to |files|
      invariant totalBytes == TotalBytes(files[..i])
    {
      assert files[..i + 1][..i] == files[..i];
      totalBytes := totalBytes + files[i].size;
    }
    assert files[..|files|] == files;
  }

  /** One turn of the part loop: declare the slice, then upload it. */
  method RunPart(pack: Pack, answers: Answers, part: nat, totalParts: nat, totalBytes: nat, log: seq<Call>)
    returns (newLog: seq<Call>, ok: bool, slice: seq<File>)
    requires part < totalParts == TotalParts(|pack.files|) && totalBytes == TotalBytes(pack.files)
    ensures slice == Slice(pack, part)
    ensures var chunk := PartOf(pack, part);
            && ok == (answers.declareOk(chunk) && answers.uploadOk(chunk))
            && newLog == log + [PartDeclare(pack, part)] + (if answers.declareOk(chunk) then [Uploads(chunk)] else [])
  {
    var lo, hi := part * DECLARE_CHUNK_FILES, Min((part + 1) * DECLARE_CHUNK_FILES, |pack.files|);
    slice := pack.files[lo..hi];
    var chunk := Part(part, totalParts, totalBytes);
    var composePath := if part == totalParts - 1 then pack.composePath else "";
    newLog := log + [Declare(slice, composePath, chunk)];
    if !answers.declareOk(chunk) {
      return newLog, false, slice;
    }
    newLog := newLog + [Uploads(chunk)];
    ok := answers.uploadOk(chunk);
  }

  method RunChunkedSourceUpload(pack: Pack, answers: Answers) returns (log: seq<Call>, success: bool)
    ensures exists k | 0 <= k <= TotalParts(|pack.files|) :: ChunkedLog(pack, answers, k, log)
    ensures success <==> answers.completeOk && ChunkedLog(pack, answers, TotalParts(|pack.files|), log)
  {
    var totalParts := (|pack.files| + DECLARE_CHUNK_FILES - 1) / DECLARE_CHUNK_FILES;
    var totalBytes := SumSizes(pack.files);
    var verify: seq<(string, string)> := [];
    log := [];
    for part := 0 to totalParts
      invariant log == PartsDone(pack, part)
      invariant verify == Projection(pack.files[..Min(part * DECLARE_CHUNK_FILES, |pack.files|)])
      invariant AllWentThrough(pack, answers, part)
    {
      ghost var before := log;
      var ok, slice;
      log, ok, slice := RunPart(pack, answers, part, totalParts, totalBytes, log);
      PartLog(pack, answers, part, before, log, ok);
      if !ok {
        return log, false;
      }
      verify := verify + Projection(slice);
      VerifyNext(pack, part);
    }
    assert pack.files[..|pack.files|] == pack.files;
    log := log + [Complete(VerifyFiles(verify))];
    assert ChunkedLog(pack, answers, totalParts, log);
    success := answers.completeOk;
  }

  /** The log after a part: the next prefix, or that of an upload failing at this part. */
  lemma PartLog(pack: Pack, answers: Answers, part: nat, before: seq<Call>, log: seq<Call>, ok: bool)
    requires part < TotalParts(|pack.files|) && before == PartsDone(pack, part) && AllWentThrough(pack, answers, part)
    requires var chunk := PartOf(pack, part);
             && ok == (answers.declareOk(chunk) && answers.uploadOk(chunk))
             && log == before + [PartDeclare(pack, part)] + (if answers.declareOk(chunk) then [Uploads(chunk)] else [])
    ensures ok ==> log == PartsDone(pack, part + 1) && AllWentThrough(pack, answers, part + 1)
    ensures !ok ==> ChunkedLog(pack, answers, part, log)
  {
  }

  lemma VerifyNext(pack: Pack, part: nat)
    requires part < TotalParts(|pack.files|)
    ensures Projection(pack.files[..Min((part + 1) * DECLARE_CHUNK_FILES, |pack.files|)])
         == Projection(pack.files[..Min(part * DECLARE_CHUNK_FILES, |pack.files|)]) + Projection(Slice(pack, part))
  {
  }

  // ----- what a successful chunked upload told the platform ------------------------------------

  function Declared(log: seq<Call>): seq<File> {
    if log == [] then []
    else Declared(log[..|log| - 1]) + (if log[|log| - 1].Declare? then log[|log| - 1].files else [])
  }

  lemma {:induction false} PartsDeclarePrefix(pack: Pack, k: nat)
    requires k <= TotalParts(|pack.files|)
    ensures Declared(PartsDone(pack, k)) == pack.files[..Min(k * DECLARE_CHUNK_FILES, |pack.files|)]
  {
    if k > 0 {
      PartsDeclarePrefix(pack, k - 1);
      SliceExtends(pack, k - 1);
      DeclaredNext(PartsDone(pack, k - 1), PartDeclare(pack, k - 1), Uploads(PartOf(pack, k - 1)));
    }
  }

  lemma SliceExtends(pack: Pack, k: nat)
    requires k < TotalParts(|pack.files|)
    ensures pack.files[..Min((k + 1) * DECLARE_CHUNK_FILES, |pack.files|)]
         == pack.files[..Min(k * DECLARE_CHUNK_FILES, |pack.files|)] + Slice(pack, k)
  {
  }

  lemma DeclaredNext(before: seq<Call>, d: Call, u: Call)
    requires d.Declare? && u.Uploads?
    ensures Declared(before + [d, u]) == Declared(before) + d.files
  {
    var log := before + [d, u];
    assert log[..|log| - 1] == before + [d];
    assert (before + [d])[..|before|] == before;
  }

  lemma {:induction false} PartsDoneAt(pack: Pack, k: nat, i: nat)
    requires i < k <= TotalParts(|pack.files|)
    ensures PartsDone(pack, k)[2 * i] == PartDeclare(pack, i)
    ensures PartsDone(pack, k)[2 * i + 1] == Uploads(PartOf(pack, i))
  {
    if i < k - 1 { PartsDoneAt(pack, k - 1, i); }
  }

  lemma DeclaredAll(pack: Pack, log: seq<Call>)
    requires log == PartsDone(pack, TotalParts(|pack.files|)) + [Complete(VerifyFiles(Projection(pack.files)))]
    ensures Declared(log) == pack.files
  {
    var parts := TotalParts(|pack.files|);
    PartsDeclarePrefix(pack, parts);
    assert log[..|log| - 1] == PartsDone(pack, parts);
    assert pack.files[..|pack.files|] == pack.files;
  }

  /** On success: complete is the last call and the only one, after every part was declared
      and then uploaded in order; the declared slices are the pack cut into ceil(n/800) pieces
      of 1 to 800 files; all carry the true total; only the last names the compose path; and
      complete carries the pack's path and hash pairs in order. */
  lemma ChunkedSuccess(pack: Pack, answers: Answers, log: seq<Call>, i: nat)
    requires ChunkedLog(pack, answers, TotalParts(|pack.files|), log) && i < TotalParts(|pack.files|)
    ensures var parts := TotalParts(|pack.files|);
            && |log| == 2 * parts + 1 && (parts - 1) * 800 < |pack.files| <= parts * 800
            && Declared(log) == pack.files
            && log[2 * parts] == Complete(VerifyFiles(Projection(pack.files)))
            && log[2 * i].Declare? && 1 <= |log[2 * i].files| <= 800
            && log[2 * i].chunk == Part(i, parts, TotalBytes(pack.files))
            && log[2 * i].composePath == (if i == parts - 1 then pack.composePath else "")
            && log[2 * i + 1] == Uploads(log[2 * i].chunk)
            && answers.declareOk(log[2 * i].chunk) && answers.uploadOk(log[2 * i].chunk)
  {
    var parts := TotalParts(|pack.files|);
    DeclaredAll(pack, log);
    PartsDoneAt(pack, parts, i);
  }

  /** Without success of every part, complete is never called. */
  lemma {:induction false} FailureNeverCompletes(pack: Pack, answers: Answers, k: nat, log: seq<Call>, c: Call)
    requires k < TotalParts(|pack.files|) && ChunkedLog(pack, answers, k, log) && c in log
    ensures !c.Complete?
  {
    NoCompleteInParts(pack, k);
    NoCompleteInParts(pack, k + 1);
  }

  lemma {:induction false} NoCompleteInParts(pack: Pack, k: nat)
    requires k <= TotalParts(|pack.files|)
    ensures forall c | c in PartsDone(pack, k) :: !c.Complete?
  {
    if k > 0 { NoCompleteInParts(pack, k - 1); }
  }

  // ----- the uploads behind the answers -----------------------------------------------------------

  /** One execution of uploadAll: how many presigned uploads it was given, and its schedule. */
  datatype PutRun = PutRun(total: nat, states: seq<UploadPool.Pool>, steps: seq<UploadPool.Step>)

  /** It ran to its return, and the answer for this call is what it returned. */
  ghost predicate Carries(r: PutRun, ok: bool) {
    && UploadPool.Run(r.total, r.states, r.steps)
    && var last := r.states[|r.steps|];
       last.returned && (ok <==> last.firstErr.None?)
  }

  function TimesPut(r: PutRun, job: nat): nat
    requires |r.states| == |r.steps| + 1
  {
    UploadPool.Times(r.states[|r.steps|].puts, job)
  }

  lemma PutOnce(r: PutRun, job: nat)
    requires Carries(r, true) && job < r.total
    ensures TimesPut(r, job) == 1
  {
    UploadPool.ReturnMeaning(r.total, r.states, r.steps, |r.steps|);
  }

  lemma {:induction false} UploadsOfParts(pack: Pack, answers: Answers, k: nat, c: Call)
    requires k <= TotalParts(|pack.files|) && AllWentThrough(pack, answers, k)
    requires c in PartsDone(pack, k) && c.Uploads?
    ensures answers.uploadOk(c.chunk)
  {
    if c != Uploads(PartOf(pack, k - 1)) {
      UploadsOfParts(pack, answers, k - 1, c);
    }
  }

  /** When a chunked upload went through, every presigned upload of every uploadAll it made was
      PUT exactly once, on whatever schedules its workers ran. */
  lemma EveryUploadPutOnce(pack: Pack, answers: Answers, log: seq<Call>, runs: Chunk -> PutRun, c: Call, job: nat)
    requires ChunkedLog(pack, answers, TotalParts(|pack.files|), log) && c in log && c.Uploads?
    requires Carries(runs(c.chunk), answers.uploadOk(c.chunk)) && job < runs(c.chunk).total
    ensures TimesPut(runs(c.chunk), job) == 1
  {
    var parts := TotalParts(|pack.files|);
    assert c in PartsDone(pack, parts);
    UploadsOfParts(pack, answers, parts, c);
    PutOnce(runs(c.chunk), job);
  }

  // ----- choosing the protocol ---------------------------------------------------------------

  /** RunSourceUpload after packing: chunked only when the platform offers it and the tree
      does not fit one declare. */
  method RunSourceUpload(pack: Pack, answers: Answers, features: seq<string>) returns (log: seq<Call>, success: bool)
    ensures "chunked_declare" in features && |pack.files| > DECLARE_CHUNK_FILES ==>
              && (exists k | 0 <= k <= TotalParts(|pack.files|) :: ChunkedLog(pack, answers, k, log))
              && (success <==> answers.completeOk && ChunkedLog(pack, answers, TotalParts(|pack.files|), log))
    ensures !("chunked_declare" in features && |pack.files| > DECLARE_CHUNK_FILES) ==>
              && log == [Declare(pack.files, pack.composePath, Whole)]
                        + (if !answers.declareOk(Whole) then []
                           else [Uploads(Whole)] + (if !answers.uploadOk(Whole) then [] else [Complete(NoVerify)]))
              && success == (answers.declareOk(Whole) && answers.uploadOk(Whole) && answers.completeOk)
    ensures success ==> answers.completeOk && log != [] && log[|log| - 1].Complete?
  {
    if "chunked_declare" in features && |pack.files| > DECLARE_CHUNK_FILES {
      log, success := RunChunkedSourceUpload(pack, answers);
      return;
    }
    log, success := [Declare(pack.files, pack.composePath, Whole)], false;
    if !answers.declareOk(Whole) { return; }
    log := log + [Uploads(Whole)];
    if !answers.uploadOk(Whole) { return; }
    log := log + [Complete(NoVerify)];
    success := answers.completeOk;
  }
}
