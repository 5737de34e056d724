/** Upload helpers: retry with exponential backoff, chunk partitioning, file
    validation and safe file names (src/lib/security/upload-utils.ts).

    The function being retried is a parameter `fn` mapping the number of the call
    (0, 1, 2, ...) to its outcome, which is how a mock in a test behaves.  The
    waits are returned rather than slept. */
module UploadUtils {
  import opened Text
  import opened Lists

  /** What a thrown value is: an `Error` carrying a message, or anything else
      (including the `undefined` thrown when no attempt ran). */
  datatype Thrown = ErrorValue(message: string) | OtherValue

  datatype Attempt<T> = Resolved(value: T) | Rejected(error: Thrown)

  /** The delays and the multiplier are JavaScript numbers, modelled as reals;
      the retry count is compared with whole attempt numbers, so it is an `int`. */
  datatype RetryOptions = RetryOptions(maxRetries: int, initialDelay: real, backoffMultiplier: real, maxDelay: real)

  /** The defaults of `withRetry`. */
  const DEFAULT_OPTIONS := RetryOptions(3, 1000.0, 2.0, 30000.0)

  /** One `onRetry(attempt, error)` notification. */
  datatype RetryNotice = RetryNotice(attempt: nat, error: Thrown)

  datatype UploadResult = UploadResult(success: bool, url: Option<string>, error: Option<string>, attempts: nat)

  /** `Math.pow` with a whole exponent. */
  function Pow(b: real, e: nat): real {
    if e == 0 then 1.0 else b * Pow(b, e - 1)
  }

  /** `Math.min` on two numbers. */
  function MinReal(a: real, b: real): real {
    if a <= b then a else b
  }

  /** The wait after the failed attempt number `attempt` (counted from 0). */
  function BackoffDelay(o: RetryOptions, attempt: nat): (d: real)
    ensures d <= o.maxDelay && d <= o.initialDelay * Pow(o.backoffMultiplier, attempt)
    ensures d == o.maxDelay || d == o.initialDelay * Pow(o.backoffMultiplier, attempt)
  {
    MinReal(o.initialDelay * Pow(o.backoffMultiplier, attempt), o.maxDelay)
  }

  /** The wait never exceeds the cap. */
  lemma BackoffDelayCapped(o: RetryOptions, attempt: nat)
    ensures BackoffDelay(o, attempt) <= o.maxDelay
    ensures o.initialDelay * Pow(o.backoffMultiplier, attempt) <= o.maxDelay ==>
      BackoffDelay(o, attempt) == o.initialDelay * Pow(o.backoffMultiplier, attempt)
  {
  }

  lemma {:induction false} PowMonotone(b: real, e: nat)
    requires b >= 1.0
    ensures 1.0 <= Pow(b, e) <= Pow(b, e + 1)
  {
    if e > 0 {
      PowMonotone(b, e - 1);
    }
    assert Pow(b, e + 1) == b * Pow(b, e);
  }

  /** With a multiplier of at least 1 and a non-negative initial delay, the waits
      never decrease from one retry to the next. */
  lemma BackoffDelayNonDecreasing(o: RetryOptions, attempt: nat)
    requires o.backoffMultiplier >= 1.0 && o.initialDelay >= 0.0
    ensures BackoffDelay(o, attempt) <= BackoffDelay(o, attempt + 1)
  {
    PowMonotone(o.backoffMultiplier, attempt);
    var p := Pow(o.backoffMultiplier, attempt);
    var q := Pow(o.backoffMultiplier, attempt + 1);
    assert o.initialDelay * p <= o.initialDelay * q by {
      assert o.initialDelay * q - o.initialDelay * p == o.initialDelay * (q - p);
    }
  }

  /** With the defaults the waits are 1000, 2000 and 4000 milliseconds. */
  lemma DefaultBackoff()
    ensures BackoffDelay(DEFAULT_OPTIONS, 0) == 1000.0
    ensures BackoffDelay(DEFAULT_OPTIONS, 1) == 2000.0
    ensures BackoffDelay(DEFAULT_OPTIONS, 2) == 4000.0
  {
  }

  /** The number of calls `withRetry` may make: `maxRetries + 1`, or none. */
  function CallBudget(maxRetries: int): nat {
    if maxRetries < 0 then 0 else maxRetries + 1
  }

  /** `withRetry`: calls `fn` until it resolves or `maxRetries` retries have failed.
      `calls` is the number of calls made, `notices` the `onRetry` notifications and
      `delays` the waits between calls. */
  method WithRetry<T>(fn: nat -> Attempt<T>, o: RetryOptions)
    returns (result: Attempt<T>, calls: nat, notices: seq<RetryNotice>, delays: seq<real>)
    ensures calls <= CallBudget(o.maxRetries)
    // every call before the last one failed
    ensures forall i :: 0 <= i < calls - 1 ==> fn(i).Rejected?
    // the answer is the last call's outcome: the first success or the last error
    ensures calls > 0 ==> result == fn(calls - 1)
    ensures result.Rejected? ==> calls == CallBudget(o.maxRetries)
    ensures calls == 0 ==> result == Rejected(OtherValue)
    // one notification and one wait per failure that is retried, numbered from 1
    ensures |notices| == |delays| == Max(calls - 1, 0)
    ensures forall i :: 0 <= i < |notices| ==> notices[i] == RetryNotice(i + 1, fn(i).error)
    ensures forall i :: 0 <= i < |delays| ==> delays[i] == BackoffDelay(o, i)
  {
    calls := 0;
    notices := [];
    delays := [];
    var lastError := OtherValue;
    var attempt := 0;
    while attempt <= o.maxRetries
      invariant o.maxRetries >= 0 ==> attempt <= o.maxRetries
      invariant o.maxRetries < 0 ==> attempt == 0
      invariant attempt == 0 ==> lastError == OtherValue
      invariant calls == attempt
      invariant forall i :: 0 <= i < attempt ==> fn(i).Rejected?
      invariant |notices| == |delays| == attempt
      invariant forall i :: 0 <= i < attempt ==> notices[i] == RetryNotice(i + 1, fn(i).error)
      invariant forall i :: 0 <= i < attempt ==> delays[i] == BackoffDelay(o, i)
      decreases o.maxRetries - attempt
    {
      var outcome := fn(attempt);
      calls := calls + 1;
      if outcome.Resolved? {
        return outcome, calls, notices, delays;
      }
      lastError := outcome.error;
      if attempt == o.maxRetries {
        return Rejected(lastError), calls, notices, delays;
      }
      var delay := BackoffDelay(o, attempt);
      notices := notices + [RetryNotice(attempt + 1, lastError)];
      delays := delays + [delay];
      attempt := attempt + 1;
    }
    result := Rejected(lastError);
  }

  /** The message of a caught value: an `Error`'s own message, else the fallback. */
  function ErrorMessage(e: Thrown, fallback: string): string {
    match e
    case ErrorValue(m) => m
    case OtherValue => fallback
  }

  /** `uploadWithRetry`: `attempts` counts the calls of `uploadFn`. */
  method UploadWithRetry(uploadFn: nat -> Attempt<string>, o: RetryOptions)
    returns (r: UploadResult, notices: seq<RetryNotice>)
    ensures r.attempts <= CallBudget(o.maxRetries)
    ensures forall i :: 0 <= i < r.attempts - 1 ==> uploadFn(i).Rejected?
    // success after k - 1 failures reports k attempts and the returned URL
    ensures r.success ==>
      (r.attempts >= 1 && uploadFn(r.attempts - 1).Resolved?
       && r.url == Some(uploadFn(r.attempts - 1).value) && r.error.None?)
    // exhaustion reports every call and the last error's message
    ensures !r.success ==> r.attempts == CallBudget(o.maxRetries) && r.url.None?
    ensures !r.success && r.attempts > 0 ==>
      uploadFn(r.attempts - 1).Rejected? && r.error == Some(ErrorMessage(uploadFn(r.attempts - 1).error, "Upload failed"))
    ensures !r.success && r.attempts == 0 ==> r.error == Some("Upload failed")
    ensures |notices| == Max(r.attempts - 1, 0)
      && forall i :: 0 <= i < |notices| ==> notices[i] == RetryNotice(i + 1, uploadFn(i).error)
  {
    var result, calls, delays;
    result, calls, notices, delays := WithRetry(uploadFn, o);
    if result.Resolved? {
      r := UploadResult(true, Some(result.value), None, calls);
    } else {
      r := UploadResult(false, None, Some(ErrorMessage(result.error, "Upload failed")), calls);
    }
  }

  // ---------------------------------------------------------------------------
  // Chunked upload
  // ---------------------------------------------------------------------------

  const DEFAULT_CHUNK_SIZE: nat := 5 * 1024 * 1024

  /** The half-open byte range `[start, end)` of one chunk. */
  datatype Range = Range(start: int, end: int)

  /** `i * chunkSize` to `min(start + chunkSize, size)`. */
  function ChunkBounds(i: nat, chunkSize: nat, size: nat): Range {
    Range(i * chunkSize, Min(i * chunkSize + chunkSize, size))
  }

  /** `Math.ceil(size / chunkSize)`. */
  function TotalChunks(size: nat, chunkSize: nat): (n: nat)
    requires chunkSize > 0
    ensures (n - 1) * chunkSize < size <= n * chunkSize
  {
    CeilDiv(size, chunkSize)
  }

  /** Multiplying by a non-negative factor keeps the order. */
  lemma MulMonotone(a: nat, b: nat, c: nat)
    requires a <= b
    ensures a * c <= b * c
  {
    var d: nat := b - a;
    assert b * c == a * c + d * c;
  }

  /** Every chunk below the total holds at least one byte. */
  lemma ChunkIsNonEmpty(size: nat, chunkSize: nat, i: nat)
    requires chunkSize > 0 && i < TotalChunks(size, chunkSize)
    ensures ChunkBounds(i, chunkSize, size).start < ChunkBounds(i, chunkSize, size).end
  {
    MulMonotone(i, TotalChunks(size, chunkSize) - 1, chunkSize);
  }

  /** Each chunk but the last ends where the next one begins. */
  lemma ChunksAreAdjacent(size: nat, chunkSize: nat, i: nat)
    requires chunkSize > 0 && i + 1 < TotalChunks(size, chunkSize)
    ensures ChunkBounds(i, chunkSize, size).end == ChunkBounds(i + 1, chunkSize, size).start
  {
    MulMonotone(i + 1, TotalChunks(size, chunkSize) - 1, chunkSize);
    assert (i + 1) * chunkSize == i * chunkSize + chunkSize;
  }

  /** The chunks start at 0, each is non-empty, each begins where the previous one
      ends, and the last ends at the file size: together they cover the file once,
      in order. */
  lemma ChunksPartitionFile(size: nat, chunkSize: nat)
    requires chunkSize > 0
    ensures var n := TotalChunks(size, chunkSize);
      (n > 0 ==> ChunkBounds(0, chunkSize, size).start == 0 && ChunkBounds(n - 1, chunkSize, size).end == size)
      && (n == 0 <==> size == 0)
      && (forall i :: 0 <= i < n ==> ChunkBounds(i, chunkSize, size).start < ChunkBounds(i, chunkSize, size).end)
      && (forall i :: 0 <= i < n - 1 ==> ChunkBounds(i, chunkSize, size).end == ChunkBounds(i + 1, chunkSize, size).start)
  {
    var n := TotalChunks(size, chunkSize);
    forall i | 0 <= i < n
      ensures ChunkBounds(i, chunkSize, size).start < ChunkBounds(i, chunkSize, size).end
    {
      ChunkIsNonEmpty(size, chunkSize, i);
    }
    forall i | 0 <= i < n - 1
      ensures ChunkBounds(i, chunkSize, size).end == ChunkBounds(i + 1, chunkSize, size).start
    {
      ChunksAreAdjacent(size, chunkSize, i);
    }
    if n > 0 {
      assert (n - 1) * chunkSize + chunkSize == n * chunkSize;
    } else {
      assert n * chunkSize == 0;
    }
  }

  /** Two different chunks share no byte. */
  lemma ChunksDisjoint(size: nat, chunkSize: nat, i: nat, j: nat)
    requires chunkSize > 0 && i < j
    ensures ChunkBounds(i, chunkSize, size).end <= ChunkBounds(j, chunkSize, size).start
  {
    MulMonotone(i + 1, j, chunkSize);
    assert (i + 1) * chunkSize == i * chunkSize + chunkSize;
  }

  function Sum(s: seq<nat>): nat {
    if |s| == 0 then 0 else Sum(s[..|s| - 1]) + s[|s| - 1]
  }

  /** The calls of `outcome` from number `base` on, renumbered from 0. */
  function Shift(outcome: nat -> Attempt<()>, base: nat): nat -> Attempt<()> {
    (k: nat) => outcome(base + k)
  }

  /** The calls `base .. base + n - 1` of one chunk: every one failed but the last,
      which resolved. */
  predicate ChunkSucceeded(outcome: nat -> Attempt<()>, base: nat, n: nat) {
    n >= 1 && Shift(outcome, base)(n - 1).Resolved?
    && forall t :: 0 <= t < n - 1 ==> Shift(outcome, base)(t).Rejected?
  }

  /** The calls of one chunk used up its budget and all failed. */
  predicate ChunkExhausted(outcome: nat -> Attempt<()>, base: nat, n: nat, maxRetries: int) {
    n == CallBudget(maxRetries) && forall t :: 0 <= t < n ==> Shift(outcome, base)(t).Rejected?
  }

  /** Every chunk in `chunkCalls` went through, each starting at the call after the
      previous chunk's last one. */
  predicate ChunksWentThrough(outcome: nat -> Attempt<()>, chunkCalls: seq<nat>) {
    |chunkCalls| == 0
    || (ChunksWentThrough(outcome, chunkCalls[..|chunkCalls| - 1])
        && ChunkSucceeded(outcome, Sum(chunkCalls[..|chunkCalls| - 1]), chunkCalls[|chunkCalls| - 1]))
  }

  /** One chunk of `uploadInChunks`: `withRetry` over the calls from number `base` on. */
  method UploadChunk(outcome: nat -> Attempt<()>, base: nat, maxRetries: int)
    returns (ok: bool, calls: nat, error: Thrown)
    ensures ok ==> ChunkSucceeded(outcome, base, calls)
    ensures !ok ==> ChunkExhausted(outcome, base, calls, maxRetries)
    ensures !ok && calls > 0 ==> outcome(base + calls - 1).Rejected? && error == outcome(base + calls - 1).error
    ensures !ok && calls == 0 ==> error == OtherValue
  {
    var result, notices, delays;
    result, calls, notices, delays := WithRetry(Shift(outcome, base), RetryOptions(maxRetries, 1000.0, 2.0, 30000.0));
    ok := result.Resolved?;
    error := if ok then OtherValue else result.error;
  }

  /** `uploadInChunks`: the file of `size` bytes is sent chunk by chunk, each chunk
      retried with `withRetry({maxRetries})`; `outcome(k)` is the result of the k-th
      call of `uploadChunkFn` overall.  `sent` lists the ranges handed to it and
      `chunkCalls` the number of calls each chunk took. */
  method UploadInChunks(size: nat, chunkSize: nat, outcome: nat -> Attempt<()>, maxRetries: int)
    returns (r: UploadResult, sent: seq<Range>, chunkCalls: seq<nat>)
    requires chunkSize > 0
    ensures |sent| == |chunkCalls| <= TotalChunks(size, chunkSize)
    ensures forall i :: 0 <= i < |sent| ==> sent[i] == ChunkBounds(i, chunkSize, size)
    ensures r.attempts == Sum(chunkCalls) && r.url.None?
    // success: every chunk went through
    ensures r.success ==>
      (|sent| == TotalChunks(size, chunkSize) && r.error.None? && ChunksWentThrough(outcome, chunkCalls))
    // failure: the chunks before the last one tried went through, the last one used
    // up its retries, and no later chunk was sent
    ensures !r.success ==>
      (|chunkCalls| > 0
       && ChunksWentThrough(outcome, chunkCalls[..|chunkCalls| - 1])
       && ChunkExhausted(outcome, Sum(chunkCalls[..|chunkCalls| - 1]), chunkCalls[|chunkCalls| - 1], maxRetries))
    ensures !r.success && chunkCalls[|chunkCalls| - 1] > 0 ==>
      outcome(r.attempts - 1).Rejected?
      && r.error == Some(ErrorMessage(outcome(r.attempts - 1).error, "Chunked upload failed"))
    ensures !r.success && chunkCalls[|chunkCalls| - 1] == 0 ==> r.error == Some("Chunked upload failed")
  {
    var totalChunks := TotalChunks(size, chunkSize);
    var attempts: nat := 0;
    sent := [];
    chunkCalls := [];
    var i: nat := 0;
    while i < totalChunks
      invariant i <= totalChunks
      invariant |sent| == |chunkCalls| == i
      invariant forall j :: 0 <= j < i ==> sent[j] == ChunkBounds(j, chunkSize, size)
      invariant attempts == Sum(chunkCalls)
      invariant ChunksWentThrough(outcome, chunkCalls)
    {
      var start := i * chunkSize;
      var end := Min(start + chunkSize, size);
      sent := sent + [Range(start, end)];
      var ok, calls, error := UploadChunk(outcome, attempts, maxRetries);
      ghost var before := chunkCalls;
      chunkCalls := chunkCalls + [calls];
      assert chunkCalls[..|chunkCalls| - 1] == before;
      attempts := attempts + calls;
      if !ok {
        r := UploadResult(false, None, Some(ErrorMessage(error, "Chunked upload failed")), attempts);
        return;
      }
      i := i + 1;
    }
    r := UploadResult(true, None, None, attempts);
  }

  // ---------------------------------------------------------------------------
  // validateFile and createSafeFileName
  // ---------------------------------------------------------------------------

  const MIB: nat := 1024 * 1024

  /** Why a file was refused; the size message's `toFixed(2)` rendering is not modelled. */
  datatype FileError = SizeExceeded(sizeBytes: nat, maxSizeMB: real) | TypeNotAllowed(message: string)

  datatype FileValidation = FileValidation(valid: bool, error: Option<FileError>)

  /** `validateFile`: the size is checked first, then the type against the list when
      one is given.  `maxSizeMB` defaults to 500 at the call site. */
  function ValidateFile(size: nat, fileType: string, maxSizeMB: real, allowedTypes: Option<seq<string>>): (v: FileValidation)
    ensures v.valid <==> (size as real <= maxSizeMB * MIB as real && (allowedTypes.None? || fileType in allowedTypes.value))
    ensures v.valid <==> v.error.None?
    ensures size as real > maxSizeMB * MIB as real ==> v.error == Some(SizeExceeded(size, maxSizeMB))
    ensures size as real <= maxSizeMB * MIB as real && allowedTypes.Some? && fileType !in allowedTypes.value ==>
      v.error.Some? && v.error.value.TypeNotAllowed?
  {
    var sizeMB := size as real / MIB as real;
    if sizeMB > maxSizeMB then
      FileValidation(false, Some(SizeExceeded(size, maxSizeMB)))
    else if allowedTypes.Some? && fileType !in allowedTypes.value then
      FileValidation(false, Some(TypeNotAllowed(
        "File type " + fileType + " is not allowed. Allowed types: " + Join(allowedTypes.value, ", "))))
    else
      FileValidation(true, None)
  }

  /** A file accepted under one limit is accepted under any larger limit and any
      longer list of types. */
  lemma ValidateFileMonotone(size: nat, fileType: string, maxSizeMB: real, largerMB: real,
                             allowed: seq<string>, more: seq<string>)
    requires maxSizeMB <= largerMB
    requires ValidateFile(size, fileType, maxSizeMB, Some(allowed)).valid
    ensures ValidateFile(size, fileType, largerMB, Some(allowed + more)).valid
    ensures ValidateFile(size, fileType, largerMB, None).valid
  {
    assert maxSizeMB * MIB as real <= largerMB * MIB as real;
  }

  /** `toISOString().replace(/[:.]/g, '-')`. */
  function DashTimestamp(iso: string): (r: string)
    ensures |r| == |iso| && ':' !in r && '.' !in r
    ensures forall i :: 0 <= i < |iso| ==> r[i] == (if iso[i] == ':' || iso[i] == '.' then '-' else iso[i])
  {
    seq(|iso|, i requires 0 <= i < |iso| => if iso[i] == ':' || iso[i] == '.' then '-' else iso[i])
  }

  /** `s.substring(start)`, which yields "" past the end. */
  function SubstringFrom(s: string, start: nat): string {
    if start <= |s| then s[start..] else ""
  }

  /** The candidate parts as values, an absent one as the empty string (both are
      falsy to `filter(Boolean)`). */
  function Unwrap(parts: seq<Option<string>>): (r: seq<string>)
    ensures |r| == |parts|
    ensures forall k :: 0 <= k < |parts| ==> r[k] == (if parts[k].Some? then parts[k].value else "")
  {
    seq(|parts|, k requires 0 <= k < |parts| => if parts[k].Some? then parts[k].value else "")
  }

  predicate NonEmptyString(s: string) {
    s != ""
  }

  /** `[prefix, submissionId, timestamp, random].filter(Boolean)`: the given,
      non-empty parts in their order, the reference being a filter on the
      unwrapped values. */
  function NonEmptyParts(parts: seq<Option<string>>): (r: seq<string>)
    ensures forall k :: 0 <= k < |r| ==> r[k] != ""
    ensures forall k :: 0 <= k < |parts| && parts[k].Some? && parts[k].value != "" ==> parts[k].value in r
  {
    if |parts| == 0 then []
    else
      var rest := NonEmptyParts(parts[1..]);
      assert forall k :: 1 <= k < |parts| ==> parts[k] == parts[1..][k - 1];
      if parts[0].Some? && parts[0].value != "" then [parts[0].value] + rest else rest
  }

  /** The kept parts are exactly a filter of the unwrapped candidates by
      non-emptiness, so they keep their order and their repeats. */
  lemma {:induction false} NonEmptyPartsIsFilter(parts: seq<Option<string>>)
    ensures NonEmptyParts(parts) == Keep(Unwrap(parts), NonEmptyString)
    ensures Subsequence(NonEmptyParts(parts), Unwrap(parts))
    decreases |parts|
  {
    if |parts| > 0 {
      NonEmptyPartsIsFilter(parts[1..]);
      assert Unwrap(parts)[1..] == Unwrap(parts[1..]);
    }
    KeepIsSubsequence(Unwrap(parts), NonEmptyString);
  }

  /** Every kept part is one of the candidates. */
  lemma {:induction false} KeptPartsAreCandidates(parts: seq<Option<string>>)
    ensures forall p :: p in NonEmptyParts(parts) ==> Some(p) in parts
    decreases |parts|
  {
    if |parts| > 0 {
      KeptPartsAreCandidates(parts[1..]);
      assert forall x :: x in parts[1..] ==> x in parts;
    }
  }

  /** The four candidate parts of a safe file name. */
  function NameParts(prefix: string, submissionId: Option<string>, isoTimestamp: string, randomBase36: string): seq<Option<string>> {
    [Some(prefix), submissionId, Some(DashTimestamp(isoTimestamp)), Some(SubstringFrom(randomBase36, 7))]
  }

  /** `createSafeFileName`: `isoTimestamp` is `new Date().toISOString()` and
      `randomBase36` is `Math.random().toString(36)`.  The name is the non-empty
      parts, in order, joined by '_', then '.' and the extension. */
  function CreateSafeFileName(prefix: string, extension: string, submissionId: Option<string>,
                              isoTimestamp: string, randomBase36: string): (name: string)
    ensures name == Join(NonEmptyParts(NameParts(prefix, submissionId, isoTimestamp, randomBase36)), "_") + "." + extension
    ensures submissionId.Some? ==> Contains(name, submissionId.value)
  {
    var timestamp := DashTimestamp(isoTimestamp);
    var random := SubstringFrom(randomBase36, 7);
    var candidates := [Some(prefix), submissionId, Some(timestamp), Some(random)];
    var parts := NonEmptyParts(candidates);
    assert candidates[1] == submissionId;
    var stem := Join(parts, "_");
    var name := stem + "." + extension;
    assert name == stem + ("." + extension);
    if submissionId.Some? then
      NonEmptyPartContained(parts, submissionId.value, stem);
      ContainsPrefixOf(stem, "." + extension, submissionId.value);
      name
    else
      name
  }

  /** With every part present the name is `prefix_id_timestamp_random.ext`. */
  lemma SafeFileNameWithId(prefix: string, extension: string, id: string, isoTimestamp: string, randomBase36: string)
    requires prefix != "" && id != "" && isoTimestamp != "" && |randomBase36| > 7
    ensures CreateSafeFileName(prefix, extension, Some(id), isoTimestamp, randomBase36)
      == prefix + "_" + id + "_" + DashTimestamp(isoTimestamp) + "_" + randomBase36[7..] + "." + extension
  {
    var ts := DashTimestamp(isoTimestamp);
    var rnd := SubstringFrom(randomBase36, 7);
    assert |ts| == |isoTimestamp| && rnd == randomBase36[7..];
    assert NameParts(prefix, Some(id), isoTimestamp, randomBase36) == [Some(prefix), Some(id), Some(ts), Some(rnd)];
    PartsWithTimestamp(prefix, Some(id), ts, rnd);
    assert PresentPart(Some(id)) == [id] && PresentPart(Some(rnd)) == [rnd];
    assert [prefix] + [id] + [ts] + [rnd] == [prefix, id, ts, rnd];
    JoinOfFour(prefix, id, ts, rnd, "_");
  }

  /** Without a submission id, or with an empty one, the name is
      `prefix_timestamp_random.ext`, and an empty random tail is dropped too. */
  lemma SafeFileNameWithoutId(prefix: string, extension: string, isoTimestamp: string, randomBase36: string)
    requires prefix != "" && isoTimestamp != ""
    ensures CreateSafeFileName(prefix, extension, None, isoTimestamp, randomBase36)
      == prefix + "_" + DashTimestamp(isoTimestamp) + (if |randomBase36| > 7 then "_" + randomBase36[7..] else "")
         + "." + extension
    ensures CreateSafeFileName(prefix, extension, Some(""), isoTimestamp, randomBase36)
      == CreateSafeFileName(prefix, extension, None, isoTimestamp, randomBase36)
  {
    var ts := DashTimestamp(isoTimestamp);
    var rnd := SubstringFrom(randomBase36, 7);
    assert |ts| == |isoTimestamp|;
    assert NameParts(prefix, None, isoTimestamp, randomBase36) == [Some(prefix), None, Some(ts), Some(rnd)];
    assert NameParts(prefix, Some(""), isoTimestamp, randomBase36) == [Some(prefix), Some(""), Some(ts), Some(rnd)];
    StemWithoutId(prefix, ts, rnd);
    assert |randomBase36| > 7 ==> rnd == randomBase36[7..];
    assert |randomBase36| <= 7 ==> rnd == "";
  }

  /** The stem of a name without a submission id: prefix, timestamp and, when
      there is one, the random part. */
  lemma StemWithoutId(prefix: string, ts: string, rnd: string)
    requires prefix != "" && ts != ""
    ensures NonEmptyParts([Some(prefix), Some(""), Some(ts), Some(rnd)])
      == NonEmptyParts([Some(prefix), None, Some(ts), Some(rnd)])
    ensures Join(NonEmptyParts([Some(prefix), None, Some(ts), Some(rnd)]), "_")
      == prefix + "_" + ts + (if rnd != "" then "_" + rnd else "")
  {
    PartsWithTimestamp(prefix, None, ts, rnd);
    PartsWithTimestamp(prefix, Some(""), ts, rnd);
    if rnd != "" {
      assert PresentPart(Some(rnd)) == [rnd];
      assert [prefix] + PresentPart(None) + [ts] + [rnd] == [prefix, ts, rnd];
      JoinOfThree(prefix, ts, rnd, "_");
    } else {
      assert PresentPart(Some(rnd)) == [];
      assert [prefix] + PresentPart(None) + [ts] + [] == [prefix, ts];
      assert Join([prefix, ts], "_") == prefix + "_" + Join([ts], "_");
    }
  }

  /** `filter(Boolean)` on one more candidate in front. */
  lemma NonEmptyPartsCons(x: Option<string>, rest: seq<Option<string>>)
    ensures NonEmptyParts([x] + rest) == PresentPart(x) + NonEmptyParts(rest)
  {
    assert ([x] + rest)[1..] == rest;
  }

  /** The kept parts of a name with a non-empty prefix and timestamp. */
  lemma PartsWithTimestamp(prefix: string, submissionId: Option<string>, ts: string, rnd: string)
    requires prefix != "" && ts != ""
    ensures NonEmptyParts([Some(prefix), submissionId, Some(ts), Some(rnd)])
      == [prefix] + PresentPart(submissionId) + [ts] + PresentPart(Some(rnd))
  {
    var l2 := [Some(ts), Some(rnd)];
    var l3 := [submissionId] + l2;
    assert [Some(prefix)] + l3 == [Some(prefix), submissionId, Some(ts), Some(rnd)];
    var tail := PresentPart(Some(rnd));
    var id := PresentPart(submissionId);
    TimestampAndRandomParts(ts, rnd);
    NonEmptyPartsCons(submissionId, l2);
    assert NonEmptyParts(l3) == id + ([ts] + tail);
    NonEmptyPartsCons(Some(prefix), l3);
    assert PresentPart(Some(prefix)) == [prefix];
    assert [prefix] + (id + ([ts] + tail)) == [prefix] + id + [ts] + tail;
  }

  lemma TimestampAndRandomParts(ts: string, rnd: string)
    requires ts != ""
    ensures NonEmptyParts([Some(ts), Some(rnd)]) == [ts] + PresentPart(Some(rnd))
  {
    var l1 := [Some(rnd)];
    assert [Some(ts)] + l1 == [Some(ts), Some(rnd)];
    assert l1 == [Some(rnd)] + [];
    NonEmptyPartsCons(Some(rnd), []);
    NonEmptyPartsCons(Some(ts), l1);
  }

  /** A candidate that `filter(Boolean)` keeps, as a list of zero or one part. */
  function PresentPart(x: Option<string>): (r: seq<string>)
    ensures |r| <= 1 && (r == [] <==> x.None? || x.value == "")
  {
    if x.Some? && x.value != "" then [x.value] else []
  }

  lemma JoinOfThree(a: string, b: string, c: string, sep: string)
    ensures Join([a, b, c], sep) == a + sep + b + sep + c
  {
    assert [a, b, c][1..] == [b, c];
    assert [b, c][1..] == [c];
    assert Join([b, c], sep) == b + sep + c;
    assert Join([a, b, c], sep) == a + sep + (b + sep + c);
  }

  lemma JoinOfFour(a: string, b: string, c: string, d: string, sep: string)
    ensures Join([a, b, c, d], sep) == a + sep + b + sep + c + sep + d
  {
    assert [a, b, c, d][1..] == [b, c, d];
    JoinOfThree(b, c, d, sep);
    assert Join([a, b, c, d], sep) == a + sep + (b + sep + c + sep + d);
  }

  /** A part of a list, or the empty string, occurs in the joined text. */
  lemma {:induction false} JoinContainsPart(parts: seq<string>, sep: string, p: string)
    requires p in parts
    ensures Contains(Join(parts, sep), p)
  {
    if parts[0] == p {
      if |parts| == 1 {
        ContainsEmptyAndSelf(p);
      } else {
        var j := Join(parts, sep);
        assert j[0..|p|] == p;
        ContainsAt(j, p, 0);
      }
    } else {
      JoinContainsPart(parts[1..], sep, p);
      var rest := Join(parts[1..], sep);
      var i := ContainsWitness(rest, p);
      var j := Join(parts, sep);
      var off := |parts[0] + sep|;
      assert j == parts[0] + sep + rest;
      assert j[off + i..off + i + |p|] == rest[i..i + |p|];
      ContainsAt(j, p, off + i);
    }
  }

  lemma NonEmptyPartContained(parts: seq<string>, id: string, stem: string)
    requires stem == Join(parts, "_")
    requires id != "" ==> id in parts
    ensures Contains(stem, id)
  {
    if id == "" {
      ContainsEmptyAndSelf(stem);
    } else {
      JoinContainsPart(parts, "_", id);
    }
  }

  lemma ContainsPrefixOf(s: string, t: string, id: string)
    requires Contains(s, id)
    ensures Contains(s + t, id)
  {
    var i := ContainsWitness(s, id);
    assert (s + t)[i..i + |id|] == s[i..i + |id|];
    ContainsAt(s + t, id, i);
  }

  /** `[\w-]`: the characters the file-name pattern of the tests allows in the stem. */
  predicate IsWordOrDash(c: char) {
    ('a' <= c <= 'z') || ('A' <= c <= 'Z') || ('0' <= c <= '9') || c == '_' || c == '-'
  }

  /** With a word-character prefix and submission id, an ISO timestamp (digits,
      'T', 'Z', '-', ':', '.') and a base-36 random string, the name matches
      `^prefix_[\w-]+\.extension$`: it ends in '.' and the extension, everything
      before holds only word characters and dashes, and it starts with the prefix
      and '_' followed by at least one more character. */
  lemma SafeFileNameShape(prefix: string, extension: string, submissionId: Option<string>,
                          isoTimestamp: string, randomBase36: string)
    requires prefix != "" && forall i :: 0 <= i < |prefix| ==> IsWordOrDash(prefix[i])
    requires submissionId.Some? ==> forall i :: 0 <= i < |submissionId.value| ==> IsWordOrDash(submissionId.value[i])
    requires forall i :: 0 <= i < |isoTimestamp| ==> IsWordOrDash(isoTimestamp[i]) || isoTimestamp[i] == ':' || isoTimestamp[i] == '.'
    requires forall i :: 0 <= i < |randomBase36| ==> IsWordOrDash(randomBase36[i])
    ensures var name := CreateSafeFileName(prefix, extension, submissionId, isoTimestamp, randomBase36);
      |name| > |extension| && name[|name| - |extension| - 1..] == "." + extension
      && forall i :: 0 <= i < |name| - |extension| - 1 ==> IsWordOrDash(name[i])
    ensures var name := CreateSafeFileName(prefix, extension, submissionId, isoTimestamp, randomBase36);
      isoTimestamp != "" ==> |prefix| + 1 < |name| - |extension| - 1 && StartsWith(name, prefix + "_")
  {
    var stem := StemShape(prefix, submissionId, isoTimestamp, randomBase36);
    var name := CreateSafeFileName(prefix, extension, submissionId, isoTimestamp, randomBase36);
    assert name == stem + "." + extension;
    NameShape(stem, extension, prefix + "_");
    StemCharactersSurvive(stem, extension);
  }

  /** The characters in front of the extension are the stem's. */
  lemma StemCharactersSurvive(stem: string, extension: string)
    requires forall i :: 0 <= i < |stem| ==> IsWordOrDash(stem[i])
    ensures var name := stem + "." + extension;
      forall i :: 0 <= i < |name| - |extension| - 1 ==> IsWordOrDash(name[i])
  {
    var name := stem + "." + extension;
    forall i | 0 <= i < |name| - |extension| - 1
      ensures IsWordOrDash(name[i])
    {
      assert name[i] == stem[i];
    }
  }

  /** The stem of a safe file name: word characters and dashes only, and, with
      a timestamp, the prefix and '_' followed by more. */
  lemma StemShape(prefix: string, submissionId: Option<string>, isoTimestamp: string, randomBase36: string)
    returns (stem: string)
    requires prefix != "" && forall i :: 0 <= i < |prefix| ==> IsWordOrDash(prefix[i])
    requires submissionId.Some? ==> forall i :: 0 <= i < |submissionId.value| ==> IsWordOrDash(submissionId.value[i])
    requires forall i :: 0 <= i < |isoTimestamp| ==> IsWordOrDash(isoTimestamp[i]) || isoTimestamp[i] == ':' || isoTimestamp[i] == '.'
    requires forall i :: 0 <= i < |randomBase36| ==> IsWordOrDash(randomBase36[i])
    ensures stem == Join(NonEmptyParts(NameParts(prefix, submissionId, isoTimestamp, randomBase36)), "_")
    ensures forall i :: 0 <= i < |stem| ==> IsWordOrDash(stem[i])
    ensures isoTimestamp != "" ==> |stem| > |prefix + "_"| && StartsWith(stem, prefix + "_")
  {
    stem := Join(NonEmptyParts(NameParts(prefix, submissionId, isoTimestamp, randomBase36)), "_");
    var candidates := NameParts(prefix, submissionId, isoTimestamp, randomBase36);
    var parts := NonEmptyParts(candidates);
    KeptPartsAreCandidates(candidates);
    forall p | p in parts
      ensures forall i :: 0 <= i < |p| ==> IsWordOrDash(p[i])
    {
      assert Some(p) in candidates;
    }
    JoinKeepsCharacters(parts, "_");
    if isoTimestamp != "" {
      var ts := DashTimestamp(isoTimestamp);
      assert |ts| == |isoTimestamp|;
      PartsWithTimestamp(prefix, submissionId, ts, SubstringFrom(randomBase36, 7));
      StemStartsWithPrefix(parts, "_");
    }
  }

  /** Joining two or more non-empty parts gives the first, the separator and
      at least one more character. */
  lemma StemStartsWithPrefix(parts: seq<string>, sep: string)
    requires |parts| >= 2 && parts[1] != ""
    ensures |Join(parts, sep)| > |parts[0] + sep| && StartsWith(Join(parts, sep), parts[0] + sep)
  {
    var rest := Join(parts[1..], sep);
    assert Join(parts, sep) == parts[0] + sep + rest;
    JoinStartsWithFirst(parts[1..], sep);
    assert parts[1..][0] == parts[1];
  }

  /** `stem.ext` ends in the extension and keeps the stem's characters and
      start in front of it. */
  lemma NameShape(stem: string, extension: string, prefix: string)
    ensures var name := stem + "." + extension;
      |name| > |extension| && name[|name| - |extension| - 1..] == "." + extension
      && name[..|stem|] == stem
    ensures forall i :: 0 <= i < |stem| ==> (stem + "." + extension)[i] == stem[i]
    ensures StartsWith(stem, prefix) && |stem| > |prefix| ==> StartsWith(stem + "." + extension, prefix)
  {
    var name := stem + "." + extension;
    assert name == stem + ("." + extension);
    if StartsWith(stem, prefix) && |stem| > |prefix| {
      assert name[..|prefix|] == stem[..|prefix|];
    }
  }

  /** Joining word-character parts with '_' gives word characters only. */
  lemma {:induction false} JoinKeepsCharacters(parts: seq<string>, sep: string)
    requires forall p :: p in parts ==> forall i :: 0 <= i < |p| ==> IsWordOrDash(p[i])
    requires forall i :: 0 <= i < |sep| ==> IsWordOrDash(sep[i])
    ensures forall i :: 0 <= i < |Join(parts, sep)| ==> IsWordOrDash(Join(parts, sep)[i])
  {
    if |parts| > 1 {
      assert forall p :: p in parts[1..] ==> p in parts;
      JoinKeepsCharacters(parts[1..], sep);
      var rest := Join(parts[1..], sep);
      var j := Join(parts, sep);
      assert j == parts[0] + sep + rest;
      forall i | 0 <= i < |j|
        ensures IsWordOrDash(j[i])
      {
        if i < |parts[0]| {
          var first := parts[0];
          assert first in parts;
          assert IsWordOrDash(first[i]);
          assert j[i] == first[i];
        } else if i < |parts[0]| + |sep| {
          assert j[i] == sep[i - |parts[0]|];
        } else {
          var k := i - |parts[0]| - |sep|;
          assert IsWordOrDash(rest[k]);
          assert j[i] == rest[k];
        }
      }
    } else if |parts| == 1 {
      assert parts[0] in parts;
    }
  }

  lemma JoinStartsWithFirst(parts: seq<string>, sep: string)
    requires |parts| >= 1
    ensures StartsWith(Join(parts, sep), parts[0])
  {
    if |parts| > 1 {
      assert Join(parts, sep) == parts[0] + (sep + Join(parts[1..], sep));
    }
  }
}
