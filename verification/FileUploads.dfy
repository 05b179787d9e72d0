/** Resumable uploads: a file is cut into chunks that are stored in any order, then claimed by one request that checks
    and assembles them. Bytes are what the chunk files hold; a checksum is an abstract function of the bytes. */
module FileUploads {
  import opened Text
  import opened ChunkFile

  const MAX_UPLOAD_CHUNKS := 10_000

  datatype Status = Open | Completing | Completed | Canceled

  datatype Error = Invalid | TooLarge | Conflict | Expired | ChecksumMismatch

  /** What a session fixes when it is created. */
  datatype Terms = Terms(totalSize: int, chunkSize: int, totalChunks: int, checksum: string, expiresAt: int)

  // ---------- Sizes ----------

  predicate WellFormed(s: Terms) {
    && 0 < s.chunkSize <= s.totalSize
    && s.totalChunks == (s.totalSize + s.chunkSize - 1) / s.chunkSize
    && s.totalChunks <= MAX_UPLOAD_CHUNKS
  }

  predicate IsHex(c: char) {
    '0' <= c <= '9' || 'a' <= c <= 'f'
  }

  /** A checksum in lower case, "" when none is given, and None for anything but 64 hexadecimal digits. */
  function NormalizeSHA256(raw: string): (r: Option<string>)
    ensures r.Some? && r.value != "" ==> |r.value| == 64 && forall i :: 0 <= i < 64 ==> IsHex(r.value[i])
    ensures r.Some? ==> r.value == ToLower(TrimSpace(raw))
    ensures r.None? ==>
      var text := ToLower(TrimSpace(raw)); text != "" && !(|text| == 64 && forall i :: 0 <= i < 64 ==> IsHex(text[i]))
  {
    var text := ToLower(TrimSpace(raw));
    if text == "" then Some("")
    else if |text| == 64 && forall i :: 0 <= i < 64 ==> IsHex(text[i]) then Some(text)
    else None
  }

  /** The checks of a new session; a field limit of zero or less means none. */
  function Create(totalSize: int, chunkSize: int, checksum: string, expiresAt: int, maxUpload: int, maxField: int)
    : (r: Result<Terms, Error>)
    ensures r.Ok? <==>
      && 0 < chunkSize <= totalSize <= maxUpload && (maxField > 0 ==> totalSize <= maxField)
      && totalSize <= chunkSize * 10_000 && NormalizeSHA256(checksum).Some?
    ensures r.Ok? ==> WellFormed(r.value)
    ensures r.Ok? ==> r.value.totalSize == totalSize && r.value.chunkSize == chunkSize && r.value.expiresAt == expiresAt
    ensures r.Ok? ==> Some(r.value.checksum) == NormalizeSHA256(checksum)
    ensures r.Err? ==>
      r.error == if 0 < totalSize && (maxUpload < totalSize || 0 < maxField < totalSize) then TooLarge else Invalid
  {
    if totalSize <= 0 then Err(Invalid)
    else if totalSize > maxUpload then Err(TooLarge)
    else if maxField > 0 && totalSize > maxField then Err(TooLarge)
    else if chunkSize <= 0 || chunkSize > totalSize then Err(Invalid)
    else
      var totalChunks := (totalSize + chunkSize - 1) / chunkSize;
      CeilBound(totalSize, chunkSize, MAX_UPLOAD_CHUNKS);
      if totalChunks > MAX_UPLOAD_CHUNKS then Err(Invalid)
      else match NormalizeSHA256(checksum)
        case None => Err(Invalid)
        case Some(normalized) => Ok(Terms(totalSize, chunkSize, totalChunks, normalized, expiresAt))
  }

  lemma CeilBound(total: int, chunk: int, n: int)
    requires 0 < chunk
    ensures (total + chunk - 1) / chunk <= n <==> total <= chunk * n
  {
    var q := (total + chunk - 1) / chunk;
    assert chunk * q <= total + chunk - 1 < chunk * q + chunk;
    if q <= n { Times(chunk, q, n); } else { Times(chunk, n + 1, q); }
  }

  lemma Times(c: int, a: int, b: int)
    requires 0 <= c && a <= b
    ensures c * a <= c * b
  {
  }

  function ExpectedChunkSize(s: Terms, index: int): Result<int, Error> {
    if index < 0 || index >= s.totalChunks then Err(Invalid)
    else
      var remaining := s.totalSize - index * s.chunkSize;
      Ok(if remaining < s.chunkSize then remaining else s.chunkSize)
  }

  function SizeAt(s: Terms, index: int): int {
    match ExpectedChunkSize(s, index) case Ok(n) => n case Err(_) => 0
  }

  function SumOfSizes(s: Terms, n: nat): int {
    if n == 0 then 0 else SumOfSizes(s, n - 1) + SizeAt(s, n - 1)
  }

  function Min(a: int, b: int): int {
    if a < b then a else b
  }

  lemma ChunksCover(s: Terms, n: nat)
    requires WellFormed(s)
    ensures n <= s.totalChunks - 1 <==> n * s.chunkSize < s.totalSize
    ensures n >= s.totalChunks ==> n * s.chunkSize >= s.totalSize
  {
    CeilBound(s.totalSize, s.chunkSize, n);
  }

  /** Every chunk holds between one byte and the chunk size. */
  lemma ChunkSizesAreInRange(s: Terms, index: nat)
    requires WellFormed(s) && index < s.totalChunks
    ensures 1 <= SizeAt(s, index) <= s.chunkSize
  {
    ChunksCover(s, index);
  }

  /** The first n chunks cover the file up to n chunk sizes or its end. */
  lemma {:induction false} PrefixSizes(s: Terms, n: nat)
    requires WellFormed(s) && n <= s.totalChunks
    ensures SumOfSizes(s, n) == Min(n * s.chunkSize, s.totalSize)
  {
    if n > 0 {
      PrefixSizes(s, n - 1);
      ChunksCover(s, n - 1);
      NextOffset(n - 1, s.chunkSize);
    }
  }

  lemma NextOffset(n: int, c: int)
    ensures (n + 1) * c == n * c + c
  {
  }

  /** The expected chunk sizes add up to the file. */
  lemma ChunkSizesPartition(s: Terms)
    requires WellFormed(s)
    ensures 1 <= s.totalChunks && SumOfSizes(s, s.totalChunks) == s.totalSize
  {
    ChunksCover(s, 0);
    PrefixSizes(s, s.totalChunks);
    ChunksCover(s, s.totalChunks);
  }

  // ---------- Cutting and joining ----------

  /** The piece of the file chunk `index` stands for. */
  function Piece(s: Terms, file: Bytes, index: nat): Bytes
    requires WellFormed(s) && |file| == s.totalSize && index < s.totalChunks
  {
    ChunksCover(s, index);
    NextOffset(index, s.chunkSize);
    ProductNotNegative(index, s.chunkSize);
    file[index * s.chunkSize..Min((index + 1) * s.chunkSize, s.totalSize)]
  }

  lemma ProductNotNegative(a: nat, b: nat)
    ensures a * b >= 0
  {
  }

  lemma PieceHasExpectedSize(s: Terms, file: Bytes, index: nat)
    requires WellFormed(s) && |file| == s.totalSize && index < s.totalChunks
    ensures |Piece(s, file, index)| == SizeAt(s, index)
  {
    ChunksCover(s, index);
    NextOffset(index, s.chunkSize);
  }

  /** What has been assembled after the first n chunks. */
  function Prefix(s: Terms, file: Bytes, n: nat): Bytes
    requires WellFormed(s) && |file| == s.totalSize && n <= s.totalChunks
  {
    ProductNotNegative(n, s.chunkSize);
    file[..Min(n * s.chunkSize, s.totalSize)]
  }

  lemma PrefixGrows(s: Terms, file: Bytes, n: nat)
    requires WellFormed(s) && |file| == s.totalSize && n < s.totalChunks
    ensures Prefix(s, file, n + 1) == Prefix(s, file, n) + Piece(s, file, n)
  {
    ChunksCover(s, n);
    NextOffset(n, s.chunkSize);
    ProductNotNegative(n, s.chunkSize);
  }

  lemma PrefixEnds(s: Terms, file: Bytes)
    requires WellFormed(s) && |file| == s.totalSize
    ensures s.totalChunks >= 1 && Prefix(s, file, 0) == [] && Prefix(s, file, s.totalChunks) == file
  {
    ChunkSizesPartition(s);
    ChunksCover(s, s.totalChunks);
  }

  /** The chunk files hold pieces of `file` and nothing else. */
  ghost predicate Honest(s: Terms, files: map<nat, Bytes>, file: Bytes)
    requires WellFormed(s) && |file| == s.totalSize
  {
    forall index :: index in files && index < s.totalChunks ==> files[index] == Piece(s, file, index)
  }

  // ---------- Validating and assembling ----------

  /** Every chunk has a row of the expected size. */
  predicate AllRecorded(s: Terms, rows: map<nat, int>) {
    forall index :: 0 <= index < s.totalChunks ==> index in rows && rows[index] == SizeAt(s, index)
  }

  /** The first n chunk files one after another, if none is missing. */
  function Joined(files: map<nat, Bytes>, n: nat): Option<Bytes> {
    if n == 0 then Some([])
    else match Joined(files, n - 1)
      case None => None
      case Some(front) => if n - 1 in files then Some(front + files[n - 1]) else None
  }

  lemma {:induction false} MissingStaysMissing(files: map<nat, Bytes>, m: nat, n: nat)
    requires m <= n && Joined(files, m).None?
    ensures Joined(files, n).None?
  {
    if m < n { MissingStaysMissing(files, m, n - 1); }
  }

  /** Joining fails exactly when a chunk file is missing. */
  lemma {:induction false} JoinedWhenPresent(files: map<nat, Bytes>, n: nat)
    ensures Joined(files, n).Some? <==> forall index: nat :: index < n ==> index in files
  {
    if n > 0 { JoinedWhenPresent(files, n - 1); }
  }

  /** Chunk files cut from one file, however they got there, join to its prefix. */
  lemma {:induction false} JoinedIsPrefix(s: Terms, files: map<nat, Bytes>, file: Bytes, n: nat)
    requires WellFormed(s) && |file| == s.totalSize && n <= s.totalChunks
    requires Honest(s, files, file) && forall index: nat :: index < n ==> index in files
    ensures Joined(files, n) == Some(Prefix(s, file, n))
  {
    if n == 0 {
      PrefixEnds(s, file);
    } else {
      JoinedIsPrefix(s, files, file, n - 1);
      PrefixGrows(s, file, n - 1);
    }
  }

  /** The checksum assembly must meet; None where a caller's checksum contradicts the session's. */
  function Wanted(s: Terms, override: string): Option<string> {
    if s.checksum != "" && override != "" && override != s.checksum then None
    else Some(if s.checksum != "" then s.checksum else override)
  }

  function Assembled(s: Terms, files: map<nat, Bytes>, override: string, hash: Bytes -> string): Result<Bytes, Error> {
    if Wanted(s, override).None? || s.totalChunks < 0 || Joined(files, s.totalChunks).None? then Err(Invalid)
    else
      var out := Joined(files, s.totalChunks).value;
      if |out| != s.totalSize then Err(Invalid)
      else if Wanted(s, override).value != "" && hash(out) != Wanted(s, override).value then Err(ChecksumMismatch)
      else Ok(out)
  }

  /** Assembly yields the file exactly when no chunk file is missing and the checksums asked for are the file's. */
  lemma AssemblyYieldsTheFile(s: Terms, files: map<nat, Bytes>, file: Bytes, override: string, hash: Bytes -> string)
    requires WellFormed(s) && |file| == s.totalSize && Honest(s, files, file)
    ensures Assembled(s, files, override, hash).Ok? <==>
      && (forall index: nat :: index < s.totalChunks ==> index in files)
      && (s.checksum != "" ==> hash(file) == s.checksum)
      && (override != "" ==> hash(file) == override)
    ensures Assembled(s, files, override, hash).Ok? ==> Assembled(s, files, override, hash).value == file
  {
    PrefixEnds(s, file);
    JoinedWhenPresent(files, s.totalChunks);
    if forall index: nat :: index < s.totalChunks ==> index in files {
      JoinedIsPrefix(s, files, file, s.totalChunks);
    }
  }

  /** Assembly yields the chunk files one after another, exactly when none is missing, they have the session's size
      together, and they meet the checksums asked for, of which there may not be two different ones. */
  lemma AssemblyLaw(s: Terms, files: map<nat, Bytes>, override: string, hash: Bytes -> string, out: Bytes)
    requires s.totalChunks >= 0
    ensures Assembled(s, files, override, hash) == Ok(out) <==>
      && Joined(files, s.totalChunks) == Some(out) && |out| == s.totalSize
      && (s.checksum != "" ==> hash(out) == s.checksum) && (override != "" ==> hash(out) == override)
  {
  }

  /** With the file's checksum to meet, nothing but the file is ever assembled, whatever the chunk files hold. */
  lemma ChecksumCatchesWrongChunks(s: Terms, files: map<nat, Bytes>, file: Bytes, override: string,
                                   hash: Bytes -> string)
    requires (s.checksum == hash(file) || (s.checksum == "" && override == hash(file))) && hash(file) != ""
    requires forall other :: hash(other) == hash(file) ==> other == file
    ensures Assembled(s, files, override, hash).Ok? ==> Assembled(s, files, override, hash).value == file
  {
  }

  // ---------- A session as its requests change it ----------

  class UploadSession {
    const terms: Terms
    var status: Status
    var rows: map<nat, int>
    var slots: seq<Slot>

    ghost predicate Valid()
      reads this
    {
      |slots| == terms.totalChunks && forall i :: 0 <= i < |slots| ==> Apart(slots[i])
    }

    constructor (terms: Terms)
      requires WellFormed(terms)
      ensures Valid() && this.terms == terms && status == Open && rows == map[] && FilesOf(slots) == map[]
    {
      ChunkSizesPartition(terms);
      this.terms := terms;
      status, rows, slots := Open, map[], seq(terms.totalChunks, i => Empty());
    }

    method GetOpen(now: int) returns (error: Option<Error>)
      ensures error == if status != Open then Some(Conflict) else if now >= terms.expiresAt then Some(Expired) else None
    {
      if status != Open { return Some(Conflict); }
      if now >= terms.expiresAt { return Some(Expired); }
      return None;
    }

    method Act(index: nat, action: Action)
      requires index < |slots|
      modifies this`slots
      ensures slots == old(slots)[index := Apply(old(slots)[index], action)]
    {
      slots := slots[index := Apply(slots[index], action)];
    }

    /** A whole upload of a chunk that nothing interrupts: through the shared temporary path, which it leaves free. At
        most one byte more than expected is read, and only exactly the expected bytes replace the chunk's file. */
    method StoreChunk(who: nat, index: int, body: Bytes, header: string, hash: Bytes -> string)
      returns (r: Result<int, Error>)
      requires Valid() && forall i :: 0 <= i < |slots| ==> who !in slots[i].writers
      modifies this`slots
      ensures Valid()
      ensures r == match (ExpectedChunkSize(terms, index), NormalizeSHA256(header))
        case (Ok(n), Some(checksum)) =>
          if |body| != n then Err(Invalid)
          else if checksum != "" && hash(body) != checksum then Err(ChecksumMismatch)
          else Ok(n)
        case _ => Err(Invalid)
      ensures FilesOf(slots) == if r.Ok? then FilesOf(old(slots))[index := body] else FilesOf(old(slots))
    {
      var expected := ExpectedChunkSize(terms, index);
      if expected.Err? { return Err(expected.error); }
      var checksum := NormalizeSHA256(header);
      if checksum.None? { return Err(Invalid); }
      var read := if expected.value + 1 >= 0 && |body| > expected.value + 1 then body[..expected.value + 1] else body;
      assert |read| == expected.value ==> read == body;
      ghost var was := slots;
      WholeUpload(slots[index], who, read);
      Act(index, Begin(who));
      Act(index, Write(who, read));
      if |read| != expected.value || (checksum.value != "" && hash(read) != checksum.value) {
        Act(index, Abort(who));
        SameFiles(was, slots, index);
        return Err(if |read| != expected.value then Invalid else ChecksumMismatch);
      }
      Act(index, Install(who));
      NewFile(was, slots, index, read);
      return Ok(|read|);
    }

    /** Records a stored chunk while the session is open and the database answers; otherwise the request removes the
        chunk's file again. */
    method RecordChunk(index: nat, size: int, now: int, answered: bool) returns (ok: bool)
      requires Valid() && index < |slots|
      modifies this`rows, this`slots
      ensures Valid()
      ensures ok <==> status == Open && now < terms.expiresAt && answered
      ensures rows == if ok then old(rows)[index := size] else old(rows)
      ensures FilesOf(slots) == if ok then FilesOf(old(slots)) else FilesOf(old(slots)) - {index}
    {
      ok := status == Open && now < terms.expiresAt && answered;
      if ok {
        rows := rows[index := size];
      } else {
        slots := slots[index := Removed(slots[index])];
      }
    }

    method ValidateUploadedChunks() returns (ok: bool)
      ensures ok <==> AllRecorded(terms, rows)
    {
      var index := 0;
      while index < terms.totalChunks
        invariant 0 <= index
        invariant forall i :: 0 <= i < index && i < terms.totalChunks ==> i in rows && rows[i] == SizeAt(terms, i)
      {
        if index !in rows { return false; }
        var expected := ExpectedChunkSize(terms, index);
        if expected.Err? || rows[index] != expected.value { return false; }
        index := index + 1;
      }
      return true;
    }

    method ClaimForComplete(now: int) returns (error: Option<Error>)
      modifies this`status
      ensures error == if old(status) != Open then Some(Conflict) else if now >= terms.expiresAt then Some(Expired)
        else if !AllRecorded(terms, rows) then Some(Invalid) else None
      ensures status == if error == None then Completing else old(status)
    {
      error := GetOpen(now);
      if error.Some? { return; }
      var ok := ValidateUploadedChunks();
      if !ok { return Some(Invalid); }
      status := Completing;
    }

    method Reopen()
      modifies this`status
      ensures status == if old(status) == Completing then Open else old(status)
    {
      if status == Completing { status := Open; }
    }

    method MarkCompleted()
      modifies this`status
      ensures status == if old(status) == Completing then Completed else old(status)
    {
      if status == Completing { status := Completed; }
    }

    method RemoveTemp()
      requires Valid()
      modifies this`slots
      ensures Valid() && FilesOf(slots) == map[]
    {
      slots := ClearedAll(slots);
    }

    method Cancel(now: int) returns (error: Option<Error>)
      requires Valid()
      modifies this`status, this`slots
      ensures Valid()
      ensures error == if old(status) != Open then Some(Conflict)
                       else if now >= terms.expiresAt then Some(Expired) else None
      ensures status == if error == None then Canceled else old(status)
      ensures FilesOf(slots) == if error == None then map[] else FilesOf(old(slots))
    {
      error := GetOpen(now);
      if error.Some? { return; }
      status := Canceled;
      RemoveTemp();
    }

    method CleanupExpired(now: int)
      requires Valid()
      modifies this`status, this`slots
      ensures Valid()
      ensures var due := (old(status) == Open || old(status) == Completing) && terms.expiresAt <= now;
        && status == (if due then Canceled else old(status))
        && FilesOf(slots) == if due then map[] else FilesOf(old(slots))
    {
      if (status == Open || status == Completing) && terms.expiresAt <= now {
        status := Canceled;
        RemoveTemp();
      }
    }

    method Assemble(raw: string, hash: Bytes -> string) returns (r: Result<Bytes, Error>)
      requires Valid()
      ensures r == match NormalizeSHA256(raw)
        case None => Err(Invalid)
        case Some(override) => Assembled(terms, FilesOf(slots), override, hash)
    {
      var override := NormalizeSHA256(raw);
      if override.None? { return Err(Invalid); }
      var checksum := override.value;
      if terms.checksum != "" {
        if checksum != "" && checksum != terms.checksum { return Err(Invalid); }
        checksum := terms.checksum;
      }
      var out := [];
      var written := 0;
      for index := 0 to |slots|
        invariant Joined(FilesOf(slots), index) == Some(out) && written == |out|
      {
        var chunk := Chunk(slots[index]);
        if chunk.None? {
          MissingStaysMissing(FilesOf(slots), index + 1, |slots|);
          return Err(Invalid);
        }
        out := out + chunk.value;
        written := written + |chunk.value|;
      }
      if written != terms.totalSize { return Err(Invalid); }
      if checksum != "" && hash(out) != checksum { return Err(ChecksumMismatch); }
      return Ok(out);
    }
  }
}
