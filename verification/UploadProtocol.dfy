/** One upload session under any interleaving of its requests: uploaders that saw the session open write a chunk and
    later record it, at most one completer copies the chunk files together, and cancelling and cleanup end it. */
module UploadProtocol {
  import opened Text
  import opened ChunkFile
  import opened FileUploads

  /** A completing request: how many chunks it has copied, and the bytes so far. */
  datatype Completer = Completer(next: nat, out: Bytes)

  datatype State = State(
    status: Status,
    rows: map<nat, int>,
    slots: seq<Slot>,           // the chunks on disk
    stored: multiset<nat>,      // chunks installed by uploaders that have yet to record them
    completers: seq<Completer>,
    removed: set<nat>)          // chunks whose file a failed recording removed, and none installed since

  datatype Step =
    | Upload(index: nat, action: Action)
    | Record(index: nat, now: int)
    | RecordFails(index: nat)
    | Abandon(index: nat)
    | Claim(now: int)
    | Copy(who: nat)
    | Fail(who: nat)
    | Complete(who: nat, marked: bool)
    | Crash(who: nat)
    | Cancel(now: int)
    | CleanUp(now: int)

  function Initial(s: Terms): State
    requires WellFormed(s)
  {
    ChunkSizesPartition(s);
    State(Open, map[], seq(s.totalChunks, i => Empty()), multiset{}, [], {})
  }

  function ChunkAt(st: State, index: nat): Option<Bytes> {
    if index < |st.slots| then Chunk(st.slots[index]) else None
  }

  predicate IsOpen(s: Terms, st: State, now: int) {
    st.status == Open && now < s.expiresAt
  }

  /** An uploader may write long after it saw the session open; recording and completing may fail at any point. */
  predicate Enabled(s: Terms, st: State, step: Step) {
    match step
    case Upload(index, action) => index < |st.slots| && ChunkFile.Enabled(st.slots[index], SizeAt(s, index), action)
    case Record(index, _) => index in st.stored
    case RecordFails(index) => index in st.stored
    case Abandon(index) => index in st.stored
    case Claim(now) => IsOpen(s, st, now) && AllRecorded(s, st.rows)
    case Copy(who) =>
      who < |st.completers| && st.completers[who].next < s.totalChunks && ChunkAt(st, st.completers[who].next).Some?
    case Fail(who) => who < |st.completers|
    case Complete(who, _) =>
      who < |st.completers| && st.completers[who].next == s.totalChunks && |st.completers[who].out| == s.totalSize
    case Crash(who) => who < |st.completers|
    case Cancel(now) => IsOpen(s, st, now)
    case CleanUp(now) => (st.status == Open || st.status == Completing) && s.expiresAt <= now
  }

  function Without(completers: seq<Completer>, who: nat): seq<Completer> {
    if who < |completers| then completers[..who] + completers[who + 1..] else completers
  }

  /** Installing succeeds when something is at the temporary path; the uploader then goes on to record the chunk. */
  function AfterUpload(st: State, index: nat, action: Action): State
    requires index < |st.slots|
  {
    var t := st.(slots := st.slots[index := ChunkFile.Apply(st.slots[index], action)]);
    if action.Install? && st.slots[index].temp.Some?
    then t.(stored := st.stored + multiset{index}, removed := st.removed - {index}) else t
  }

  /** The uploader removes the chunk's file again. */
  function Unrecorded(st: State, index: nat): State {
    var left := st.(stored := st.stored - multiset{index}, removed := st.removed + {index});
    if index < |st.slots| then left.(slots := st.slots[index := Removed(st.slots[index])]) else left
  }

  function Apply(s: Terms, st: State, step: Step): State {
    match step
    case Upload(index, action) => if index < |st.slots| then AfterUpload(st, index, action) else st
    case Record(index, now) =>
      if IsOpen(s, st, now)
      then st.(stored := st.stored - multiset{index}, rows := st.rows[index := SizeAt(s, index)])
      else Unrecorded(st, index)
    case RecordFails(index) => Unrecorded(st, index)
    case Abandon(index) => st.(stored := st.stored - multiset{index})
    case Claim(_) => st.(status := Completing, completers := st.completers + [Completer(0, [])])
    case Copy(who) =>
      if who < |st.completers| && ChunkAt(st, st.completers[who].next).Some? then
        var c := st.completers[who];
        st.(completers := st.completers[who := Completer(c.next + 1, c.out + ChunkAt(st, c.next).value)])
      else st
    case Fail(who) =>
      st.(status := if st.status == Completing then Open else st.status, completers := Without(st.completers, who))
    case Complete(who, marked) =>
      st.(status := if marked && st.status == Completing then Completed else st.status,
          completers := Without(st.completers, who), slots := ClearedAll(st.slots))
    case Crash(who) => st.(completers := Without(st.completers, who))
    case Cancel(_) => st.(status := Canceled, slots := ClearedAll(st.slots))
    case CleanUp(_) => st.(status := Canceled, slots := ClearedAll(st.slots))
  }

  predicate Behaviour(s: Terms, st: State, steps: seq<Step>)
    decreases |steps|
  {
    steps == [] || (Enabled(s, st, steps[0]) && Behaviour(s, Apply(s, st, steps[0]), steps[1..]))
  }

  function Run(s: Terms, st: State, steps: seq<Step>): State
    decreases |steps|
  {
    if steps == [] then st else Run(s, Apply(s, st, steps[0]), steps[1..])
  }

  predicate Ended(st: State) {
    st.status == Completed || st.status == Canceled
  }

  /** Completed and canceled are final. */
  lemma {:induction false} EndedStaysEnded(s: Terms, st: State, steps: seq<Step>)
    requires Ended(st) && Behaviour(s, st, steps)
    ensures Run(s, st, steps).status == st.status
    decreases |steps|
  {
    if steps != [] {
      EndedStaysEnded(s, Apply(s, st, steps[0]), steps[1..]);
    }
  }

  /** One completer at most, and none while the session is open or completed. */
  predicate OneCompleter(st: State) {
    |st.completers| <= 1 && (st.status == Open || st.status == Completed ==> st.completers == [])
  }

  lemma StepKeepsOneCompleter(s: Terms, st: State, step: Step)
    requires OneCompleter(st) && Enabled(s, st, step)
    ensures OneCompleter(Apply(s, st, step))
  {
  }

  lemma {:induction false} NeverTwoCompleters(s: Terms, st: State, steps: seq<Step>)
    requires OneCompleter(st) && Behaviour(s, st, steps)
    ensures OneCompleter(Run(s, st, steps))
    decreases |steps|
  {
    if steps != [] {
      StepKeepsOneCompleter(s, st, steps[0]);
      NeverTwoCompleters(s, Apply(s, st, steps[0]), steps[1..]);
    }
  }

  // ---------- What claims and recordings need ----------

  /** A claim takes an open, unexpired session with every chunk recorded at its size. */
  lemma ClaimLaw(s: Terms, st: State, now: int)
    requires WellFormed(s)
    ensures Enabled(s, st, Claim(now)) <==>
            && st.status == Open && now < s.expiresAt
            && forall index: nat :: index < s.totalChunks ==>
                 index in st.rows && st.rows[index] == Min(s.chunkSize, s.totalSize - index * s.chunkSize)
    ensures Apply(s, st, Claim(now)) ==
            st.(status := Completing, completers := st.completers + [Completer(0, [])])
  {
    forall index: nat | index < s.totalChunks
      ensures SizeAt(s, index) == Min(s.chunkSize, s.totalSize - index * s.chunkSize)
    {
    }
  }

  /** A recording while the session is open and unexpired keeps the chunk, and any other takes its file away. */
  lemma RecordLaw(s: Terms, st: State, index: nat, now: int)
    requires index < |st.slots| == s.totalChunks
    ensures var t := Apply(s, st, Record(index, now));
            if st.status == Open && now < s.expiresAt
            then t.rows == st.rows[index := Min(s.chunkSize, s.totalSize - index * s.chunkSize)] && t.slots == st.slots
            else t.rows == st.rows && ChunkAt(t, index) == None && index in t.removed
    ensures var t := Apply(s, st, RecordFails(index));
            t.rows == st.rows && ChunkAt(t, index) == None && index in t.removed
  {
  }

  // ---------- Uploaders that send pieces of one file ----------

  predicate SendsPiece(s: Terms, st: State, file: Bytes, step: Step)
    requires WellFormed(s) && |file| == s.totalSize
  {
    step.Upload? && step.index < |st.slots| && step.index < s.totalChunks ==>
      Sends(st.slots[step.index], Piece(s, file, step.index), step.action)
  }

  /** Every uploader sends the piece of `file` its chunk stands for. */
  predicate SendsPieces(s: Terms, st: State, file: Bytes, steps: seq<Step>)
    requires WellFormed(s) && |file| == s.totalSize
    decreases |steps|
  {
    steps == [] || (SendsPiece(s, st, file, steps[0]) && SendsPieces(s, Apply(s, st, steps[0]), file, steps[1..]))
  }

  predicate OneAtATime(st: State, step: Step) {
    step.Upload? && step.index < |st.slots| ==> Exclusive(st.slots[step.index], step.action)
  }

  /** No chunk is opened for writing between another request's opening it and being done with it. */
  predicate NoOverlaps(s: Terms, st: State, steps: seq<Step>)
    decreases |steps|
  {
    steps == [] || (OneAtATime(st, steps[0]) && NoOverlaps(s, Apply(s, st, steps[0]), steps[1..]))
  }

  /** Chunk files are pieces of the file, and every completer has copied a prefix of it. */
  ghost predicate Faithful(s: Terms, st: State, file: Bytes)
    requires WellFormed(s) && |file| == s.totalSize
  {
    && |st.slots| == s.totalChunks
    && (forall index :: 0 <= index < |st.slots| ==> Clean(st.slots[index], Piece(s, file, index)))
    && forall i :: 0 <= i < |st.completers| ==> HoldsPrefix(s, file, st.completers[i])
  }

  predicate HoldsPrefix(s: Terms, file: Bytes, c: Completer)
    requires WellFormed(s) && |file| == s.totalSize
  {
    c.next <= s.totalChunks && c.out == Prefix(s, file, c.next)
  }

  lemma UploadKeepsFaithful(s: Terms, st: State, file: Bytes, index: nat, action: Action)
    requires WellFormed(s) && |file| == s.totalSize && Faithful(s, st, file)
    requires var step := Step.Upload(index, action);
      Enabled(s, st, step) && SendsPiece(s, st, file, step) && OneAtATime(st, step)
    ensures Faithful(s, Apply(s, st, Upload(index, action)), file)
  {
    PieceHasExpectedSize(s, file, index);
    ActionKeepsClean(st.slots[index], Piece(s, file, index), action);
  }

  lemma CopyKeepsFaithful(s: Terms, st: State, file: Bytes, who: nat)
    requires WellFormed(s) && |file| == s.totalSize && Faithful(s, st, file) && Enabled(s, st, Copy(who))
    ensures Faithful(s, Apply(s, st, Copy(who)), file)
  {
    var c := st.completers[who];
    assert HoldsPrefix(s, file, c);
    assert Clean(st.slots[c.next], Piece(s, file, c.next));
    PrefixGrows(s, file, c.next);
  }

  lemma StepKeepsFaithful(s: Terms, st: State, file: Bytes, step: Step)
    requires WellFormed(s) && |file| == s.totalSize && Faithful(s, st, file)
    requires Enabled(s, st, step) && SendsPiece(s, st, file, step) && OneAtATime(st, step)
    ensures Faithful(s, Apply(s, st, step), file)
  {
    match step
    case Upload(index, action) => UploadKeepsFaithful(s, st, file, index, action);
    case Copy(who) => CopyKeepsFaithful(s, st, file, who);
    case Claim(_) => PrefixEnds(s, file);
    case _ =>
  }

  lemma {:induction false} RunKeepsFaithful(s: Terms, st: State, file: Bytes, steps: seq<Step>)
    requires WellFormed(s) && |file| == s.totalSize && Faithful(s, st, file)
    requires Behaviour(s, st, steps) && SendsPieces(s, st, file, steps) && NoOverlaps(s, st, steps)
    ensures Faithful(s, Run(s, st, steps), file)
    decreases |steps|
  {
    if steps != [] {
      StepKeepsFaithful(s, st, file, steps[0]);
      RunKeepsFaithful(s, Apply(s, st, steps[0]), file, steps[1..]);
    }
  }

  /** What holds of two stretches of a run one after the other holds of their concatenation. */
  lemma {:induction false} Concatenated(s: Terms, st: State, file: Bytes, a: seq<Step>, b: seq<Step>)
    requires WellFormed(s) && |file| == s.totalSize
    ensures var t := Run(s, st, a);
      && (Behaviour(s, st, a + b) <==> Behaviour(s, st, a) && Behaviour(s, t, b))
      && (SendsPieces(s, st, file, a + b) <==> SendsPieces(s, st, file, a) && SendsPieces(s, t, file, b))
      && (NoOverlaps(s, st, a + b) <==> NoOverlaps(s, st, a) && NoOverlaps(s, t, b))
      && Run(s, st, a + b) == Run(s, t, b)
    decreases |a|
  {
    if a == [] {
      assert a + b == b;
    } else {
      assert (a + b)[0] == a[0] && (a + b)[1..] == a[1..] + b;
      Concatenated(s, Apply(s, st, a[0]), file, a[1..], b);
    }
  }

  lemma FirstStep(s: Terms, st: State, file: Bytes, step: Step, rest: seq<Step>)
    requires WellFormed(s) && |file| == s.totalSize
    ensures var t := Apply(s, st, step);
      && (Behaviour(s, st, [step] + rest) <==> Enabled(s, st, step) && Behaviour(s, t, rest))
      && (SendsPieces(s, st, file, [step] + rest) <==> SendsPiece(s, st, file, step) && SendsPieces(s, t, file, rest))
      && (NoOverlaps(s, st, [step] + rest) <==> OneAtATime(st, step) && NoOverlaps(s, t, rest))
      && Run(s, st, [step] + rest) == Run(s, t, rest)
  {
    assert ([step] + rest)[1..] == rest;
  }

  lemma InitialIsFaithful(s: Terms, file: Bytes)
    requires WellFormed(s) && |file| == s.totalSize
    ensures Faithful(s, Initial(s), file)
  {
  }

  /** Whatever the order, the re-uploads and the refusals, as long as no chunk is opened for writing by two requests at
      once, a completer that is done copying holds the file. */
  lemma CompleterHoldsTheFile(s: Terms, file: Bytes, steps: seq<Step>, who: nat)
    requires WellFormed(s) && |file| == s.totalSize && Behaviour(s, Initial(s), steps)
    requires SendsPieces(s, Initial(s), file, steps) && NoOverlaps(s, Initial(s), steps)
    ensures var st := Run(s, Initial(s), steps);
      who < |st.completers| && st.completers[who].next == s.totalChunks ==> st.completers[who].out == file
  {
    InitialIsFaithful(s, file);
    RunKeepsFaithful(s, Initial(s), file, steps);
    PrefixEnds(s, file);
    var st := Run(s, Initial(s), steps);
    assert who < |st.completers| ==> HoldsPrefix(s, file, st.completers[who]);
  }

  // ---------- Overlapping uploads ----------

  /** Files are numbered in every chunk, and no writer has sent more than its piece. */
  ghost predicate Tracked(s: Terms, st: State) {
    |st.slots| == s.totalChunks &&
    forall index :: 0 <= index < |st.slots| ==> TrackedAt(st.slots[index], SizeAt(s, index))
  }

  predicate TrackedAt(slot: Slot, size: int) {
    && Numbered(slot) && (slot.temp.Some? ==> slot.temp.value < slot.next)
    && forall a :: a in slot.writers ==> slot.writers[a].sent <= size
  }

  lemma StepKeepsTracked(s: Terms, st: State, file: Bytes, step: Step)
    requires WellFormed(s) && |file| == s.totalSize
    requires Tracked(s, st) && Enabled(s, st, step) && SendsPiece(s, st, file, step)
    ensures Tracked(s, Apply(s, st, step))
  {
    if step.Upload? {
      assert TrackedAt(st.slots[step.index], SizeAt(s, step.index));
      ActionKeepsNumbered(st.slots[step.index], step.action);
      PieceHasExpectedSize(s, file, step.index);
      ChunkSizesAreInRange(s, step.index);
    }
  }

  lemma {:induction false} RunKeepsTracked(s: Terms, st: State, file: Bytes, steps: seq<Step>)
    requires WellFormed(s) && |file| == s.totalSize
    requires Tracked(s, st) && Behaviour(s, st, steps) && SendsPieces(s, st, file, steps)
    ensures Tracked(s, Run(s, st, steps))
    decreases |steps|
  {
    if steps != [] {
      StepKeepsTracked(s, st, file, steps[0]);
      RunKeepsTracked(s, Apply(s, st, steps[0]), file, steps[1..]);
    }
  }

  /** A row of actions on one chunk changes only that chunk, and a chunk installed is waiting to be recorded. */
  lemma UploadsRun(s: Terms, st: State, file: Bytes, index: nat, actions: seq<Action>)
    requires WellFormed(s) && |file| == s.totalSize && index < |st.slots| == s.totalChunks
    requires ActsOn(st.slots[index], Piece(s, file, index), actions)
    ensures var steps := UploadSteps(index, actions);
      Behaviour(s, st, steps) && SendsPieces(s, st, file, steps)
    ensures var t := Run(s, st, UploadSteps(index, actions));
      && t.slots == st.slots[index := AfterAll(st.slots[index], actions)]
      && t.status == st.status && t.rows == st.rows && t.completers == st.completers && st.stored <= t.stored
      && (st.slots[index].chunk.None? && t.slots[index].chunk.Some? ==> index in t.stored)
    decreases |actions|
  {
    if actions == [] {
      assert st.slots[index := st.slots[index]] == st.slots;
    } else {
      PieceHasExpectedSize(s, file, index);
      var steps := UploadSteps(index, actions);
      assert steps[1..] == UploadSteps(index, actions[1..]);
      var t := AfterUpload(st, index, actions[0]);
      assert steps[0] == Step.Upload(index, actions[0]) && t == Apply(s, st, steps[0]);
      ActionKeepsChunk(st.slots[index], actions[0]);
      UploadsRun(s, t, file, index, actions[1..]);
    }
  }

  function UploadSteps(index: nat, actions: seq<Action>): seq<Step> {
    seq(|actions|, i requires 0 <= i < |actions| => Step.Upload(index, actions[i]))
  }

  /** Wherever two requests write one chunk at once, requests that only ever send its piece can go on to leave a wrong
      chunk file: the rule that a chunk is not opened while it is being written cannot be relaxed. */
  lemma OverlapCanCorrupt(s: Terms, file: Bytes, steps: seq<Step>, index: nat, a: nat, b: nat)
    returns (more: seq<Step>)
    requires WellFormed(s) && |file| == s.totalSize && index < s.totalChunks
    requires Behaviour(s, Initial(s), steps) && SendsPieces(s, Initial(s), file, steps)
    ensures var st := Run(s, Initial(s), steps);
      index < |st.slots| && Overlap(st.slots[index], a, b) ==>
        && Behaviour(s, st, more) && SendsPieces(s, st, file, more)
        && ChunkAt(Run(s, st, more), index) == Some([]) && Piece(s, file, index) != []
  {
    var st := Run(s, Initial(s), steps);
    RunKeepsTracked(s, Initial(s), file, steps);
    more := [];
    var slot, piece := st.slots[index], Piece(s, file, index);
    if Overlap(slot, a, b) {
      var c: nat := FreshWriter(slot.writers.Keys);
      assert TrackedAt(slot, SizeAt(s, index));
      ChunkSizesAreInRange(s, index);
      PieceHasExpectedSize(s, file, index);
      OverlapEndsEmpty(slot, piece, a, b, c);
      var actions := Aftermath(slot, piece, a, b, c);
      UploadsRun(s, st, file, index, actions);
      more := UploadSteps(index, actions);
    }
  }

  // ---------- A hole that nobody notices ----------

  /** A session for a file of two bytes in one chunk. */
  const SMALL := Terms(2, 2, 1, "", 10)

  lemma SmallIsWellFormed()
    ensures WellFormed(SMALL) && Piece(SMALL, [7, 8], 0) == [7, 8]
  {
  }

  /** A stored only chunk is recorded, the session claimed and the chunk copied. */
  function ToTheEnd(): seq<Step> {
    [Record(0, 1), Claim(2), Copy(0)]
  }

  lemma RecordedAndCopied(st: State, content: Bytes)
    requires st.status == Open && st.completers == [] && 0 in st.stored && ChunkAt(st, 0) == Some(content)
    ensures WellFormed(SMALL)
    ensures Behaviour(SMALL, st, ToTheEnd()) && SendsPieces(SMALL, st, [7, 8], ToTheEnd())
    ensures Run(SMALL, st, ToTheEnd()).completers == [Completer(1, content)]
  {
    var s1 := Apply(SMALL, st, Record(0, 1));
    assert AllRecorded(SMALL, s1.rows);
    var s2 := Apply(SMALL, s1, Claim(2));
    assert s2.completers == [Completer(0, [])] && [] + content == content;
    var s3 := Apply(SMALL, s2, Copy(0));
    var rest := [Claim(2), Copy(0)];
    assert ToTheEnd()[1..] == rest && rest[1..] == [Copy(0)] && [Copy(0)][1..] == [];
    assert Behaviour(SMALL, s2, [Copy(0)]) && Run(SMALL, s2, [Copy(0)]) == s3;
    assert Behaviour(SMALL, s1, rest) && Run(SMALL, s1, rest) == s3;
  }

  /** Both requests send the right bytes, every check passes, and the completer holds a wrong file. */
  lemma OverlapGoesUnnoticed()
    ensures WellFormed(SMALL)
    ensures var steps := UploadSteps(0, HalfOverwritten()) + ToTheEnd();
      var st := Run(SMALL, Initial(SMALL), steps);
      && Behaviour(SMALL, Initial(SMALL), steps) && SendsPieces(SMALL, Initial(SMALL), [7, 8], steps)
      && st.completers == [Completer(1, [0, 8])] && Enabled(SMALL, st, Complete(0, true))
  {
    SmallIsWellFormed();
    HoleInTheChunk();
    var st, steps := Initial(SMALL), UploadSteps(0, HalfOverwritten());
    assert st.slots == [Empty()];
    UploadsRun(SMALL, st, [7, 8], 0, HalfOverwritten());
    var stored := Run(SMALL, st, steps);
    RecordedAndCopied(stored, [0, 8]);
    Concatenated(SMALL, st, [7, 8], steps, ToTheEnd());
  }

  // ---------- Rows and files ----------

  /** The session may still be assembled: it is open, or a completer holds it. */
  predicate Live(st: State) {
    st.status == Open || (st.status == Completing && st.completers != [])
  }

  /** While the session lives, a recorded or stored chunk has its file exactly when no failed recording removed it. */
  predicate RowsHaveFiles(st: State) {
    Live(st) ==>
      && (forall index :: index in st.removed ==> ChunkAt(st, index).None?)
      && (forall index :: index in st.rows ==> ChunkAt(st, index).Some? || index in st.removed)
      && (forall index :: index in st.stored ==> ChunkAt(st, index).Some? || index in st.removed)
  }

  /** A claimed session has every chunk recorded. */
  predicate ClaimedIsRecorded(s: Terms, st: State) {
    st.status == Completing ==> AllRecorded(s, st.rows)
  }

  lemma ActionKeepsChunk(slot: Slot, action: Action)
    ensures Chunk(slot).Some? ==> Chunk(ChunkFile.Apply(slot, action)).Some?
    ensures Chunk(slot).None? && Chunk(ChunkFile.Apply(slot, action)).Some? ==> action.Install? && slot.temp.Some?
    ensures action.Install? && slot.temp.Some? ==> Chunk(ChunkFile.Apply(slot, action)).Some?
  {
  }

  lemma UploadKeepsRowsHaveFiles(s: Terms, st: State, index: nat, action: Action)
    requires RowsHaveFiles(st) && index < |st.slots|
    ensures RowsHaveFiles(AfterUpload(st, index, action))
  {
    ActionKeepsChunk(st.slots[index], action);
    var t := AfterUpload(st, index, action);
    assert forall i: nat :: i != index ==> ChunkAt(t, i) == ChunkAt(st, i);
  }

  lemma UnrecordedKeepsRowsHaveFiles(st: State, index: nat)
    requires RowsHaveFiles(st)
    ensures RowsHaveFiles(Unrecorded(st, index))
  {
    var t := Unrecorded(st, index);
    assert forall i: nat :: i != index ==> ChunkAt(t, i) == ChunkAt(st, i);
    assert ChunkAt(t, index).None?;
  }

  lemma RecordKeepsRowsHaveFiles(s: Terms, st: State, index: nat, now: int)
    requires RowsHaveFiles(st) && index in st.stored
    ensures RowsHaveFiles(Apply(s, st, Record(index, now)))
  {
    if !IsOpen(s, st, now) { UnrecordedKeepsRowsHaveFiles(st, index); }
  }

  /** A step that touches no chunk leaves the rows' files alone. */
  lemma ClaimKeepsRowsHaveFiles(s: Terms, st: State, step: Step)
    requires RowsHaveFiles(st) && OneCompleter(st) && Enabled(s, st, step)
    requires step.Abandon? || step.Claim? || step.Copy? || step.Fail? || step.Crash?
    ensures RowsHaveFiles(Apply(s, st, step))
  {
    assert Live(Apply(s, st, step)) ==> Live(st);
    assert Apply(s, st, step).slots == st.slots && Apply(s, st, step).rows == st.rows;
  }

  lemma EndKeepsRowsHaveFiles(s: Terms, st: State, step: Step)
    requires OneCompleter(st) && Enabled(s, st, step) && (step.Complete? || step.Cancel? || step.CleanUp?)
    ensures RowsHaveFiles(Apply(s, st, step))
  {
    assert !Live(Apply(s, st, step));
  }

  lemma StepKeepsRowsHaveFiles(s: Terms, st: State, step: Step)
    requires RowsHaveFiles(st) && OneCompleter(st) && Enabled(s, st, step)
    ensures RowsHaveFiles(Apply(s, st, step))
  {
    if step.Upload? {
      UploadKeepsRowsHaveFiles(s, st, step.index, step.action);
    } else if step.Record? {
      RecordKeepsRowsHaveFiles(s, st, step.index, step.now);
    } else if step.RecordFails? {
      UnrecordedKeepsRowsHaveFiles(st, step.index);
    } else if step.Complete? || step.Cancel? || step.CleanUp? {
      EndKeepsRowsHaveFiles(s, st, step);
    } else {
      ClaimKeepsRowsHaveFiles(s, st, step);
    }
  }

  lemma StepKeepsClaimedRecorded(s: Terms, st: State, step: Step)
    requires ClaimedIsRecorded(s, st) && Enabled(s, st, step)
    ensures ClaimedIsRecorded(s, Apply(s, st, step))
  {
  }

  lemma {:induction false} RecordedChunksHaveFiles(s: Terms, st: State, steps: seq<Step>)
    requires RowsHaveFiles(st) && ClaimedIsRecorded(s, st) && OneCompleter(st) && Behaviour(s, st, steps)
    ensures RowsHaveFiles(Run(s, st, steps)) && ClaimedIsRecorded(s, Run(s, st, steps))
    decreases |steps|
  {
    if steps != [] {
      StepKeepsRowsHaveFiles(s, st, steps[0]);
      StepKeepsClaimedRecorded(s, st, steps[0]);
      StepKeepsOneCompleter(s, st, steps[0]);
      RecordedChunksHaveFiles(s, Apply(s, st, steps[0]), steps[1..]);
    }
  }

  /** In every run, a session a completer holds has all its chunk files exactly when every chunk a failed recording
      removed was uploaded again since. */
  lemma ClaimedCanBeAssembled(s: Terms, steps: seq<Step>)
    requires WellFormed(s) && Behaviour(s, Initial(s), steps)
    ensures var st := Run(s, Initial(s), steps);
      st.status == Completing && st.completers != [] ==>
        (Joined(FilesOf(st.slots), s.totalChunks).Some? <==>
         forall index: nat :: index < s.totalChunks ==> index !in st.removed)
  {
    RecordedChunksHaveFiles(s, Initial(s), steps);
    var st := Run(s, Initial(s), steps);
    JoinedWhenPresent(FilesOf(st.slots), s.totalChunks);
    if st.status == Completing && st.completers != [] {
      forall index: nat | index < s.totalChunks ensures index in FilesOf(st.slots) <==> index !in st.removed {
        assert index in st.rows;
      }
    }
  }

  lemma ThreeSteps(s: Terms, st: State, file: Bytes, a: Step, b: Step, c: Step)
    requires WellFormed(s) && |file| == s.totalSize
    requires var s1 := Apply(s, st, a);
      var s2 := Apply(s, s1, b);
      && Enabled(s, st, a) && Enabled(s, s1, b) && Enabled(s, s2, c)
      && SendsPiece(s, st, file, a) && SendsPiece(s, s1, file, b) && SendsPiece(s, s2, file, c)
      && OneAtATime(st, a) && OneAtATime(s1, b) && OneAtATime(s2, c)
    ensures GoesOn(s, st, file, [a, b, c]) && Run(s, st, [a, b, c]) == Apply(s, Apply(s, Apply(s, st, a), b), c)
  {
    var s1 := Apply(s, st, a);
    var s2 := Apply(s, s1, b);
    assert [a, b, c] == [a] + [b, c] && [b, c] == [b] + [c] && [c] == [c] + [];
    FirstStep(s, s2, file, c, []);
    FirstStep(s, s1, file, b, [c]);
    FirstStep(s, st, file, a, [b, c]);
  }

  /** The steps can be taken, uploaders send their pieces, and no two of them write one chunk at once. */
  predicate GoesOn(s: Terms, st: State, file: Bytes, steps: seq<Step>)
    requires WellFormed(s) && |file| == s.totalSize
  {
    Behaviour(s, st, steps) && SendsPieces(s, st, file, steps) && NoOverlaps(s, st, steps)
  }

  /** One request uploads the small session's only chunk. */
  function OneUpload(): seq<Step> {
    [Step.Upload(0, Begin(0)), Step.Upload(0, Write(0, [7, 8])), Step.Upload(0, Install(0))]
  }

  /** No one is writing the only chunk. */
  predicate Idle(st: State) {
    |st.slots| == 1 && st.slots[0].writers == map[]
  }

  lemma Uploaded(st: State)
    requires Idle(st)
    ensures WellFormed(SMALL) && GoesOn(SMALL, st, [7, 8], OneUpload())
    ensures var t := Run(SMALL, st, OneUpload());
      && Idle(t) && ChunkAt(t, 0).Some? && t.status == st.status && t.rows == st.rows && t.completers == st.completers
      && t.stored == st.stored + multiset{0}
  {
    SmallIsWellFormed();
    ThreeSteps(SMALL, st, [7, 8], OneUpload()[0], OneUpload()[1], OneUpload()[2]);
  }

  /** The chunk is recorded once, then recorded again in vain: too late, or because the database fails. */
  function InVain(late: bool): seq<Step> {
    if late then [Record(0, 1), Claim(2), Record(0, 3)] else [Record(0, 1), RecordFails(0), Claim(2)]
  }

  lemma RemovedAfterRecording(st: State, late: bool)
    requires Idle(st) && st.status == Open && st.completers == [] && st.stored == multiset{0, 0}
    ensures WellFormed(SMALL) && GoesOn(SMALL, st, [7, 8], InVain(late))
    ensures var t := Run(SMALL, st, InVain(late));
      t.status == Completing && t.completers == [Completer(0, [])] && ChunkAt(t, 0).None?
  {
    SmallIsWellFormed();
    var steps := InVain(late);
    var s1 := Apply(SMALL, st, steps[0]);
    assert AllRecorded(SMALL, s1.rows) && s1.stored == multiset{0};
    var s2 := Apply(SMALL, s1, steps[1]);
    var s3 := Apply(SMALL, s2, steps[2]);
    LastTwo(s1, late);
    assert steps == [steps[0]] + [steps[1], steps[2]];
    FirstStep(SMALL, st, [7, 8], steps[0], [steps[1], steps[2]]);
  }

  lemma LastTwo(st: State, late: bool)
    requires Idle(st) && st.status == Open && st.completers == [] && st.stored == multiset{0} &&
             AllRecorded(SMALL, st.rows)
    ensures WellFormed(SMALL) && GoesOn(SMALL, st, [7, 8], [InVain(late)[1], InVain(late)[2]])
    ensures var t := Run(SMALL, st, [InVain(late)[1], InVain(late)[2]]);
      t.status == Completing && t.completers == [Completer(0, [])] && ChunkAt(t, 0).None?
  {
    SmallIsWellFormed();
    var a, b := InVain(late)[1], InVain(late)[2];
    var t := Apply(SMALL, st, a);
    assert [a, b] == [a] + [b] && [b] == [b] + [];
    FirstStep(SMALL, t, [7, 8], b, []);
    FirstStep(SMALL, st, [7, 8], a, [b]);
  }

  /** A recorded chunk is uploaded again, and recording that is refused or fails: the request takes the chunk's file
      away, and the session is complete by its rows but cannot be assembled. */
  lemma FailedRecordingRemovesAChunk(late: bool)
    ensures WellFormed(SMALL)
    ensures var steps := OneUpload() + OneUpload() + InVain(late);
      var st := Run(SMALL, Initial(SMALL), steps);
      && GoesOn(SMALL, Initial(SMALL), [7, 8], steps)
      && st.status == Completing && st.completers != [] && Joined(FilesOf(st.slots), SMALL.totalChunks).None?
  {
    SmallIsWellFormed();
    var s0 := Initial(SMALL);
    Uploaded(s0);
    var s1 := Run(SMALL, s0, OneUpload());
    Uploaded(s1);
    Concatenated(SMALL, s0, [7, 8], OneUpload(), OneUpload());
    var s2 := Run(SMALL, s1, OneUpload());
    RemovedAfterRecording(s2, late);
    Concatenated(SMALL, s0, [7, 8], OneUpload() + OneUpload(), InVain(late));
    JoinedWhenPresent(FilesOf(Run(SMALL, s2, InVain(late)).slots), SMALL.totalChunks);
  }
}
