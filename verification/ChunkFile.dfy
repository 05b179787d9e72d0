/** One chunk of an upload on disk. Every upload of it truncates the same temporary path, writes at its own offset and
    renames the path over the chunk's file. An open handle keeps its file, whichever path still leads to it. */
module ChunkFile {
  import opened Text

  type Bytes = seq<bv8>

  /** A request with the file open: which one, and how far it has written. */
  datatype Writer = Writer(file: nat, sent: nat)

  datatype Slot = Slot(
    files: map<nat, Bytes>,
    next: nat,                  // the number of the next file created
    temp: Option<nat>,          // the file at the temporary path
    chunk: Option<nat>,         // the file at the chunk's path
    writers: map<nat, Writer>)  // the requests writing, by number

  function Empty(): Slot {
    Slot(map[], 0, None, None, map[])
  }

  datatype Action =
    | Begin(who: nat)
    | Write(who: nat, data: Bytes)
    | Install(who: nat)
    | Abort(who: nat)
    | Drop(who: nat)

  // ---------- What each action does ----------

  function Zeros(n: nat): (z: Bytes)
    ensures |z| == n && forall i :: 0 <= i < n ==> z[i] == 0
  {
    seq(n, i => 0)
  }

  /** Writing past the end leaves a hole that reads as zeros. */
  function WriteAt(content: Bytes, at: nat, data: Bytes): Bytes {
    if data == [] then content
    else if at <= |content| then
      content[..at] + data + if at + |data| < |content| then content[at + |data|..] else []
    else content + Zeros(at - |content|) + data
  }

  function ContentOf(slot: Slot, file: nat): Bytes {
    if file in slot.files then slot.files[file] else []
  }

  /** What the chunk's file holds, if there is one. */
  function Chunk(slot: Slot): Option<Bytes> {
    if slot.chunk.Some? then Some(ContentOf(slot, slot.chunk.value)) else None
  }

  /** Opening truncates the file at the temporary path, or creates one there. */
  function Begun(slot: Slot, who: nat): Slot {
    match slot.temp
    case Some(file) => slot.(files := slot.files[file := []], writers := slot.writers[who := Writer(file, 0)])
    case None =>
      slot.(files := slot.files[slot.next := []], next := slot.next + 1, temp := Some(slot.next),
            writers := slot.writers[who := Writer(slot.next, 0)])
  }

  function Written(slot: Slot, who: nat, data: Bytes): Slot
    requires who in slot.writers
  {
    var u := slot.writers[who];
    slot.(files := slot.files[u.file := WriteAt(ContentOf(slot, u.file), u.sent, data)],
          writers := slot.writers[who := u.(sent := u.sent + |data|)])
  }

  /** Renaming moves whatever is at the temporary path, and fails when nothing is there. */
  function Installed(slot: Slot, who: nat): Slot {
    var left := slot.(writers := slot.writers - {who});
    if slot.temp.Some? then left.(chunk := slot.temp, temp := None) else left
  }

  /** A request that fails removes the temporary path. */
  function Aborted(slot: Slot, who: nat): Slot {
    slot.(writers := slot.writers - {who}, temp := None)
  }

  function Removed(slot: Slot): Slot {
    slot.(chunk := None)
  }

  /** The session's directory goes, while requests may still hold files in it. */
  function Cleared(slot: Slot): Slot {
    slot.(chunk := None, temp := None)
  }

  /** A chunk of `size` bytes: a request never sends more than one byte too many, and installs exactly `size`. */
  predicate Enabled(slot: Slot, size: int, action: Action) {
    match action
    case Begin(who) => who !in slot.writers
    case Write(who, data) => who in slot.writers && slot.writers[who].sent + |data| <= size + 1
    case Install(who) => who in slot.writers && slot.writers[who].sent == size
    case Abort(who) => who in slot.writers
    case Drop(who) => who in slot.writers
  }

  function Apply(slot: Slot, action: Action): Slot {
    match action
    case Begin(who) => Begun(slot, who)
    case Write(who, data) => if who in slot.writers then Written(slot, who, data) else slot
    case Install(who) => Installed(slot, who)
    case Abort(who) => Aborted(slot, who)
    case Drop(who) => slot.(writers := slot.writers - {who})
  }

  /** The chunk's file is not at the temporary path, and files have numbers below the next one. */
  predicate Apart(slot: Slot) {
    && (slot.temp.Some? ==> slot.temp != slot.chunk && slot.temp.value < slot.next)
    && (slot.chunk.Some? ==> slot.chunk.value < slot.next)
  }

  /** An upload that nothing interrupts leaves its bytes in the chunk's file if it ends well, and the chunk as it was
      if not. */
  lemma WholeUpload(slot: Slot, who: nat, body: Bytes)
    requires Apart(slot) && who !in slot.writers
    ensures var s := Apply(Apply(slot, Begin(who)), Write(who, body));
      && Apart(Apply(s, Install(who))) && Chunk(Apply(s, Install(who))) == Some(body)
      && Apart(Apply(s, Abort(who))) && Chunk(Apply(s, Abort(who))) == Chunk(slot)
  {
    assert WriteAt([], 0, body) == body;
  }

  // ---------- The chunks of a session ----------

  /** The chunk files as the session's directory shows them. */
  function FilesOf(slots: seq<Slot>): map<nat, Bytes> {
    map index: nat | index < |slots| && Chunk(slots[index]).Some? :: Chunk(slots[index]).value
  }

  function ClearedAll(slots: seq<Slot>): (cleared: seq<Slot>)
    ensures |cleared| == |slots|
  {
    seq(|slots|, i requires 0 <= i < |slots| => Cleared(slots[i]))
  }

  lemma SameFiles(was: seq<Slot>, slots: seq<Slot>, index: nat)
    requires index < |was| == |slots| && slots == was[index := slots[index]]
    requires Chunk(slots[index]) == Chunk(was[index])
    ensures FilesOf(slots) == FilesOf(was)
  {
  }

  lemma NewFile(was: seq<Slot>, slots: seq<Slot>, index: nat, body: Bytes)
    requires index < |was| == |slots| && slots == was[index := slots[index]] && Chunk(slots[index]) == Some(body)
    ensures FilesOf(slots) == FilesOf(was)[index := body]
  {
  }

  // ---------- Requests that send the piece, one at a time ----------

  /** What is written is the next part of the piece. */
  predicate Sends(slot: Slot, piece: Bytes, action: Action) {
    action.Write? && action.who in slot.writers ==>
      var sent := slot.writers[action.who].sent;
      sent + |action.data| <= |piece| && action.data == piece[sent..sent + |action.data|]
  }

  /** No request opens the chunk while another is writing it. */
  predicate Exclusive(slot: Slot, action: Action) {
    action.Begin? ==> slot.writers == map[]
  }

  /** One request at most is writing, its file holds what it has sent, and the chunk's file holds the piece. */
  ghost predicate Clean(slot: Slot, piece: Bytes) {
    && (forall a, b :: a in slot.writers && b in slot.writers ==> a == b)
    && (forall a :: a in slot.writers ==> WritesPrefix(slot, piece, slot.writers[a]))
    && (slot.chunk.Some? ==> slot.chunk.value in slot.files && slot.files[slot.chunk.value] == piece)
    && (slot.temp.Some? ==> slot.temp.value in slot.files && slot.temp != slot.chunk)
    && (forall file :: file in slot.files ==> file < slot.next)
  }

  predicate WritesPrefix(slot: Slot, piece: Bytes, u: Writer) {
    && u.sent <= |piece| && u.file in slot.files && slot.files[u.file] == piece[..u.sent]
    && slot.chunk != Some(u.file) && (slot.temp.Some? ==> slot.temp == Some(u.file))
  }

  /** Uploaded one at a time, a chunk's file is the piece whenever it exists. */
  lemma ActionKeepsClean(slot: Slot, piece: Bytes, action: Action)
    requires Clean(slot, piece) && Enabled(slot, |piece|, action) && Sends(slot, piece, action) &&
             Exclusive(slot, action)
    ensures Clean(Apply(slot, action), piece)
  {
    match action
    case Write(who, data) =>
      var u := slot.writers[who];
      assert piece[..u.sent] + data == piece[..u.sent + |data|];
    case Install(who) => assert piece[..|piece|] == piece;
    case _ =>
  }

  // ---------- Several actions in a row ----------

  predicate ActsOn(slot: Slot, piece: Bytes, actions: seq<Action>)
    decreases |actions|
  {
    actions == [] ||
    (Enabled(slot, |piece|, actions[0]) && Sends(slot, piece, actions[0]) &&
     ActsOn(Apply(slot, actions[0]), piece, actions[1..]))
  }

  function AfterAll(slot: Slot, actions: seq<Action>): Slot
    decreases |actions|
  {
    if actions == [] then slot else AfterAll(Apply(slot, actions[0]), actions[1..])
  }

  lemma FourActions(slot: Slot, piece: Bytes, a: Action, b: Action, c: Action, d: Action)
    requires var s1 := Apply(slot, a);
      var s2 := Apply(s1, b);
      var s3 := Apply(s2, c);
      && Enabled(slot, |piece|, a) && Sends(slot, piece, a)
      && Enabled(s1, |piece|, b) && Sends(s1, piece, b)
      && Enabled(s2, |piece|, c) && Sends(s2, piece, c)
      && Enabled(s3, |piece|, d) && Sends(s3, piece, d)
    ensures ActsOn(slot, piece, [a, b, c, d])
    ensures AfterAll(slot, [a, b, c, d]) ==
      Apply(Apply(Apply(Apply(slot, a), b), c), d)
  {
    var s1 := Apply(slot, a);
    var s2 := Apply(s1, b);
    var s3 := Apply(s2, c);
    assert [a, b, c, d] == [a] + [b, c, d] && [b, c, d] == [b] + [c, d] && [c, d] == [c] + [d] && [d] == [d] + [];
    FirstAction(s3, piece, d, []);
    FirstAction(s2, piece, c, [d]);
    FirstAction(s1, piece, b, [c, d]);
    FirstAction(slot, piece, a, [b, c, d]);
  }

  lemma FirstAction(slot: Slot, piece: Bytes, action: Action, rest: seq<Action>)
    ensures AfterAll(slot, [action] + rest) == AfterAll(Apply(slot, action), rest)
    ensures ActsOn(slot, piece, [action] + rest) <==>
      Enabled(slot, |piece|, action) && Sends(slot, piece, action) &&
      ActsOn(Apply(slot, action), piece, rest)
  {
    assert ([action] + rest)[1..] == rest;
  }

  lemma FreshWriter(used: set<nat>) returns (c: nat)
    ensures c !in used && forall a :: a in used ==> a < c
  {
    c := 0;
    var left := used;
    while left != {}
      invariant left <= used && forall a :: a in used && a !in left ==> a < c
    {
      var a :| a in left;
      left := left - {a};
      if a >= c { c := a + 1; }
    }
  }

  lemma {:induction false} ThenActions(slot: Slot, piece: Bytes, first: seq<Action>, rest: seq<Action>)
    requires ActsOn(slot, piece, first) && ActsOn(AfterAll(slot, first), piece, rest)
    ensures ActsOn(slot, piece, first + rest) && AfterAll(slot, first + rest) == AfterAll(AfterAll(slot, first), rest)
    decreases |first|
  {
    if first == [] {
      assert first + rest == rest;
    } else {
      assert (first + rest)[1..] == first[1..] + rest;
      ThenActions(Apply(slot, first[0]), piece, first[1..], rest);
    }
  }

  // ---------- Overlapping requests ----------

  /** Two requests writing the chunk at once. */
  predicate Overlap(slot: Slot, a: nat, b: nat) {
    a in slot.writers && b in slot.writers && a != b
  }

  /** Files have numbers below the next one. */
  predicate Numbered(slot: Slot) {
    && (forall file :: file in slot.files ==> file < slot.next)
    && (forall a :: a in slot.writers ==> slot.writers[a].file < slot.next)
  }

  lemma ActionKeepsNumbered(slot: Slot, action: Action)
    requires Numbered(slot) && (slot.temp.Some? ==> slot.temp.value < slot.next)
    ensures Numbered(Apply(slot, action)) &&
            (Apply(slot, action).temp.Some? ==> Apply(slot, action).temp.value < Apply(slot, action).next)
  {
  }

  /** How writers that still send the piece can go on from two of them: `b` gives up, which takes the temporary path
      away, a third opens it anew, and `a`, having sent all its piece, installs the third one's empty file. */
  function Aftermath(slot: Slot, piece: Bytes, a: nat, b: nat, c: nat): seq<Action>
    requires a in slot.writers && slot.writers[a].sent <= |piece|
  {
    [Abort(b), Begin(c), Write(a, piece[slot.writers[a].sent..]), Install(a)]
  }

  lemma OverlapEndsEmpty(slot: Slot, piece: Bytes, a: nat, b: nat, c: nat)
    requires Numbered(slot) && Overlap(slot, a, b) && c !in slot.writers && slot.writers[a].sent <= |piece|
    ensures ActsOn(slot, piece, Aftermath(slot, piece, a, b, c))
    ensures Chunk(AfterAll(slot, Aftermath(slot, piece, a, b, c))) == Some([])
  {
    FourActions(slot, piece, Abort(b), Begin(c), Write(a, piece[slot.writers[a].sent..]), Install(a));
  }

  /** A chunk of two bytes: a second request opens the temporary path while the first is half done. */
  function HalfOverwritten(): seq<Action> {
    [Begin(0), Write(0, [7]), Begin(1), Write(0, [8]), Install(0), Abort(1)]
  }

  lemma HoleInTheChunk()
    ensures ActsOn(Empty(), [7, 8], HalfOverwritten())
    ensures Chunk(AfterAll(Empty(), HalfOverwritten())) == Some([0, 8])
  {
    var s1 := Apply(Empty(), Begin(0));
    var s2 := Apply(s1, Write(0, [7]));
    assert WriteAt([], 0, [7]) == [7];
    assert s2.files == map[0 := [7]] && s2.writers == map[0 := Writer(0, 1)];
    var s3 := Apply(s2, Begin(1));
    assert s3.files == map[0 := []] && s3.writers == map[0 := Writer(0, 1), 1 := Writer(0, 0)];
    var s4 := Apply(s3, Write(0, [8]));
    assert WriteAt([], 1, [8]) == [0, 8];
    assert s4.files == map[0 := [0, 8]] && s4.writers == map[0 := Writer(0, 2), 1 := Writer(0, 0)];
    var s5 := Apply(s4, Install(0));
    assert [Install(0), Abort(1)] == [Install(0)] + [Abort(1)] && [Abort(1)] == [Abort(1)] + [];
    FirstAction(s5, [7, 8], Abort(1), []);
    FirstAction(s4, [7, 8], Install(0), [Abort(1)]);
    FourActions(Empty(), [7, 8], Begin(0), Write(0, [7]), Begin(1), Write(0, [8]));
    ThenActions(Empty(), [7, 8], [Begin(0), Write(0, [7]), Begin(1), Write(0, [8])], [Install(0), Abort(1)]);
    assert HalfOverwritten() == [Begin(0), Write(0, [7]), Begin(1), Write(0, [8])] + [Install(0), Abort(1)];
  }
}
