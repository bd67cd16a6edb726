/** The log shim (cmd/logshim/main.go): two stream loops cut the output of a command into
    chunks, wrap each chunk into a record and write the records to one writer under a mutex.

    streamLoop is given as a method; the two loops together are a state machine whose steps
    may interleave in any way. JSON and the clock are parameters.
 */
module Logshim {
  import opened GoStrings

  type Bytes = string

  const BUFFER: nat := 16 * 1024

  // ---- one stream

  /** How many bytes ReadSlice('\n') returns of these: through the first newline, or a full
      buffer, or all there are. */
  function ChunkLength(rest: Bytes, limit: nat): (n: nat)
    ensures n <= |rest| && n <= limit
    ensures rest != "" && limit > 0 ==> n > 0
  {
    if rest == "" || limit == 0 then 0
    else if rest[0] == '\n' then 1
    else 1 + ChunkLength(rest[1..], limit - 1)
  }

  function Chunks(rest: Bytes): seq<Bytes>
    decreases |rest|
  {
    if rest == "" then []
    else
      var n := ChunkLength(rest, BUFFER);
      [rest[..n]] + Chunks(rest[n..])
  }

  /** The chunks that streamLoop hands to the encoder. */
  method StreamLoop(input: Bytes) returns (chunks: seq<Bytes>)
    ensures chunks == Chunks(input)
  {
    chunks := [];
    var pos := 0;
    assert input[0..] == input && [] + Chunks(input) == Chunks(input);
    while true
      invariant pos <= |input| && Chunks(input) == chunks + Chunks(input[pos..])
      decreases |input| - pos
    {
      var n := ChunkLength(input[pos..], BUFFER);
      var chunk := input[pos..][..n];
      if |chunk| == 0 {
        assert input[pos..] == "" && chunks + [] == chunks;
        return;
      }
      assert input[pos..][n..] == input[pos + n..];
      assert chunks + ([chunk] + Chunks(input[pos + n..])) == chunks + [chunk] + Chunks(input[pos + n..]);
      chunks := chunks + [chunk];
      pos := pos + n;
    }
  }

  function Flatten(chunks: seq<Bytes>): Bytes {
    if chunks == [] then "" else chunks[0] + Flatten(chunks[1..])
  }

  /** A line, or a full buffer without a newline. */
  predicate FullChunk(chunk: Bytes) {
    && chunk != ""
    && '\n' !in chunk[..|chunk| - 1]
    && (chunk[|chunk| - 1] == '\n' || |chunk| == 16384)
  }

  lemma {:induction false} ChunkShape(rest: Bytes, limit: nat)
    requires rest != "" && limit > 0
    ensures var n := ChunkLength(rest, limit);
            && '\n' !in rest[..n - 1]
            && (rest[n - 1] == '\n' || n == limit || n == |rest|)
  {
    if rest[0] != '\n' && limit > 1 && rest[1..] != "" {
      ChunkShape(rest[1..], limit - 1);
      var n := ChunkLength(rest, limit);
      assert rest[..n - 1] == [rest[0]] + rest[1..][..n - 2];
    }
  }

  /** Main result for one stream: the chunks together are the input, and all but the last are
      lines or full buffers. */
  lemma {:induction false} ChunksLaws(rest: Bytes)
    ensures Flatten(Chunks(rest)) == rest
    ensures forall i :: 0 <= i < |Chunks(rest)| - 1 ==> FullChunk(Chunks(rest)[i])
    ensures forall i :: 0 <= i < |Chunks(rest)| ==> Chunks(rest)[i] != "" && |Chunks(rest)[i]| <= 16384
    decreases |rest|
  {
    hide ChunkLength;
    if rest != "" {
      var n := ChunkLength(rest, BUFFER);
      ChunkShape(rest, BUFFER);
      ChunksLaws(rest[n..]);
      var first, others := rest[..n], Chunks(rest[n..]);
      assert rest[..n - 1] == first[..n - 1] && rest == first + rest[n..];
      assert others != [] ==> FullChunk(first);
      assert Chunks(rest)[1..] == others;
    }
  }

  // ---- two streams, one writer

  datatype Id = Stderr | Stdout

  /** What a run depends on: the bytes of each stream, whether its reads end in an error, and
      the encoder of a record. */
  datatype Env = Env(input: Id -> Bytes, fails: Id -> bool, encode: (Id, Bytes, int) -> Bytes)

  /** An encoder of JSON puts no raw newline into its output. */
  ghost predicate ValidEnv(e: Env) {
    forall id, chunk, time :: '\n' !in e.encode(id, chunk, time)
  }

  datatype Record = Record(id: Id, chunk: Bytes, time: int)

  /** Where a loop is: before a read, before Lock, writing with k bytes written, before
      Unlock, returned. last: the read also reported the end of the stream. */
  datatype Pc =
    | Reading
    | Locking(r: Record, last: bool)
    | Writing(r: Record, last: bool, k: nat)
    | Unlocking(last: bool)
    | Returned

  datatype Loop = Loop(pos: nat, handed: seq<Bytes>, pc: Pc)

  datatype Sys = Sys(
    loops: map<Id, Loop>,
    holder: Option<Id>,
    out: Bytes,
    written: seq<Record>,
    exited: bool)  // log.Fatalf ends the process

  function Init(): Sys {
    Sys(map[Stderr := Loop(0, [], Reading), Stdout := Loop(0, [], Reading)], None, "", [], false)
  }

  function Buf(e: Env, r: Record): Bytes {
    e.encode(r.id, r.chunk, r.time)
  }

  function Set(s: Sys, id: Id, l: Loop): Sys {
    s.(loops := s.loops[id := l])
  }

  /** The chunk that the loop reads next. */
  function NextChunk(e: Env, s: Sys, id: Id): Bytes
    requires id in s.loops && s.loops[id].pos <= |e.input(id)|
  {
    var rest := e.input(id)[s.loops[id].pos..];
    rest[..ChunkLength(rest, BUFFER)]
  }

  /** ReadSlice and json.Marshal. A short chunk without a newline always comes with the end of
      the stream; any chunk that exhausts the stream may. */
  ghost predicate Read(e: Env, s: Sys, id: Id, time: int, last: bool, s': Sys)
    requires ValidEnv(e) && id in s.loops && s.loops[id].pos <= |e.input(id)|
  {
    var l, chunk := s.loops[id], NextChunk(e, s, id);
    var end := l.pos + |chunk| == |e.input(id)|;
    && l.pc.Reading?
    && if chunk == "" then s' == Set(s, id, l.(pc := Returned))
       else
         && (last ==> end) && (end && !FullChunk(chunk) ==> last)
         && s' == Set(s, id, Loop(l.pos + |chunk|, l.handed + [chunk], Locking(Record(id, chunk, time), last)))
  }

  ghost predicate Lock(s: Sys, id: Id, s': Sys)
    requires id in s.loops
  {
    var l := s.loops[id];
    l.pc.Locking? && s.holder.None? && s' == Set(s, id, l.(pc := Writing(l.pc.r, l.pc.last, 0))).(holder := Some(id))
  }

  /** One write call of io.Copy: some more bytes of the record and its newline. */
  ghost predicate Write(e: Env, s: Sys, id: Id, n: nat, s': Sys)
    requires id in s.loops
  {
    var l := s.loops[id];
    && l.pc.Writing?
    && var text := Buf(e, l.pc.r) + "\n";
       && l.pc.k < n <= |text|
       && s' == Set(s, id, l.(pc := if n < |text| then l.pc.(k := n) else Unlocking(l.pc.last)))
                .(out := s.out + text[l.pc.k..n],
                  written := if n < |text| then s.written else s.written + [l.pc.r])
  }

  ghost predicate WriteFails(s: Sys, id: Id, s': Sys)
    requires id in s.loops
  {
    s.loops[id].pc.Writing? && s' == s.(exited := true)
  }

  ghost predicate Unlock(e: Env, s: Sys, id: Id, s': Sys)
    requires ValidEnv(e) && id in s.loops
  {
    var l := s.loops[id];
    && l.pc.Unlocking?
    && s' == Set(s, id, l.(pc := if l.pc.last then Returned else Reading))
             .(holder := None, exited := l.pc.last && e.fails(id))
  }

  ghost predicate Step(e: Env, s: Sys, id: Id, s': Sys)
    requires ValidEnv(e)
  {
    && !s.exited && id in s.loops && s.loops[id].pos <= |e.input(id)|
    && (|| (exists time, last :: Read(e, s, id, time, last, s'))
        || Lock(s, id, s')
        || (exists n: nat :: Write(e, s, id, n, s'))
        || WriteFails(s, id, s')
        || Unlock(e, s, id, s'))
  }

  ghost predicate Next(e: Env, s: Sys, s': Sys)
    requires ValidEnv(e)
  {
    exists id :: Step(e, s, id, s')
  }

  /** A run is any sequence of steps of the two loops. */
  ghost predicate IsRun(e: Env, run: seq<Sys>)
    requires ValidEnv(e)
  {
    && run != [] && run[0] == Init()
    && forall i {:trigger run[i]} :: 0 < i < |run| ==> Next(e, run[i - 1], run[i])
  }

  // ---- the invariant

  /** The whole records. */
  function Lines(e: Env, written: seq<Record>): Bytes {
    if written == [] then "" else Lines(e, written[..|written| - 1]) + Buf(e, written[|written| - 1]) + "\n"
  }

  /** The part of a record that the holder of the mutex has written. */
  function Partial(e: Env, s: Sys): Bytes {
    if s.holder.Some? && s.holder.value in s.loops then
      var pc := s.loops[s.holder.value].pc;
      if pc.Writing? && pc.k <= |Buf(e, pc.r)| then Buf(e, pc.r)[..pc.k] else ""
    else ""
  }

  predicate Holds(pc: Pc) {
    pc.Writing? || pc.Unlocking?
  }

  /** The chunks of one stream among the records. */
  function ChunksOf(written: seq<Record>, id: Id): seq<Bytes> {
    if written == [] then []
    else
      var r := written[|written| - 1];
      ChunksOf(written[..|written| - 1], id) + if r.id == id then [r.chunk] else []
  }

  function Pending(pc: Pc): seq<Bytes> {
    if pc.Locking? || pc.Writing? then [pc.r.chunk] else []
  }

  ghost predicate LoopInv(e: Env, s: Sys, id: Id)
    requires ValidEnv(e)
  {
    && id in s.loops
    && var l := s.loops[id];
    && l.pos <= |e.input(id)|
    && Chunks(e.input(id)) == l.handed + Chunks(e.input(id)[l.pos..])
    && l.handed == ChunksOf(s.written, id) + Pending(l.pc)
    && (Holds(l.pc) <==> s.holder == Some(id))
    && (l.pc.Locking? || l.pc.Writing? ==> l.pc.r.id == id)
    && (l.pc.Writing? ==> l.pc.k <= |Buf(e, l.pc.r)|)
    && (!l.pc.Reading? && (l.pc.Returned? || l.pc.last) ==> l.pos == |e.input(id)|)
  }

  ghost predicate Inv(e: Env, s: Sys)
    requires ValidEnv(e)
  {
    && LoopInv(e, s, Stderr) && LoopInv(e, s, Stdout)
    && s.out == Lines(e, s.written) + Partial(e, s)
  }

  lemma InitInv(e: Env)
    requires ValidEnv(e)
    ensures Inv(e, Init())
  {
    hide Chunks;
    forall id: Id ensures LoopInv(e, Init(), id) {
      assert id.Stderr? || id.Stdout?;
      assert e.input(id)[0..] == e.input(id);
      assert [] + Chunks(e.input(id)) == Chunks(e.input(id));
    }
  }

  /** Reading moves one chunk from what is left to what is handed over. */
  lemma ChunksNext(input: Bytes, pos: nat, handed: seq<Bytes>)
    requires pos <= |input| && Chunks(input) == handed + Chunks(input[pos..])
    ensures var n := ChunkLength(input[pos..], BUFFER);
            && (n == 0 <==> pos == |input|) && pos + n <= |input|
            && (n > 0 ==> Chunks(input) == handed + [input[pos..][..n]] + Chunks(input[pos + n..]))
  {
    hide ChunkLength;
    var rest := input[pos..];
    var n := ChunkLength(rest, BUFFER);
    assert rest[n..] == input[pos + n..];
    if n > 0 {
      Assoc(handed, [rest[..n]], Chunks(rest[n..]));
    }
  }

  lemma ReadInv(e: Env, s: Sys, id: Id, time: int, last: bool, s': Sys)
    requires ValidEnv(e) && Inv(e, s) && id in s.loops && s.loops[id].pos <= |e.input(id)| && Read(e, s, id, time, last, s')
    ensures Inv(e, s')
  {
    hide Chunks, ChunkLength, FullChunk, ChunksOf, Lines;
    assert LoopInv(e, s, id);
    ChunksNext(e.input(id), s.loops[id].pos, s.loops[id].handed);
    var other := if id.Stderr? then Stdout else Stderr;
    assert s'.loops[other] == s.loops[other];
    assert Partial(e, s') == Partial(e, s);
    assert LoopInv(e, s', other);
    assert ChunksOf(s.written, id) + [] == ChunksOf(s.written, id);
  }

  lemma LockInv(e: Env, s: Sys, id: Id, s': Sys)
    requires ValidEnv(e) && Inv(e, s) && id in s.loops && Lock(s, id, s')
    ensures Inv(e, s')
  {
    hide Chunks, ChunkLength, FullChunk, ChunksOf, Lines;
    assert Partial(e, s) == Partial(e, s') == "";
  }

  /** The output after a write: the holder's part grows, or the record is complete. */
  lemma OutputGrows(e: Env, written: seq<Record>, r: Record, k: nat, n: nat)
    requires k < n <= |Buf(e, r)| + 1
    ensures var text := Buf(e, r) + "\n";
            Lines(e, written) + text[..k] + text[k..n] ==
            if n < |text| then Lines(e, written) + Buf(e, r)[..n] else Lines(e, written + [r])
  {
    var buf, text := Buf(e, r), Buf(e, r) + "\n";
    assert text[..k] + text[k..n] == text[..n];
    if n == |text| {
      assert text[..n] == text && (written + [r])[..|written|] == written;
    } else {
      assert text[..n] == buf[..n];
    }
  }

  lemma WriteInv(e: Env, s: Sys, id: Id, n: nat, s': Sys)
    requires ValidEnv(e) && Inv(e, s) && id in s.loops && Write(e, s, id, n, s')
    ensures Inv(e, s')
  {
    hide Chunks, ChunkLength, FullChunk, Lines, ChunksOf;
    assert LoopInv(e, s, id);
    var pc := s.loops[id].pc;
    var text := Buf(e, pc.r) + "\n";
    OutputGrows(e, s.written, pc.r, pc.k, n);
    assert Partial(e, s) == text[..pc.k];
    assert n == |text| ==> Partial(e, s') == "" && s'.out + "" == s'.out;
    ChunksOfSnoc(s.written, pc.r, id);
    ChunksOfSnoc(s.written, pc.r, Stderr);
    ChunksOfSnoc(s.written, pc.r, Stdout);
  }

  lemma ChunksOfSnoc(written: seq<Record>, r: Record, id: Id)
    ensures ChunksOf(written + [r], id) == ChunksOf(written, id) + if r.id == id then [r.chunk] else []
  {
    assert (written + [r])[..|written|] == written;
  }

  lemma UnlockInv(e: Env, s: Sys, id: Id, s': Sys)
    requires ValidEnv(e) && Inv(e, s) && id in s.loops && Unlock(e, s, id, s')
    ensures Inv(e, s')
  {
    hide Chunks, ChunkLength, FullChunk, ChunksOf, Lines;
    assert Partial(e, s) == Partial(e, s') == "";
  }

  lemma StepInv(e: Env, s: Sys, id: Id, s': Sys)
    requires ValidEnv(e) && Inv(e, s) && Step(e, s, id, s')
    ensures Inv(e, s')
  {
    hide Read, Lock, Write, Unlock, LoopInv, Lines;
    if time, last :| Read(e, s, id, time, last, s') {
      ReadInv(e, s, id, time, last, s');
    } else if Lock(s, id, s') {
      LockInv(e, s, id, s');
    } else if n: nat :| Write(e, s, id, n, s') {
      WriteInv(e, s, id, n, s');
    } else if Unlock(e, s, id, s') {
      UnlockInv(e, s, id, s');
    } else {
      ExitInv(e, s);
    }
  }

  lemma ExitInv(e: Env, s: Sys)
    requires ValidEnv(e) && Inv(e, s)
    ensures Inv(e, s.(exited := true))
  {
  }

  lemma {:induction false} RunInv(e: Env, run: seq<Sys>, i: nat)
    requires ValidEnv(e) && IsRun(e, run) && i < |run|
    ensures Inv(e, run[i])
  {
    hide Inv, Step;
    if i == 0 {
      InitInv(e);
    } else {
      RunInv(e, run, i - 1);
      var id :| Step(e, run[i - 1], id, run[i]);
      StepInv(e, run[i - 1], id, run[i]);
    }
  }

  // ---- main results

  function Bufs(e: Env, written: seq<Record>): (r: seq<Bytes>)
    ensures |r| == |written|
    ensures forall i :: 0 <= i < |r| ==> r[i] == Buf(e, written[i])
  {
    seq(|written|, i requires 0 <= i < |written| => Buf(e, written[i]))
  }

  lemma {:induction false} LinesJoin(e: Env, written: seq<Record>, tail: Bytes)
    requires ValidEnv(e) && '\n' !in tail
    ensures Split(Lines(e, written) + tail, '\n') == Bufs(e, written) + [tail]
  {
    hide Split;
    if written == [] {
      assert Lines(e, written) + tail == tail;
      SplitOne(tail, '\n');
    } else {
      var n := |written| - 1;
      var buf := Buf(e, written[n]);
      var head := Lines(e, written[..n]) + buf;
      LinesJoin(e, written[..n], buf);
      SplitConcat(head, '\n', tail);
      SplitOne(tail, '\n');
      assert Lines(e, written) + tail == head + "\n" + tail;
      assert Bufs(e, written) == Bufs(e, written[..n]) + [buf];
    }
  }

  /** Main result: in every state of every interleaving the output is whole records, each on
      its own line, and then at most one partial record, which belongs to the loop that holds
      the mutex. */
  lemma OutputIsWholeRecords(e: Env, run: seq<Sys>, i: nat)
    requires ValidEnv(e) && IsRun(e, run) && i < |run|
    ensures Split(run[i].out, '\n') == Bufs(e, run[i].written) + [Partial(e, run[i])]
    ensures PartialOwned(e, run[i])
  {
    hide Lines, Split, Chunks, ChunksOf, Bufs, IsRun;
    RunInv(e, run, i);
    PartialIsOwned(e, run[i]);
    LinesJoin(e, run[i].written, Partial(e, run[i]));
  }

  /** Only the holder of the mutex is writing, and the partial record is a part of its own. */
  ghost predicate PartialOwned(e: Env, s: Sys) {
    && (s.holder.None? ==> Partial(e, s) == "")
    && (forall id :: id in s.loops && s.loops[id].pc.Writing? ==>
          s.holder == Some(id) && Partial(e, s) <= Buf(e, s.loops[id].pc.r))
  }

  lemma PartialIsOwned(e: Env, s: Sys)
    requires ValidEnv(e) && Inv(e, s)
    ensures PartialOwned(e, s) && '\n' !in Partial(e, s)
  {
    hide Lines, Chunks, ChunksOf;
    forall id: Id | id in s.loops && s.loops[id].pc.Writing?
      ensures s.holder == Some(id) && Partial(e, s) <= Buf(e, s.loops[id].pc.r)
    {
      assert id.Stderr? || id.Stdout?;
      assert LoopInv(e, s, id);
    }
    if Partial(e, s) != "" {
      var r := s.loops[s.holder.value].pc.r;
      assert '\n' !in e.encode(r.id, r.chunk, r.time);
    }
  }

  lemma {:induction false} FlattenConcat(a: seq<Bytes>, b: seq<Bytes>)
    ensures Flatten(a + b) == Flatten(a) + Flatten(b)
  {
    if a == [] {
      assert a + b == b;
    } else {
      FlattenConcat(a[1..], b);
      assert (a + b)[0] == a[0] && (a + b)[1..] == a[1..] + b;
      Assoc(a[0], Flatten(a[1..]), Flatten(b));
    }
  }

  /** Main result: per stream, the chunks handed to the encoder are those of the loop alone, as
      far as it got; together they are a prefix of the input, all of it once the loop has
      returned; and the records of the stream carry exactly these chunks in order, but for
      one that is still to be written. */
  lemma StreamsArePreserved(e: Env, run: seq<Sys>, i: nat, id: Id)
    requires ValidEnv(e) && IsRun(e, run) && i < |run|
    ensures id in run[i].loops
    ensures var l := run[i].loops[id];
            && l.pos <= |e.input(id)|
            && l.handed <= Chunks(e.input(id))
            && Flatten(l.handed) == e.input(id)[..l.pos]
            && l.handed == ChunksOf(run[i].written, id) + Pending(l.pc)
            && (l.pc.Returned? ==> l.handed == Chunks(e.input(id)) == ChunksOf(run[i].written, id))
  {
    RunInv(e, run, i);
    hide ChunksOf, ChunkLength, FullChunk, Lines, Partial;
    assert LoopInv(e, run[i], id);
    var l, input := run[i].loops[id], e.input(id);
    ChunksLaws(input);
    ChunksLaws(input[l.pos..]);
    FlattenConcat(l.handed, Chunks(input[l.pos..]));
    assert input == input[..l.pos] + input[l.pos..];
    assert |Flatten(l.handed)| == l.pos;
    if l.pc.Returned? {
      assert input[l.pos..] == "";
      assert l.handed + [] == l.handed;
      assert ChunksOf(run[i].written, id) + [] == ChunksOf(run[i].written, id);
    }
  }

  /** The two loops never block each other for good: as long as one has not returned, some
      loop can take a step that is not a failing write. */
  lemma NoDeadlock(e: Env, run: seq<Sys>, i: nat, id: Id)
    requires ValidEnv(e) && IsRun(e, run) && i < |run|
    requires !run[i].exited && id in run[i].loops && !run[i].loops[id].pc.Returned?
    ensures exists who, s' :: Step(e, run[i], who, s') && !WriteFails(run[i], who, s')
  {
    hide Chunks, ChunksOf, Lines, IsRun, ChunkLength, FullChunk;
    RunInv(e, run, i);
    var s := run[i];
    var who := if s.holder.Some? then s.holder.value else id;
    assert who.Stderr? || who.Stdout?;
    assert LoopInv(e, s, who);
    var l := s.loops[who];
    match l.pc
    case Reading =>
      var chunk := NextChunk(e, s, who);
      var last := l.pos + |chunk| == |e.input(who)|;
      var s' := if chunk == "" then Set(s, who, l.(pc := Returned))
                else Set(s, who, Loop(l.pos + |chunk|, l.handed + [chunk], Locking(Record(who, chunk, 0), last)));
      assert Read(e, s, who, 0, last, s');
      assert Step(e, s, who, s') && !WriteFails(s, who, s');
    case Locking(_, _) =>
      var s' := Set(s, who, l.(pc := Writing(l.pc.r, l.pc.last, 0))).(holder := Some(who));
      assert Lock(s, who, s');
      assert Step(e, s, who, s') && !WriteFails(s, who, s');
    case Writing(_, _, _) =>
      var text := Buf(e, l.pc.r) + "\n";
      var s' := Set(s, who, l.(pc := Unlocking(l.pc.last))).(out := s.out + text[l.pc.k..|text|], written := s.written + [l.pc.r]);
      assert Write(e, s, who, |text|, s');
      assert Step(e, s, who, s') && !WriteFails(s, who, s');
    case Unlocking(last) =>
      var s' := Set(s, who, l.(pc := if last then Returned else Reading)).(holder := None, exited := last && e.fails(who));
      assert Unlock(e, s, who, s');
      assert Step(e, s, who, s') && !WriteFails(s, who, s');
    case Returned =>
  }
}
