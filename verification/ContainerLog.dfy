/** One container's log: appending under the lock, the pumps that feed it, and
    followers that read a snapshot and then the live lines. */
module ContainerLog {
  import opened Sequences
  import opened LogText

  /** How many lines the live fan-out buffers. */
  const FANOUT: nat := 256

  /** The records of consecutive lines of one stream; `clock` stamps the log's k-th line. */
  function RecordsOf(stream: string, texts: seq<string>, clock: nat -> string, first: nat): (r: seq<Record>)
    ensures |r| == |texts|
  {
    if texts == [] then []
    else
      var n := |texts| - 1;
      RecordsOf(stream, texts[..n], clock, first) + [Record(clock(first + n), stream, texts[n])]
  }

  function StoredLines(rs: seq<Record>): (lines: seq<string>)
    ensures |lines| == |rs|
  {
    seq(|rs|, k requires 0 <= k < |rs| => StoredLine(rs[k]))
  }

  function Join(chunks: seq<string>): string {
    FlatMap(chunks, c => c)
  }

  /** What the file holds after these lines, if it takes `disk(k)` bytes of the k-th:
      a failed write leaves a part of the line, or nothing. */
  function Written(lines: seq<string>, disk: nat -> nat): (file: string)
    ensures |file| <= |Join(lines)|
  {
    if lines == [] then ""
    else
      var n := |lines| - 1;
      assert Join(lines) == Join(lines[..n]) + lines[n];
      Written(lines[..n], disk) + Part(lines[n], disk(n))
  }

  function Part(line: string, bytes: nat): string {
    line[..if bytes < |line| then bytes else |line|]
  }

  /** No write of these lines failed. */
  predicate AllWritten(lines: seq<string>, disk: nat -> nat) {
    forall k | 0 <= k < |lines| :: |lines[k]| <= disk(k)
  }

  /** The file holds what was broadcast exactly when no write failed. */
  lemma {:induction false} IntactIff(lines: seq<string>, disk: nat -> nat)
    ensures Written(lines, disk) == Join(lines) <==> AllWritten(lines, disk)
  {
    if lines != [] {
      var n := |lines| - 1;
      var before, part := Written(lines[..n], disk), Part(lines[n], disk(n));
      IntactIff(lines[..n], disk);
      assert Join(lines) == Join(lines[..n]) + lines[n];
      assert AllWritten(lines, disk) <==> AllWritten(lines[..n], disk) && |lines[n]| <= disk(n);
      if |before| + |part| == |Join(lines[..n])| + |lines[n]| {
        assert (before + part)[..|before|] == before && (Join(lines[..n]) + lines[n])[..|before|] == Join(lines[..n]);
      }
    }
  }

  lemma WrittenOneMore(lines: seq<string>, line: string, disk: nat -> nat)
    ensures Written(lines + [line], disk) == Written(lines, disk) + Part(line, disk(|lines|))
  {
    assert (lines + [line])[..|lines|] == lines;
  }

  class Log {
    /** How many bytes of the k-th line the file takes. */
    const disk: nat -> nat
    var file: string
    var sent: seq<string>

    /** The file holds what its writes put there of the lines broadcast. */
    ghost predicate Valid()
      reads this
    {
      file == Written(sent, disk)
    }

    constructor (disk: nat -> nat)
      ensures Valid() && this.disk == disk && file == "" && sent == []
    {
      this.disk, file, sent := disk, "", [];
    }

    /** Write and publish under one lock; a write error is ignored. */
    method Append(ts: string, stream: string, text: string)
      requires Valid()
      modifies this
      ensures Valid() && sent == old(sent) + StoredLines([Record(ts, stream, text)])
    {
      var line := ts + " " + stream + " " + text + "\n";
      WrittenOneMore(sent, line, disk);
      file := file + Part(line, disk(|sent|));
      sent := sent + [line];
    }

    /** Everything one pump appends when it has the log to itself. */
    method Pump(stream: string, chunks: seq<string>, clock: nat -> string)
      requires Valid()
      modifies this
      ensures Valid() && Pumped(old(sent), sent, stream, SplitLines(Join(chunks)), clock)
    {
      var partial, lines := PumpReads(stream, chunks, clock);
      SplitAll(lines, partial, Join(chunks));
      if partial != "" {
        AppendOne(stream, partial, clock, old(sent), lines);
      }
    }

    /** The reads, up to the end of the stream. */
    method PumpReads(stream: string, chunks: seq<string>, clock: nat -> string)
      returns (partial: string, ghost lines: seq<string>)
      requires Valid()
      modifies this
      ensures Valid() && NoNewlines(lines) && Pumped(old(sent), sent, stream, lines, clock)
      ensures '\n' !in partial && Unsplit(lines) + partial == Join(chunks)
    {
      partial, lines := "", [];
      for i := 0 to |chunks|
        invariant Valid() && NoNewlines(lines) && Pumped(old(sent), sent, stream, lines, clock)
        invariant '\n' !in partial && Unsplit(lines) + partial == Join(chunks[..i])
      {
        JoinOneMore(chunks, i);
        Associate(Unsplit(lines), partial, chunks[i]);
        partial, lines := DrainLines(stream, partial + chunks[i], clock, old(sent), lines);
      }
      assert chunks[..|chunks|] == chunks;
    }

    /** Append the complete lines at the front of the buffer. */
    method DrainLines(stream: string, buffer: string, clock: nat -> string,
                      ghost sent0: seq<string>, ghost before: seq<string>)
      returns (partial: string, ghost lines: seq<string>)
      requires Valid() && NoNewlines(before) && Pumped(sent0, sent, stream, before, clock)
      modifies this
      ensures Valid() && NoNewlines(lines) && Pumped(sent0, sent, stream, lines, clock)
      ensures '\n' !in partial && Unsplit(lines) + partial == Unsplit(before) + buffer
    {
      partial, lines := buffer, before;
      var pos := IndexOf(partial, '\n');
      while pos < |partial|
        invariant pos == IndexOf(partial, '\n')
        invariant Valid() && NoNewlines(lines) && Pumped(sent0, sent, stream, lines, clock)
        invariant Unsplit(lines) + partial == Unsplit(before) + buffer
        decreases |partial|
      {
        UnsplitAppend(lines, partial[..pos]);
        DrainedSame(Unsplit(lines), partial, pos);
        AppendOne(stream, partial[..pos], clock, sent0, lines);
        lines := lines + [partial[..pos]];
        partial := partial[pos + 1..];
        pos := IndexOf(partial, '\n');
      }
    }

    method AppendOne(stream: string, text: string, clock: nat -> string,
                     ghost sent0: seq<string>, ghost lines: seq<string>)
      requires Valid() && Pumped(sent0, sent, stream, lines, clock)
      modifies this
      ensures Valid() && Pumped(sent0, sent, stream, lines + [text], clock)
    {
      ghost var rs, r := RecordsOf(stream, lines, clock, |sent0|), Record(clock(|sent|), stream, text);
      RecordsOneMore(stream, lines, clock, |sent0|, text);
      StoredLinesOneMore(rs, r);
      Append(clock(|sent|), stream, text);
      Associate(sent0, StoredLines(rs), StoredLines([r]));
    }

    /** Backlog and subscription, under the same lock as the writers. */
    method SnapshotAndFollow(o: Options) returns (backlog: string, position: nat)
      requires Valid()
      ensures position == |sent| && backlog == ReadAndRender(Written(sent[..position], disk), o)
    {
      var raw := if ValidUtf8(file) then file else "";
      backlog := Render(raw, o);
      position := |sent|;
      assert sent[..|sent|] == sent;
    }
  }

  /** The lines broadcast have grown by these texts. */
  predicate Pumped(sent0: seq<string>, sent: seq<string>, stream: string, lines: seq<string>, clock: nat -> string) {
    sent == sent0 + StoredLines(RecordsOf(stream, lines, clock, |sent0|))
  }

  lemma JoinOneMore(chunks: seq<string>, i: nat)
    requires i < |chunks|
    ensures Join(chunks[..i + 1]) == Join(chunks[..i]) + chunks[i]
  {
    assert chunks[..i + 1] == chunks[..i] + [chunks[i]];
    FlatMapConcat(chunks[..i], [chunks[i]], c => c);
    FlatMapOne(chunks[i], (c: string) => c);
  }

  /** The lines read so far and a last partial one are the whole split. */
  lemma SplitAll(lines: seq<string>, partial: string, input: string)
    requires NoNewlines(lines) && '\n' !in partial && Unsplit(lines) + partial == input
    ensures SplitLines(input) == if partial == "" then lines else lines + [partial]
  {
    SplitOfUnsplit(lines, partial);
    SplitPartial(partial);
  }

  lemma DrainedSame(done: string, partial: string, pos: nat)
    requires pos < |partial| && partial[pos] == '\n'
    ensures done + partial[..pos] + "\n" + partial[pos + 1..] == done + partial
  {
    assert partial == partial[..pos] + "\n" + partial[pos + 1..];
  }

  lemma StoredLinesOneMore(rs: seq<Record>, r: Record)
    ensures StoredLines(rs + [r]) == StoredLines(rs) + StoredLines([r])
  {
  }

  lemma RecordsOneMore(stream: string, lines: seq<string>, clock: nat -> string, first: nat, text: string)
    ensures RecordsOf(stream, lines + [text], clock, first)
         == RecordsOf(stream, lines, clock, first) + [Record(clock(first + |lines|), stream, text)]
  {
    assert (lines + [text])[..|lines|] == lines;
  }

  lemma {:induction false} TextsOfRecords(stream: string, texts: seq<string>, clock: nat -> string, first: nat)
    ensures Texts(RecordsOf(stream, texts, clock, first)) == texts
  {
    if texts != [] {
      TextsOfRecords(stream, texts[..|texts| - 1], clock, first);
    }
  }

  /** End to end: what a container writes to one stream is what reading its log
      back shows, with at most a final newline added. */
  lemma LogShowsTheStream(stream: string, bytes: string, clock: nat -> string, first: nat, o: Options)
    requires Unfiltered(o) && !o.timestamps
    requires
      var rs := RecordsOf(stream, SplitLines(bytes), clock, first);
      AllWellFormed(rs) && NoneEndsInCr(rs) && AllValid(rs)
    ensures ReadAndRender(File(RecordsOf(stream, SplitLines(bytes), clock, first)), o) == bytes + FinalNewline(bytes)
  {
    var rs := RecordsOf(stream, SplitLines(bytes), clock, first);
    FileValid(rs);
    DefaultRenderingIsTexts(rs, o);
    TextsOfRecords(stream, SplitLines(bytes), clock, first);
    UnsplitOfSplit(bytes);
  }

  // ---------------------------------------------------------------------
  // Several pumps on one log
  // ---------------------------------------------------------------------

  /** One pump: its buffer, all it has read, and whether it is through. */
  datatype PumpState = PumpState(partial: string, input: string, done: bool)

  datatype Pumps = Pumps(log: seq<Record>, pumps: map<string, PumpState>)

  /** `Read` is one read call, `Emit` one turn of the drain loop, `Eof` the end
      of the stream or a read error. */
  datatype PumpStep = Read(stream: string, chunk: string) | Emit(stream: string, ts: string)
    | Eof(stream: string, ts: string)

  function Started(streams: set<string>): Pumps {
    Pumps([], map s | s in streams :: PumpState("", "", false))
  }

  /** A step that is not enabled changes nothing. */
  function Advance(st: Pumps, step: PumpStep): Pumps {
    if step.stream !in st.pumps then st
    else
      var p := st.pumps[step.stream];
      var pos := IndexOf(p.partial, '\n');
      match step
      case Read(s, chunk) =>
        if p.done || pos < |p.partial| then st
        else st.(pumps := st.pumps[s := p.(partial := p.partial + chunk, input := p.input + chunk)])
      case Emit(s, ts) =>
        if pos == |p.partial| then st
        else Pumps(st.log + [Record(ts, s, p.partial[..pos])], st.pumps[s := p.(partial := p.partial[pos + 1..])])
      case Eof(s, ts) =>
        if p.done || pos < |p.partial| then st
        else Pumps(if p.partial != "" then st.log + [Record(ts, s, p.partial)] else st.log,
                   st.pumps[s := p.(partial := "", done := true)])
  }

  function AdvanceAll(st: Pumps, steps: seq<PumpStep>, n: nat): Pumps
    requires n <= |steps|
  {
    if n == 0 then st else Advance(AdvanceAll(st, steps, n - 1), steps[n - 1])
  }

  function TextIn(r: Record, stream: string): seq<string> {
    if r.stream == stream then [r.text] else []
  }

  /** The log's lines of one stream. */
  function TextsOf(log: seq<Record>, stream: string): seq<string> {
    FlatMap(log, r => TextIn(r, stream))
  }

  lemma TextsAppend(log: seq<Record>, r: Record, stream: string)
    ensures TextsOf(log + [r], stream) == TextsOf(log, stream) + TextIn(r, stream)
  {
    FlatMapConcat(log, [r], x => TextIn(x, stream));
    FlatMapOne(r, (x: Record) => TextIn(x, stream));
  }

  /** A pump's lines and buffer are its input; once through, its lines are the
      input's split. */
  predicate PumpInv(texts: seq<string>, p: PumpState) {
    NoNewlines(texts) &&
    if p.done then p.partial == "" && texts == SplitLines(p.input) else Unsplit(texts) + p.partial == p.input
  }

  lemma EmitInv(texts: seq<string>, p: PumpState)
    requires PumpInv(texts, p) && IndexOf(p.partial, '\n') < |p.partial|
    ensures
      var pos := IndexOf(p.partial, '\n');
      PumpInv(texts + [p.partial[..pos]], p.(partial := p.partial[pos + 1..]))
  {
    var pos := IndexOf(p.partial, '\n');
    UnsplitAppend(texts, p.partial[..pos]);
    DrainedSame(Unsplit(texts), p.partial, pos);
  }

  lemma EofInv(texts: seq<string>, p: PumpState)
    requires PumpInv(texts, p) && !p.done && '\n' !in p.partial
    ensures PumpInv(if p.partial != "" then texts + [p.partial] else texts, p.(partial := "", done := true))
  {
    SplitAll(texts, p.partial, p.input);
  }

  lemma ReadInv(texts: seq<string>, p: PumpState, chunk: string)
    requires PumpInv(texts, p) && !p.done
    ensures PumpInv(texts, p.(partial := p.partial + chunk, input := p.input + chunk))
  {
    assert Unsplit(texts) + (p.partial + chunk) == (Unsplit(texts) + p.partial) + chunk;
  }

  /** A step of another stream's pump leaves this stream alone. */
  lemma AdvanceOther(st: Pumps, step: PumpStep, stream: string)
    requires stream in st.pumps && step.stream != stream
    ensures stream in Advance(st, step).pumps && Advance(st, step).pumps[stream] == st.pumps[stream]
    ensures TextsOf(Advance(st, step).log, stream) == TextsOf(st.log, stream)
  {
    if step.stream in st.pumps {
      var partial := st.pumps[step.stream].partial;
      match step
      case Read(s, chunk) =>
      case Emit(s, ts) => TextsAppend(st.log, Record(ts, s, partial[..IndexOf(partial, '\n')]), stream);
      case Eof(s, ts) => TextsAppend(st.log, Record(ts, s, partial), stream);
    }
  }

  /** The pump of a stream is in order. */
  predicate OwnInv(st: Pumps, stream: string) {
    stream in st.pumps && PumpInv(TextsOf(st.log, stream), st.pumps[stream])
  }

  /** One turn of the drain loop, for the stream's own lines and pump. */
  lemma EmitEffect(st: Pumps, s: string, ts: string)
    requires s in st.pumps && IndexOf(st.pumps[s].partial, '\n') < |st.pumps[s].partial|
    ensures
      var p, after := st.pumps[s], Advance(st, Emit(s, ts));
      var pos := IndexOf(p.partial, '\n');
      TextsOf(after.log, s) == TextsOf(st.log, s) + [p.partial[..pos]] &&
      s in after.pumps && after.pumps[s] == p.(partial := p.partial[pos + 1..])
  {
    var p := st.pumps[s];
    TextsAppend(st.log, Record(ts, s, p.partial[..IndexOf(p.partial, '\n')]), s);
  }

  lemma EmitOwn(st: Pumps, s: string, ts: string)
    requires OwnInv(st, s)
    ensures OwnInv(Advance(st, Emit(s, ts)), s)
  {
    if IndexOf(st.pumps[s].partial, '\n') < |st.pumps[s].partial| {
      EmitEffect(st, s, ts);
      EmitInv(TextsOf(st.log, s), st.pumps[s]);
    }
  }

  lemma EofOwn(st: Pumps, s: string, ts: string)
    requires OwnInv(st, s)
    ensures OwnInv(Advance(st, Eof(s, ts)), s)
  {
    var p := st.pumps[s];
    if !p.done && IndexOf(p.partial, '\n') == |p.partial| {
      TextsAppend(st.log, Record(ts, s, p.partial), s);
      EofInv(TextsOf(st.log, s), p);
    }
  }

  lemma ReadOwn(st: Pumps, s: string, chunk: string)
    requires OwnInv(st, s)
    ensures OwnInv(Advance(st, Read(s, chunk)), s)
  {
    if !st.pumps[s].done {
      ReadInv(TextsOf(st.log, s), st.pumps[s], chunk);
    }
  }

  lemma AdvanceOwn(st: Pumps, step: PumpStep)
    requires OwnInv(st, step.stream)
    ensures OwnInv(Advance(st, step), step.stream)
  {
    match step
    case Read(s, chunk) => ReadOwn(st, s, chunk);
    case Emit(s, ts) => EmitOwn(st, s, ts);
    case Eof(s, ts) => EofOwn(st, s, ts);
  }

  lemma {:induction false} PumpsInv(streams: set<string>, steps: seq<PumpStep>, n: nat, stream: string)
    requires stream in streams && n <= |steps|
    ensures
      var st := AdvanceAll(Started(streams), steps, n);
      stream in st.pumps && PumpInv(TextsOf(st.log, stream), st.pumps[stream])
  {
    if n > 0 {
      PumpsInv(streams, steps, n - 1, stream);
      var before := AdvanceAll(Started(streams), steps, n - 1);
      if steps[n - 1].stream == stream {
        AdvanceOwn(before, steps[n - 1]);
      } else {
        AdvanceOther(before, steps[n - 1], stream);
      }
    }
  }

  /** However the bytes are cut into reads and the pumps interleave, the log's
      lines of one stream, then what its pump still buffers, are that stream's
      bytes split into lines. */
  lemma PumpsKeepStreamsApart(streams: set<string>, steps: seq<PumpStep>, stream: string)
    requires stream in streams
    ensures
      var st := AdvanceAll(Started(streams), steps, |steps|);
      stream in st.pumps &&
      TextsOf(st.log, stream) + SplitLines(st.pumps[stream].partial) == SplitLines(st.pumps[stream].input) &&
      (st.pumps[stream].done ==> TextsOf(st.log, stream) == SplitLines(st.pumps[stream].input))
  {
    PumpsInv(streams, steps, |steps|, stream);
    var st := AdvanceAll(Started(streams), steps, |steps|);
    SplitOfUnsplit(TextsOf(st.log, stream), st.pumps[stream].partial);
  }

  lemma {:induction false} AdvanceConcat(st: Pumps, a: seq<PumpStep>, b: seq<PumpStep>, n: nat)
    requires n <= |b|
    ensures AdvanceAll(st, a + b, |a| + n) == AdvanceAll(AdvanceAll(st, a, |a|), b, n)
  {
    if n > 0 {
      AdvanceConcat(st, a, b, n - 1);
    } else {
      AdvancePrefix(st, a, b, |a|);
    }
  }

  lemma {:induction false} AdvancePrefix(st: Pumps, a: seq<PumpStep>, b: seq<PumpStep>, n: nat)
    requires n <= |a|
    ensures AdvanceAll(st, a + b, n) == AdvanceAll(st, a, n)
  {
    if n > 0 {
      AdvancePrefix(st, a, b, n - 1);
    }
  }

  /** The pump's input, and that it is ready for more of it. */
  predicate ReadyAt(st: Pumps, s: string, input: string) {
    s in st.pumps && st.pumps[s].input == input && !st.pumps[s].done && '\n' !in st.pumps[s].partial
  }

  /** The turns of the drain loop that make a pump ready again. */
  lemma {:induction false} Drains(st: Pumps, s: string, ts: string) returns (steps: seq<PumpStep>)
    requires s in st.pumps && !st.pumps[s].done
    ensures ReadyAt(AdvanceAll(st, steps, |steps|), s, st.pumps[s].input)
    decreases if s in st.pumps then |st.pumps[s].partial| else 0
  {
    var partial := st.pumps[s].partial;
    if IndexOf(partial, '\n') == |partial| {
      return [];
    }
    EmitEffect(st, s, ts);
    var after := Advance(st, Emit(s, ts));
    var rest := Drains(after, s, ts);
    steps := [Emit(s, ts)] + rest;
    assert AdvanceAll(st, [Emit(s, ts)], 1) == after;
    AdvanceConcat(st, [Emit(s, ts)], rest, |rest|);
  }

  /** Whatever a pump is given to read, it reads. */
  lemma {:induction false} ReadsAll(st: Pumps, s: string, chunks: seq<string>, ts: string)
    returns (steps: seq<PumpStep>)
    requires ReadyAt(st, s, "")
    ensures ReadyAt(AdvanceAll(st, steps, |steps|), s, Join(chunks))
  {
    if chunks == [] {
      return [];
    }
    var n := |chunks| - 1;
    var before := ReadsAll(st, s, chunks[..n], ts);
    var mid := AdvanceAll(st, before, |before|);
    var read := Advance(mid, Read(s, chunks[n]));
    assert AdvanceAll(mid, [Read(s, chunks[n])], 1) == read;
    AdvanceConcat(st, before, [Read(s, chunks[n])], 1);
    var drain := Drains(read, s, ts);
    steps := before + [Read(s, chunks[n])] + drain;
    AdvanceConcat(st, before + [Read(s, chunks[n])], drain, |drain|);
    assert Join(chunks) == Join(chunks[..n]) + chunks[n];
  }

  /** And at the end of its stream it is through, with every line in the log. */
  lemma PumpCompletes(streams: set<string>, s: string, chunks: seq<string>, ts: string) returns (steps: seq<PumpStep>)
    requires s in streams
    ensures
      var st := AdvanceAll(Started(streams), steps, |steps|);
      s in st.pumps && st.pumps[s].done && TextsOf(st.log, s) == SplitLines(Join(chunks))
  {
    var front := ReadsAll(Started(streams), s, chunks, ts);
    var ready := AdvanceAll(Started(streams), front, |front|);
    steps := front + [Eof(s, ts)];
    assert AdvanceAll(ready, [Eof(s, ts)], 1) == Advance(ready, Eof(s, ts));
    AdvanceConcat(Started(streams), front, [Eof(s, ts)], 1);
    PumpsKeepStreamsApart(streams, steps, s);
  }

  // ---------------------------------------------------------------------
  // Following
  // ---------------------------------------------------------------------

  /** `start` is the log's length at the snapshot, `next` the receiver's position,
      `received` the positions delivered, `lost` how many were skipped. */
  datatype Follower = Follower(start: nat, next: nat, received: seq<nat>, lost: nat, running: bool)

  datatype Followed = Followed(log: seq<Record>, follower: Follower)

  /** `Stop` is the end of the forwarder, whatever the reason. */
  datatype FollowStep = Append(r: Record) | Recv | Stop

  function Subscribed(log: seq<Record>): Followed {
    Followed(log, Follower(|log|, |log|, [], 0, true))
  }

  function Follow(st: Followed, step: FollowStep): Followed {
    var f := st.follower;
    match step
    case Append(r) => st.(log := st.log + [r])
    case Recv =>
      if !f.running || f.next >= |st.log| then st
      else if |st.log| - f.next > FANOUT then
        st.(follower := f.(next := |st.log| - FANOUT, lost := f.lost + (|st.log| - FANOUT - f.next)))
      else st.(follower := f.(next := f.next + 1, received := f.received + [f.next]))
    case Stop => st.(follower := f.(running := false))
  }

  /** A follower that asks gets the next line while it is at most 256 lines behind; if
      it is further it skips to the last 256. */
  lemma ReceivesNext(st: Followed)
    requires st.follower.running && st.follower.next < |st.log|
    ensures
      var f, after := st.follower, Follow(st, Recv).follower;
      (|st.log| - f.next <= 256 ==> after == f.(next := f.next + 1, received := f.received + [f.next])) &&
      (|st.log| - f.next > 256 ==>
        after == f.(next := |st.log| - 256, lost := f.lost + (|st.log| - 256 - f.next)))
  {
  }

  function FollowAll(st: Followed, steps: seq<FollowStep>, n: nat): Followed
    requires n <= |steps|
  {
    if n == 0 then st else Follow(FollowAll(st, steps, n - 1), steps[n - 1])
  }

  /** In order, without repetition, nothing from before the snapshot, and every
      position passed over accounted for. */
  predicate InOrder(st: Followed, start: nat) {
    var f := st.follower;
    f.start == start && start <= f.next <= |st.log| && |f.received| + f.lost == f.next - start &&
    (forall k | 0 <= k < |f.received| :: start <= f.received[k] < f.next) &&
    (forall j, k | 0 <= j < k < |f.received| :: f.received[j] < f.received[k])
  }

  /** Every run delivers an in-order subsequence of the lines since the snapshot. */
  lemma {:induction false} FollowInOrder(log: seq<Record>, steps: seq<FollowStep>, n: nat)
    requires n <= |steps|
    ensures InOrder(FollowAll(Subscribed(log), steps, n), |log|)
    ensures log <= FollowAll(Subscribed(log), steps, n).log
  {
    if n > 0 {
      FollowInOrder(log, steps, n - 1);
    }
  }

  /** As many increasing numbers as the range holds are the whole range. */
  lemma {:induction false} FullRange(s: seq<nat>, lo: nat, hi: nat)
    requires lo <= hi && |s| == hi - lo
    requires forall k | 0 <= k < |s| :: lo <= s[k] < hi
    requires forall j, k | 0 <= j < k < |s| :: s[j] < s[k]
    ensures forall k | 0 <= k < |s| :: s[k] == lo + k
  {
    if s != [] {
      var n := |s| - 1;
      if s[n] < hi - 1 {
        TooMany(s, lo, s[n] + 1);
      }
      FullRange(s[..n], lo, hi - 1);
    }
  }

  /** A range cannot hold more increasing numbers than its length. */
  lemma {:induction false} TooMany(s: seq<nat>, lo: nat, hi: nat)
    requires lo <= hi
    requires forall k | 0 <= k < |s| :: lo <= s[k] < hi
    requires forall j, k | 0 <= j < k < |s| :: s[j] < s[k]
    ensures |s| <= hi - lo
  {
    if s != [] {
      TooMany(s[..|s| - 1], lo, s[|s| - 1]);
    }
  }

  function Delivered(st: Followed): seq<Record>
    requires forall k | 0 <= k < |st.follower.received| :: st.follower.received[k] < |st.log|
  {
    seq(|st.follower.received|, k requires 0 <= k < |st.follower.received| => st.log[st.follower.received[k]])
  }

  /** The forwarder never lets more than the fan-out's capacity pile up. */
  predicate KeepsUp(st: Followed, steps: seq<FollowStep>, n: nat)
    requires n <= |steps|
  {
    n == 0 ||
    (KeepsUp(st, steps, n - 1) &&
     (steps[n - 1].Recv? ==> |FollowAll(st, steps, n - 1).log| - FollowAll(st, steps, n - 1).follower.next <= FANOUT))
  }

  lemma {:induction false} KeepingUpLosesNothing(log: seq<Record>, steps: seq<FollowStep>, n: nat)
    requires n <= |steps| && KeepsUp(Subscribed(log), steps, n)
    ensures FollowAll(Subscribed(log), steps, n).follower.lost == 0
  {
    if n > 0 {
      KeepingUpLosesNothing(log, steps, n - 1);
    }
  }

  /** A state in order that lost nothing has delivered all lines from the
      snapshot to the receiver's position. */
  lemma NothingLost(st: Followed, start: nat)
    requires InOrder(st, start) && st.follower.lost == 0
    ensures Delivered(st) == st.log[start..st.follower.next]
  {
    FullRange(st.follower.received, start, st.follower.next);
  }

  /** Backlog, delivered lines and lines still buffered are the log: nothing is
      missed or doubled at the boundary between snapshot and subscription. */
  lemma FollowExact(log: seq<Record>, steps: seq<FollowStep>)
    requires KeepsUp(Subscribed(log), steps, |steps|)
    ensures
      var st := FollowAll(Subscribed(log), steps, |steps|);
      InOrder(st, |log|) && st.log[..|log|] == log && log + Delivered(st) + st.log[st.follower.next..] == st.log
  {
    FollowInOrder(log, steps, |steps|);
    KeepingUpLosesNothing(log, steps, |steps|);
    BacklogAndRest(FollowAll(Subscribed(log), steps, |steps|), log);
  }

  lemma BacklogAndRest(st: Followed, log: seq<Record>)
    requires InOrder(st, |log|) && st.follower.lost == 0 && log <= st.log
    ensures st.log[..|log|] == log && log + Delivered(st) + st.log[st.follower.next..] == st.log
  {
    NothingLost(st, |log|);
  }

  lemma {:induction false} FileIsJoin(rs: seq<Record>)
    ensures File(rs) == Join(StoredLines(rs))
  {
    if rs != [] {
      var n := |rs| - 1;
      FileIsJoin(rs[..n]);
      assert StoredLines(rs)[..n] == StoredLines(rs[..n]);
    }
  }

  /** What the client has been shown is the rendering of the log up to the
      receiver's position, if every line before the snapshot was written; a write
      that fails after it takes nothing from this client. */
  lemma FollowerShows(st: Followed, start: nat, o: Options, disk: nat -> nat)
    requires InOrder(st, start) && st.follower.lost == 0 && Unfiltered(o)
    requires AllWellFormed(st.log) && AllValid(st.log) && NoneEndsInCr(st.log)
    requires AllWritten(StoredLines(st.log[..start]), disk)
    ensures ReadAndRender(Written(StoredLines(st.log[..start]), disk), o) + LiveText(Delivered(st), o.timestamps)
         == ReadAndRender(File(st.log[..st.follower.next]), o)
  {
    var a, b := st.log[..start], Delivered(st);
    IntactIff(StoredLines(a), disk);
    FileIsJoin(a);
    NothingLost(st, start);
    assert st.log[..st.follower.next] == a + b;
    BacklogAgainstLive(a, o);
    BacklogAgainstLive(a + b, o);
    FlatMapConcat(a, b, r => RenderLiveLine(StoredLine(r), o.timestamps).GetOr(""));
  }

  // ---------------------------------------------------------------------
  // What a file with failed writes shows
  // ---------------------------------------------------------------------

  /** A stored line without its newline. */
  function Body(r: Record): string {
    Head(r) + r.text
  }

  /** The lines a file holds, and what stands open at its end. */
  datatype View = View(lines: seq<string>, open: string)

  /** A line that is written whole closes everything left open since the one before. */
  function ShowNext(v: View, r: Record, bytes: nat): View {
    if |StoredLine(r)| <= bytes then View(v.lines + [v.open + Body(r)], "")
    else View(v.lines, v.open + Part(StoredLine(r), bytes))
  }

  function Shown(rs: seq<Record>, disk: nat -> nat): View {
    if rs == [] then View([], "") else ShowNext(Shown(rs[..|rs| - 1], disk), rs[|rs| - 1], disk(|rs| - 1))
  }

  predicate Shows(file: string, v: View) {
    file == Unsplit(v.lines) + v.open && NoNewlines(v.lines) && '\n' !in v.open
  }

  lemma BodyHasNoNewline(r: Record, c: nat)
    requires WellFormed(r) && c < |StoredLine(r)|
    ensures '\n' !in Body(r) && '\n' !in Part(StoredLine(r), c)
  {
    assert StoredLine(r) == Body(r) + "\n";
    assert Part(StoredLine(r), c) == Body(r)[..c];
  }

  lemma ShowsNext(file: string, v: View, r: Record, bytes: nat)
    requires Shows(file, v) && WellFormed(r)
    ensures Shows(file + Part(StoredLine(r), bytes), ShowNext(v, r, bytes))
  {
    assert StoredLine(r) == Body(r) + "\n";
    BodyHasNoNewline(r, 0);
    if |StoredLine(r)| <= bytes {
      UnsplitAppend(v.lines, v.open + Body(r));
      assert Part(StoredLine(r), bytes) == StoredLine(r);
      assert Unsplit(v.lines) + v.open + (Body(r) + "\n") == Unsplit(v.lines) + (v.open + Body(r)) + "\n";
    } else {
      BodyHasNoNewline(r, bytes);
      Associate(Unsplit(v.lines), v.open, Part(StoredLine(r), bytes));
    }
  }

  lemma WrittenLast(log: seq<Record>, disk: nat -> nat)
    requires log != []
    ensures
      var n := |log| - 1;
      Written(StoredLines(log), disk) == Written(StoredLines(log[..n]), disk) + Part(StoredLine(log[n]), disk(n))
  {
    assert StoredLines(log)[..|log| - 1] == StoredLines(log[..|log| - 1]);
  }

  lemma {:induction false} FileIsShown(rs: seq<Record>, disk: nat -> nat)
    requires AllWellFormed(rs)
    ensures Shows(Written(StoredLines(rs), disk), Shown(rs, disk))
  {
    if rs != [] {
      var n := |rs| - 1;
      FileIsShown(rs[..n], disk);
      assert rs[n] in rs;
      ShowsNext(Written(StoredLines(rs[..n]), disk), Shown(rs[..n], disk), rs[n], disk(n));
      WrittenLast(rs, disk);
    }
  }

  /** Whatever writes fail and however much of each line they leave, these are the
      file's lines. */
  lemma FileShows(rs: seq<Record>, disk: nat -> nat)
    requires AllWellFormed(rs)
    ensures
      var v := Shown(rs, disk);
      SplitLines(Written(StoredLines(rs), disk)) == if v.open == "" then v.lines else v.lines + [v.open]
  {
    FileIsShown(rs, disk);
    SplitAll(Shown(rs, disk).lines, Shown(rs, disk).open, Written(StoredLines(rs), disk));
  }

  /** The record a line reads as when `c` bytes of it are followed by the next one:
      cut in its timestamp, in its stream tag, or in its text. */
  function Merge(r: Record, c: nat, next: Record): Record
    requires c < |StoredLine(r)|
  {
    if c <= |r.ts| then Record(r.ts[..c] + next.ts, next.stream, next.text)
    else if c < |Head(r)| then Record(r.ts, r.stream[..c - |r.ts| - 1] + next.ts, next.stream + " " + next.text)
    else Record(r.ts, r.stream, r.text[..c - |Head(r)|] + Body(next))
  }

  lemma MergeRunsOn(r: Record, c: nat, next: Record)
    requires c < |StoredLine(r)|
    ensures StoredLine(Merge(r, c, next)) == Part(StoredLine(r), c) + StoredLine(next)
  {
    var line := StoredLine(r);
    if c <= |r.ts| {
      assert Part(line, c) == r.ts[..c];
    } else if c < |Head(r)| {
      assert line == r.ts + " " + (r.stream + " " + r.text + "\n");
      assert Part(line, c) == r.ts + " " + r.stream[..c - |r.ts| - 1];
    } else {
      assert line == Head(r) + (r.text + "\n");
      assert Part(line, c) == Head(r) + r.text[..c - |Head(r)|];
    }
  }

  lemma FileLast(rs: seq<Record>, r: Record)
    ensures File(rs + [r]) == File(rs) + StoredLine(r)
  {
    assert (rs + [r])[..|rs|] == rs;
  }

  lemma WholeFile(rs: seq<Record>, disk: nat -> nat)
    requires forall j | 0 <= j < |rs| :: |StoredLine(rs[j])| <= disk(j)
    ensures Written(StoredLines(rs), disk) == File(rs)
  {
    IntactIff(StoredLines(rs), disk);
    FileIsJoin(rs);
  }

  /** With these lines broadcast, the file is that of these records. */
  predicate FileIs(log: seq<Record>, disk: nat -> nat, rs: seq<Record>) {
    Written(StoredLines(log), disk) == File(rs)
  }

  /** The last two lines, the first of them cut. */
  lemma LastRunsOn(log: seq<Record>, before: seq<Record>, r: Record, next: Record, disk: nat -> nat)
    requires log == before + [r] + [next] && disk(|before|) < |StoredLine(r)| &&
      |StoredLine(next)| <= disk(|before| + 1)
    requires forall j | 0 <= j < |before| :: |StoredLine(before[j])| <= disk(j)
    ensures FileIs(log, disk, before + [Merge(r, disk(|before|), next)])
  {
    var c := disk(|before|);
    WrittenLast(before + [r] + [next], disk);
    assert (before + [r] + [next])[..|before| + 1] == before + [r];
    WrittenLast(before + [r], disk);
    assert (before + [r])[..|before|] == before;
    WholeFile(before, disk);
    Associate(File(before), Part(StoredLine(r), c), StoredLine(next));
    MergeRunsOn(r, c, next);
    FileLast(before, Merge(r, c, next));
  }

  lemma TakeOne(lines: seq<string>, m: nat, k: nat, disk: nat -> nat)
    requires m <= k < |lines| && |lines[k]| <= disk(k)
    ensures Written(lines[..k + 1], disk) == Written(lines[..k], disk) + lines[k]
    ensures Join(lines[m..k + 1]) == Join(lines[m..k]) + lines[k]
  {
    assert lines[..k + 1] == lines[..k] + [lines[k]] && lines[m..k + 1] == lines[m..k] + [lines[k]];
    WrittenOneMore(lines[..k], lines[k], disk);
    FlatMapConcat(lines[m..k], [lines[k]], c => c);
    FlatMapOne(lines[k], (c: string) => c);
  }

  /** Lines from the `m`-th on that are written whole add themselves. */
  lemma {:induction false} WholeTail(lines: seq<string>, m: nat, n: nat, disk: nat -> nat)
    requires m <= n <= |lines| && forall j | m <= j < n :: |lines[j]| <= disk(j)
    ensures Written(lines[..n], disk) == Written(lines[..m], disk) + Join(lines[m..n])
    decreases n
  {
    if m == n {
      assert Join(lines[m..n]) == "";
    } else {
      var k := n - 1;
      WholeTail(lines, m, k, disk);
      TakeOne(lines, m, k, disk);
      Associate(Written(lines[..m], disk), Join(lines[m..k]), lines[k]);
    }
  }

  lemma TailFile(log: seq<Record>, m: nat)
    requires m <= |log|
    ensures Join(StoredLines(log)[m..]) == File(log[m..])
  {
    FileIsJoin(log[m..]);
    assert StoredLines(log)[m..] == StoredLines(log[m..]);
  }

  lemma TailWritten(lines: seq<string>, m: nat, disk: nat -> nat)
    requires m <= |lines| && forall j | m <= j < |lines| :: |lines[j]| <= disk(j)
    ensures Written(lines, disk) == Written(lines[..m], disk) + Join(lines[m..])
  {
    WholeTail(lines, m, |lines|, disk);
    assert lines[..|lines|] == lines && lines[m..|lines|] == lines[m..];
  }

  lemma GoesOn(log: seq<Record>, m: nat, rs: seq<Record>, disk: nat -> nat)
    requires m <= |log| && FileIs(log[..m], disk, rs)
    requires forall j | m <= j < |log| :: |StoredLine(log[j])| <= disk(j)
    ensures FileIs(log, disk, rs + log[m..])
  {
    var lines := StoredLines(log);
    TailWritten(lines, m, disk);
    assert lines[..m] == StoredLines(log[..m]);
    TailFile(log, m);
    FlatMapConcat(rs, log[m..], (r: Record) => StoredLine(r));
  }

  /** A line of which nothing was written is missing from every later backlog, and
      its followers got it at the time: the file is that of the other lines. */
  lemma UnwrittenIsMissed(log: seq<Record>, k: nat, disk: nat -> nat)
    requires k < |log| && disk(k) == 0
    requires forall j | 0 <= j < |log| && j != k :: |StoredLine(log[j])| <= disk(j)
    ensures FileIs(log, disk, log[..k] + log[k + 1..])
  {
    var before := log[..k];
    assert log[..k + 1] == before + [log[k]];
    WrittenLast(before + [log[k]], disk);
    assert (before + [log[k]])[..k] == before;
    WholeFile(before, disk);
    GoesOn(log, k + 1, before, disk);
  }

  /** A line that is written in part runs into the next one: the file is that of the
      log with the two merged into one record. */
  lemma PartRunsOn(log: seq<Record>, k: nat, disk: nat -> nat)
    requires k + 1 < |log| && disk(k) < |StoredLine(log[k])|
    requires forall j | 0 <= j < |log| && j != k :: |StoredLine(log[j])| <= disk(j)
    ensures FileIs(log, disk, log[..k] + [Merge(log[k], disk(k), log[k + 1])] + log[k + 2..])
  {
    var before, merged := log[..k], Merge(log[k], disk(k), log[k + 1]);
    assert log[..k + 2] == before + [log[k]] + [log[k + 1]];
    LastRunsOn(log[..k + 2], before, log[k], log[k + 1], disk);
    GoesOn(log, k + 2, before + [merged], disk);
  }

  lemma {:induction false} TextsConcat(a: seq<Record>, b: seq<Record>)
    ensures Texts(a + b) == Texts(a) + Texts(b)
  {
    if b == [] {
      assert a + b == a;
    } else {
      var n := |b| - 1;
      assert (a + b)[..|a| + n] == a + b[..n];
      TextsConcat(a, b[..n]);
    }
  }

  /** Cut in its text, the line shows with the whole next stored line behind it. */
  lemma BacklogRunsOn(log: seq<Record>, k: nat, disk: nat -> nat, o: Options)
    requires k + 1 < |log| && |Head(log[k])| <= disk(k) < |StoredLine(log[k])|
    requires forall j | 0 <= j < |log| && j != k :: |StoredLine(log[j])| <= disk(j)
    requires AllWellFormed(log) && NoneEndsInCr(log) && Unfiltered(o) && !o.timestamps
    ensures
      var text := log[k].text[..disk(k) - |Head(log[k])|] + Body(log[k + 1]);
      RenderLog(Written(StoredLines(log), disk), o) == Unsplit(Texts(log[..k]) + [text] + Texts(log[k + 2..]))
  {
    var merged := Merge(log[k], disk(k), log[k + 1]);
    var whole := log[..k] + [merged] + log[k + 2..];
    PartRunsOn(log, k, disk);
    MergedIsFine(log[k], disk(k), log[k + 1]);
    forall r | r in whole
      ensures WellFormed(r) && StripCr(r.text) == r.text
    {
      assert r == merged || r in log;
    }
    DefaultRenderingIsTexts(whole, o);
    TextsConcat(log[..k] + [merged], log[k + 2..]);
    TextsConcat(log[..k], [merged]);
    assert [merged][..0] == [] && Texts([merged]) == Texts([]) + [merged.text];
  }

  lemma MergedIsFine(r: Record, c: nat, next: Record)
    requires |Head(r)| <= c < |StoredLine(r)| && WellFormed(r) && WellFormed(next) && StripCr(next.text) == next.text
    ensures WellFormed(Merge(r, c, next)) && StripCr(Merge(r, c, next).text) == Merge(r, c, next).text
  {
    BodyHasNoNewline(next, 0);
    assert next.text == "" ==> Body(next)[|Body(next)| - 1] == ' ';
    assert next.text != "" ==> Body(next)[|Body(next)| - 1] == next.text[|next.text| - 1];
  }
}
