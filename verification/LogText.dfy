/** Container log text: splitting a stream into lines, the stored line format,
    and how stored lines are rendered. A char stands for one byte. */
module LogText {
  import opened Sequences
  import opened Wrappers

  /** The first position of `c`, or the length. */
  function IndexOf(s: string, c: char): (i: nat)
    ensures i <= |s| && (i < |s| ==> s[i] == c)
    ensures forall k | 0 <= k < i :: s[k] != c
  {
    if s == [] || s[0] == c then 0 else 1 + IndexOf(s[1..], c)
  }

  lemma IndexIs(s: string, c: char, i: nat)
    requires i <= |s| && (i < |s| ==> s[i] == c) && forall k | 0 <= k < i :: s[k] != c
    ensures IndexOf(s, c) == i
  {
  }

  // ---------------------------------------------------------------------
  // Splitting a stream into lines
  // ---------------------------------------------------------------------

  /** The stream's lines, and a last unterminated one if it is not empty. */
  function SplitLines(b: string): seq<string> {
    if b == [] then []
    else
      var i := IndexOf(b, '\n');
      if i == |b| then [b] else [b[..i]] + SplitLines(b[i + 1..])
  }

  function Unsplit(lines: seq<string>): string {
    if lines == [] then [] else lines[0] + "\n" + Unsplit(lines[1..])
  }

  predicate NoNewlines(lines: seq<string>) {
    forall k | 0 <= k < |lines| :: '\n' !in lines[k]
  }

  lemma SplitCons(line: string, rest: string)
    requires '\n' !in line
    ensures SplitLines(line + "\n" + rest) == [line] + SplitLines(rest)
  {
    var b := line + "\n" + rest;
    IndexIs(b, '\n', |line|);
    assert b[..|line|] == line && b[|line| + 1..] == rest;
  }

  lemma UnsplitCons(line: string, lines: seq<string>)
    ensures Unsplit([line] + lines) == line + "\n" + Unsplit(lines)
  {
    assert ([line] + lines)[1..] == lines;
  }

  lemma SplitPartial(partial: string)
    requires '\n' !in partial
    ensures SplitLines(partial) == if partial == [] then [] else [partial]
  {
    IndexIs(partial, '\n', |partial|);
  }

  lemma SplitOneMore(line: string, joined: string, tail: seq<string>, rest: string)
    requires '\n' !in line && SplitLines(joined + rest) == tail + SplitLines(rest)
    ensures SplitLines(line + "\n" + joined + rest) == [line] + tail + SplitLines(rest)
  {
    SplitCons(line, joined + rest);
    Associate(line + "\n", joined, rest);
    Associate([line], tail, SplitLines(rest));
  }

  /** Joined lines split back into themselves, whatever follows them. */
  lemma {:induction false} SplitOfUnsplit(lines: seq<string>, rest: string)
    requires NoNewlines(lines)
    ensures SplitLines(Unsplit(lines) + rest) == lines + SplitLines(rest)
  {
    if lines == [] {
      assert Unsplit(lines) + rest == rest;
    } else {
      SplitOfUnsplit(lines[1..], rest);
      SplitOneMore(lines[0], Unsplit(lines[1..]), lines[1..], rest);
      assert lines == [lines[0]] + lines[1..];
    }
  }

  /** Splitting loses no byte: joined again, the lines are the stream, with at
      most a final newline added. */
  lemma {:induction false} UnsplitOfSplit(b: string)
    ensures NoNewlines(SplitLines(b))
    ensures Unsplit(SplitLines(b)) == b + FinalNewline(b)
  {
    if b != [] {
      var i := IndexOf(b, '\n');
      if i == |b| {
        SplitPartial(b);
        UnsplitCons(b, []);
        assert [b] + [] == [b];
      } else {
        UnsplitOfSplit(b[i + 1..]);
        UnsplitCons(b[..i], SplitLines(b[i + 1..]));
        RestOfSplit(b, i);
      }
    }
  }

  /** What a stream lacks to end in a newline. */
  function FinalNewline(b: string): string {
    if b != [] && b[|b| - 1] != '\n' then "\n" else ""
  }

  lemma RestOfSplit(b: string, i: nat)
    requires i < |b| && b[i] == '\n'
    ensures b[..i] + "\n" + (b[i + 1..] + FinalNewline(b[i + 1..])) == b + FinalNewline(b)
  {
    assert b == b[..i] + "\n" + b[i + 1..];
  }

  lemma {:induction false} UnsplitAppend(lines: seq<string>, line: string)
    ensures Unsplit(lines + [line]) == Unsplit(lines) + line + "\n"
  {
    if lines == [] {
      assert lines + [line] == [line];
      assert Unsplit([line][1..]) == [];
    } else {
      assert (lines + [line])[1..] == lines[1..] + [line];
      UnsplitAppend(lines[1..], line);
    }
  }

  // ---------------------------------------------------------------------
  // UTF-8, section 4 of RFC 3629
  // ---------------------------------------------------------------------

  predicate Tail(c: char) {
    0x80 <= c as int <= 0xBF
  }

  /** The length of the well-formed character at the front, or zero. */
  function CharLength(s: string): (n: nat)
    ensures n <= |s|
  {
    if s == [] then 0
    else
      var a := s[0] as int;
      var b := if |s| > 1 then s[1] as int else 0;
      var low := if a == 0xE0 then 0xA0 else if a == 0xF0 then 0x90 else 0x80;
      var high := if a == 0xED then 0x9F else if a == 0xF4 then 0x8F else 0xBF;
      if a < 0x80 then 1
      else if !(low <= b <= high) then 0
      else if 0xC2 <= a <= 0xDF then 2
      else if 0xE0 <= a <= 0xEF && |s| > 2 && Tail(s[2]) then 3
      else if 0xF0 <= a <= 0xF4 && |s| > 3 && Tail(s[2]) && Tail(s[3]) then 4
      else 0
  }

  predicate ValidUtf8(s: string) {
    s == [] || (CharLength(s) > 0 && ValidUtf8(s[CharLength(s)..]))
  }

  lemma CharLengthPrefix(s: string, t: string)
    requires CharLength(s) > 0
    ensures CharLength(s + t) == CharLength(s)
  {
  }

  /** After valid text, the whole is valid exactly when the rest is. */
  lemma {:induction false} ValidConcat(s: string, t: string)
    requires ValidUtf8(s)
    ensures ValidUtf8(s + t) <==> ValidUtf8(t)
  {
    if s == [] {
      assert s + t == t;
    } else {
      var n := CharLength(s);
      CharLengthPrefix(s, t);
      assert (s + t)[n..] == s[n..] + t;
      ValidConcat(s[n..], t);
    }
  }

  predicate Ascii(s: string) {
    forall k | 0 <= k < |s| :: s[k] as int < 0x80
  }

  lemma {:induction false} AsciiValid(s: string)
    requires Ascii(s)
    ensures ValidUtf8(s)
  {
    if s != [] {
      AsciiValid(s[1..]);
    }
  }

  /** An ASCII byte ends every character before it. */
  lemma {:induction false} ValidBeforeAscii(s: string, t: string)
    requires t != [] && t[0] as int < 0x80 && ValidUtf8(s + t)
    ensures ValidUtf8(s)
  {
    if s != [] {
      var n := CharLength(s + t);
      assert forall k | 0 < k < n :: (s + t)[k] as int >= 0x80;
      assert (s + t)[|s|] == t[0];
      assert n <= |s|;
      assert forall k | 0 <= k < |s| :: (s + t)[k] == s[k];
      CharLengthOfPrefix(s, t);
      assert (s + t)[n..] == s[n..] + t;
      ValidBeforeAscii(s[n..], t);
    }
  }

  lemma CharLengthOfPrefix(s: string, t: string)
    requires 0 < CharLength(s + t) <= |s|
    ensures CharLength(s) == CharLength(s + t)
  {
  }

  // ---------------------------------------------------------------------
  // Stored lines
  // ---------------------------------------------------------------------

  /** One line of the log file, before formatting. */
  datatype Record = Record(ts: string, stream: string, text: string)

  predicate WellFormed(r: Record) {
    Ascii(r.ts) && ' ' !in r.ts && '\n' !in r.ts && (r.stream == "stdout" || r.stream == "stderr") && '\n' !in r.text
  }

  predicate AllWellFormed(rs: seq<Record>) {
    forall r | r in rs :: WellFormed(r)
  }

  function Head(r: Record): string {
    r.ts + " " + r.stream + " "
  }

  function StoredLine(r: Record): string {
    Head(r) + r.text + "\n"
  }

  /** The log file that holds these records. */
  function File(rs: seq<Record>): string {
    FlatMap(rs, r => StoredLine(r))
  }

  function SplitOnce(s: string, c: char): Option<(string, string)> {
    var i := IndexOf(s, c);
    if i < |s| then Some((s[..i], s[i + 1..])) else None
  }

  /** The timestamp and the text of a stored line; the stream tag is dropped. */
  function SplitStoredLine(line: string): Option<(string, string)> {
    var first := SplitOnce(line, ' ');
    if first.None? then None
    else
      var rest := SplitOnce(first.value.1, ' ');
      Some((first.value.0, if rest.Some? then rest.value.1 else ""))
  }

  lemma SplitAt(head: string, rest: string, c: char)
    requires c !in head
    ensures SplitOnce(head + [c] + rest, c) == Some((head, rest))
  {
    var s := head + [c] + rest;
    assert s[|head|] == c && forall k | 0 <= k < |head| :: s[k] == head[k];
    IndexIs(s, c, |head|);
    assert s[..|head|] == head;
    assert s[|head| + 1..] == rest;
  }

  lemma SplitRecord(r: Record, text: string)
    requires WellFormed(r)
    ensures SplitStoredLine(Head(r) + text) == Some((r.ts, text))
  {
    var rest := r.stream + " " + text;
    assert Head(r) + text == r.ts + " " + rest;
    SplitAt(r.ts, rest, ' ');
    SplitAt(r.stream, text, ' ');
  }

  // ---------------------------------------------------------------------
  // Rendering
  // ---------------------------------------------------------------------

  /** `tooOld` says which timestamps parse and lie before `--since`. */
  datatype Options = Options(timestamps: bool, tail: Option<int>, limit: Option<int>, tooOld: string -> bool)

  function StripCr(s: string): string {
    if s != [] && s[|s| - 1] == '\r' then s[..|s| - 1] else s
  }

  /** Rust's `str::lines`: a line end may be "\r\n". */
  function Lines(raw: string): seq<string> {
    if raw == [] then []
    else
      var i := IndexOf(raw, '\n');
      if i == |raw| then [raw] else [StripCr(raw[..i])] + Lines(raw[i + 1..])
  }

  function RenderOne(ts: string, text: string, timestamps: bool): string {
    (if timestamps then ts + " " else "") + text + "\n"
  }

  /** A parsed line, if it parses and `--since` lets it through. */
  function KeptLine(line: string, o: Options): seq<(string, string)> {
    var split := SplitStoredLine(line);
    if split.Some? && !o.tooOld(split.value.0) then [split.value] else []
  }

  function Kept(lines: seq<string>, o: Options): seq<(string, string)> {
    FlatMap(lines, line => KeptLine(line, o))
  }

  function RenderAll(kept: seq<(string, string)>, timestamps: bool): string {
    FlatMap(kept, (k: (string, string)) => RenderOne(k.0, k.1, timestamps))
  }

  function TailOf<T>(s: seq<T>, tail: Option<int>): seq<T> {
    if tail.None? then s
    else
      var n := if tail.value < 0 then 0 else tail.value;
      if |s| > n then s[|s| - n..] else s
  }

  /** A cut may not split a character. */
  predicate Boundary(s: string, cut: nat)
    requires cut <= |s|
  {
    cut == 0 || cut == |s| || !Tail(s[cut])
  }

  /** The largest boundary at or below `cut`. */
  function Floor(s: string, cut: nat): (c: nat)
    requires cut <= |s|
    ensures c <= cut && Boundary(s, c)
    ensures forall k | c < k <= cut :: !Boundary(s, k)
  {
    if Boundary(s, cut) then cut else Floor(s, cut - 1)
  }

  function LimitTo(s: string, limit: Option<int>): string {
    if limit.None? then s
    else
      var n := if limit.value < 0 then 0 else limit.value;
      s[..Floor(s, if n < |s| then n else |s|)]
  }

  function RenderLog(raw: string, o: Options): string {
    LimitTo(RenderAll(TailOf(Kept(Lines(raw), o), o.tail), o.timestamps), o.limit)
  }

  /** What a reader of the file gets: an invalid file reads as empty. */
  function ReadAndRender(file: string, o: Options): string {
    RenderLog(if ValidUtf8(file) then file else "", o)
  }

  function TrimNewlines(s: string): string {
    if s != [] && s[|s| - 1] == '\n' then TrimNewlines(s[..|s| - 1]) else s
  }

  /** A broadcast line on its way to a follower. */
  function RenderLiveLine(line: string, timestamps: bool): Option<string> {
    if !ValidUtf8(line) then None
    else
      var split := SplitStoredLine(TrimNewlines(line));
      if split.None? then None else Some(RenderOne(split.value.0, split.value.1, timestamps))
  }

  method Render(raw: string, o: Options) returns (out: string)
    ensures out == RenderLog(raw, o)
  {
    var kept := KeepLines(Lines(raw), o);
    kept := CutToTail(kept, o.tail);
    out := RenderKept(kept, o.timestamps);
    out := Truncate(out, o.limit);
  }

  method CutToTail<T>(s: seq<T>, tail: Option<int>) returns (r: seq<T>)
    ensures r == TailOf(s, tail)
  {
    r := s;
    if tail.Some? {
      var n := if tail.value < 0 then 0 else tail.value;
      if |r| > n {
        r := r[|r| - n..];
      }
    }
  }

  method KeepLines(lines: seq<string>, o: Options) returns (kept: seq<(string, string)>)
    ensures kept == Kept(lines, o)
  {
    kept := [];
    for i := 0 to |lines|
      invariant kept == Kept(lines[..i], o)
    {
      assert lines[..i + 1][..i] == lines[..i];
      var split := SplitStoredLine(lines[i]);
      if split.None? {
        continue;
      }
      if o.tooOld(split.value.0) {
        continue;
      }
      kept := kept + [split.value];
    }
    assert lines[..|lines|] == lines;
  }

  method Truncate(s: string, limit: Option<int>) returns (out: string)
    ensures out == LimitTo(s, limit)
  {
    out := s;
    if limit.Some? {
      var n := if limit.value < 0 then 0 else limit.value;
      var cut: nat := if n < |s| then n else |s|;
      ghost var start := cut;
      while !Boundary(s, cut)
        invariant cut <= |s| && Floor(s, cut) == Floor(s, start)
        decreases cut
      {
        cut := cut - 1;
      }
      out := s[..cut];
    }
  }

  method RenderKept(kept: seq<(string, string)>, timestamps: bool) returns (out: string)
    ensures out == RenderAll(kept, timestamps)
  {
    out := "";
    for i := 0 to |kept|
      invariant out == RenderAll(kept[..i], timestamps)
    {
      assert kept[..i + 1][..i] == kept[..i];
      out := out + RenderOne(kept[i].0, kept[i].1, timestamps);
    }
    assert kept[..|kept|] == kept;
  }

  // ---------------------------------------------------------------------
  // Rendering distributes over concatenation
  // ---------------------------------------------------------------------

  /** Empty, or ended by a newline. */
  predicate Terminated(s: string) {
    s == [] || s[|s| - 1] == '\n'
  }

  lemma LinesCons(line: string, rest: string)
    requires '\n' !in line
    ensures Lines(line + "\n" + rest) == [StripCr(line)] + Lines(rest)
  {
    var raw := line + "\n" + rest;
    IndexIs(raw, '\n', |line|);
    assert raw[..|line|] == line && raw[|line| + 1..] == rest;
  }

  function StripAll(lines: seq<string>): seq<string> {
    if lines == [] then [] else [StripCr(lines[0])] + StripAll(lines[1..])
  }

  lemma LinesOneMore(line: string, joined: string, stripped: seq<string>, rest: string)
    requires '\n' !in line && Lines(joined + rest) == stripped + Lines(rest)
    ensures Lines(line + "\n" + joined + rest) == [StripCr(line)] + stripped + Lines(rest)
  {
    LinesCons(line, joined + rest);
    Associate(line + "\n", joined, rest);
  }

  /** Joined lines read back as themselves, carriage returns stripped. */
  lemma {:induction false} LinesOfUnsplit(lines: seq<string>, rest: string)
    requires NoNewlines(lines)
    ensures Lines(Unsplit(lines) + rest) == StripAll(lines) + Lines(rest)
  {
    if lines == [] {
      assert Unsplit(lines) + rest == rest;
    } else {
      LinesOfUnsplit(lines[1..], rest);
      LinesOneMore(lines[0], Unsplit(lines[1..]), StripAll(lines[1..]), rest);
    }
  }

  lemma LinesOfJoined(lines: seq<string>)
    requires NoNewlines(lines)
    ensures Lines(Unsplit(lines)) == StripAll(lines)
  {
    LinesOfUnsplit(lines, "");
    assert Unsplit(lines) + "" == Unsplit(lines);
    assert Lines("") == [];
  }

  lemma TerminatedIsJoined(a: string)
    requires Terminated(a)
    ensures NoNewlines(SplitLines(a)) && Unsplit(SplitLines(a)) == a
  {
    UnsplitOfSplit(a);
  }

  lemma LinesConcat(a: string, b: string)
    requires Terminated(a)
    ensures Lines(a + b) == Lines(a) + Lines(b)
  {
    TerminatedIsJoined(a);
    LinesOfUnsplit(SplitLines(a), b);
    LinesOfJoined(SplitLines(a));
  }

  /** Without tail and limit, rendering distributes over any split at a line end. */
  lemma RenderConcat(a: string, b: string, o: Options)
    requires Terminated(a) && o.tail.None? && o.limit.None?
    ensures RenderLog(a + b, o) == RenderLog(a, o) + RenderLog(b, o)
  {
    LinesConcat(a, b);
    FlatMapConcat(Lines(a), Lines(b), line => KeptLine(line, o));
    FlatMapConcat(Kept(Lines(a), o), Kept(Lines(b), o), (k: (string, string)) => RenderOne(k.0, k.1, o.timestamps));
  }

  // ---------------------------------------------------------------------
  // Backlog against live rendering
  // ---------------------------------------------------------------------

  /** Everything shown: no since, tail or limit. */
  ghost predicate Unfiltered(o: Options) {
    o.tail.None? && o.limit.None? && forall ts :: !o.tooOld(ts)
  }

  lemma StoredIsOneLine(r: Record)
    requires WellFormed(r)
    ensures Lines(StoredLine(r)) == [StripCr(Head(r) + r.text)]
  {
    var raw, line := StoredLine(r), Head(r) + r.text;
    HeadHasNoNewline(r);
    assert raw == line + "\n";
    IndexIs(raw, '\n', |line|);
    assert raw[..|line|] == line && raw[|line| + 1..] == [];
  }

  lemma StripText(r: Record)
    requires WellFormed(r)
    ensures StripCr(Head(r) + r.text) == Head(r) + StripCr(r.text)
  {
    var line := Head(r) + r.text;
    if r.text == [] {
      assert line == Head(r) && line[|line| - 1] == ' ';
    } else {
      assert line[|line| - 1] == r.text[|r.text| - 1];
      assert line[..|line| - 1] == Head(r) + r.text[..|r.text| - 1];
    }
  }

  /** Rendering one stored line from the file strips a final carriage return. */
  lemma RenderStored(r: Record, o: Options)
    requires WellFormed(r) && Unfiltered(o)
    ensures RenderLog(StoredLine(r), o) == RenderOne(r.ts, StripCr(r.text), o.timestamps)
  {
    var raw, line := StoredLine(r), Head(r) + r.text;
    StoredIsOneLine(r);
    StripText(r);
    SplitRecord(r, StripCr(r.text));
    FlatMapOne(StripCr(line), (l: string) => KeptLine(l, o));
    FlatMapOne((r.ts, StripCr(r.text)), (k: (string, string)) => RenderOne(k.0, k.1, o.timestamps));
  }

  lemma HeadHasNoNewline(r: Record)
    requires WellFormed(r)
    ensures '\n' !in Head(r) && Ascii(Head(r))
  {
  }

  /** The texts of some records, in order. */
  function Texts(rs: seq<Record>): seq<string> {
    if rs == [] then [] else Texts(rs[..|rs| - 1]) + [rs[|rs| - 1].text]
  }

  /** Default rendering returns the texts, line by line. */
  lemma {:induction false} DefaultRenderingIsTexts(rs: seq<Record>, o: Options)
    requires AllWellFormed(rs) && Unfiltered(o) && !o.timestamps && NoneEndsInCr(rs)
    ensures RenderLog(File(rs), o) == Unsplit(Texts(rs))
  {
    if rs == [] {
      assert File(rs) == [] && Lines("") == [] && RenderLog("", o) == [];
    } else {
      var before, r := rs[..|rs| - 1], rs[|rs| - 1];
      assert rs == before + [r];
      assert RenderLog(File(before), o) == Unsplit(Texts(before)) by {
        DefaultRenderingIsTexts(before, o);
      }
      RenderOneMore(before, r, o);
      UnsplitAppend(Texts(before), r.text);
    }
  }

  /** One more stored line renders as one more text. */
  lemma RenderOneMore(rs: seq<Record>, r: Record, o: Options)
    requires WellFormed(r) && Unfiltered(o) && !o.timestamps && StripCr(r.text) == r.text
    ensures RenderLog(File(rs) + StoredLine(r), o) == RenderLog(File(rs), o) + r.text + "\n"
  {
    FileTerminated(rs);
    RenderConcat(File(rs), StoredLine(r), o);
    RenderStored(r, o);
    Associate(RenderLog(File(rs), o), r.text, "\n");
  }

  /** Rendering a line live keeps a final carriage return; a line that is not valid
      renders to nothing. */
  lemma LiveStored(r: Record, timestamps: bool)
    requires WellFormed(r)
    ensures RenderLiveLine(StoredLine(r), timestamps)
         == if ValidUtf8(r.text) then Some(RenderOne(r.ts, r.text, timestamps)) else None
  {
    StoredValid(r);
    var line := Head(r) + r.text;
    HeadHasNoNewline(r);
    assert StoredLine(r)[..|line|] == line;
    assert line[|line| - 1] != '\n';
    assert TrimNewlines(StoredLine(r)) == TrimNewlines(line) == line;
    SplitRecord(r, r.text);
  }

  /** A stored line is valid exactly when its text is. */
  lemma StoredValid(r: Record)
    requires WellFormed(r)
    ensures ValidUtf8(StoredLine(r)) <==> ValidUtf8(r.text)
  {
    HeadHasNoNewline(r);
    AsciiValid(Head(r));
    assert StoredLine(r) == Head(r) + (r.text + "\n");
    ValidConcat(Head(r), r.text + "\n");
    AsciiValid("\n");
    if ValidUtf8(r.text) {
      ValidConcat(r.text, "\n");
    } else if ValidUtf8(r.text + "\n") {
      ValidBeforeAscii(r.text, "\n");
    }
  }

  /** The file is valid exactly when every text is. */
  lemma {:induction false} FileValid(rs: seq<Record>)
    requires AllWellFormed(rs)
    ensures ValidUtf8(File(rs)) <==> forall r | r in rs :: ValidUtf8(r.text)
  {
    if rs != [] {
      var n := |rs| - 1;
      FileValid(rs[..n]);
      StoredValid(rs[n]);
      assert rs == rs[..n] + [rs[n]];
      if ValidUtf8(File(rs[..n])) {
        ValidConcat(File(rs[..n]), StoredLine(rs[n]));
      } else if ValidUtf8(File(rs)) {
        assert StoredLine(rs[n])[0] as int < 0x80;
        ValidBeforeAscii(File(rs[..n]), StoredLine(rs[n]));
      }
    }
  }

  lemma {:induction false} FileTerminated(rs: seq<Record>)
    ensures Terminated(File(rs))
  {
  }

  /** What a follower is shown for these lines. */
  function LiveText(rs: seq<Record>, timestamps: bool): string {
    FlatMap(rs, r => RenderLiveLine(StoredLine(r), timestamps).GetOr(""))
  }

  predicate AllValid(rs: seq<Record>) {
    forall r | r in rs :: ValidUtf8(r.text)
  }

  predicate NoneEndsInCr(rs: seq<Record>) {
    forall r | r in rs :: StripCr(r.text) == r.text
  }

  /** When every text is valid, the file renders to the live text exactly when no
      text ends in a carriage return, and is never longer. */
  lemma {:induction false} ValidFileAgainstLive(rs: seq<Record>, o: Options)
    requires AllWellFormed(rs) && Unfiltered(o) && AllValid(rs)
    ensures |RenderLog(File(rs), o)| <= |LiveText(rs, o.timestamps)|
    ensures RenderLog(File(rs), o) == LiveText(rs, o.timestamps) <==> NoneEndsInCr(rs)
    ensures |RenderLog(File(rs), o)| == |LiveText(rs, o.timestamps)| ==> NoneEndsInCr(rs)
  {
    if rs != [] {
      var n := |rs| - 1;
      var r, before := rs[n], rs[..n];
      assert rs == before + [r];
      ValidFileAgainstLive(before, o);
      FileTerminated(before);
      RenderConcat(File(before), StoredLine(r), o);
      RenderStored(r, o);
      LiveStored(r, o.timestamps);
      assert |StripCr(r.text)| <= |r.text| && (|StripCr(r.text)| == |r.text| ==> StripCr(r.text) == r.text);
    }
  }

  lemma {:induction false} LiveTextEmpty(rs: seq<Record>, timestamps: bool)
    requires AllWellFormed(rs)
    ensures LiveText(rs, timestamps) == [] <==> forall r | r in rs :: !ValidUtf8(r.text)
  {
    if rs != [] {
      var n := |rs| - 1;
      assert rs == rs[..n] + [rs[n]];
      LiveTextEmpty(rs[..n], timestamps);
      LiveStored(rs[n], timestamps);
    }
  }

  /** Reading the file back shows what followers were shown line by line, exactly
      when all texts are valid and none ends in a carriage return, or no text is
      valid: one invalid text empties the whole backlog. */
  lemma BacklogAgainstLive(rs: seq<Record>, o: Options)
    requires AllWellFormed(rs) && Unfiltered(o)
    ensures ReadAndRender(File(rs), o) == LiveText(rs, o.timestamps)
       <==> (AllValid(rs) && NoneEndsInCr(rs)) || (forall r | r in rs :: !ValidUtf8(r.text))
  {
    FileValid(rs);
    LiveTextEmpty(rs, o.timestamps);
    if AllValid(rs) {
      ValidFileAgainstLive(rs, o);
      if rs == [] {
        assert File(rs) == [];
      }
    } else {
      assert Lines("") == [] && RenderLog("", o) == [];
    }
  }
}
