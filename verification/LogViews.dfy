/** What a reader of a log is shown, said of the records themselves: which of them,
    in what form, and how much of it. */
module LogViews {
  import opened Sequences
  import opened Wrappers
  import opened LogText

  /** The records that `--since` lets through, in order. */
  function Recent(rs: seq<Record>, tooOld: string -> bool): seq<Record> {
    if rs == [] then []
    else Recent(rs[..|rs| - 1], tooOld) + if tooOld(rs[|rs| - 1].ts) then [] else [rs[|rs| - 1]]
  }

  /** The last `n` of them. */
  function Last<T>(s: seq<T>, n: int): seq<T> {
    if n <= 0 then [] else if n >= |s| then s else s[|s| - n..]
  }

  /** The records that are shown. */
  function Chosen(rs: seq<Record>, o: Options): seq<Record> {
    if o.tail.Some? then Last(Recent(rs, o.tooOld), o.tail.value) else Recent(rs, o.tooOld)
  }

  /** Line by line: the timestamp and a space if wanted, and the text without a final
      carriage return. */
  function Shown(rs: seq<Record>, timestamps: bool): string {
    if rs == [] then ""
    else
      var r := rs[|rs| - 1];
      Shown(rs[..|rs| - 1], timestamps) +
      (if timestamps then r.ts + " " + StripCr(r.text) + "\n" else StripCr(r.text) + "\n")
  }

  /** One carriage return goes, if there is one. */
  lemma StripCrIs(text: string)
    ensures StripCr(text + "\r") == text
    ensures text == [] || text[|text| - 1] != '\r' ==> StripCr(text) == text
  {
  }

  /** A line that was not stored by the runtime shows nothing, or all of it after its
      second space. */
  lemma ForeignLine(a: string, b: string, c: string)
    requires ' ' !in a && ' ' !in b
    ensures SplitStoredLine(a) == None
    ensures SplitStoredLine(a + " " + b) == Some((a, ""))
    ensures SplitStoredLine(a + " " + b + " " + c) == Some((a, c))
  {
    IndexIs(a, ' ', |a|);
    IndexIs(b, ' ', |b|);
    SplitAt(a, b, ' ');
    SplitAt(a, b + " " + c, ' ');
    assert a + " " + b + " " + c == a + " " + (b + " " + c);
    SplitAt(b, c, ' ');
  }

  // ---------------------------------------------------------------------
  // Which records, in what form
  // ---------------------------------------------------------------------

  /** What rendering keeps of some records. */
  function Pairs(rs: seq<Record>): seq<(string, string)> {
    seq(|rs|, i requires 0 <= i < |rs| => (rs[i].ts, StripCr(rs[i].text)))
  }

  lemma KeptOfStored(r: Record, o: Options)
    requires WellFormed(r)
    ensures Kept(Lines(StoredLine(r)), o) == if o.tooOld(r.ts) then [] else [(r.ts, StripCr(r.text))]
  {
    StoredIsOneLine(r);
    StripText(r);
    SplitRecord(r, StripCr(r.text));
    FlatMapOne(Head(r) + StripCr(r.text), (l: string) => KeptLine(l, o));
  }

  lemma KeptOneMore(file: string, r: Record, o: Options)
    requires Terminated(file) && WellFormed(r)
    ensures Kept(Lines(file + StoredLine(r)), o)
         == Kept(Lines(file), o) + if o.tooOld(r.ts) then [] else [(r.ts, StripCr(r.text))]
  {
    LinesConcat(file, StoredLine(r));
    FlatMapConcat(Lines(file), Lines(StoredLine(r)), line => KeptLine(line, o));
    KeptOfStored(r, o);
  }

  lemma {:induction false} KeptIsRecent(rs: seq<Record>, o: Options)
    requires AllWellFormed(rs)
    ensures Kept(Lines(File(rs)), o) == Pairs(Recent(rs, o.tooOld))
  {
    if rs == [] {
      assert File(rs) == [] && Lines("") == [];
    } else {
      var n := |rs| - 1;
      assert rs == rs[..n] + [rs[n]];
      KeptIsRecent(rs[..n], o);
      FileTerminated(rs[..n]);
      KeptOneMore(File(rs[..n]), rs[n], o);
    }
  }

  lemma TailIsLast(rs: seq<Record>, n: int)
    ensures TailOf(Pairs(rs), Some(n)) == Pairs(Last(rs, n))
  {
  }

  lemma {:induction false} RenderedIsShown(rs: seq<Record>, timestamps: bool)
    ensures RenderAll(Pairs(rs), timestamps) == Shown(rs, timestamps)
  {
    if rs != [] {
      var n := |rs| - 1;
      var r := rs[n];
      RenderedIsShown(rs[..n], timestamps);
      assert Pairs(rs) == Pairs(rs[..n]) + [(r.ts, StripCr(r.text))];
      assert Pairs(rs)[..n] == Pairs(rs[..n]);
    }
  }

  /** Rendering the file shows the chosen records, cut to the limit. */
  lemma RenderShows(rs: seq<Record>, o: Options)
    requires AllWellFormed(rs)
    ensures RenderLog(File(rs), o) == LimitTo(Shown(Chosen(rs, o), o.timestamps), o.limit)
  {
    KeptIsRecent(rs, o);
    if o.tail.Some? {
      TailIsLast(Recent(rs, o.tooOld), o.tail.value);
    }
    RenderedIsShown(Chosen(rs, o), o.timestamps);
  }

  lemma {:induction false} AllRecent(rs: seq<Record>, tooOld: string -> bool)
    requires forall r | r in rs :: !tooOld(r.ts)
    ensures Recent(rs, tooOld) == rs
  {
    if rs != [] {
      AllRecent(rs[..|rs| - 1], tooOld);
    }
  }

  /** A tail shows what a log of the last records alone shows. */
  lemma TailShowsTheLast(rs: seq<Record>, o: Options, n: nat)
    requires AllWellFormed(rs) && o.tail == Some(n) && n <= |rs| && forall r | r in rs :: !o.tooOld(r.ts)
    ensures RenderLog(File(rs), o) == RenderLog(File(rs[|rs| - n..]), o.(tail := None))
  {
    var last := rs[|rs| - n..];
    RenderShows(rs, o);
    AllRecent(rs, o.tooOld);
    RenderShows(last, o.(tail := None));
    AllRecent(last, o.tooOld);
    assert Chosen(rs, o) == last == Chosen(last, o.(tail := None));
  }

  /** A tail longer than the log shows all of it, and an empty or negative one
      nothing. */
  lemma TailBounds(rs: seq<Record>, o: Options)
    requires AllWellFormed(rs) && o.tail.Some?
    ensures o.tail.value >= |rs| ==> RenderLog(File(rs), o) == RenderLog(File(rs), o.(tail := None))
    ensures o.tail.value <= 0 ==> RenderLog(File(rs), o) == ""
  {
    RenderShows(rs, o);
    RenderShows(rs, o.(tail := None));
    RecentIsShorter(rs, o.tooOld);
  }

  lemma {:induction false} RecentIsShorter(rs: seq<Record>, tooOld: string -> bool)
    ensures |Recent(rs, tooOld)| <= |rs|
  {
    if rs != [] {
      RecentIsShorter(rs[..|rs| - 1], tooOld);
    }
  }

  // ---------------------------------------------------------------------
  // How much
  // ---------------------------------------------------------------------

  /** `out` is a beginning of `s`, valid, no longer than `n`, and the longest such. */
  ghost predicate LongestValid(out: string, s: string, n: int) {
    out <= s && ValidUtf8(out) && (n >= 0 ==> |out| <= n) && (n < 0 ==> out == "") &&
    forall t: string | t <= s && ValidUtf8(t) && |t| <= n :: |t| <= |out|
  }

  /** A boundary past the front leaves the first character whole. */
  lemma FirstBeforeBoundary(s: string, c: nat)
    requires CharLength(s) > 0 && 0 < c <= |s| && Boundary(s, c)
    ensures CharLength(s) <= c
  {
    assert forall k | 0 < k < CharLength(s) :: Tail(s[k]);
  }

  lemma FirstIsValid(s: string)
    requires CharLength(s) > 0
    ensures ValidUtf8(s[..CharLength(s)])
  {
    var n := CharLength(s);
    assert s[..n] + s[n..] == s;
    CharLengthOfPrefix(s[..n], s[n..]);
    assert s[..n][n..] == [];
  }

  /** The first character and a valid beginning of the rest. */
  lemma FirstThenValid(s: string, j: nat)
    requires CharLength(s) > 0 && CharLength(s) + j <= |s| && ValidUtf8(s[CharLength(s)..][..j])
    ensures ValidUtf8(s[..CharLength(s) + j])
  {
    var n := CharLength(s);
    FirstIsValid(s);
    ValidConcat(s[..n], s[n..][..j]);
    assert s[..n + j] == s[..n] + s[n..][..j];
  }

  lemma {:induction false} ValidUpToBoundary(s: string, c: nat)
    requires ValidUtf8(s) && c <= |s| && Boundary(s, c)
    ensures ValidUtf8(s[..c])
  {
    if c != 0 {
      var n := CharLength(s);
      FirstBeforeBoundary(s, c);
      ValidUpToBoundary(s[n..], c - n);
      FirstThenValid(s, c - n);
    }
  }

  /** Where a valid beginning of valid text ends, a character begins. */
  lemma ValidEndsAtBoundary(s: string, c: nat)
    requires ValidUtf8(s) && c <= |s| && ValidUtf8(s[..c])
    ensures Boundary(s, c)
  {
    assert s[..c] + s[c..] == s;
    ValidConcat(s[..c], s[c..]);
  }

  /** The limit shows as much as it allows of whole characters. */
  lemma LimitIsLongestValid(s: string, n: int)
    requires ValidUtf8(s)
    ensures LongestValid(LimitTo(s, Some(n)), s, n)
  {
    var out := LimitTo(s, Some(n));
    ValidUpToBoundary(s, |out|);
    forall t: string | t <= s && ValidUtf8(t) && |t| <= n
      ensures |t| <= |out|
    {
      assert t == s[..|t|];
      ValidEndsAtBoundary(s, |t|);
    }
  }

  /** At most three bytes fewer than allowed. */
  lemma {:induction false} LimitIsNear(s: string, c: nat) returns (k: nat)
    requires ValidUtf8(s) && c <= |s|
    ensures k <= c <= k + 3 && ValidUtf8(s[..k])
  {
    if c == 0 {
      return 0;
    }
    var n := CharLength(s);
    if c < n {
      return 0;
    }
    var j := LimitIsNear(s[n..], c - n);
    k := n + j;
    FirstThenValid(s, j);
  }

  lemma {:induction false} ShownIsValid(rs: seq<Record>, timestamps: bool)
    requires AllWellFormed(rs) && AllValid(rs)
    ensures ValidUtf8(Shown(rs, timestamps))
  {
    if rs != [] {
      var n := |rs| - 1;
      var r := rs[n];
      ShownIsValid(rs[..n], timestamps);
      LineIsValid(r);
      ValidConcat(Shown(rs[..n], timestamps),
                  if timestamps then r.ts + " " + StripCr(r.text) + "\n" else StripCr(r.text) + "\n");
    }
  }

  lemma StrippedIsValid(text: string)
    requires ValidUtf8(text)
    ensures ValidUtf8(StripCr(text))
  {
    if StripCr(text) != text {
      assert text == StripCr(text) + "\r";
      ValidBeforeAscii(StripCr(text), "\r");
    }
  }

  lemma LineIsValid(r: Record)
    requires WellFormed(r) && ValidUtf8(r.text)
    ensures ValidUtf8(StripCr(r.text) + "\n") && ValidUtf8(r.ts + " " + StripCr(r.text) + "\n")
  {
    var text, head := StripCr(r.text), r.ts + " ";
    StrippedIsValid(r.text);
    AsciiValid("\n");
    ValidConcat(text, "\n");
    AsciiValid(head);
    Associate(head, text, "\n");
    ValidConcat(head, text + "\n");
  }

  lemma {:induction false} RecentIsPart(rs: seq<Record>, tooOld: string -> bool)
    ensures forall r :: r in Recent(rs, tooOld) <==> r in rs && !tooOld(r.ts)
  {
    if rs != [] {
      RecentIsPart(rs[..|rs| - 1], tooOld);
      assert rs == rs[..|rs| - 1] + [rs[|rs| - 1]];
    }
  }

  lemma LimitShows(full: string, n: int)
    requires ValidUtf8(full)
    ensures
      var out := LimitTo(full, Some(n));
      LongestValid(out, full, n) && (|out| + 3 >= |full| || |out| + 3 >= n)
  {
    LimitIsLongestValid(full, n);
    var k := LimitIsNear(full, if n < 0 then 0 else if n < |full| then n else |full|);
    assert full[..k] <= full;
  }

  /** Reading a log of valid texts: with a limit it is the longest valid beginning of
      the chosen records' lines that the limit allows, at most three bytes short of
      it; without one it is all of them. */
  lemma ReadShows(rs: seq<Record>, o: Options)
    requires AllWellFormed(rs) && AllValid(rs)
    ensures
      var full, out := Shown(Chosen(rs, o), o.timestamps), ReadAndRender(File(rs), o);
      (o.limit.None? ==> out == full) &&
      (o.limit.Some? ==> LongestValid(out, full, o.limit.value) &&
                         (|out| + 3 >= |full| || |out| + 3 >= o.limit.value))
  {
    FileValid(rs);
    RenderShows(rs, o);
    RecentIsPart(rs, o.tooOld);
    ShownIsValid(Chosen(rs, o), o.timestamps);
    if o.limit.Some? {
      LimitShows(Shown(Chosen(rs, o), o.timestamps), o.limit.value);
    }
  }
}
