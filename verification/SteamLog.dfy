/** The Steam source: tailing the content log and keeping the set of running games. */
module SteamLog {
  import opened Types
  import opened Text
  import opened Streams

  /** Bytes read in one pass at most. */
  const MAX_DRAIN_BYTES: nat := 4 * 1024 * 1024

  // ---- State-change lines -----------------------------------------------------------------

  const RUNNING_FLAG := "App Running"

  datatype Change = Change(appid: string, running: bool)

  function ParseStateChange(line: string): Option<Change> {
    match SplitOnce(line, "] AppID ")
    case None => None
    case Some((_, rest)) =>
      match SplitOnce(rest, " ")
      case None => None
      case Some((appid, rest)) =>
        if !AllDigits(appid) || appid == "" then None
        else
          match StripPrefix(rest, "state changed : ")
          case None => None
          case Some(flags) => Some(Change(appid, HasFlag(Split(TrimEndNewlines(flags), ','))))
  }

  predicate HasFlag(flags: seq<string>) {
    exists i :: 0 <= i < |flags| && Trim(flags[i]) == RUNNING_FLAG
  }

  /** Flags as Steam writes them: each followed by a comma. */
  function PrintFlags(flags: seq<string>): string {
    if flags == [] then "" else flags[0] + "," + PrintFlags(flags[1..])
  }

  function PrintStateChange(stamp: string, appid: string, flags: seq<string>): string {
    "[" + stamp + "] AppID " + appid + " state changed : " + PrintFlags(flags) + "\n"
  }

  predicate Piece(flag: string) {
    ',' !in flag && '\n' !in flag
  }

  predicate Printable(flag: string) {
    Piece(flag) && Trim(flag) == flag
  }

  lemma {:induction false} SplitPrinted(flags: seq<string>)
    requires forall i :: 0 <= i < |flags| ==> Piece(flags[i])
    ensures Split(PrintFlags(flags), ',') == flags + [""]
  {
    if flags == [] {
      assert flags + [""] == [""];
    } else {
      SplitPrinted(flags[1..]);
      assert flags[0] + "," + PrintFlags(flags[1..]) == flags[0] + [','] + PrintFlags(flags[1..]);
      SplitAtSeparator(flags[0], ',', PrintFlags(flags[1..]));
      assert flags + [""] == [flags[0]] + (flags[1..] + [""]);
    }
  }

  lemma {:induction false} PrintedFlagsEnd(flags: seq<string>)
    ensures PrintFlags(flags) == "" || PrintFlags(flags)[|PrintFlags(flags)| - 1] == ','
  {
    if flags != [] {
      PrintedFlagsEnd(flags[1..]);
    }
  }

  /** A line made of any pieces between commas parses to its appid, and to running exactly when
      some piece trims to the running flag. */
  lemma StateChangeOfPieces(stamp: string, appid: string, pieces: seq<string>)
    requires ']' !in stamp && appid != "" && AllDigits(appid)
    requires forall i :: 0 <= i < |pieces| ==> Piece(pieces[i])
    ensures ParseStateChange(PrintStateChange(stamp, appid, pieces)) == Some(Change(appid, HasFlag(pieces)))
  {
    var text := PrintFlags(pieces) + "\n";
    var line := PrintStateChange(stamp, appid, pieces);
    assert line == ("[" + stamp) + "] AppID " + (appid + " " + ("state changed : " + text));
    ParseLine(stamp, appid, text);
    FlagsRoundTrip(pieces);
  }

  /** Parsing a printed line gives back the appid and whether the game is running. */
  lemma StateChangeRoundTrip(stamp: string, appid: string, flags: seq<string>)
    requires ']' !in stamp && appid != "" && AllDigits(appid)
    requires forall i :: 0 <= i < |flags| ==> Printable(flags[i])
    ensures ParseStateChange(PrintStateChange(stamp, appid, flags))
            == Some(Change(appid, "App Running" in flags))
  {
    StateChangeOfPieces(stamp, appid, flags);
  }

  /** The running flag counts wherever it stands and whatever blanks surround it. */
  lemma PaddedFlagCounts(before: seq<string>, a: string, b: string, after: seq<string>)
    requires Blank(a) && Blank(b)
    ensures HasFlag(before + [a + "App Running" + b] + after)
  {
    FlagIsTrimmed();
    TrimPadded(a, RUNNING_FLAG, b);
    var flags := before + [a + "App Running" + b] + after;
    assert Trim(flags[|before|]) == RUNNING_FLAG;
  }

  lemma FlagIsTrimmed()
    ensures Trim(RUNNING_FLAG) == RUNNING_FLAG
  {
  }

  /** A line that parses has the form of a state change, of an appid made of digits. */
  lemma ParsedLineForm(line: string)
    requires ParseStateChange(line).Some?
    ensures var change := ParseStateChange(line).value;
            && change.appid != "" && (forall i :: 0 <= i < |change.appid| ==> '0' <= change.appid[i] <= '9')
            && exists before, text ::
                 && line == before + "] AppID " + (change.appid + " " + ("state changed : " + text))
                 && change.running == HasFlag(Split(TrimEndNewlines(text), ','))
  {
    SplitOnceIff(line, "] AppID ");
    var before, rest := SplitOnce(line, "] AppID ").value.0, SplitOnce(line, "] AppID ").value.1;
    SplitOnceIff(rest, " ");
    var appid, tail := SplitOnce(rest, " ").value.0, SplitOnce(rest, " ").value.1;
    var text := tail[|"state changed : "|..];
    assert tail == "state changed : " + text;
    assert rest == appid + " " + tail;
    assert line == before + "] AppID " + (appid + " " + ("state changed : " + text));
  }

  lemma ParseLine(stamp: string, appid: string, text: string)
    requires ']' !in stamp && appid != "" && AllDigits(appid)
    ensures ParseStateChange(("[" + stamp) + "] AppID " + (appid + " " + ("state changed : " + text)))
            == Some(Change(appid, HasFlag(Split(TrimEndNewlines(text), ','))))
  {
    var tail := "state changed : " + text;
    SplitOnceFirst("[" + stamp, "] AppID ", appid + " " + tail);
    assert ' ' !in appid;
    SplitOnceFirst(appid, " ", tail);
    assert tail[|"state changed : "|..] == text;
  }

  lemma FlagsRoundTrip(flags: seq<string>)
    requires forall i :: 0 <= i < |flags| ==> Piece(flags[i])
    ensures HasFlag(Split(TrimEndNewlines(PrintFlags(flags) + "\n"), ',')) <==> HasFlag(flags)
  {
    TrimPrinted(flags);
    SplitPrinted(flags);
    FlagAmong(flags);
  }

  lemma TrimPrinted(flags: seq<string>)
    ensures TrimEndNewlines(PrintFlags(flags) + "\n") == PrintFlags(flags)
  {
    var printed := PrintFlags(flags);
    PrintedFlagsEnd(flags);
    assert (printed + "\n")[..|printed|] == printed;
    assert TrimEndNewlines(printed + "\n") == TrimEndNewlines(printed) == printed;
  }

  lemma FlagAmong(flags: seq<string>)
    ensures HasFlag(flags + [""]) <==> HasFlag(flags)
  {
    if i :| 0 <= i < |flags| && Trim(flags[i]) == RUNNING_FLAG {
      assert Trim((flags + [""])[i]) == RUNNING_FLAG;
    }
  }

  // ---- The running set --------------------------------------------------------------------

  datatype Seen = Seen(running: set<string>, events: seq<GameEvent>)

  function SteamKey(appid: string): GameKey {
    GameKey(Steam, appid)
  }

  function AfterLine(s: Seen, line: string): Seen {
    match ParseStateChange(line)
    case None => s
    case Some(Change(appid, running)) =>
      if running && appid !in s.running then
        Seen(s.running + {appid}, s.events + [Started(SteamKey(appid))])
      else if !running && appid in s.running then
        Seen(s.running - {appid}, s.events + [Stopped(SteamKey(appid))])
      else s
  }

  function AfterLines(s: Seen, lines: seq<string>): Seen {
    if lines == [] then s else AfterLine(AfterLines(s, lines[..|lines| - 1]), lines[|lines| - 1])
  }

  lemma {:induction false} AfterLinesConcat(s: Seen, a: seq<string>, b: seq<string>)
    ensures AfterLines(s, a + b) == AfterLines(AfterLines(s, a), b)
  {
    if b == [] {
      assert a + b == a;
    } else {
      assert (a + b)[..|a + b| - 1] == a + b[..|b| - 1];
      AfterLinesConcat(s, a, b[..|b| - 1]);
    }
  }

  // ---- What a game's lines decide ---------------------------------------------------------

  predicate Names(line: string, appid: string) {
    ParseStateChange(line).Some? && ParseStateChange(line).value.appid == appid
  }

  /** Line `i` is the last of `lines` that names `appid`. */
  ghost predicate LastNaming(lines: seq<string>, appid: string, i: nat) {
    i < |lines| && Names(lines[i], appid) && forall j :: i < j < |lines| ==> !Names(lines[j], appid)
  }

  /** A game named by a line is running afterwards exactly when the last such line carries the
      running flag, any other exactly when it was before. */
  ghost predicate Decides(lines: seq<string>, appid: string, before: bool, after: bool) {
    && ((forall i :: 0 <= i < |lines| ==> !Names(lines[i], appid)) ==> after == before)
    && (forall i: nat :: LastNaming(lines, appid, i) ==> after == ParseStateChange(lines[i]).value.running)
  }

  /** What is running follows the lines, and events already sent stay sent. */
  ghost predicate Follows(s: Seen, lines: seq<string>, after: Seen) {
    s.events <= after.events
    && forall appid :: Decides(lines, appid, appid in s.running, appid in after.running)
  }

  lemma LineDecides(s: Seen, line: string, appid: string)
    ensures s.events <= AfterLine(s, line).events
    ensures appid in AfterLine(s, line).running
            <==> if Names(line, appid) then ParseStateChange(line).value.running else appid in s.running
  {
  }

  lemma OneMoreLine(lines: seq<string>, appid: string, before: bool, mid: bool, after: bool)
    requires lines != [] && Decides(lines[..|lines| - 1], appid, before, mid)
    requires var last := lines[|lines| - 1];
             after == if Names(last, appid) then ParseStateChange(last).value.running else mid
    ensures Decides(lines, appid, before, after)
  {
    var n := |lines| - 1;
    var init := lines[..n];
    assert forall i :: 0 <= i < n ==> init[i] == lines[i];
    forall i: nat | LastNaming(lines, appid, i)
      ensures after == ParseStateChange(lines[i]).value.running
    {
      if i < n {
        assert !Names(lines[n], appid);
        assert LastNaming(init, appid, i);
      }
    }
  }

  lemma {:induction false} LastLineDecides(s: Seen, lines: seq<string>)
    ensures Follows(s, lines, AfterLines(s, lines))
  {
    if lines != [] {
      var init, last := lines[..|lines| - 1], lines[|lines| - 1];
      LastLineDecides(s, init);
      LineDecides(AfterLines(s, init), last, "");
      forall appid
        ensures Decides(lines, appid, appid in s.running, appid in AfterLines(s, lines).running)
      {
        LineDecides(AfterLines(s, init), last, appid);
        OneMoreLine(lines, appid, appid in s.running, appid in AfterLines(s, init).running,
                    appid in AfterLines(s, lines).running);
      }
    }
  }

  /** Reading the complete lines of `bytes` once, from start to end. */
  function OnePass(s: Seen, bytes: seq<Byte>): Seen
    requires Decode(bytes).Some?
  {
    AfterLines(s, Lines(Decode(bytes).value))
  }

  lemma OnePassConcat(s: Seen, a: seq<Byte>, b: seq<Byte>)
    requires Decode(a).Some? && Decode(b).Some? && (a == [] || EndsLine(a))
    ensures Decode(a + b).Some? && OnePass(s, a + b) == OnePass(OnePass(s, a), b)
  {
    DecodeConcat(a, b);
    if a != [] {
      DecodedLineEnds(a);
    }
    LinesConcat(Decode(a).value, Decode(b).value);
    AfterLinesConcat(s, Lines(Decode(a).value), Lines(Decode(b).value));
  }

  // ---- Draining ---------------------------------------------------------------------------

  /** Bytes up to and including the last newline. */
  function TerminatedLength(s: seq<Byte>): (n: nat)
    ensures n <= |s|
    ensures n > 0 ==> s[n - 1] == NEWLINE
    ensures forall i :: n <= i < |s| ==> s[i] != NEWLINE
  {
    if s == [] then 0
    else if s[|s| - 1] == NEWLINE then |s|
    else TerminatedLength(s[..|s| - 1])
  }

  datatype Tail = Tail(cursor: nat, seen: Seen)

  /** Where reading starts: a log shorter than the cursor was truncated. */
  function Origin(log: seq<Byte>, cursor: nat): nat {
    if |log| < cursor then 0 else cursor
  }

  function Chunk(log: seq<Byte>, from: nat): seq<Byte>
    requires from <= |log|
  {
    var buf := log[from..Min(|log|, from + MAX_DRAIN_BYTES)];
    buf[..TerminatedLength(buf)]
  }

  function AfterDrain(t: Tail, log: seq<Byte>): Tail {
    var from := Origin(log, t.cursor);
    var chunk := Chunk(log, from);
    if chunk == [] || Decode(chunk).None? then t.(cursor := from)
    else Tail(from + |chunk|, OnePass(t.seen, chunk))
  }

  predicate OnLineBoundary(log: seq<Byte>, cursor: nat) {
    cursor <= |log| && (cursor > 0 ==> log[cursor - 1] == NEWLINE)
  }

  /** Everything that can happen to a log that only grows, and to its reader. */
  datatype Turn = Append(bytes: seq<Byte>) | Drain

  datatype Reader = Reader(log: seq<Byte>, tail: Tail)

  function AfterTurn(r: Reader, t: Turn): Reader {
    match t
    case Append(bytes) => r.(log := r.log + bytes)
    case Drain => r.(tail := AfterDrain(r.tail, r.log))
  }

  function AfterTurns(r: Reader, ts: seq<Turn>): Reader {
    if ts == [] then r else AfterTurn(AfterTurns(r, ts[..|ts| - 1]), ts[|ts| - 1])
  }

  /** `r` has read the complete lines from `r0`'s cursor to its own, as in one pass. */
  ghost predicate ReadOnce(r0: Reader, r: Reader) {
    && r0.log <= r.log && r0.tail.cursor <= r.tail.cursor
    && OnLineBoundary(r.log, r.tail.cursor)
    && Reads(r.log, r0.tail.cursor, r.tail.cursor, r0.tail.seen, r.tail.seen)
  }

  /** Reading the bytes from `from` to `to` in one pass takes `before` to `after`. */
  ghost predicate Reads(log: seq<Byte>, from: nat, to: nat, before: Seen, after: Seen)
    requires from <= to <= |log|
  {
    Decode(log[from..to]).Some? && after == OnePass(before, log[from..to])
  }

  lemma ChunkIsSlice(log: seq<Byte>, from: nat)
    requires from <= |log|
    ensures var chunk := Chunk(log, from);
            && from + |chunk| <= |log| && chunk == log[from..from + |chunk|]
            && (chunk != [] ==> EndsLine(chunk) && log[from + |chunk| - 1] == NEWLINE)
  {
  }

  /** One more chunk read from where the last one ended. */
  lemma ReadsExtend(log: seq<Byte>, c0: nat, c: nat, end: nat, s0: Seen, s: Seen, s': Seen)
    requires c0 <= c <= end <= |log| && (c > c0 ==> log[c - 1] == NEWLINE)
    requires Reads(log, c0, c, s0, s) && Reads(log, c, end, s, s')
    ensures Reads(log, c0, end, s0, s')
  {
    assert log[c0..end] == log[c0..c] + log[c..end];
    OnePassConcat(s0, log[c0..c], log[c..end]);
  }

  /** `t'` is `t`, or what `t` becomes by reading on to a later line end. */
  ghost predicate ReadsOn(t: Tail, log: seq<Byte>, t': Tail) {
    || t' == t
    || (&& t.cursor < t'.cursor && OnLineBoundary(log, t'.cursor)
        && Reads(log, t.cursor, t'.cursor, t.seen, t'.seen))
  }

  /** What one drain does to a cursor within the log. */
  lemma DrainEffect(t: Tail, log: seq<Byte>)
    requires t.cursor <= |log|
    ensures ReadsOn(t, log, AfterDrain(t, log))
  {
    ChunkIsSlice(log, t.cursor);
  }

  lemma DrainReadsOnce(r0: Reader, r: Reader, t': Tail)
    requires ReadOnce(r0, r) && ReadsOn(r.tail, r.log, t')
    ensures ReadOnce(r0, r.(tail := t'))
  {
    if t' != r.tail {
      ReadsExtend(r.log, r0.tail.cursor, r.tail.cursor, t'.cursor, r0.tail.seen, r.tail.seen, t'.seen);
    }
  }

  lemma AppendReadsOnce(r0: Reader, r: Reader, more: seq<Byte>)
    requires ReadOnce(r0, r)
    ensures ReadOnce(r0, r.(log := r.log + more))
  {
    assert (r.log + more)[r0.tail.cursor..r.tail.cursor] == r.log[r0.tail.cursor..r.tail.cursor];
  }

  lemma TurnReadsOnce(r0: Reader, r: Reader, t: Turn)
    requires ReadOnce(r0, r)
    ensures ReadOnce(r0, AfterTurn(r, t))
  {
    match t {
      case Append(more) => AppendReadsOnce(r0, r, more);
      case Drain =>
        DrainEffect(r.tail, r.log);
        DrainReadsOnce(r0, r, AfterDrain(r.tail, r.log));
    }
  }

  /** Incremental reading equals one-pass reading, for every schedule of appends and drains. */
  lemma {:induction false} IncrementalEqualsOnePass(r0: Reader, ts: seq<Turn>)
    requires OnLineBoundary(r0.log, r0.tail.cursor)
    ensures ReadOnce(r0, AfterTurns(r0, ts))
  {
    if ts == [] {
      assert r0.log[r0.tail.cursor..r0.tail.cursor] == [];
    } else {
      IncrementalEqualsOnePass(r0, ts[..|ts| - 1]);
      TurnReadsOnce(r0, AfterTurns(r0, ts[..|ts| - 1]), ts[|ts| - 1]);
    }
  }

  /** So, for every schedule of appends and drains, what is running follows the log: the last
      state-change line read for a game decides. */
  lemma ReadingFollowsLog(r0: Reader, ts: seq<Turn>)
    requires OnLineBoundary(r0.log, r0.tail.cursor)
    ensures ReadOnce(r0, AfterTurns(r0, ts))
    ensures var r := AfterTurns(r0, ts);
            Follows(r0.tail.seen, Lines(Decode(r.log[r0.tail.cursor..r.tail.cursor]).value), r.tail.seen)
  {
    IncrementalEqualsOnePass(r0, ts);
    var r := AfterTurns(r0, ts);
    LastLineDecides(r0.tail.seen, Lines(Decode(r.log[r0.tail.cursor..r.tail.cursor]).value));
  }

  /** A log shorter than the cursor was replaced: the next drain starts over, and from there on
      reading is one pass over the new log. */
  lemma ReplacedLogIsReadFromStart(r0: Reader, ts: seq<Turn>)
    requires |r0.log| < r0.tail.cursor
    ensures var over := r0.(tail := Tail(0, r0.tail.seen));
            && AfterTurns(r0, [Drain] + ts) == AfterTurns(over, [Drain] + ts)
            && ReadOnce(over, AfterTurns(r0, [Drain] + ts))
  {
    var over := r0.(tail := Tail(0, r0.tail.seen));
    assert AfterTurns(r0, [Drain]) == AfterTurns(over, [Drain]) by {
      assert [Drain][..0] == [];
      assert AfterDrain(r0.tail, r0.log) == AfterDrain(over.tail, over.log);
    }
    TurnsConcat(r0, [Drain], ts);
    TurnsConcat(over, [Drain], ts);
    IncrementalEqualsOnePass(over, [Drain] + ts);
  }

  lemma {:induction false} TurnsConcat(r: Reader, a: seq<Turn>, b: seq<Turn>)
    ensures AfterTurns(r, a + b) == AfterTurns(AfterTurns(r, a), b)
  {
    if b == [] {
      assert a + b == a;
    } else {
      assert (a + b)[..|a + b| - 1] == a + b[..|b| - 1];
      TurnsConcat(r, a, b[..|b| - 1]);
    }
  }

  /** A drain advances exactly when some newline lies within the read limit and the bytes up
      to the last such newline are valid UTF-8. */
  lemma DrainAdvancesIff(t: Tail, log: seq<Byte>)
    requires t.cursor <= |log|
    ensures AfterDrain(t, log).cursor > t.cursor <==>
            && (exists i :: t.cursor <= i < Min(|log|, t.cursor + MAX_DRAIN_BYTES) && log[i] == NEWLINE)
            && Decode(Chunk(log, t.cursor)).Some?
  {
    var buf := log[t.cursor..Min(|log|, t.cursor + MAX_DRAIN_BYTES)];
    if i :| t.cursor <= i < Min(|log|, t.cursor + MAX_DRAIN_BYTES) && log[i] == NEWLINE {
      assert buf[i - t.cursor] == NEWLINE;
    }
    var n := TerminatedLength(buf);
    if n > 0 {
      assert log[t.cursor + n - 1] == NEWLINE;
    }
  }

  /** No stretch of the log from `from` on is longer than one read without a newline. */
  ghost predicate LinesFit(log: seq<Byte>, from: nat, end: nat)
    requires end <= |log|
  {
    forall c :: from <= c < end ==> NewlineWithinRead(log, c, end)
  }

  ghost predicate NewlineWithinRead(log: seq<Byte>, c: nat, end: nat)
    requires end <= |log|
  {
    exists i :: c <= i < Min(end, c + MAX_DRAIN_BYTES) && log[i] == NEWLINE
  }

  function Drains(t: Tail, log: seq<Byte>, n: nat): Tail
    decreases n
  {
    if n == 0 then t else Drains(AfterDrain(t, log), log, n - 1)
  }

  lemma TerminatedBeforeLast(log: seq<Byte>, end: nat)
    requires end == TerminatedLength(log)
    ensures forall i :: 0 <= i < |log| && log[i] == NEWLINE ==> i < end
  {
  }

  lemma ChunkNotEmpty(log: seq<Byte>, c: nat, end: nat)
    requires c < end == TerminatedLength(log) && NewlineWithinRead(log, c, end)
    ensures 0 < |Chunk(log, c)| <= end - c
  {
    var i :| c <= i < Min(end, c + MAX_DRAIN_BYTES) && log[i] == NEWLINE;
    assert log[c..Min(|log|, c + MAX_DRAIN_BYTES)][i - c] == NEWLINE;
    ChunkIsSlice(log, c);
    TerminatedBeforeLast(log, end);
  }

  lemma SplitDecodes(log: seq<Byte>, c: nat, mid: nat, end: nat)
    requires c < mid <= end <= |log| && log[mid - 1] == NEWLINE && Decode(log[c..end]).Some?
    ensures Decode(log[c..mid]).Some? && Decode(log[mid..end]).Some?
  {
    assert log[c..end] == log[c..mid] + log[mid..end];
    DecodePrefixAtNewline(log[c..mid], log[mid..end]);
    DecodeConcat(log[c..mid], log[mid..end]);
  }

  lemma DrainTo(t: Tail, log: seq<Byte>, mid: nat)
    requires t.cursor < mid == t.cursor + |Chunk(log, Origin(log, t.cursor))| && t.cursor <= |log|
    requires Decode(Chunk(log, t.cursor)).Some?
    ensures AfterDrain(t, log).cursor == mid
  {
  }

  lemma DrainProgress(t: Tail, log: seq<Byte>, end: nat)
    requires t.cursor < end == TerminatedLength(log)
    requires Decode(log[t.cursor..end]).Some? && LinesFit(log, t.cursor, end)
    ensures var next := AfterDrain(t, log).cursor;
            t.cursor < next <= end && OnLineBoundary(log, next) && Decode(log[next..end]).Some?
  {
    var mid := t.cursor + |Chunk(log, t.cursor)|;
    assert NewlineWithinRead(log, t.cursor, end);
    ChunkNotEmpty(log, t.cursor, end);
    ChunkIsSlice(log, t.cursor);
    SplitDecodes(log, t.cursor, mid, end);
    DrainTo(t, log, mid);
  }

  /** On a log that has stopped growing, whose complete lines are valid UTF-8 and each shorter
      than the read limit, repeated drains reach the end of the last complete line. */
  lemma {:induction false} DrainsCatchUp(t: Tail, log: seq<Byte>, end: nat)
    requires t.cursor <= end == TerminatedLength(log)
    requires OnLineBoundary(log, t.cursor)
    requires Decode(log[t.cursor..end]).Some? && LinesFit(log, t.cursor, end)
    ensures exists n: nat :: Drains(t, log, n).cursor == end
    decreases end - t.cursor
  {
    if t.cursor == end {
      assert Drains(t, log, 0).cursor == end;
    } else {
      DrainProgress(t, log, end);
      var next := AfterDrain(t, log);
      DrainsCatchUp(next, log, end);
      var n: nat :| Drains(next, log, n).cursor == end;
      assert Drains(t, log, n + 1).cursor == end;
    }
  }

  // ---- Alternation ------------------------------------------------------------------------

  function SteamKeys(appids: set<string>): set<GameKey> {
    set a | a in appids :: SteamKey(a)
  }

  /** Events so far alternate, concern Steam keys only, and leave exactly `running` running. */
  ghost predicate Faithful(s: Seen) {
    && Alternates({}, s.events)
    && RunningAfter({}, s.events) == SteamKeys(s.running)
    && forall i :: 0 <= i < |s.events| ==> FromSteam(s.events[i])
  }

  lemma EventKeepsFaithful(s: Seen, e: GameEvent, running: set<string>)
    requires Faithful(s) && FromSteam(e)
    requires if e.Started? then e.key.id !in s.running && running == s.running + {e.key.id}
             else e.key.id in s.running && running == s.running - {e.key.id}
    ensures Faithful(Seen(running, s.events + [e]))
  {
    assert (s.events + [e])[..|s.events|] == s.events;
    assert e.key == SteamKey(e.key.id);
    assert e.key in SteamKeys(s.running) <==> e.key.id in s.running;
    forall k | k in SteamKeys(running)
      ensures k in RunningAfter({}, s.events + [e])
    {
      assert k.id in running;
    }
  }

  lemma {:induction false} LinesKeepFaithful(s: Seen, lines: seq<string>)
    requires Faithful(s)
    ensures Faithful(AfterLines(s, lines))
  {
    if lines != [] {
      var before := AfterLines(s, lines[..|lines| - 1]);
      LinesKeepFaithful(s, lines[..|lines| - 1]);
      var after := AfterLine(before, lines[|lines| - 1]);
      if after != before {
        EventKeepsFaithful(before, after.events[|after.events| - 1], after.running);
      }
    }
  }

  /** Whatever happens to the file between drains, also truncation. */
  lemma DrainKeepsFaithful(t: Tail, log: seq<Byte>)
    requires Faithful(t.seen)
    ensures Faithful(AfterDrain(t, log).seen)
  {
    var chunk := Chunk(log, Origin(log, t.cursor));
    if chunk != [] && Decode(chunk).Some? {
      LinesKeepFaithful(t.seen, Lines(Decode(chunk).value));
    }
  }

  // ---- Cold start -------------------------------------------------------------------------

  /** A readable app manifest: the appid in its file name and its App Running bit. */
  datatype Manifest = Manifest(appid: string, flagged: bool)

  /** A live process is authoritative; the manifest bit counts only when no scan was possible. */
  predicate IsRunning(m: Manifest, live: Option<set<string>>) {
    match live
    case Some(appids) => m.appid in appids
    case None => m.flagged
  }

  function AfterManifest(s: Seen, m: Manifest, live: Option<set<string>>): Seen {
    if m.appid != "" && AllDigits(m.appid) && IsRunning(m, live) && m.appid !in s.running
    then Seen(s.running + {m.appid}, s.events + [Started(SteamKey(m.appid))])
    else s
  }

  function AfterScan(ms: seq<Manifest>, live: Option<set<string>>): Seen {
    if ms == [] then Seen({}, [])
    else AfterManifest(AfterScan(ms[..|ms| - 1], live), ms[|ms| - 1], live)
  }

  /** Some manifest of `ms` is for `a`, and `a` has a live process, or, when there was no process
      scan, the manifest carries the flag. */
  ghost predicate InstalledAndRunning(ms: seq<Manifest>, live: Option<set<string>>, a: string) {
    && a != "" && AllDigits(a)
    && exists i :: 0 <= i < |ms| && ms[i].appid == a && (if live.Some? then a in live.value else ms[i].flagged)
  }

  /** The scan starts each running installed game once, in however many libraries it appears. */
  lemma {:induction false} ScanStartsEachRunningGameOnce(ms: seq<Manifest>, live: Option<set<string>>)
    ensures Faithful(AfterScan(ms, live))
    ensures forall a :: a in AfterScan(ms, live).running <==> InstalledAndRunning(ms, live, a)
  {
    if ms != [] {
      var init, m := ms[..|ms| - 1], ms[|ms| - 1];
      ScanStartsEachRunningGameOnce(init, live);
      var before, after := AfterScan(init, live), AfterScan(ms, live);
      if after != before {
        EventKeepsFaithful(before, Started(SteamKey(m.appid)), after.running);
      }
      forall a
        ensures a in after.running <==> InstalledAndRunning(ms, live, a)
      {
        OneMoreManifest(ms, live, a);
      }
    } else {
      assert SteamKeys({}) == {};
    }
  }

  lemma OneMoreManifest(ms: seq<Manifest>, live: Option<set<string>>, a: string)
    requires ms != []
    ensures var m := ms[|ms| - 1];
            InstalledAndRunning(ms, live, a)
            <==> InstalledAndRunning(ms[..|ms| - 1], live, a)
                 || (a == m.appid != "" && AllDigits(a) && if live.Some? then a in live.value else m.flagged)
  {
    var init := ms[..|ms| - 1];
    if i :| 0 <= i < |init| && init[i].appid == a && (if live.Some? then a in live.value else init[i].flagged) {
      assert ms[i] == init[i];
    }
    if i :| 0 <= i < |init| && ms[i].appid == a && (if live.Some? then a in live.value else ms[i].flagged) {
      assert init[i] == ms[i];
    }
  }

  // ---- The source object ------------------------------------------------------------------

  class SteamSource {
    var cursor: nat
    var running: set<string>
    var sent: seq<GameEvent>

    ghost function View(): Tail
      reads this
    {
      Tail(cursor, Seen(running, sent))
    }

    constructor ()
      ensures View() == Tail(0, Seen({}, [])) && fresh(this)
    {
      cursor, running, sent := 0, {}, [];
    }

    method ColdStartScan(manifests: seq<Manifest>, live: Option<set<string>>)
      requires running == {} && sent == []
      modifies this
      ensures View() == Tail(old(cursor), AfterScan(manifests, live))
    {
      for i := 0 to |manifests|
        invariant View() == Tail(old(cursor), AfterScan(manifests[..i], live))
      {
        assert manifests[..i + 1][..i] == manifests[..i];
        var m := manifests[i];
        if m.appid == "" || !AllDigits(m.appid) {
          continue;
        }
        if IsRunning(m, live) {
          if m.appid in running {
            continue;
          }
          running := running + {m.appid};
          sent := sent + [Started(SteamKey(m.appid))];
        }
      }
      assert manifests[..|manifests|] == manifests;
    }

    /** `drain_or_keep`: when the log cannot be opened or read the cursor stays. */
    method DrainOrKeep(log: Option<seq<Byte>>)
      modifies this
      ensures View() == if log.Some? then AfterDrain(old(View()), log.value) else old(View())
    {
      if log.Some? {
        DrainLines(log.value);
      }
    }

    method DrainLines(log: seq<Byte>)
      modifies this
      ensures View() == AfterDrain(old(View()), log)
    {
      if |log| < cursor {
        cursor := 0;
      }
      if |log| == cursor {
        assert Chunk(log, cursor) == [];
        return;
      }
      var buf := log[cursor..Min(|log|, cursor + MAX_DRAIN_BYTES)];
      var consumed := TerminatedLength(buf);
      if consumed == 0 {
        return;
      }
      var decoded := Decode(buf[..consumed]);
      if decoded.None? {
        return;
      }
      var lines := Lines(decoded.value);
      for i := 0 to |lines|
        invariant cursor == Origin(log, old(cursor))
        invariant Seen(running, sent) == AfterLines(old(View()).seen, lines[..i])
      {
        assert lines[..i + 1][..i] == lines[..i];
        var change := ParseStateChange(lines[i]);
        if change.Some? {
          var appid, isRunning, wasRunning := change.value.appid, change.value.running, change.value.appid in running;
          if isRunning && !wasRunning {
            running := running + {appid};
            sent := sent + [Started(SteamKey(appid))];
          } else if !isRunning && wasRunning {
            running := running - {appid};
            sent := sent + [Stopped(SteamKey(appid))];
          }
        }
      }
      assert lines[..|lines|] == lines;
      cursor := cursor + consumed;
    }
  }
}
