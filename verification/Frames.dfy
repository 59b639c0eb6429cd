/** The frame readers: server-sent events cut at blank lines (section 9.2.5 of the WHATWG
    HTML Standard) and newline-terminated messages, each bounded and validated before its
    first byte is handed out, for any buffer sizes. */
module Frames {
  import opened Outcomes
  import opened Snapshots

  const CR: byte := 13
  const LF: byte := 10
  const READ_BUFFER: nat := 4096

  datatype ReadError = EndOfFile | SourceFailure | LimitExceeded | InvalidMessage

  function EndError(source: Source): ReadError { if source.fails then SourceFailure else EndOfFile }

  predicate EndsLine(b: byte) { b == CR || b == LF }

  // ---------- where events end ----------

  /** The length of the first line with its terminator: CR LF, CR or LF. */
  function LineEnd(s: Bytes): (n: Option<nat>)
    ensures n.Some? ==> 0 < n.value <= |s|
  {
    if s == [] then None
    else if s[0] == LF then Some(1)
    else if s[0] == CR then Some(if |s| > 1 && s[1] == LF then 2 else 1)
    else match LineEnd(s[1..]) case None => None case Some(n) => Some(n + 1)
  }

  /** The length of the first event: up to and with the first blank line. */
  function EventEnd(s: Bytes): (n: Option<nat>)
    ensures n.Some? ==> 0 < n.value <= |s|
    decreases |s|
  {
    match LineEnd(s)
    case None => None
    case Some(n) =>
      if EndsLine(s[0]) then Some(n)
      else match EventEnd(s[n..]) case None => None case Some(m) => Some(n + m)
  }

  /** Where the event ends when reading resumes in front of `s`, at a line start or not. */
  function Resume(s: Bytes, atLineStart: bool): Option<nat> {
    if atLineStart then EventEnd(s)
    else match LineEnd(s)
         case None => None
         case Some(n) => match EventEnd(s[n..]) case None => None case Some(m) => Some(n + m)
  }

  function Shift(k: nat, n: Option<nat>): Option<nat> {
    match n case None => None case Some(m) => Some(k + m)
  }

  lemma ResumeText(s: Bytes, atLineStart: bool)
    requires s != [] && !EndsLine(s[0])
    ensures Resume(s, atLineStart) == Shift(1, Resume(s[1..], false))
  {
    if LineEnd(s[1..]).Some? { assert s[1..][LineEnd(s[1..]).value..] == s[LineEnd(s).value..]; }
  }

  lemma ResumeLine(s: Bytes)
    requires s != [] && EndsLine(s[0])
    ensures LineEnd(s).Some? && Resume(s, true) == LineEnd(s)
    ensures Resume(s, false) == Shift(LineEnd(s).value, Resume(s[LineEnd(s).value..], true))
  {
  }

  // ---------- the same, as a grammar ----------

  datatype Eol = EolCrLf | EolCr | EolLf
  datatype Line = Line(text: Bytes, eol: Eol)

  function EolBytes(eol: Eol): Bytes {
    match eol case EolCrLf => [CR, LF] case EolCr => [CR] case EolLf => [LF]
  }

  predicate IsText(text: Bytes) {
    forall i :: 0 <= i < |text| ==> !EndsLine(text[i])
  }

  function Spell(lines: seq<Line>): Bytes {
    if lines == [] then [] else lines[0].text + EolBytes(lines[0].eol) + Spell(lines[1..])
  }

  /** A line in front of `after`; a lone CR is a terminator only if no LF follows. */
  predicate IsLine(line: Line, after: Bytes) {
    IsText(line.text) && (line.eol == EolCr ==> !StartsWithLf(after))
  }

  /** Non-blank lines and then one blank line, in front of `rest`. */
  predicate IsEvent(lines: seq<Line>, rest: Bytes) {
    && lines != [] && IsLine(lines[0], Spell(lines[1..]) + rest)
    && (if |lines| == 1 then lines[0].text == [] else lines[0].text != [] && IsEvent(lines[1..], rest))
  }

  predicate StartsWithLf(s: Bytes) { s != [] && s[0] == LF }

  lemma {:induction false} LineEndSpelled(line: Line, rest: Bytes)
    requires IsLine(line, rest)
    ensures LineEnd(line.text + EolBytes(line.eol) + rest) == Some(|line.text| + |EolBytes(line.eol)|)
    decreases |line.text|
  {
    var s := line.text + EolBytes(line.eol) + rest;
    if line.text == [] {
      assert s == EolBytes(line.eol) + rest;
      assert line.eol == EolCr && rest != [] ==> s[1] == rest[0];
    } else {
      assert s[1..] == line.text[1..] + EolBytes(line.eol) + rest;
      LineEndSpelled(Line(line.text[1..], line.eol), rest);
    }
  }

  /** The bytes of an event are cut exactly behind its blank line. */
  lemma {:induction false} SpelledEventEnds(lines: seq<Line>, rest: Bytes)
    requires IsEvent(lines, rest)
    ensures EventEnd(Spell(lines) + rest) == Some(|Spell(lines)|)
    decreases |lines|
  {
    hide LineEnd, IsText;
    var s, tail, first := Spell(lines) + rest, Spell(lines[1..]) + rest, lines[0];
    assert s == first.text + EolBytes(first.eol) + tail;
    LineEndSpelled(first, tail);
    if |lines| == 1 {
      assert lines[1..] == [] && s[0] == EolBytes(first.eol)[0];
    } else {
      assert s[0] == first.text[0];
      FirstIsText(first);
      assert s[|first.text| + |EolBytes(first.eol)|..] == tail;
      SpelledEventEnds(lines[1..], rest);
    }
  }

  lemma FirstIsText(line: Line)
    requires IsText(line.text) && line.text != []
    ensures !EndsLine(line.text[0])
  {
  }

  function Terminator(s: Bytes): Eol
    requires LineEnd(s).Some? && EndsLine(s[0])
  {
    if s[0] == LF then EolLf else if LineEnd(s).value == 2 then EolCrLf else EolCr
  }

  lemma {:induction false} FirstLine(s: Bytes) returns (line: Line)
    requires LineEnd(s).Some?
    ensures IsLine(line, s[LineEnd(s).value..]) && s[..LineEnd(s).value] == line.text + EolBytes(line.eol)
    ensures line.text == [] <==> EndsLine(s[0])
    decreases |s|
  {
    if EndsLine(s[0]) {
      line := Line([], Terminator(s));
    } else {
      var more := FirstLine(s[1..]);
      var n := LineEnd(s[1..]).value;
      line := Line([s[0]] + more.text, more.eol);
      assert s[..n + 1] == [s[0]] + s[1..][..n];
      assert s[1..][n..] == s[n + 1..];
    }
  }

  lemma SpellsOn(s: Bytes, n: nat, line: Line, m: nat, more: seq<Line>)
    requires n + m <= |s| && IsLine(line, s[n..]) && line.text != [] && s[..n] == line.text + EolBytes(line.eol)
    requires s[n..][..m] == Spell(more) && IsEvent(more, s[n..][m..])
    ensures s[..n + m] == Spell([line] + more) && IsEvent([line] + more, s[n + m..])
  {
    hide IsLine;
    assert ([line] + more)[1..] == more;
    assert s[n..][m..] == s[n + m..] && s[..n + m] == s[..n] + s[n..][..m];
    assert Spell(more) + s[n + m..] == s[n..];
  }

  lemma BlankSpells(s: Bytes, n: nat, line: Line)
    requires n <= |s| && IsLine(line, s[n..]) && line.text == [] && s[..n] == line.text + EolBytes(line.eol)
    ensures s[..n] == Spell([line]) && IsEvent([line], s[n..])
  {
    hide IsLine;
    assert [line][1..] == [] && Spell([]) + s[n..] == s[n..];
    assert Spell([line]) == line.text + EolBytes(line.eol) + Spell([]);
  }

  lemma EventEndStep(s: Bytes)
    requires EventEnd(s).Some?
    ensures s != [] && LineEnd(s).Some? && LineEnd(s).value <= |s|
    ensures EndsLine(s[0]) ==> EventEnd(s) == LineEnd(s)
    ensures var n := LineEnd(s).value;
      !EndsLine(s[0]) ==> 0 < n && EventEnd(s[n..]).Some? && EventEnd(s).value == n + EventEnd(s[n..]).value
  {
    hide EndsLine;
  }

  /** What is cut off is an event: non-blank lines and one blank line. */
  lemma {:induction false} EventEndSpells(s: Bytes) returns (lines: seq<Line>)
    requires EventEnd(s).Some?
    ensures s[..EventEnd(s).value] == Spell(lines) && IsEvent(lines, s[EventEnd(s).value..])
    decreases |s|
  {
    hide LineEnd, IsLine, EventEnd, Spell, IsEvent, EndsLine;
    EventEndStep(s);
    var line := FirstLine(s);
    var n := LineEnd(s).value;
    if line.text == [] {
      lines := [line];
      BlankSpells(s, n, line);
    } else {
      var more := EventEndSpells(s[n..]);
      lines := [line] + more;
      SpellsOn(s, n, line, EventEnd(s[n..]).value, more);
    }
  }

  // ---------- what a reader hands out ----------

  /** How a kind of frame is cut, checked and bounded; `checksTail` says whether bytes that
      the end of the stream cut short are checked as well. */
  datatype Kind = Kind(cut: Bytes -> Option<nat>, valid: Bytes -> bool, maxBytes: int, checksTail: bool)

  function Flatten(frames: seq<Bytes>): Bytes {
    if frames == [] then [] else frames[0] + Flatten(frames[1..])
  }

  /** `frames` are the first frames of `s`: each within the limit, and found valid. */
  predicate Released(k: Kind, s: Bytes, frames: seq<Bytes>) {
    frames == [] ||
    (k.cut(s) == Some(|frames[0]|) && |frames[0]| <= |s| && frames[0] == s[..|frames[0]|]
     && |frames[0]| <= k.maxBytes && k.valid(frames[0]) && Released(k, s[|frames[0]|..], frames[1..]))
  }

  lemma {:induction false} ReleasedMore(k: Kind, s: Bytes, frames: seq<Bytes>, n: nat)
    requires Released(k, s, frames) && |Flatten(frames)| + n <= |s| && n <= k.maxBytes
    requires var rest := s[|Flatten(frames)|..]; k.cut(rest) == Some(n) && k.valid(rest[..n])
    ensures var rest := s[|Flatten(frames)|..]; Released(k, s, frames + [rest[..n]])
    decreases |frames|
  {
    var rest := s[|Flatten(frames)|..];
    if frames == [] {
      assert rest == s && ([] + [rest[..n]])[1..] == [];
    } else {
      var after := s[|frames[0]|..];
      assert after[|Flatten(frames[1..])|..] == rest;
      ReleasedMore(k, after, frames[1..], n);
      assert (frames + [rest[..n]])[1..] == frames[1..] + [rest[..n]];
    }
  }

  lemma {:induction false} FlattenMore(frames: seq<Bytes>, frame: Bytes)
    ensures Flatten(frames + [frame]) == Flatten(frames) + frame
    decreases |frames|
  {
    if frames == [] {
      assert ([] + [frame])[1..] == [];
    } else {
      FlattenMore(frames[1..], frame);
      assert (frames + [frame])[1..] == frames[1..] + [frame];
    }
  }

  /** What reading one frame from the front of `s` yields, and how much it consumes. */
  predicate Yields(k: Kind, s: Bytes, end: ReadError, frame: Bytes, err: Option<ReadError>, taken: nat) {
    if k.cut(s).Some? && k.cut(s).value <= k.maxBytes && k.cut(s).value <= |s| then
      var n := k.cut(s).value;
      if k.valid(s[..n]) then frame == s[..n] && err == None && taken == n else frame == [] && err == Some(InvalidMessage)
    else if |s| > k.maxBytes then frame == [] && err == Some(LimitExceeded)
    else if k.checksTail && s != [] && !k.valid(s) then frame == [] && err == Some(InvalidMessage)
    else frame == s && err == Some(end) && taken == |s|
  }

  /** The frames released so far, the unterminated tail if the stream ended in one, and every
      byte handed out. */
  datatype Progress = Progress(frames: seq<Bytes>, tail: Bytes, delivered: Bytes)

  const NOTHING := Progress([], [], [])

  lemma FreshStart(k: Kind, s: Bytes)
    ensures Transparent(k, s, 0, [], NOTHING)
  {
  }

  predicate Transparent(k: Kind, s: Bytes, pos: nat, pending: Bytes, p: Progress) {
    && pos <= |s| && Released(k, s, p.frames)
    && Flatten(p.frames) + p.tail == s[..pos] && p.delivered + pending == s[..pos]
    && (p.tail != [] ==> pos == |s| && |p.tail| <= k.maxBytes && (k.checksTail ==> k.valid(p.tail)))
  }

  function After(k: Kind, p: Progress, frame: Bytes, err: Option<ReadError>): Progress {
    if err.None? then p.(frames := p.frames + [frame]) else p.(tail := frame)
  }

  /** Why a reader failed, in terms of the bytes behind those it handed out. */
  predicate Explained(k: Kind, s: Bytes, end: ReadError, delivered: nat, err: ReadError) {
    delivered <= |s| &&
    var rest := s[delivered..];
    match err
    case LimitExceeded => |rest| > k.maxBytes && (k.cut(rest).Some? && k.cut(rest).value <= |rest| ==> k.cut(rest).value > k.maxBytes)
    case InvalidMessage =>
      if k.cut(rest).Some? && k.cut(rest).value <= |rest| then !k.valid(rest[..k.cut(rest).value])
      else k.checksTail && rest != [] && !k.valid(rest)
    case _ => err == end && rest == []
  }

  lemma AdvanceKeeps(k: Kind, s: Bytes, pos: nat, p: Progress, end: ReadError, frame: Bytes, err: Option<ReadError>, taken: nat)
    requires Transparent(k, s, pos, [], p) && p.tail == []
    requires Yields(k, s[pos..], end, frame, err, taken) && frame != []
    ensures pos + taken <= |s| && Transparent(k, s, pos + taken, frame, After(k, p, frame, err))
    ensures err.Some? ==> pos + taken == |s| && err.value == end
  {
    var rest := s[pos..];
    assert p.delivered == s[..pos] == Flatten(p.frames);
    assert frame == rest[..taken] && s[..pos + taken] == s[..pos] + rest[..taken];
    if err.None? {
      ReleasedMore(k, s, p.frames, taken);
      FlattenMore(p.frames, frame);
    }
  }

  lemma FailureExplained(k: Kind, s: Bytes, pos: nat, p: Progress, end: ReadError, err: Option<ReadError>, taken: nat)
    requires Transparent(k, s, pos, [], p) && p.tail == []
    requires Yields(k, s[pos..], end, [], err, taken) && (end.EndOfFile? || end.SourceFailure?)
    requires k.cut(s[pos..]).Some? ==> 0 < k.cut(s[pos..]).value
    ensures err.Some? && p.delivered == s[..pos] && Explained(k, s, end, |p.delivered|, err.value)
  {
    assert p.delivered == s[..pos];
  }

  /** Behind the last byte only the end of the stream is left, at every further read. */
  lemma EndRepeats(k: Kind, s: Bytes, end: ReadError, delivered: nat, err: ReadError)
    requires Explained(k, s, end, delivered, err) && delivered == |s| && 0 <= k.maxBytes && k.cut([]).None?
    ensures err == end
  {
    assert s[delivered..] == [];
  }

  /** Copies as much as fits. */
  method CopyOut(buffer: array<byte>, pending: Bytes) returns (count: nat)
    modifies buffer
    ensures count == (if buffer.Length < |pending| then buffer.Length else |pending|)
    ensures buffer[..count] == pending[..count] && buffer[count..] == old(buffer[count..])
  {
    count := if buffer.Length < |pending| then buffer.Length else |pending|;
    for i := 0 to count
      invariant buffer[..i] == pending[..i] && buffer[i..] == old(buffer[i..])
    {
      buffer[i] := pending[i];
    }
  }

  lemma HandedOut(k: Kind, s: Bytes, pos: nat, pending: Bytes, p: Progress, count: nat)
    requires Transparent(k, s, pos, pending, p) && count <= |pending|
    ensures Transparent(k, s, pos, pending[count..], p.(delivered := p.delivered + pending[..count]))
  {
    assert p.delivered + pending == (p.delivered + pending[..count]) + pending[count..];
  }

  // ---------- server-sent events ----------

  /** `k` bytes of the first event of `s` are read and its end is still to come. */
  ghost predicate Reading(s: Bytes, k: nat, atLineStart: bool) {
    k <= |s| && EventEnd(s) == Shift(k, Resume(s[k..], atLineStart))
  }

  lemma ReadingStarts(s: Bytes)
    ensures Reading(s, 0, true)
  {
    assert s[0..] == s;
  }

  lemma ReadingMore(s: Bytes, k: nat, atLineStart: bool)
    requires Reading(s, k, atLineStart)
    ensures EventEnd(s).Some? ==> EventEnd(s).value > k
    ensures k == |s| ==> EventEnd(s).None?
  {
    assert k == |s| ==> s[k..] == [];
  }

  lemma ReadingText(s: Bytes, k: nat, atLineStart: bool)
    requires Reading(s, k, atLineStart) && k < |s| && !EndsLine(s[k])
    ensures Reading(s, k + 1, false)
  {
    hide Resume, EventEnd;
    ResumeText(s[k..], atLineStart);
    assert s[k..][1..] == s[k + 1..];
  }

  lemma EolLength(s: Bytes, k: nat)
    requires k < |s| && EndsLine(s[k])
    ensures LineEnd(s[k..]) == Some(if s[k] == CR && k + 1 < |s| && s[k + 1] == LF then 2 else 1)
  {
  }

  lemma ReadingEol(s: Bytes, k: nat, atLineStart: bool, n: nat)
    requires Reading(s, k, atLineStart) && k < |s| && EndsLine(s[k]) && LineEnd(s[k..]) == Some(n) && k + n <= |s|
    ensures atLineStart ==> EventEnd(s) == Some(k + n)
    ensures !atLineStart ==> Reading(s, k + n, true)
    ensures EventEnd(s).Some? ==> EventEnd(s).value >= k + n
  {
    hide Resume, EventEnd, LineEnd;
    ResumeLine(s[k..]);
    assert s[k..][n..] == s[k + n..];
  }

  function EventKind(valid: Bytes -> bool, maxBytes: int): Kind { Kind(EventEnd, valid, maxBytes, false) }

  class SSEEventLimitedBody {
    const source: Source
    const maxBytes: int
    const valid: Bytes -> bool
    var pos: nat
    var pending: Bytes
    var pendingErr: Option<ReadError>
    ghost var progress: Progress
    /** Where reading began, or went on behind the last error. */
    ghost var start: nat

    ghost predicate Valid()
      reads this
    {
      && 0 <= maxBytes
      && start <= pos <= |source.content| && Transparent(EventKind(valid, maxBytes), source.content[start..], pos - start, pending, progress)
      && (progress.tail != [] ==> pendingErr.Some?)
      && (pendingErr.Some? ==> pendingErr == Some(EndError(source)) && pos == |source.content|)
    }

    constructor (source: Source, maxBytes: int, valid: Bytes -> bool)
      requires 0 <= maxBytes
      ensures Valid() && start == 0 && this.source == source && this.maxBytes == maxBytes && this.valid == valid
      ensures progress == NOTHING
    {
      this.source, this.maxBytes, this.valid := source, maxBytes, valid;
      pos, pending, pendingErr, progress, start := 0, [], None, NOTHING, 0;
      new;
      FreshStart(EventKind(valid, maxBytes), source.content);
    }

    /** Builds one event byte by byte. */
    method ReadEvent() returns (event: Bytes, err: Option<ReadError>)
      requires Valid() && pos <= |source.content|
      modifies this`pos
      ensures old(pos) <= pos <= |source.content|
      ensures Yields(EventKind(valid, maxBytes), source.content[old(pos)..], EndError(source), event, err, pos - old(pos))
    {
      hide Reading, EventEnd, LineEnd, Transparent;
      ghost var s := source.content[pos..];
      event := [];
      var atLineStart := true;
      ReadingStarts(s);
      while true
        invariant old(pos) <= pos <= |source.content| && pos - old(pos) == |event| <= maxBytes
        invariant event == s[..|event|] && Reading(s, |event|, atLineStart)
        decreases |source.content| - pos
      {
        ghost var k := |event|;
        ReadingMore(s, k, atLineStart);
        if pos == |source.content| { return event, Some(EndError(source)); }
        var character := source.content[pos];
        pos := pos + 1;
        if |event| == maxBytes { return [], Some(LimitExceeded); }
        event := event + [character];
        if character != CR && character != LF {
          ReadingText(s, k, atLineStart);
          atLineStart := false;
          continue;
        }
        EolLength(s, k);
        ReadingEol(s, k, atLineStart, LineEnd(s[k..]).value);
        if character == CR && pos < |source.content| && source.content[pos] == LF {
          if |event| == maxBytes { return [], Some(LimitExceeded); }
          pos := pos + 1;
          event := event + [LF];
        }
        assert event == s[..|event|];
        if atLineStart {
          if !valid(event) { return [], Some(InvalidMessage); }
          return event, None;
        }
        atLineStart := true;
      }
    }

    /** Reads the next event into `pending`, or fails. */
    method Refill() returns (err: Option<ReadError>)
      requires Valid() && pending == []
      modifies this
      ensures Valid()
      ensures old(pos) <= pos && (err.None? ==> pending != []) && (err.Some? ==> pending == [])
      ensures err.None? ==> start == old(start) && progress.delivered == old(progress).delivered
      ensures err.Some? ==> start == pos && progress == NOTHING && pendingErr.None?
      ensures err.Some? ==> Explained(EventKind(valid, maxBytes), source.content[old(start)..], EndError(source), |old(progress).delivered|, err.value)
    {
      hide Transparent, Yields, Explained, EventEnd;
      ghost var k, s, before, end := EventKind(valid, maxBytes), source.content[start..], pos - start, EndError(source);
      TransparentFacts(k, s, before, pending, progress);
      assert s[before..] == source.content[pos..];
      if pendingErr.Some? {
        DrainedExplained(k, s, progress, end);
        err := pendingErr;
        pendingErr := None;
        FreshStart(k, source.content[pos..]);
        start, progress := pos, NOTHING;
        return;
      }
      var event, readErr := ReadEvent();
      if event == [] {
        FailureExplained(k, s, before, progress, end, readErr, pos - start - before);
        FreshStart(k, source.content[pos..]);
        start, progress := pos, NOTHING;
        return readErr;
      }
      AdvanceKeeps(k, s, before, progress, end, event, readErr, pos - start - before);
      progress := After(k, progress, event, readErr);
      pending, pendingErr := event, readErr;
      TransparentFacts(k, s, pos - start, pending, progress);
      err := None;
    }

    /** `Read` for any buffer: an event's bytes come only after the whole event was checked. After
        an error reading goes on where it stopped. */
    method Read(buffer: array<byte>) returns (count: nat, err: Option<ReadError>)
      requires Valid()
      modifies this, buffer
      ensures Valid() && old(pos) <= pos && count <= buffer.Length && (err.None? && buffer.Length > 0 ==> count > 0)
      ensures err.None? ==> start == old(start) && progress.delivered == old(progress).delivered + buffer[..count]
      ensures err.Some? ==> count == 0 && start == pos && progress == NOTHING && pending == []
      ensures err.Some? ==> Explained(EventKind(valid, maxBytes), source.content[old(start)..], EndError(source), |old(progress).delivered|, err.value)
    {
      hide Transparent, Explained;
      count, err := 0, None;
      if buffer.Length == 0 { return; }
      if pending == [] {
        err := Refill();
        if err.Some? { return; }
      }
      count := CopyOut(buffer, pending);
      HandedOut(EventKind(valid, maxBytes), source.content[start..], pos - start, pending, progress, count);
      progress := progress.(delivered := progress.delivered + pending[..count]);
      pending := pending[count..];
      TransparentFacts(EventKind(valid, maxBytes), source.content[start..], pos - start, pending, progress);
    }
  }

  lemma TransparentFacts(k: Kind, s: Bytes, pos: nat, pending: Bytes, p: Progress)
    requires Transparent(k, s, pos, pending, p)
    ensures p.delivered <= s && pos <= |s| && (pending == [] ==> p.delivered == s[..pos])
  {
    assert p.delivered + pending == s[..pos];
    assert p.delivered == s[..|p.delivered|];
  }

  lemma DrainedExplained(k: Kind, s: Bytes, p: Progress, end: ReadError)
    requires p.delivered == s && (end.EndOfFile? || end.SourceFailure?)
    ensures Explained(k, s, end, |p.delivered|, end)
  {
  }

  // ---------- newline-terminated messages ----------

  /** The length of the first line, up to and with its LF. */
  function LfEnd(s: Bytes): (n: Option<nat>)
    ensures n.Some? ==> 0 < n.value <= |s|
  {
    if s == [] then None
    else if s[0] == LF then Some(1)
    else match LfEnd(s[1..]) case None => None case Some(n) => Some(n + 1)
  }

  /** A line ends with the first LF of the stream. */
  lemma {:induction false} LfEndIsFirstLf(s: Bytes)
    ensures LfEnd(s).None? ==> LF !in s
    ensures LfEnd(s).Some? ==> s[LfEnd(s).value - 1] == LF && forall i :: 0 <= i < LfEnd(s).value - 1 ==> s[i] != LF
    decreases |s|
  {
    if s != [] && s[0] != LF {
      LfEndIsFirstLf(s[1..]);
      assert s == [s[0]] + s[1..];
      if LfEnd(s).Some? {
        forall i | 0 <= i < LfEnd(s).value - 1 ensures s[i] != LF { assert i == 0 || s[i] == s[1..][i - 1]; }
      }
    }
  }

  function LineKind(valid: Bytes -> bool, maxBytes: int): Kind { Kind(LfEnd, valid, maxBytes, true) }

  /** The first `k` bytes of `s` hold no LF. */
  ghost predicate InLine(s: Bytes, k: nat) {
    k <= |s| && LfEnd(s) == Shift(k, LfEnd(s[k..]))
  }

  lemma {:induction false} LfEndSkips(s: Bytes, k: nat)
    requires k <= |s| && LfEnd(s[..k]).None?
    ensures LfEnd(s) == Shift(k, LfEnd(s[k..]))
    decreases k
  {
    if k == 0 {
      assert s[0..] == s;
    } else {
      TakeRest(s, k);
      LfEndSkips(s[1..], k - 1);
    }
  }

  lemma TakeRest(s: Bytes, k: nat)
    requires 0 < k <= |s|
    ensures s[..k][1..] == s[1..][..k - 1] && s[..k][0] == s[0] && s[1..][k - 1..] == s[k..]
  {
  }

  lemma {:induction false} LfEndLater(s: Bytes, k: nat)
    requires k <= |s| && (LfEnd(s).Some? ==> LfEnd(s).value > k)
    ensures LfEnd(s[..k]).None?
    decreases k
  {
    if k > 0 {
      TakeRest(s, k);
      LfEndLater(s[1..], k - 1);
    }
  }

  class BoundedLineReader {
    const source: Source
    const maxBytes: int
    const valid: Bytes -> bool
    var pos: nat
    var pending: Bytes
    var pendingErr: Option<ReadError>
    var limitSignalled: bool
    ghost var signals: nat
    ghost var progress: Progress
    /** Where reading began, or went on behind the last error. */
    ghost var start: nat

    ghost predicate Valid()
      reads this
    {
      && 0 <= maxBytes && signals == (if limitSignalled then 1 else 0)
      && start <= pos <= |source.content| && Transparent(LineKind(valid, maxBytes), source.content[start..], pos - start, pending, progress)
      && (progress.tail != [] ==> pendingErr.Some?)
      && (pendingErr.Some? ==> pendingErr == Some(EndError(source)) && pos == |source.content|)
    }

    constructor (source: Source, maxBytes: int, valid: Bytes -> bool)
      requires 0 <= maxBytes
      ensures Valid() && start == 0 && this.source == source && this.maxBytes == maxBytes && this.valid == valid
      ensures progress == NOTHING && signals == 0
    {
      this.source, this.maxBytes, this.valid := source, maxBytes, valid;
      pos, pending, pendingErr, limitSignalled := 0, [], None, false;
      signals, progress, start := 0, NOTHING, 0;
      new;
      FreshStart(LineKind(valid, maxBytes), source.content);
    }

    /** A fragment up to an LF, a full buffer, or the end of the stream. */
    method ReadSlice() returns (fragment: Bytes, full: bool, err: Option<ReadError>)
      requires pos <= |source.content|
      modifies this`pos
      ensures pos == old(pos) + |fragment| <= |source.content| && fragment == source.content[old(pos)..][..|fragment|]
      ensures !full && err.None? ==> LfEnd(source.content[old(pos)..]) == Some(|fragment|)
      ensures full ==> |fragment| == READ_BUFFER && LfEnd(fragment).None?
      ensures !full && err.Some? ==> err == Some(EndError(source)) && pos == |source.content| && LfEnd(fragment).None?
    {
      var rest := source.content[pos..];
      var n := LfEnd(rest);
      full, err := false, None;
      if n.Some? && n.value <= READ_BUFFER {
        fragment := rest[..n.value];
      } else if |rest| >= READ_BUFFER {
        fragment, full := rest[..READ_BUFFER], true;
      } else {
        fragment, err := rest, Some(EndError(source));
      }
      pos := pos + |fragment|;
      if full || err.Some? { LfEndLater(rest, |fragment|); }
    }

    /** Joins fragments into one line; how the buffer cut them makes no difference. */
    method ReadLine() returns (line: Bytes, err: Option<ReadError>)
      requires Valid() && pos <= |source.content|
      modifies this`pos, this`limitSignalled, this`signals
      ensures old(pos) <= pos <= |source.content| && signals == (if limitSignalled then 1 else 0)
      ensures Yields(LineKind(valid, maxBytes), source.content[old(pos)..], EndError(source), line, err, pos - old(pos))
      ensures err == Some(LimitExceeded) ==> limitSignalled
    {
      hide Transparent, LfEnd, InLine;
      ghost var s := source.content[pos..];
      line := [];
      SkipNothing(s);
      while true
        invariant old(pos) <= pos <= |source.content| && pos - old(pos) == |line| <= maxBytes
        invariant line == s[..|line|] && InLine(s, |line|) && signals == (if limitSignalled then 1 else 0)
        decreases |source.content| - pos
      {
        assert source.content[pos..] == s[|line|..];
        var fragment, full, fragmentErr := ReadSlice();
        if full || fragmentErr.Some? { LineGoesOn(s, |line|, |fragment|); } else { LineEndsHere(s, |line|, |fragment|); }
        if |line| + |fragment| > maxBytes {
          if !limitSignalled {
            limitSignalled := true;
            signals := signals + 1;
          }
          return [], Some(LimitExceeded);
        }
        line := line + fragment;
        assert line == s[..|line|];
        assert fragmentErr.Some? && !full ==> line == s;
        if full { continue; }
        if line != [] && !valid(line) { return [], Some(InvalidMessage); }
        return line, fragmentErr;
      }
    }

    method Refill() returns (err: Option<ReadError>)
      requires Valid() && pending == []
      modifies this
      ensures Valid()
      ensures old(pos) <= pos && (err.None? ==> pending != []) && (err.Some? ==> pending == [])
      ensures err.None? ==> start == old(start) && progress.delivered == old(progress).delivered
      ensures err.Some? ==> start == pos && progress == NOTHING && pendingErr.None?
      ensures err.Some? ==> Explained(LineKind(valid, maxBytes), source.content[old(start)..], EndError(source), |old(progress).delivered|, err.value)
    {
      hide Transparent, Yields, Explained, LfEnd;
      ghost var k, s, before, end := LineKind(valid, maxBytes), source.content[start..], pos - start, EndError(source);
      TransparentFacts(k, s, before, pending, progress);
      assert s[before..] == source.content[pos..];
      if pendingErr.Some? {
        DrainedExplained(k, s, progress, end);
        err := pendingErr;
        pendingErr := None;
        FreshStart(k, source.content[pos..]);
        start, progress := pos, NOTHING;
        return;
      }
      var line, readErr := ReadLine();
      if line == [] {
        FailureExplained(k, s, before, progress, end, readErr, pos - start - before);
        FreshStart(k, source.content[pos..]);
        start, progress := pos, NOTHING;
        return readErr;
      }
      AdvanceKeeps(k, s, before, progress, end, line, readErr, pos - start - before);
      progress := After(k, progress, line, readErr);
      pending, pendingErr := line, readErr;
      TransparentFacts(k, s, pos - start, pending, progress);
      err := None;
    }

    /** The same for lines. */
    method Read(buffer: array<byte>) returns (count: nat, err: Option<ReadError>)
      requires Valid()
      modifies this, buffer
      ensures Valid() && old(pos) <= pos && count <= buffer.Length && (err.None? && buffer.Length > 0 ==> count > 0)
      ensures err.None? ==> start == old(start) && progress.delivered == old(progress).delivered + buffer[..count]
      ensures err.Some? ==> count == 0 && start == pos && progress == NOTHING && pending == []
      ensures err.Some? ==> Explained(LineKind(valid, maxBytes), source.content[old(start)..], EndError(source), |old(progress).delivered|, err.value)
    {
      hide Transparent, Explained, LfEnd, Yields;
      count, err := 0, None;
      if buffer.Length == 0 { return; }
      if pending == [] {
        err := Refill();
        if err.Some? { return; }
      }
      count := CopyOut(buffer, pending);
      HandedOut(LineKind(valid, maxBytes), source.content[start..], pos - start, pending, progress, count);
      progress := progress.(delivered := progress.delivered + pending[..count]);
      pending := pending[count..];
      TransparentFacts(LineKind(valid, maxBytes), source.content[start..], pos - start, pending, progress);
    }
  }

  lemma SkipNothing(s: Bytes)
    ensures InLine(s, 0)
  {
    assert s[0..] == s;
  }

  lemma LineGoesOn(s: Bytes, k: nat, n: nat)
    requires InLine(s, k) && k + n <= |s| && LfEnd(s[k..][..n]).None?
    ensures InLine(s, k + n)
    ensures LfEnd(s).Some? ==> LfEnd(s).value > k + n
    ensures k + n == |s| ==> LfEnd(s).None?
  {
    hide LfEnd;
    LfEndSkips(s[k..], n);
    assert s[k..][n..] == s[k + n..];
    NoLfInNothing();
    assert k + n == |s| ==> s[k + n..] == [];
  }

  lemma LineEndsHere(s: Bytes, k: nat, n: nat)
    requires InLine(s, k) && LfEnd(s[k..]) == Some(n)
    ensures LfEnd(s) == Some(k + n)
  {
    hide LfEnd;
  }

  lemma NoLfInNothing()
    ensures LfEnd([]).None?
  {
  }
}
