/** The transcript recorder of webui/bastion.py. */
module Recorder {
  import opened Common

  const FLUSH_BYTES := 4096
  const FLUSH_SECONDS := 2.0

  datatype Stream = Out | In | NoteStream

  datatype Chunk = Chunk(seqNo: nat, stream: Stream, text: string)

  /** What a reader of the transcript sees: output character by character, and
      each typed line and each note as one unit. */
  datatype Token = Shown(c: char) | Typed(line: string) | Said(note: string)

  function Chars(text: string): (ts: seq<Token>) {
    seq(|text|, i requires 0 <= i < |text| => Shown(text[i]))
  }

  function Read(c: Chunk): seq<Token> {
    match c.stream
    case Out => Chars(c.text)
    case In => [Typed(c.text)]
    case NoteStream => [Said(c.text)]
  }

  function ReadAll(chunks: seq<Chunk>): seq<Token> {
    if chunks == [] then [] else ReadAll(chunks[..|chunks| - 1]) + Read(chunks[|chunks| - 1])
  }

  lemma ReadNext(chunks: seq<Chunk>, c: Chunk)
    ensures ReadAll(chunks + [c]) == ReadAll(chunks) + Read(c)
  {
    assert (chunks + [c])[..|chunks|] == chunks;
  }

  function Join(parts: seq<string>): string {
    if parts == [] then "" else Join(parts[..|parts| - 1]) + parts[|parts| - 1]
  }

  lemma JoinIsNotEmpty(parts: seq<string>)
    requires parts != [] && parts[|parts| - 1] != ""
    ensures Join(parts) != ""
  {
  }

  lemma NothingWaits(ts: seq<Token>)
    ensures ts + Chars(Join([])) == ts
  {
  }

  // --- what the calls mean, without buffer or clock ---------------------------------------

  datatype Call = Output(text: string) | Line(text: string) | Note(text: string) | Tick | Flush

  datatype Transcript = Transcript(tokens: seq<Token>, recorded: nat, truncated: bool)

  const EMPTY := Transcript([], 0, false)

  /** How much output may be recorded, and the note that says it was cut there. */
  datatype Limit = Limit(maxBytes: int, notice: string)

  function Hear(t: Transcript, call: Call, limit: Limit): Transcript {
    match call
    case Output(text) =>
      if text == "" || t.truncated then t
      else if t.recorded + |text| > limit.maxBytes then t.(tokens := t.tokens + [Said(limit.notice)], truncated := true)
      else t.(tokens := t.tokens + Chars(text), recorded := t.recorded + |text|)
    case Line(text) => t.(tokens := t.tokens + [Typed(text)])
    case Note(text) => t.(tokens := t.tokens + [Said(text)])
    case Tick => t
    case Flush => t
  }

  function HearAll(history: seq<Call>, limit: Limit): Transcript {
    if history == [] then EMPTY else Hear(HearAll(history[..|history| - 1], limit), history[|history| - 1], limit)
  }

  lemma HearNext(history: seq<Call>, i: nat, limit: Limit)
    requires i < |history|
    ensures HearAll(history[..i + 1], limit) == Hear(HearAll(history[..i], limit), history[i], limit)
  {
    assert history[..i + 1][..i] == history[..i];
  }

  // --- the recorder -------------------------------------------------------------------------

  /** Numbered 1, 2, ... without gaps, and never an empty piece of output. */
  ghost predicate Numbered(chunks: seq<Chunk>) {
    forall i :: 0 <= i < |chunks| ==> chunks[i].seqNo == i + 1 && (chunks[i].stream == Out ==> chunks[i].text != "")
  }

  class Recorder {
    const limit: Limit
    var buf: seq<string>
    var bufLen: nat
    var lastFlush: real
    var seqNo: nat
    var recorded: nat
    var truncated: bool
    /** Every chunk handed to the store, and whether the database kept it. */
    var chunks: seq<Chunk>
    var kept: seq<bool>
    /** The monotonic clock, as last read. */
    var clock: real

    ghost predicate Consistent()
      reads this
    {
      && bufLen == |Join(buf)| && (forall i :: 0 <= i < |buf| ==> buf[i] != "")
      && seqNo == |chunks| == |kept| && Numbered(chunks)
      && lastFlush <= clock
      && recorded <= Max(0, limit.maxBytes)
    }

    /** Between calls, less than a full chunk is waiting. */
    ghost predicate Valid()
      reads this
    {
      Consistent() && bufLen < FLUSH_BYTES
    }

    /** The transcript so far: what was handed to the store, then what is buffered. */
    ghost function Heard(): Transcript
      reads this
    {
      Transcript(ReadAll(chunks) + Chars(Join(buf)), recorded, truncated)
    }

    constructor (limit: Limit, start: real)
      ensures Valid() && this.limit == limit && Heard() == EMPTY && chunks == []
    {
      this.limit := limit;
      buf, bufLen, lastFlush, clock := [], 0, start, start;
      seqNo, recorded, truncated, chunks, kept := 0, 0, false, [], [];
    }

    method Monotonic() returns (now: real)
      modifies `clock
      ensures clock == now >= old(clock)
    {
      var passed: real :| passed >= 0.0;
      clock := clock + passed;
      now := clock;
    }

    /** Hands one chunk to the store, which may fail. */
    method Append(stream: Stream, text: string) returns (ok: bool)
      requires Consistent() && buf == [] && (stream == Out ==> text != "")
      modifies `seqNo, `chunks, `kept
      ensures Consistent() && chunks == old(chunks) + [Chunk(old(seqNo) + 1, stream, text)] && kept == old(kept) + [ok]
      ensures Heard() == old(Heard()).(tokens := old(Heard()).tokens + Read(Chunk(0, stream, text)))
    {
      seqNo := seqNo + 1;
      chunks := chunks + [Chunk(seqNo, stream, text)];
      ok := *;
      kept := kept + [ok];
      ReadNext(old(chunks), Chunk(seqNo, stream, text));
      NothingWaits(ReadAll(old(chunks)));
      NothingWaits(ReadAll(chunks));
    }

    /** Writes the buffered output as one chunk, if there is any. */
    method FlushLocked()
      requires Consistent()
      modifies `buf, `bufLen, `lastFlush, `seqNo, `chunks, `kept, `clock
      ensures Valid() && buf == [] && Heard() == old(Heard()) && old(clock) <= clock
      ensures if old(buf) == [] then chunks == old(chunks) && lastFlush == old(lastFlush)
              else chunks == old(chunks) + [Chunk(old(seqNo) + 1, Out, Join(old(buf)))]
      ensures old(chunks) <= chunks && old(kept) <= kept
    {
      if buf == [] {
        return;
      }
      var text := Join(buf);
      JoinIsNotEmpty(buf);
      buf, bufLen := [], 0;
      lastFlush := Monotonic();
      NothingWaits(ReadAll(chunks));
      assert Heard().tokens == old(ReadAll(chunks));
      var ok := Append(Out, text);
    }

    method Output(text: string) returns (ok: bool)
      requires Valid()
      modifies `buf, `bufLen, `lastFlush, `seqNo, `recorded, `truncated, `chunks, `kept, `clock
      ensures Valid() && Heard() == Hear(old(Heard()), Call.Output(text), limit)
      ensures old(chunks) <= chunks && old(kept) <= kept
      ensures !old(truncated) && text != "" ==> buf == [] || clock - lastFlush < FLUSH_SECONDS
      // Output that is kept is written at once, with all that waits, when that makes
      // 4096 characters or two seconds have passed, and waits otherwise.
      ensures !old(truncated) && text != "" && old(recorded) + |text| <= limit.maxBytes ==>
                if |old(Join(buf))| + |text| >= 4096 || clock - old(lastFlush) >= 2.0
                then buf == [] && chunks == old(chunks) + [Chunk(|old(chunks)| + 1, Out, old(Join(buf)) + text)]
                else buf == old(buf) + [text] && chunks == old(chunks)
    {
      ok := true;
      if text == "" || truncated {
        return;
      }
      if recorded + |text| > limit.maxBytes {
        ok := Stop();
        return;
      }
      Keep(text);
    }

    /** Output that fits: it waits, and all that waits is written when it is much or old. */
    method Keep(text: string)
      requires Valid() && !truncated && text != "" && recorded + |text| <= limit.maxBytes
      modifies `buf, `bufLen, `lastFlush, `seqNo, `recorded, `chunks, `kept, `clock
      ensures Valid() && Heard() == Hear(old(Heard()), Call.Output(text), limit)
      ensures old(chunks) <= chunks && old(kept) <= kept
      ensures buf == [] || clock - lastFlush < FLUSH_SECONDS
      ensures if |old(Join(buf))| + |text| >= 4096 || clock - old(lastFlush) >= 2.0
              then buf == [] && chunks == old(chunks) + [Chunk(|old(chunks)| + 1, Out, old(Join(buf)) + text)]
              else buf == old(buf) + [text] && chunks == old(chunks)
    {
      recorded := recorded + |text|;
      Extend(text);
      FlushIfDue();
    }

    /** What waits is written when it is much or old. */
    method FlushIfDue()
      requires Consistent() && buf != []
      modifies `buf, `bufLen, `lastFlush, `seqNo, `chunks, `kept, `clock
      ensures Valid() && Heard() == old(Heard()) && old(chunks) <= chunks && old(kept) <= kept
      ensures buf == [] || clock - lastFlush < FLUSH_SECONDS
      ensures if |old(Join(buf))| >= 4096 || clock - old(lastFlush) >= 2.0
              then buf == [] && chunks == old(chunks) + [Chunk(|old(chunks)| + 1, Out, old(Join(buf)))]
              else buf == old(buf) && chunks == old(chunks)
    {
      if bufLen >= FLUSH_BYTES {
        FlushLocked();
        return;
      }
      var now := Monotonic();
      if now - lastFlush >= FLUSH_SECONDS {
        FlushLocked();
      }
    }

    /** The end of the output stream: flush, then say where it was cut. */
    method Stop() returns (ok: bool)
      requires Valid() && !truncated
      modifies `buf, `bufLen, `lastFlush, `seqNo, `truncated, `chunks, `kept, `clock
      ensures Valid() && buf == [] && old(chunks) <= chunks && old(kept) <= kept
      ensures Heard() == old(Heard()).(tokens := old(Heard()).tokens + [Said(limit.notice)], truncated := true)
    {
      FlushLocked();
      truncated := true;
      ok := Append(NoteStream, limit.notice);
    }

    method Extend(text: string)
      requires Consistent() && text != ""
      modifies `buf, `bufLen
      ensures Consistent() && buf == old(buf) + [text] && Join(buf) == old(Join(buf)) + text
      ensures Heard() == old(Heard()).(tokens := old(Heard()).tokens + Chars(text))
    {
      buf := buf + [text];
      bufLen := bufLen + |text|;
      assert buf[..|buf| - 1] == old(buf);
      assert Chars(Join(buf)) == Chars(Join(old(buf))) + Chars(text);
    }

    method Line(text: string) returns (ok: bool)
      requires Valid()
      modifies `buf, `bufLen, `lastFlush, `seqNo, `chunks, `kept, `clock
      ensures Valid() && buf == [] && Heard() == Hear(old(Heard()), Call.Line(text), limit)
      ensures old(chunks) < chunks && chunks[|chunks| - 1] == Chunk(|chunks|, In, text) && old(kept) <= kept
    {
      FlushLocked();
      ok := Append(In, text);
    }

    method Note(text: string) returns (ok: bool)
      requires Valid()
      modifies `buf, `bufLen, `lastFlush, `seqNo, `chunks, `kept, `clock
      ensures Valid() && buf == [] && Heard() == Hear(old(Heard()), Call.Note(text), limit)
      ensures old(chunks) < chunks && chunks[|chunks| - 1] == Chunk(|chunks|, NoteStream, text) && old(kept) <= kept
    {
      FlushLocked();
      ok := Append(NoteStream, text);
    }

    method Tick()
      requires Valid()
      modifies `buf, `bufLen, `lastFlush, `seqNo, `chunks, `kept, `clock
      ensures Valid() && Heard() == Hear(old(Heard()), Call.Tick, limit)
      ensures old(chunks) <= chunks && old(kept) <= kept
      ensures buf == [] || clock - lastFlush < FLUSH_SECONDS
      ensures if old(buf) != [] && clock - old(lastFlush) >= 2.0
              then buf == [] && chunks == old(chunks) + [Chunk(|old(chunks)| + 1, Out, old(Join(buf)))]
              else buf == old(buf) && chunks == old(chunks)
    {
      if buf != [] {
        var now := Monotonic();
        if now - lastFlush >= FLUSH_SECONDS {
          FlushLocked();
        }
      }
    }

    method Flush()
      requires Valid()
      modifies `buf, `bufLen, `lastFlush, `seqNo, `chunks, `kept, `clock
      ensures Valid() && buf == [] && Heard() == Hear(old(Heard()), Call.Flush, limit)
      ensures ReadAll(chunks) == Heard().tokens && old(kept) <= kept && old(chunks) <= chunks
    {
      FlushLocked();
      assert Chars(Join(buf)) == [];
    }

    method Perform(call: Call)
      requires Valid()
      modifies `buf, `bufLen, `lastFlush, `seqNo, `recorded, `truncated, `chunks, `kept, `clock
      ensures Valid() && Heard() == Hear(old(Heard()), call, limit)
      ensures old(chunks) <= chunks && old(kept) <= kept
    {
      var ok := true;
      match call {
        case Output(text) => ok := Output(text);
        case Line(text) => ok := Line(text);
        case Note(text) => ok := Note(text);
        case Tick => Tick();
        case Flush => Flush();
      }
    }

    /** Any sequence of calls leaves the transcript those calls mean, whatever the
        clock and the store did. */
    method Run(history: seq<Call>)
      requires Valid() && Heard() == EMPTY
      modifies this
      ensures Valid() && Heard() == HearAll(history, limit)
    {
      var i := 0;
      while i < |history|
        invariant 0 <= i <= |history| && Valid()
        invariant Heard() == HearAll(history[..i], limit)
      {
        Perform(history[i]);
        HearNext(history, i, limit);
        i := i + 1;
      }
      assert history[..i] == history;
    }
  }

  // --- the transcript of a whole history -------------------------------------------------

  /** Characters of output sent so far. */
  function Sent(history: seq<Call>): nat {
    if history == [] then 0
    else
      var last := history[|history| - 1];
      Sent(history[..|history| - 1]) + if last.Output? then |last.text| else 0
  }

  /** Everything, in order, as if there were no limit. */
  function Everything(history: seq<Call>): seq<Token> {
    if history == [] then []
    else Everything(history[..|history| - 1]) + TokensOf(history[|history| - 1])
  }

  function TokensOf(call: Call): seq<Token> {
    match call
    case Output(text) => Chars(text)
    case Line(text) => [Typed(text)]
    case Note(text) => [Said(text)]
    case Tick => []
    case Flush => []
  }

  function WithoutOutput(history: seq<Call>): seq<Call> {
    if history == [] then []
    else
      var last := history[|history| - 1];
      WithoutOutput(history[..|history| - 1]) + if last.Output? then [] else [last]
  }

  lemma SentInTwoParts(history: seq<Call>, k: nat)
    requires k <= |history|
    ensures Sent(history[..k]) <= Sent(history)
    decreases |history|
  {
    if k < |history| {
      var front := history[..|history| - 1];
      assert front[..k] == history[..k];
      SentInTwoParts(front, k);
    } else {
      assert history[..k] == history;
    }
  }

  /** While all the output sent fits, the transcript is everything, in order. */
  lemma {:induction false} AllThatFitsIsKept(history: seq<Call>, limit: Limit)
    requires Sent(history) <= Max(0, limit.maxBytes)
    ensures HearAll(history, limit) == Transcript(Everything(history), Sent(history), false)
  {
    if history != [] {
      var front := history[..|history| - 1];
      SentInTwoParts(history, |front|);
      AllThatFitsIsKept(front, limit);
    }
  }

  /** What is left of a history whose k-th call was the first that did not fit:
      everything before it, one note where the output was cut, and then lines and
      notes but no output. */
  function CutAt(history: seq<Call>, k: nat, limit: Limit): Transcript
    requires k < |history|
  {
    Transcript(Everything(history[..k]) + [Said(limit.notice)] + Everything(WithoutOutput(history[k + 1..])),
               Sent(history[..k]), true)
  }

  lemma {:induction false} CutAtFirstOverflow(history: seq<Call>, k: nat, limit: Limit)
    requires k < |history| && history[k].Output?
    requires Sent(history[..k]) <= Max(0, limit.maxBytes) < Sent(history[..k + 1])
    ensures HearAll(history, limit) == CutAt(history, k, limit)
    decreases |history|
  {
    var front, last := history[..|history| - 1], history[|history| - 1];
    if k == |history| - 1 {
      assert front == history[..k] && history[..k + 1] == history;
      AllThatFitsIsKept(front, limit);
      assert WithoutOutput(history[k + 1..]) == [];
    } else {
      assert front[..k] == history[..k] && front[..k + 1] == history[..k + 1];
      CutAtFirstOverflow(front, k, limit);
      CutGrows(history, k, limit);
    }
  }

  /** Past the cut, one more call adds itself unless it is output. */
  lemma CutGrows(history: seq<Call>, k: nat, limit: Limit)
    requires k < |history| - 1
    ensures CutAt(history, k, limit) == Hear(CutAt(history[..|history| - 1], k, limit), history[|history| - 1], limit)
  {
    var front, last := history[..|history| - 1], history[|history| - 1];
    assert front[..k] == history[..k];
    assert history[k + 1..] == front[k + 1..] + [last];
    RestGrows(history[k + 1..], front[k + 1..], last);
    Reassociate(Everything(front[..k]) + [Said(limit.notice)], Everything(WithoutOutput(front[k + 1..])),
                if last.Output? then [] else TokensOf(last));
    HearAfterCut(CutAt(front, k, limit), last, limit);
  }

  lemma HearAfterCut(t: Transcript, call: Call, limit: Limit)
    requires t.truncated
    ensures Hear(t, call, limit) == t.(tokens := t.tokens + if call.Output? then [] else TokensOf(call))
  {
  }

  lemma RestGrows(rest: seq<Call>, before: seq<Call>, last: Call)
    requires rest == before + [last]
    ensures Everything(WithoutOutput(rest)) ==
            Everything(WithoutOutput(before)) + if last.Output? then [] else TokensOf(last)
  {
    assert rest[..|rest| - 1] == before;
    var shown := WithoutOutput(before);
    if last.Output? {
      assert WithoutOutput(rest) == shown;
    } else {
      assert WithoutOutput(rest) == shown + [last];
      assert (shown + [last])[..|shown|] == shown;
    }
  }

  /** Recording stops exactly when more output has been sent than may be kept,
      and what has been kept never exceeds the limit. */
  lemma TruncatedIffTooMuchWasSent(history: seq<Call>, limit: Limit)
    ensures HearAll(history, limit).truncated <==> Sent(history) > Max(0, limit.maxBytes)
    ensures HearAll(history, limit).recorded <= Max(0, limit.maxBytes)
  {
    if Sent(history) <= Max(0, limit.maxBytes) {
      AllThatFitsIsKept(history, limit);
    } else {
      var k := FirstOverflow(history, Max(0, limit.maxBytes));
      CutAtFirstOverflow(history, k, limit);
    }
  }

  /** The call with which the output sent first exceeds the limit. */
  function FirstOverflow(history: seq<Call>, most: nat): (k: nat)
    requires Sent(history) > most
    ensures k < |history| && history[k].Output?
    ensures Sent(history[..k]) <= most < Sent(history[..k + 1])
  {
    var front := history[..|history| - 1];
    if Sent(front) > most then
      var k := FirstOverflow(front, most);
      assert front[..k] == history[..k] && front[..k + 1] == history[..k + 1];
      k
    else
      assert history[..|history|] == history;
      |history| - 1
  }
}
