/** What the detector makes of its lines, in terms of what the lines say: which are
    evaluated, what each does, and which links are open afterwards. */
module SyslogContents {
  import opened Common
  import opened EventTable
  import opened EventFields
  import opened EventStore
  import opened SyslogDetector

  // --- which lines ------------------------------------------------------------------------

  predicate IsNew(cursor: int, line: Line) {
    line.timestamp == 0 || line.timestamp > cursor
  }

  /** The lines are those of the batch at these places, in order, and the places are those
      without a timestamp or with one beyond the cursor. */
  ghost predicate ArePlaces(cursor: int, batch: seq<Line>, lines: seq<Line>, at: seq<nat>) {
    PointAt(batch, lines, at) && Rise(at) && CoverNew(cursor, batch, at)
  }

  ghost predicate PointAt(batch: seq<Line>, lines: seq<Line>, at: seq<nat>) {
    |at| == |lines| && forall k :: 0 <= k < |at| ==> at[k] < |batch| && lines[k] == batch[at[k]]
  }

  ghost predicate Rise(at: seq<nat>) {
    forall k, m :: 0 <= k < m < |at| ==> at[k] < at[m]
  }

  ghost predicate CoverNew(cursor: int, batch: seq<Line>, at: seq<nat>) {
    forall i: nat :: i in at <==> i < |batch| && IsNew(cursor, batch[i])
  }

  lemma {:induction false} NewLinesAreEvaluated(cursor: int, batch: seq<Line>) returns (at: seq<nat>)
    ensures ArePlaces(cursor, batch, Evaluated(cursor, batch), at)
  {
    at := [];
    if batch != [] {
      var n := |batch| - 1;
      at := NewLinesAreEvaluated(cursor, batch[..n]);
      StillPoint(batch, Evaluated(cursor, batch[..n]), at);
      CoverOneMore(cursor, batch, at);
      if IsNew(cursor, batch[n]) {
        RiseOneMore(batch[..n], Evaluated(cursor, batch[..n]), at, n);
        at := at + [n];
      }
    }
  }

  lemma StillPoint(batch: seq<Line>, lines: seq<Line>, at: seq<nat>)
    requires batch != [] && PointAt(batch[..|batch| - 1], lines, at)
    ensures PointAt(batch, lines, at) && PointAt(batch, lines + [batch[|batch| - 1]], at + [|batch| - 1])
  {
  }

  lemma RiseOneMore(batch: seq<Line>, lines: seq<Line>, at: seq<nat>, n: nat)
    requires PointAt(batch, lines, at) && Rise(at) && n == |batch|
    ensures Rise(at + [n])
  {
  }

  lemma CoverOneMore(cursor: int, batch: seq<Line>, at: seq<nat>)
    requires batch != [] && CoverNew(cursor, batch[..|batch| - 1], at)
    ensures CoverNew(cursor, batch, if IsNew(cursor, batch[|batch| - 1]) then at + [|batch| - 1] else at)
  {
    var n := |batch| - 1;
    forall i: nat
      ensures i in at <==> i < n && IsNew(cursor, batch[i])
    {
      assert i < n ==> batch[..n][i] == batch[i];
    }
  }

  /** The lines of one batch after another that are evaluated. */
  function EvaluatedOver(cursor: int, batches: seq<seq<Line>>): seq<Line> {
    if batches == [] then []
    else
      var n := |batches| - 1;
      EvaluatedOver(cursor, batches[..n]) + Evaluated(CursorOver(cursor, batches[..n]), batches[n])
  }

  function CursorOver(cursor: int, batches: seq<seq<Line>>): int {
    if batches == [] then cursor else Newest(CursorOver(cursor, batches[..|batches| - 1]), batches[|batches| - 1])
  }

  // --- what a line does -----------------------------------------------------------------------

  predicate SameDevice(a: Line, b: Line) {
    (if a.deviceId == "" then a.device else a.deviceId) == (if b.deviceId == "" then b.device else b.deviceId)
  }

  /** The places of the lines that say this line's port went down, in its last 300 seconds. */
  function RecentDowns(lines: seq<Line>, line: Line): set<int>
    requires line.verdict.LinkDown?
  {
    set i | 0 <= i < |lines| && lines[i].verdict.LinkDown? && lines[i].verdict.port == line.verdict.port &&
            SameDevice(lines[i], line) && line.heardAt - lines[i].heardAt <= 300
  }

  lemma {:induction false} RecentDownsAre(lines: seq<Line>, line: Line)
    requires line.verdict.LinkDown?
    ensures |RecentDowns(lines, line)| == RecentCount(DownsOf(lines, KeyOf(line, line.verdict.port)), line.heardAt)
  {
    if lines != [] {
      var n := |lines| - 1;
      RecentDownsAre(lines[..n], line);
      OneMoreDown(lines, line);
      var d := DownsOf(lines[..n], KeyOf(line, line.verdict.port));
      RecentOfOneMore(d, lines[n].heardAt, line.heardAt);
      assert d + [] == d;
    }
  }

  lemma RecentOfOneMore(d: seq<int>, t: int, now: int)
    ensures RecentCount(d + [t], now) == RecentCount(d, now) + if now - t <= 300 then 1 else 0
  {
    assert (d + [t])[..|d|] == d;
  }

  lemma OneMoreDown(lines: seq<Line>, line: Line)
    requires line.verdict.LinkDown? && lines != []
    ensures var n := |lines| - 1; var last := lines[n];
            && n !in RecentDowns(lines[..n], line)
            && RecentDowns(lines, line) ==
               RecentDowns(lines[..n], line) +
               if last.verdict.LinkDown? && last.verdict.port == line.verdict.port && SameDevice(last, line) &&
                  line.heardAt - last.heardAt <= 300 then {n} else {}
  {
    var n := |lines| - 1;
    assert forall i :: 0 <= i < n ==> lines[..n][i] == lines[i];
  }

  /** After any lines in the order of time: a link going down is raised with its severity,
      and flapping after it exactly when that port of that device went down three times in
      300 seconds, with its own severity; a link coming up clears its link_down and nothing
      else; any other line does what was made of it. */
  lemma LineDoesWhatItSays(lines: seq<Line>, line: Line)
    requires InTimeOrder(lines + [line])
    ensures ActsOf(HeardAfterAll(map[], lines), line) ==
            match line.verdict
            case LinkDown(port, severity, flapSeverity) =>
              var recent := |RecentDowns(lines + [line], line)|;
              [Fault("port.link_down", port, "Link down: " + port + " on " + line.device, severity, None)] +
              (if recent < 3 then []
               else [Fault("port.flapping", port,
                           "Link flapping: " + port + " on " + line.device + " (" +
                           Decimal(if recent < 10 then recent else 10) + " downs in 5 min)", flapSeverity, None)])
            case LinkUp(port) => [Clear("port.link_down", port)]
            case Other(acts) => acts
  {
    if line.verdict.LinkDown? {
      FlapCount(lines, line);
    }
  }

  lemma FlapCount(lines: seq<Line>, line: Line)
    requires line.verdict.LinkDown? && InTimeOrder(lines + [line])
    ensures var before := Before(HeardAfterAll(map[], lines), KeyOf(line, line.verdict.port));
            var recent := |RecentDowns(lines + [line], line)|;
            RecentCount(Remember(LastN(before, FLAP_MEMORY), line.heardAt), line.heardAt) ==
            if recent < 10 then recent else 10
  {
    var key := KeyOf(line, line.verdict.port);
    assert (lines + [line])[..|lines|] == lines;
    HeardIsDowns(lines, key);
    RecentDownsAre(lines + [line], line);
    DownsAreOrdered(lines + [line], key);
    FlapDecidesFromFullHistory(DownsOf(lines, key), line.heardAt);
    BoundedMemoryCounts(DownsOf(lines + [line], key), FLAP_MEMORY, line.heardAt);
  }

  // --- which events are open ------------------------------------------------------------------------

  /** What an act does to one signature: open it, close it, or neither. */
  predicate Opens(i: Issued, sig: Signature) {
    i.act.Fault? && i.act.severity != "ignore" && sig == DeviceSig(i.act.kind, i.line, i.act.subject)
  }

  predicate Shuts(i: Issued, sig: Signature) {
    i.act.Clear? && sig == DeviceSig(i.act.kind, i.line, i.act.subject)
  }

  lemma ReplacedOpen(t: Table, u: Table, k: int, row: Row, sig: Signature)
    requires Ok(t) && Replaces(t, u, k, row) && row.sig == t.rows[k].sig
    requires forall i :: 0 <= i < |t.rows| && t.rows[i].sig == row.sig ==> t.rows[i].id <= t.rows[k].id
    ensures HasOpen(u, sig) <==> if sig == row.sig then row.resolvedAt == None else HasOpen(t, sig)
  {
    assert row.resolvedAt == None ==> IsOpenAt(u, k, row.sig);
    OpenIsNewest(t, row.sig);
    if i :| IsOpenAt(u, i, sig) {
      if i != k {
        assert IsOpenAt(t, i, sig);
        assert i < k && t.rows[i].sig == t.rows[k].sig ==> !t.rows[i].Open();
        assert k < i ==> InOrder(t.rows[k], t.rows[i]);
      }
    }
    if i :| IsOpenAt(t, i, sig) {
      assert i != k ==> IsOpenAt(u, i, sig);
    }
  }

  /** The open row is the newest of its signature. */
  lemma OpenHasHighestId(t: Table, k: int, sig: Signature)
    requires Ok(t) && IsOpenAt(t, k, sig)
    ensures forall i :: 0 <= i < |t.rows| && t.rows[i].sig == sig ==> t.rows[i].id <= t.rows[k].id
  {
    forall i | 0 <= i < |t.rows| && t.rows[i].sig == sig
      ensures t.rows[i].id <= t.rows[k].id
    {
      assert i < k ==> InOrder(t.rows[i], t.rows[k]);
      assert k < i ==> InOrder(t.rows[k], t.rows[i]);
    }
  }

  lemma ReportOpens(t: Table, r: Report, window: int, sig: Signature)
    requires Ok(t)
    ensures HasOpen(ReportOnce(t, r, window).table, sig) <==> sig == SigOf(r) || HasOpen(t, sig)
  {
    var u, row := ReportOnce(t, r, window).table, ReportOnce(t, r, window).row.value;
    ReportWrites(t, r, window);
    if HasOpen(t, SigOf(r)) {
      var k :| IsOpenAt(t, k, SigOf(r)) && Replaces(t, u, k, row) && IsBump(t.rows[k], row, r.detail, t.now);
      OpenHasHighestId(t, k, SigOf(r));
      ReplacedOpen(t, u, k, row, sig);
    } else if window > 0 && HasRecent(t, SigOf(r), window) {
      var k :| IsRecentAt(t, k, SigOf(r), window) && Replaces(t, u, k, row) &&
               IsReopening(t.rows[k], row, r, r.detail, t.now);
      ReplacedOpen(t, u, k, row, sig);
    } else {
      AppendedOpen(t, u, row, sig);
    }
  }

  lemma AppendedOpen(t: Table, u: Table, row: Row, sig: Signature)
    requires u.rows == t.rows + [row] && row.resolvedAt == None
    ensures HasOpen(u, sig) <==> sig == row.sig || HasOpen(t, sig)
  {
    assert IsOpenAt(u, |t.rows|, row.sig);
    if i :| IsOpenAt(t, i, sig) {
      assert IsOpenAt(u, i, sig);
    }
    if i :| IsOpenAt(u, i, sig) {
      assert i < |t.rows| ==> IsOpenAt(t, i, sig);
    }
  }

  lemma ResolveShuts(t: Table, closed: Signature, actor: string, note: Option<string>, sig: Signature)
    requires Ok(t)
    ensures HasOpen(Exec(t, Resolve(closed, actor, note)).table, sig) <==> sig != closed && HasOpen(t, sig)
  {
    var u, row := Exec(t, Resolve(closed, actor, note)).table, Exec(t, Resolve(closed, actor, note)).row;
    StatementWrites(t, Resolve(closed, actor, note));
    if HasOpen(t, closed) {
      var k :| IsOpenAt(t, k, closed) && Replaces(t, u, k, row.value) &&
               IsClosing(t.rows[k], row.value, actor, note, t.now);
      OpenHasHighestId(t, k, closed);
      ReplacedOpen(t, u, k, row.value, sig);
    }
  }

  lemma HandledKeepsOk(t: Table, i: Issued)
    requires Ok(t)
    ensures Ok(Handled(t, i))
  {
    if i.act.Fault? {
      if i.act.severity != "ignore" {
        var r := Clipped(ReportOf(i.line, i.act, i.source));
        AloneIsReportOnce(t, r, REOPEN_WITHIN_SECONDS);
        ExecKeepsOk(t, Bump(r.Sig(), r.detail));
        ExecKeepsOk(t, Reopen(r, REOPEN_WITHIN_SECONDS));
        ExecKeepsOk(t, Insert(r));
      }
    } else {
      ExecKeepsOk(t, Resolve(ClearedBy(i.line, i.act), i.source, NoteOf(i.line)));
    }
  }

  lemma HandledOpens(t: Table, i: Issued, sig: Signature)
    requires Ok(t)
    ensures HasOpen(Handled(t, i), sig) <==> Opens(i, sig) || (!Shuts(i, sig) && HasOpen(t, sig))
  {
    if i.act.Fault? {
      if i.act.severity != "ignore" {
        ReportIsOf(i.line, i.act, i.source);
        ReportOpens(t, Clipped(ReportOf(i.line, i.act, i.source)), REOPEN_WITHIN_SECONDS, sig);
      }
    } else {
      assert ClearedBy(i.line, i.act) == DeviceSig(i.act.kind, i.line, i.act.subject);
      ResolveShuts(t, ClearedBy(i.line, i.act), i.source, NoteOf(i.line), sig);
    }
  }

  // --- links -----------------------------------------------------------------------------------------

  /** The last thing the lines say of a link: down, up, or nothing.  A down that settings
      ignore says nothing. */
  function LastWord(lines: seq<Line>, deviceKey: string, port: string): Option<bool> {
    if lines == [] then None
    else
      var line := lines[|lines| - 1];
      var here := (if line.deviceId == "" then line.device else line.deviceId) == deviceKey;
      match line.verdict
      case LinkDown(p, severity, _) =>
        if here && p == port && severity != "ignore" then Some(true)
        else LastWord(lines[..|lines| - 1], deviceKey, port)
      case LinkUp(p) => if here && p == port then Some(false) else LastWord(lines[..|lines| - 1], deviceKey, port)
      case Other(_) => LastWord(lines[..|lines| - 1], deviceKey, port)
  }

  /** Other detectors leave link events alone. */
  ghost predicate LeavesLinks(lines: seq<Line>) {
    forall line, act :: line in lines && line.verdict.Other? && act in line.verdict.acts ==>
      act.kind != "port.link_down"
  }

  lemma {:induction false} HandedLeaves(t: Table, handed: seq<Issued>, sig: Signature)
    requires Ok(t) && forall i :: i in handed ==> !Opens(i, sig) && !Shuts(i, sig)
    ensures Ok(HandledAll(t, handed)) && (HasOpen(HandledAll(t, handed), sig) <==> HasOpen(t, sig))
  {
    if handed != [] {
      var front, last := handed[..|handed| - 1], handed[|handed| - 1];
      HandedLeaves(t, front, sig);
      assert last in handed;
      HandledKeepsOk(HandledAll(t, front), last);
      HandledOpens(HandledAll(t, front), last, sig);
    }
  }

  lemma FirstThenRest(t: Table, first: Issued, rest: seq<Issued>, sig: Signature)
    requires Ok(t) && forall i :: i in rest ==> !Opens(i, sig) && !Shuts(i, sig)
    ensures Ok(HandledAll(t, [first] + rest))
    ensures HasOpen(HandledAll(t, [first] + rest), sig) <==>
            Opens(first, sig) || (!Shuts(first, sig) && HasOpen(t, sig))
  {
    HandledInTwoParts(t, [first], rest);
    assert [first][..0] == [] && HandledAll(t, []) == t;
    assert HandledAll(t, [first]) == Handled(t, first);
    HandledKeepsOk(t, first);
    HandledOpens(t, first, sig);
    HandedLeaves(Handled(t, first), rest, sig);
  }

  /** What one line does to one link. */
  lemma LineOnLink(t: Table, heard: map<PortKey, seq<int>>, line: Line, source: string, deviceKey: string, port: string)
    requires Ok(t) && LeavesLinks([line])
    ensures var sig := Signature("port.link_down", deviceKey, port);
            var u := HandledAll(t, Tagged(line, source, ActsOf(heard, line)));
            var word := LastWord([line], deviceKey, port);
            Ok(u) && (HasOpen(u, sig) <==> if word.Some? then word.value else HasOpen(t, sig))
  {
    var sig := Signature("port.link_down", deviceKey, port);
    var acts := ActsOf(heard, line);
    assert [line][..0] == [] && line in [line];
    match line.verdict
    case LinkDown(p, severity, flapSeverity) =>
      var rest := FlapActs(line, p, flapSeverity, Before(heard, KeyOf(line, p)));
      TaggedInTwoParts(line, source, [DownFault(line, p, severity)], rest);
      var down := Issued(line, source, DownFault(line, p, severity));
      assert Tagged(line, source, [DownFault(line, p, severity)]) == [down];
      FirstThenRest(t, down, Tagged(line, source, rest), sig);
    case LinkUp(p) =>
      assert Tagged(line, source, acts) == [Issued(line, source, Clear("port.link_down", p))] + [];
      FirstThenRest(t, Issued(line, source, Clear("port.link_down", p)), [], sig);
    case Other(_) => HandedLeaves(t, Tagged(line, source, acts), sig);
  }

  /** With nobody interfering, after any lines a link's event is open exactly when the last
      thing they say of it is that it is down - or they say nothing, and it was open. */
  lemma {:induction false} LinkIsOpenIffLastDown(t: Table, heard: map<PortKey, seq<int>>, lines: seq<Line>,
                                                 source: string, deviceKey: string, port: string)
    requires Ok(t) && LeavesLinks(lines)
    ensures var sig := Signature("port.link_down", deviceKey, port);
            var u := HandledAll(t, IssuedBy(heard, lines, source)); var word := LastWord(lines, deviceKey, port);
            Ok(u) && (HasOpen(u, sig) <==> if word.Some? then word.value else HasOpen(t, sig))
  {
    if lines != [] {
      var front, last := lines[..|lines| - 1], lines[|lines| - 1];
      LeavesInParts(lines);
      LinkIsOpenIffLastDown(t, heard, front, source, deviceKey, port);
      var mid := HandledAll(t, IssuedBy(heard, front, source));
      HandledInTwoParts(t, IssuedBy(heard, front, source),
                        Tagged(last, source, ActsOf(HeardAfterAll(heard, front), last)));
      LineOnLink(mid, HeardAfterAll(heard, front), last, source, deviceKey, port);
      WordOfOneMore(lines, deviceKey, port);
    }
  }

  lemma LeavesInParts(lines: seq<Line>)
    requires lines != [] && LeavesLinks(lines)
    ensures LeavesLinks(lines[..|lines| - 1]) && LeavesLinks([lines[|lines| - 1]])
  {
    assert forall line :: line in lines[..|lines| - 1] ==> line in lines;
    assert lines[|lines| - 1] in lines;
  }

  lemma WordOfOneMore(lines: seq<Line>, deviceKey: string, port: string)
    requires lines != []
    ensures var word := LastWord([lines[|lines| - 1]], deviceKey, port);
            LastWord(lines, deviceKey, port) ==
            if word.Some? then word else LastWord(lines[..|lines| - 1], deviceKey, port)
  {
    assert [lines[|lines| - 1]][..0] == [];
  }

  lemma {:induction false} IssuedInTwoParts(heard: map<PortKey, seq<int>>, a: seq<Line>, b: seq<Line>, source: string)
    ensures IssuedBy(heard, a + b, source) == IssuedBy(heard, a, source) + IssuedBy(HeardAfterAll(heard, a), b, source)
    ensures HeardAfterAll(heard, a + b) == HeardAfterAll(HeardAfterAll(heard, a), b)
  {
    if b == [] {
      assert a + b == a;
      assert IssuedBy(heard, a, source) + [] == IssuedBy(heard, a, source);
    } else {
      var front, last := b[..|b| - 1], b[|b| - 1];
      IssuedInTwoParts(heard, a, front, source);
      assert (a + b)[..|a + b| - 1] == a + front && (a + b)[|a + b| - 1] == last;
      Reassociate(IssuedBy(heard, a, source), IssuedBy(HeardAfterAll(heard, a), front, source),
                  Tagged(last, source, ActsOf(HeardAfterAll(heard, a + front), last)));
    }
  }

  /** Any batches of either path, one after the other. */
  method ProcessAll(d: SyslogDetector, batches: seq<seq<Line>>, source: string)
    requires d.Valid()
    modifies d, d.store
    ensures d.Valid() && d.cursor == CursorOver(old(d.cursor), batches)
    ensures d.heard == HeardAfterAll(old(d.heard), EvaluatedOver(old(d.cursor), batches))
    ensures Handed(old(d.Now()), d.Now(), IssuedBy(old(d.heard), EvaluatedOver(old(d.cursor), batches), source))
    // In terms of the columns: which links are open, if nobody interferes.
    ensures |d.store.others| == |old(d.store.others)| && LeavesLinks(EvaluatedOver(old(d.cursor), batches)) ==>
              forall deviceKey, port ::
                HasOpen(d.store.table, Signature("port.link_down", deviceKey, port)) <==>
                (var word := LastWord(EvaluatedOver(old(d.cursor), batches), deviceKey, port);
                 if word.Some? then word.value
                 else HasOpen(old(d.store.table), Signature("port.link_down", deviceKey, port)))
  {
    ghost var heard0, t0 := d.heard, d.store.table;
    HandedNothing(d.Now());
    for i := 0 to |batches|
      invariant d.Valid() && d.cursor == CursorOver(old(d.cursor), batches[..i])
      invariant d.heard == HeardAfterAll(heard0, EvaluatedOver(old(d.cursor), batches[..i]))
      invariant Handed(old(d.Now()), d.Now(), IssuedBy(heard0, EvaluatedOver(old(d.cursor), batches[..i]), source))
    {
      assert batches[..i + 1][..i] == batches[..i];
      ghost var front, lines := EvaluatedOver(old(d.cursor), batches[..i]), Evaluated(d.cursor, batches[i]);
      IssuedInTwoParts(heard0, front, lines, source);
      ghost var mid := d.Now();
      var n := d.Process(batches[i], source);
      HandedTwice(old(d.Now()), mid, d.Now(), IssuedBy(heard0, front, source),
                  IssuedBy(HeardAfterAll(heard0, front), lines, source));
    }
    assert batches[..|batches|] == batches;
    ghost var all := EvaluatedOver(old(d.cursor), batches);
    if |d.store.others| == |old(d.store.others)| && LeavesLinks(all) {
      forall deviceKey, port
        ensures HasOpen(d.store.table, Signature("port.link_down", deviceKey, port)) <==>
                (var word := LastWord(all, deviceKey, port);
                 if word.Some? then word.value else HasOpen(t0, Signature("port.link_down", deviceKey, port)))
      {
        LinkIsOpenIffLastDown(t0, heard0, all, source, deviceKey, port);
      }
    }
  }
}
