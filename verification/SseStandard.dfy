/** The interpretation of an event stream as sections 9.2.5 and 9.2.6 of the WHATWG
    HTML Living Standard (server-sent events) state it, independently of the reader,
    and the proof that the reader agrees with it on type and data. */
module SseStandard {
  import opened Bytes
  import R = SseReader

  /** What a listener sees of an event: its type and its data. */
  datatype Message = Message(kind: Bytes, data: Bytes)

  datatype Buffers = Buffers(data: Bytes, kind: Bytes)

  const EMPTY := Buffers("", "")

  // ---------- section 9.2.5: the stream is lines ended by CRLF, LF or CR ----------

  function EndOfLine(s: Bytes): (i: nat)
    ensures i <= |s|
    ensures forall j :: 0 <= j < i ==> s[j] != CR && s[j] != LF
    ensures i < |s| ==> s[i] == CR || s[i] == LF
  {
    if s == [] || s[0] == CR || s[0] == LF then 0 else 1 + EndOfLine(s[1..])
  }

  /** The first line and what follows it, when the stream holds a whole line. */
  function CutLine(s: Bytes): (r: Option<(Bytes, Bytes)>)
    ensures r.Some? ==> |r.value.1| < |s|
  {
    var i := EndOfLine(s);
    if i == |s| then None
    else if s[i] == CR && i + 1 < |s| && s[i + 1] == LF then Some((s[..i], s[i + 2..]))
    else Some((s[..i], s[i + 1..]))
  }

  function Lines(s: Bytes): seq<Bytes>
    decreases |s|
  {
    match CutLine(s)
    case None => []
    case Some((line, rest)) => [line] + Lines(rest)
  }

  // ---------- section 9.2.6: lines fill buffers, a blank line dispatches ----------

  function ProcessField(b: Buffers, name: Bytes, value: Bytes): Buffers {
    if name == "event" then b.(kind := value)
    else if name == "data" then b.(data := b.data + (value + [LF]))
    else b
  }

  /** Field name and value of a line that is not a comment. */
  function SplitField(line: Bytes): (Bytes, Bytes) {
    if ':' in line then
      var i := IndexOf(line, ':');
      var value := line[i + 1..];
      (line[..i], if " " <= value then value[1..] else value)
    else (line, [])
  }

  function ProcessLine(b: Buffers, line: Bytes): Buffers
    requires line != []
  {
    if line[0] == ':' then b
    else
      var (name, value) := SplitField(line);
      ProcessField(b, name, value)
  }

  function Dispatch(b: Buffers): seq<Message> {
    if b.data == [] then []
    else
      var n := |b.data| - 1;
      [Message(if b.kind != [] then b.kind else "message", if b.data[n] == LF then b.data[..n] else b.data)]
  }

  function Interpret(lines: seq<Bytes>, b: Buffers): seq<Message> {
    if lines == [] then []
    else if lines[0] == [] then Dispatch(b) + Interpret(lines[1..], EMPTY)
    else Interpret(lines[1..], ProcessLine(b, lines[0]))
  }

  /** A leading byte order mark, the bytes EF BB BF, is no part of the stream. */
  function WithoutBOM(stream: Bytes): Bytes {
    if |stream| >= 3 && stream[0] == '\U{EF}' && stream[1] == '\U{BB}' && stream[2] == '\U{BF}' then stream[3..]
    else stream
  }

  lemma SameBOM(stream: Bytes)
    ensures R.StripBOM(stream) == WithoutBOM(stream)
  {
    if R.BOM <= stream { assert stream[0] == R.BOM[0] && stream[1] == R.BOM[1] && stream[2] == R.BOM[2]; }
    else if |stream| >= 3 { assert stream[..3] == [stream[0], stream[1], stream[2]]; }
  }

  function Messages(stream: Bytes): seq<Message> {
    Interpret(Lines(WithoutBOM(stream)), EMPTY)
  }

  // ---------- the reader agrees ----------

  /** Every CR is the first half of a CRLF. */
  predicate CRLFOnly(s: Bytes) {
    forall i :: 0 <= i < |s| && s[i] == CR ==> i + 1 < |s| && s[i + 1] == LF
  }

  function View(evs: seq<R.Event>): seq<Message> {
    if evs == [] then [] else [Message(evs[0].event, evs[0].data)] + View(evs[1..])
  }

  lemma {:induction false} TrimRightAfter(a: Bytes, b: Bytes)
    requires a != [] && a[|a| - 1] != CR && a[|a| - 1] != LF
    ensures TrimRight(a + b) == a + TrimRight(b)
    decreases |b|
  {
    if b == [] {
      assert a + b == a;
    } else {
      var n := |b| - 1;
      assert (a + b)[..|a + b| - 1] == a + b[..n];
      TrimRightAfter(a, b[..n]);
    }
  }

  lemma TrimRightEnding(t: Bytes, ending: Bytes)
    requires t == [] || (t[|t| - 1] != CR && t[|t| - 1] != LF)
    requires ending == [LF] || ending == [CR, LF]
    ensures TrimRight(t + ending) == t
  {
    assert TrimRight([]) == [];
    assert [LF][..0] == [] && TrimRight([LF]) == [];
    assert [CR][..0] == [] && TrimRight([CR]) == [];
    assert [CR, LF][..1] == [CR] && TrimRight([CR, LF]) == [];
    if t == [] {
      assert t + ending == ending;
    } else {
      TrimRightAfter(t, ending);
    }
  }

  lemma EndOfLineIs(s: Bytes, k: nat)
    requires k < |s| && (s[k] == CR || s[k] == LF)
    requires forall j :: 0 <= j < k ==> s[j] != CR && s[j] != LF
    ensures EndOfLine(s) == k
  {
  }

  lemma CRLFOnlyRest(s: Bytes, k: nat)
    requires CRLFOnly(s) && k <= |s|
    ensures CRLFOnly(s[k..])
  {
    forall i | 0 <= i < |s| - k && s[k..][i] == CR
      ensures i + 1 < |s| - k && s[k..][i + 1] == LF
    {
      assert s[k + i] == CR;
    }
  }

  lemma LineBeforeCRLF(s: Bytes, i: nat)
    requires 0 < i < |s| && s[i - 1] == CR && s[i] == LF
    requires forall j :: 0 <= j < i - 1 ==> s[j] != CR && s[j] != LF
    ensures CutLine(s) == Some((TrimRight(s[..i + 1]), s[i + 1..]))
  {
    EndOfLineIs(s, i - 1);
    assert s[..i + 1] == s[..i - 1] + [CR, LF];
    TrimRightEnding(s[..i - 1], [CR, LF]);
  }

  lemma LineBeforeLF(s: Bytes, i: nat)
    requires i < |s| && s[i] == LF
    requires forall j :: 0 <= j < i ==> s[j] != CR && s[j] != LF
    ensures CutLine(s) == Some((TrimRight(s[..i + 1]), s[i + 1..]))
  {
    EndOfLineIs(s, i);
    assert s[..i + 1] == s[..i] + [LF];
    TrimRightEnding(s[..i], [LF]);
  }

  /** Up to its first LF a CRLF-only stream is one line in both readings. */
  lemma FirstLine(s: Bytes, i: nat)
    requires CRLFOnly(s) && i < |s| && s[i] == LF
    requires forall j :: 0 <= j < i ==> s[j] != LF
    ensures CutLine(s) == Some((TrimRight(s[..i + 1]), s[i + 1..]))
  {
    forall j | 0 <= j < i && s[j] == CR
      ensures j + 1 == i
    {
      assert s[j + 1] == LF;
    }
    if i > 0 && s[i - 1] == CR {
      LineBeforeCRLF(s, i);
    } else {
      LineBeforeLF(s, i);
    }
  }

  lemma NoLF(s: Bytes)
    requires CRLFOnly(s) && LF !in s
    ensures Lines(s) == []
  {
  }

  lemma {:induction false} LinesAreTexts(s: Bytes)
    requires CRLFOnly(s)
    ensures Lines(s) == R.Texts(s, false)
    decreases |s|
  {
    var i := IndexOf(s, LF);
    if i == |s| {
      NoLF(s);
    } else {
      assert forall j :: 0 <= j < i ==> s[..i][j] == s[j];
      FirstLine(s, i);
      CRLFOnlyRest(s, i + 1);
      LinesAreTexts(s[i + 1..]);
    }
  }

  lemma BOMLine(rest: Bytes, i: nat)
    requires i < |rest| && rest[i] == LF && LF !in rest[..i]
    ensures var s := R.BOM + rest;
            && IndexOf(s, LF) == i + 3
            && R.LineText(s[..i + 4], true) == TrimRight(rest[..i + 1])
            && s[i + 4..] == rest[i + 1..]
  {
    var s := R.BOM + rest;
    assert s[..i + 3] == R.BOM + rest[..i] && s[i + 3] == LF;
    IndexOfIs(s, LF, i + 3);
    assert s[..i + 4] == R.BOM + rest[..i + 1];
    TrimRightAfter(R.BOM, rest[..i + 1]);
  }

  lemma BOMTexts(rest: Bytes)
    ensures R.Texts(R.BOM + rest, true) == R.Texts(rest, false)
  {
    var i := IndexOf(rest, LF);
    if i < |rest| {
      BOMLine(rest, i);
    }
  }

  lemma StreamTexts(s: Bytes)
    requires CRLFOnly(s)
    ensures Lines(WithoutBOM(s)) == R.Texts(s, true)
  {
    SameBOM(s);
    if R.BOM <= s {
      assert s == R.BOM + s[3..];
      BOMTexts(s[3..]);
      CRLFOnlyRest(s, 3);
      LinesAreTexts(s[3..]);
    } else {
      R.TextsWithoutBOM(s);
      LinesAreTexts(s);
    }
  }

  /** How many lines the standard counts: LFs, and CRs that no LF follows. */
  function LineEnds(s: Bytes): nat {
    if s == [] then 0
    else if s[0] == LF || (s[0] == CR && !(|s| > 1 && s[1] == LF)) then 1 + LineEnds(s[1..])
    else LineEnds(s[1..])
  }

  function LFs(s: Bytes): nat {
    if s == [] then 0 else (if s[0] == LF then 1 else 0) + LFs(s[1..])
  }

  lemma {:induction false} SkipToEnd(s: Bytes, i: nat)
    requires i <= |s|
    requires forall j :: 0 <= j < i ==> s[j] != CR && s[j] != LF
    ensures LineEnds(s) == LineEnds(s[i..]) && LFs(s) == LFs(s[i..])
  {
    if i > 0 {
      SkipToEnd(s[1..], i - 1);
      assert s[1..][i - 1..] == s[i..];
    }
  }

  lemma {:induction false} LinesCounted(s: Bytes)
    ensures |Lines(s)| == LineEnds(s)
    decreases |s|
  {
    var i := EndOfLine(s);
    SkipToEnd(s, i);
    if i < |s| {
      var rest := CutLine(s).value.1;
      LinesCounted(rest);
      if s[i] == CR && i + 1 < |s| && s[i + 1] == LF {
        assert s[i..][1..][1..] == rest;
      } else {
        assert s[i..][1..] == rest;
      }
    }
  }

  lemma {:induction false} LFsSkip(s: Bytes, i: nat)
    requires i <= |s| && LF !in s[..i]
    ensures LFs(s) == LFs(s[i..])
  {
    if i > 0 {
      assert s[..i][0] == s[0] && s[1..][..i - 1] == s[..i][1..];
      LFsSkip(s[1..], i - 1);
      assert s[1..][i - 1..] == s[i..];
    }
  }

  lemma {:induction false} TextsCounted(s: Bytes, first: bool)
    ensures |R.Texts(s, first)| == LFs(s)
    decreases |s|
  {
    var i := IndexOf(s, LF);
    LFsSkip(s, i);
    if i < |s| {
      assert s[i..][1..] == s[i + 1..];
      TextsCounted(s[i + 1..], false);
    }
  }

  lemma {:induction false} LoneCRsCount(s: Bytes)
    ensures LineEnds(s) >= LFs(s)
    ensures LineEnds(s) == LFs(s) ==> CRLFOnly(s)
  {
    if s != [] {
      LoneCRsCount(s[1..]);
      assert forall i :: 0 < i < |s| ==> s[i] == s[1..][i - 1];
    }
  }

  lemma StripBOMCounts(s: Bytes)
    ensures LineEnds(R.StripBOM(s)) == LineEnds(s) && LFs(R.StripBOM(s)) == LFs(s)
  {
    if R.BOM <= s { SkipToEnd(s, 3); }
  }

  /** The reader sees the standard's lines exactly when every CR belongs to a CRLF. */
  lemma SameLinesExactly(s: Bytes)
    ensures Lines(WithoutBOM(s)) == R.Texts(s, true) <==> CRLFOnly(s)
  {
    SameBOM(s);
    if CRLFOnly(s) {
      StreamTexts(s);
    } else {
      LinesCounted(R.StripBOM(s));
      TextsCounted(s, true);
      StripBOMCounts(s);
      LoneCRsCount(s);
    }
  }

  lemma SameSplit(line: Bytes)
    ensures SplitField(line) == R.ParseLine(line)
  {
    var i := IndexOf(line, ':');
    if i < |line| {
      var value := line[i + 1..];
      assert (" " <= value) == (value != [] && value[0] == ' ');
    }
  }

  /** What the reader calls a field is the field's name. */
  lemma FieldNames(line: Bytes)
    requires line != []
    ensures line[0] == ':' ==> R.FieldOf(line) == R.Ignored
    ensures line[0] != ':' ==> (R.FieldOf(line) == R.Data <==> R.ParseLine(line).0 == "data")
    ensures line[0] != ':' ==> (R.FieldOf(line) == R.Type <==> R.ParseLine(line).0 == "event")
  {
    assert (":" <= line) == (line[0] == ':');
  }

  lemma SamePut(acc: R.Event, field: R.Field, name: Bytes, value: Bytes)
    requires (field == R.Data <==> name == "data") && (field == R.Type <==> name == "event")
    ensures var acc' := R.Put(acc, field, value);
            ProcessField(Buffers(acc.data, acc.event), name, value) == Buffers(acc'.data, acc'.event)
  {
  }

  lemma SameStep(acc: R.Event, line: Bytes)
    requires line != []
    ensures var acc' := R.Accumulate(acc, line);
            ProcessLine(Buffers(acc.data, acc.event), line) == Buffers(acc'.data, acc'.event)
  {
    FieldNames(line);
    if line[0] != ':' {
      SameSplit(line);
      SamePut(acc, R.FieldOf(line), R.ParseLine(line).0, R.ValueOf(line));
    }
  }

  lemma {:induction false} SameEvents(lines: seq<Bytes>, acc: R.Event)
    ensures View(R.Deliver(lines, acc)) == Interpret(lines, Buffers(acc.data, acc.event))
    decreases |lines|
  {
    if lines == [] {
    } else if lines[0] == [] {
      SameEvents(lines[1..], R.BLANK);
      var rest := R.Deliver(lines[1..], R.BLANK);
      if acc.data == [] {
        assert R.Completed(acc) + rest == rest;
        assert [] + Interpret(lines[1..], EMPTY) == Interpret(lines[1..], EMPTY);
      } else {
        assert (R.Completed(acc) + rest)[1..] == rest;
      }
    } else {
      SameStep(acc, lines[0]);
      SameEvents(lines[1..], R.Accumulate(acc, lines[0]));
    }
  }

  /** On every stream whose CRs all belong to CRLFs the reader delivers exactly the
      standard's events. */
  lemma ReaderMeetsStandard(stream: Bytes)
    requires CRLFOnly(stream)
    ensures View(R.Read(stream)) == Messages(stream)
  {
    StreamTexts(stream);
    SameEvents(R.Texts(stream, true), R.BLANK);
  }

  lemma LinesOfLoneCRs(d: Bytes)
    requires CR !in d && LF !in d
    ensures Lines(d + [CR, CR]) == [d, []]
  {
    var s := d + [CR, CR];
    EndOfLineIs(s, |d|);
    assert s[..|d|] == d && s[|d| + 1..] == [CR];
    assert CutLine(s) == Some((d, [CR]));
    assert CutLine([CR]) == Some(([], []));
    assert Lines([CR]) == [[]] + Lines([]);
  }

  lemma OneLineMessages(d: Bytes)
    requires d != []
    ensures Interpret([d, []], EMPTY) == Dispatch(ProcessLine(EMPTY, d))
  {
    var b := ProcessLine(EMPTY, d);
    assert [d, []][1..] == [[]];
    assert Interpret([[]], b) == Dispatch(b) + Interpret([], EMPTY);
  }

  /** A lone CR is where the two part: the standard ends a line there. */
  lemma LoneCRDiffers()
    ensures var d: Bytes := "data";
            && Messages(d + [CR, CR]) == [Message("message", "")]
            && R.Read(d + [CR, CR]) == []
  {
    var d: Bytes := "data";
    var s := d + [CR, CR];
    assert s[0] == 'd';
    LinesOfLoneCRs(d);
    OneLineMessages(d);
    assert ProcessLine(EMPTY, d) == Buffers([LF], "");
    assert [LF][..0] == [];
    assert LF !in s;
  }
}
