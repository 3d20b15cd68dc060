/** The wire form in which a server writes events (one `id`, one `event` and one
    `data` line for each line of the data, then a blank line) and the proof that
    reading it back gives exactly the events written. */
module SseEncoding {
  import opened Bytes
  import opened SseReader

  /** A text that survives as the value of one line. */
  predicate LineSafe(s: Bytes) {
    LF !in s && (s != [] ==> s[|s| - 1] != CR)
  }

  /** The events a server can write: a type, no retry, and texts that fit their lines. */
  predicate Writable(e: Event) {
    && e.event != [] && LineSafe(e.event) && LineSafe(e.id) && e.retry == 0
    && forall l :: l in SplitOn(e.data, LF) ==> LineSafe(l)
  }

  const ID: Bytes := "id: "
  const TYPE: Bytes := "event: "
  const DATA: Bytes := "data: "

  function DataLines(lines: seq<Bytes>): (r: seq<Bytes>)
    ensures |r| == |lines|
    ensures forall i :: 0 <= i < |r| ==> r[i] == DATA + lines[i]
  {
    if lines == [] then [] else [DATA + lines[0]] + DataLines(lines[1..])
  }

  function IdLine(e: Event): seq<Bytes> { if e.id == [] then [] else [ID + e.id] }

  function TypeLine(e: Event): seq<Bytes> { if e.event == "message" then [] else [TYPE + e.event] }

  /** The field lines of one event; the default type is left out. */
  function FieldLines(e: Event): seq<Bytes> {
    IdLine(e) + TypeLine(e) + DataLines(SplitOn(e.data, LF))
  }

  function Encode(e: Event): Bytes {
    Terminated(FieldLines(e) + [[]])
  }

  function EncodeAll(evs: seq<Event>): Bytes {
    if evs == [] then [] else Encode(evs[0]) + EncodeAll(evs[1..])
  }

  // ---------- lines come back as they were written ----------

  lemma LineSafeText(l: Bytes)
    requires LineSafe(l)
    ensures TrimRight(l + [LF]) == l
  {
    assert (l + [LF])[..|l|] == l;
  }

  lemma {:induction false} TerminatedTexts(lines: seq<Bytes>)
    requires forall l :: l in lines ==> LineSafe(l)
    ensures Texts(Terminated(lines), false) == lines
  {
    if lines != [] {
      var l, rest := lines[0], Terminated(lines[1..]);
      assert l in lines && LineSafe(l);
      var s := l + [LF] + rest;
      assert s[..|l|] == l && s[|l|] == LF;
      IndexOfIs(s, LF, |l|);
      assert s[..|l| + 1] == l + [LF] && s[|l| + 1..] == rest;
      LineSafeText(l);
      TerminatedTexts(lines[1..]);
    }
  }

  // ---------- fields come back as they were written ----------

  /** "name: value" parses back into name and value. */
  lemma ParseWritten(name: Bytes, value: Bytes)
    requires ':' !in name
    ensures ParseLine(name + ": " + value) == (name, value)
  {
    var line := name + ": " + value;
    assert line[..|name|] == name && line[|name|] == ':';
    IndexOfIs(line, ':', |name|);
    assert line[|name| + 1..] == [' '] + value;
    assert ([' '] + value)[1..] == value;
  }

  lemma WrittenLine(name: Bytes, prefix: Bytes, value: Bytes)
    requires name != [] && ':' !in name && LF !in name && prefix == name + ": "
    requires LineSafe(value)
    ensures LineSafe(prefix + value) && prefix + value != []
    ensures ParseLine(prefix + value) == (name, value)
    ensures !(":" <= prefix + value)
  {
    ParseWritten(name, value);
    assert prefix + value == name + ": " + value;
    assert (prefix + value)[0] == name[0];
    assert name[0] in name;
  }

  /** `line` is safe to write and sets `field` to `value`. */
  predicate Sets(line: Bytes, field: Field, value: Bytes) {
    LineSafe(line) && line != [] && FieldOf(line) == field && ValueOf(line) == value
  }

  lemma WrittenId(value: Bytes)
    requires LineSafe(value)
    ensures Sets(ID + value, Id, value)
  {
    WrittenLine("id", ID, value);
  }

  lemma WrittenType(value: Bytes)
    requires LineSafe(value)
    ensures Sets(TYPE + value, Type, value)
  {
    WrittenLine("event", TYPE, value);
  }

  lemma WrittenData(value: Bytes)
    requires LineSafe(value)
    ensures Sets(DATA + value, Data, value)
  {
    WrittenLine("data", DATA, value);
  }

  /** The lines set one field, to `values` in order, and nothing else. */
  predicate SetOnly(lines: seq<Bytes>, field: Field, values: seq<Bytes>) {
    && (forall f :: Values(lines, f) == if f == field then values else [])
    && forall l :: l in lines ==> LineSafe(l) && l != []
  }

  lemma OneLineSets(line: Bytes, field: Field, value: Bytes)
    requires Sets(line, field, value)
    ensures SetOnly([line], field, [value])
  {
  }

  lemma {:induction false} ValuesAppend(a: seq<Bytes>, b: seq<Bytes>, f: Field)
    ensures Values(a + b, f) == Values(a, f) + Values(b, f)
  {
    if a == [] {
      assert a + b == b;
    } else {
      assert (a + b)[1..] == a[1..] + b;
      ValuesAppend(a[1..], b, f);
    }
  }

  lemma {:induction false} DataLinesSet(lines: seq<Bytes>)
    requires forall l :: l in lines ==> LineSafe(l)
    ensures SetOnly(DataLines(lines), Data, lines)
  {
    if lines != [] {
      assert lines[0] in lines;
      WrittenData(lines[0]);
      DataLinesSet(lines[1..]);
      assert DataLines(lines)[1..] == DataLines(lines[1..]);
    }
  }

  lemma IdLineSets(e: Event)
    requires Writable(e)
    ensures SetOnly(IdLine(e), Id, if e.id == [] then [] else [e.id])
  {
    WrittenId(e.id);
    OneLineSets(ID + e.id, Id, e.id);
  }

  lemma TypeLineSets(e: Event)
    requires Writable(e)
    ensures SetOnly(TypeLine(e), Type, if e.event == "message" then [] else [e.event])
  {
    WrittenType(e.event);
    OneLineSets(TYPE + e.event, Type, e.event);
  }

  lemma FieldLinesParts(e: Event, f: Field)
    ensures Values(FieldLines(e), f) ==
            Values(IdLine(e), f) + Values(TypeLine(e), f) + Values(DataLines(SplitOn(e.data, LF)), f)
  {
    ValuesAppend(IdLine(e) + TypeLine(e), DataLines(SplitOn(e.data, LF)), f);
    ValuesAppend(IdLine(e), TypeLine(e), f);
  }

  lemma FieldLinesSafe(e: Event)
    requires Writable(e)
    ensures forall l :: l in FieldLines(e) ==> LineSafe(l) && l != []
  {
    IdLineSets(e);
    TypeLineSets(e);
    DataLinesSet(SplitOn(e.data, LF));
  }

  lemma OnlyOne<T>(a: seq<T>, b: seq<T>, c: seq<T>)
    ensures a == [] && b == [] ==> a + b + c == c
    ensures a == [] && c == [] ==> a + b + c == b
    ensures b == [] && c == [] ==> a + b + c == a
  {
  }

  /** Values of the parts, put together. */
  lemma FieldLinesValues(e: Event, f: Field)
    requires Writable(e)
    ensures Values(FieldLines(e), f) ==
            match f
            case Id => if e.id == [] then [] else [e.id]
            case Type => if e.event == "message" then [] else [e.event]
            case Data => SplitOn(e.data, LF)
            case Retry => []
            case Ignored => []
  {
    IdLineSets(e);
    TypeLineSets(e);
    DataLinesSet(SplitOn(e.data, LF));
    FieldLinesParts(e, f);
    OnlyOne(Values(IdLine(e), f), Values(TypeLine(e), f), Values(DataLines(SplitOn(e.data, LF)), f));
  }

  lemma FieldLinesEvent(e: Event)
    requires Writable(e)
    ensures BlockEvents(FieldLines(e)) == [e]
  {
    FieldLinesValues(e, Id);
    FieldLinesValues(e, Type);
    FieldLinesValues(e, Data);
    FieldLinesValues(e, Retry);
    JoinSplit(e.data, LF);
  }

  // ---------- whole events ----------

  lemma FirstByte(e: Event)
    ensures FieldLines(e) != []
    ensures var l := FieldLines(e)[0]; ID <= l || TYPE <= l || DATA <= l
  {
    assert DataLines(SplitOn(e.data, LF))[0] == DATA + SplitOn(e.data, LF)[0];
  }

  lemma EncodeShape(e: Event)
    ensures Encode(e) == Terminated(FieldLines(e)) + [LF]
  {
    TerminatedAppend(FieldLines(e), [[]]);
    assert Terminated([[]]) == [LF];
  }

  lemma EncodeStart(e: Event)
    ensures Encode(e) != [] && Encode(e)[0] in "ied"
  {
    FirstByte(e);
    var lines := FieldLines(e) + [[]];
    assert lines[0] == FieldLines(e)[0];
    assert Encode(e) == lines[0] + [LF] + Terminated(lines[1..]);
  }

  /** The bytes on the wire for data of one line: what the mock server writes without and
      with a type, and an id in front. */
  lemma WireFormat(id: Bytes, kind: Bytes, data: Bytes)
    requires LF !in data && kind != "message" && id != ""
    ensures Encode(Event("", "message", data, 0)) == "data: " + data + "\n\n"
    ensures Encode(Event("", kind, data, 0)) == "event: " + kind + "\n" + "data: " + data + "\n\n"
    ensures Encode(Event(id, kind, data, 0)) == "id: " + id + "\n" + "event: " + kind + "\n" + "data: " + data + "\n\n"
  {
    var line := DATA + data;
    OneDataLine(data);
    ThreeLines([], [], line);
    ThreeLines([], [TYPE + kind], line);
    ThreeLines([ID + id], [TYPE + kind], line);
    LinesInPlace([], line);
    LinesInPlace(TYPE + kind + [LF], line);
    LinesInPlace(ID + id + [LF] + (TYPE + kind + [LF]), line);
    AppendAssociates(ID + id + [LF], TYPE + kind, [LF]);
    AppendAssociates(ID + id + [LF], TYPE, kind);
    AppendAssociates(TYPE + kind + [LF], DATA, data);
    AppendAssociates(ID + id + [LF] + TYPE + kind + [LF], DATA, data);
  }

  lemma OneDataLine(data: Bytes)
    requires LF !in data
    ensures DataLines(SplitOn(data, LF)) == [DATA + data]
  {
    assert SplitOn(data, LF) == [data] && [data][1..] == [];
  }

  lemma LinesInPlace(front: Bytes, line: Bytes)
    ensures front + line + [LF] + [LF] == front + line + "\n\n"
    ensures [] + line == line
  {
    assert [LF] + [LF] == "\n\n";
    AppendAssociates(front + line, [LF], [LF]);
  }

  lemma OneLine(a: seq<Bytes>)
    requires |a| <= 1
    ensures Terminated(a) == if a == [] then [] else a[0] + [LF]
  {
    assert a != [] ==> a[1..] == [];
  }

  lemma ThreeLines(a: seq<Bytes>, b: seq<Bytes>, c: Bytes)
    requires |a| <= 1 && |b| <= 1
    ensures Terminated(a + b + [c] + [[]]) ==
            (if a == [] then [] else a[0] + [LF]) + (if b == [] then [] else b[0] + [LF]) + c + [LF] + [LF]
  {
    TerminatedAppend(a + b + [c], [[]]);
    TerminatedAppend(a + b, [c]);
    TerminatedAppend(a, b);
    OneLine(a);
    OneLine(b);
    OneLine([c]);
    OneLine([[]]);
    assert [] + [LF] == [LF];
    AppendAssociates(Terminated(a) + Terminated(b), c, [LF]);
  }

  lemma NoBOM(s: Bytes, tail: Bytes)
    requires s != [] && s[0] in "ied"
    ensures !(BOM <= s) && !(BOM <= s + tail)
  {
    assert (s + tail)[0] == s[0];
  }

  lemma WrittenTexts(e: Event)
    requires Writable(e)
    ensures Texts(Encode(e), true) == FieldLines(e) + [[]]
    ensures !(BOM <= Encode(e))
  {
    EncodeStart(e);
    NoBOM(Encode(e), []);
    TextsWithoutBOM(Encode(e));
    FieldLinesSafe(e);
    TerminatedTexts(FieldLines(e) + [[]]);
  }

  lemma BlockDelivers(b: seq<Bytes>)
    requires [] !in b
    ensures Deliver(b + [[]], BLANK) == BlockEvents(b)
  {
    DeliverAppend(b, [[]], BLANK);
    AccumulatorMeaning(b, BLANK);
    CompletedBlock(b);
    var blank: seq<Bytes> := [[]];
    assert blank[1..] == [];
    assert Deliver([[]], Pending(b, BLANK)) == Completed(Pending(b, BLANK)) + [];
  }

  /** One written event is one block: it reads as itself and leaves nothing pending. */
  lemma EncodeReads(e: Event)
    requires Writable(e)
    ensures Read(Encode(e)) == [e]
    ensures EndsBlank(Encode(e)) && !(BOM <= Encode(e))
  {
    WrittenTexts(e);
    FieldLinesSafe(e);
    BlockDelivers(FieldLines(e));
    FieldLinesEvent(e);
    EncodeShape(e);
  }

  lemma EncodeAllNoBOM(evs: seq<Event>)
    ensures !(BOM <= EncodeAll(evs))
  {
    if evs != [] {
      EncodeStart(evs[0]);
      NoBOM(Encode(evs[0]), EncodeAll(evs[1..]));
    }
  }

  /** Reading the concatenated encodings delivers exactly the events encoded. */
  lemma {:induction false} RoundTrip(evs: seq<Event>)
    requires forall e :: e in evs ==> Writable(e)
    ensures Read(EncodeAll(evs)) == evs
  {
    if evs == [] {
      assert Texts([], true) == [];
    } else {
      assert evs[0] in evs;
      EncodeReads(evs[0]);
      RoundTrip(evs[1..]);
      EncodeAllNoBOM(evs[1..]);
      ReadAppend(Encode(evs[0]), EncodeAll(evs[1..]));
    }
  }
}
