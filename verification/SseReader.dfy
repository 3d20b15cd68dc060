/** The event-stream reader as a function of the bytes it reads: the text of each
    complete line, the event accumulated from the lines, and the events delivered.
    A second, declarative reading (group lines into blocks, one event a block) is
    proved equal to it. */
module SseReader {
  import opened Bytes

  datatype Event = Event(id: Bytes, event: Bytes, data: Bytes, retry: int)

  const BLANK := Event("", "", "", 0)
  const BOM: Bytes := ['\U{EF}', '\U{BB}', '\U{BF}']

  // ---------- lines ----------

  function StripBOM(s: Bytes): Bytes {
    if BOM <= s then s[|BOM|..] else s
  }

  /** What a line (with its LF) is reduced to before it is interpreted. */
  function LineText(line: Bytes, first: bool): Bytes {
    var t := TrimRight(line);
    if first then StripBOM(t) else t
  }

  /** The texts of all complete lines of `s`; what follows the last LF is dropped. */
  function Texts(s: Bytes, first: bool): (ts: seq<Bytes>)
    decreases |s|
  {
    var i := IndexOf(s, LF);
    if i == |s| then [] else [LineText(s[..i + 1], first)] + Texts(s[i + 1..], false)
  }

  // ---------- one line ----------

  function ParseLine(line: Bytes): (Bytes, Bytes) {
    var i := IndexOf(line, ':');
    if i == |line| then (line, [])
    else
      var rest := line[i + 1..];
      (line[..i], if rest != [] && rest[0] == ' ' then rest[1..] else rest)
  }

  datatype Field = Data | Type | Id | Retry | Ignored

  /** The field a line sets; comments and unknown names set none. */
  function FieldOf(line: Bytes): Field {
    if ":" <= line then Ignored
    else
      match ParseLine(line).0
      case "data" => Data
      case "event" => Type
      case "id" => Id
      case "retry" => Retry
      case _ => Ignored
  }

  function ValueOf(line: Bytes): Bytes { ParseLine(line).1 }

  const MIN_INT64 := -0x8000_0000_0000_0000
  const MAX_INT64 := 0x7FFF_FFFF_FFFF_FFFF

  function WrapInt64(x: int): int {
    (x - MIN_INT64) % 0x1_0000_0000_0000_0000 + MIN_INT64
  }

  predicate IsDigit(c: char) { '0' <= c <= '9' }

  predicate AllDigits(s: Bytes) { forall c :: c in s ==> IsDigit(c) }

  function Digits(s: Bytes): nat
    requires AllDigits(s)
  {
    if s == [] then 0
    else
      assert s[|s| - 1] in s;
      10 * Digits(s[..|s| - 1]) + (s[|s| - 1] as int - '0' as int)
  }

  /** A decimal integer with an optional sign that fits 64 bits. */
  function Atoi(s: Bytes): (r: Option<int>)
    ensures r.Some? ==> MIN_INT64 <= r.value <= MAX_INT64
  {
    var digits := if s != [] && s[0] in "+-" then s[1..] else s;
    if digits == [] || !AllDigits(digits) then None
    else
      var n: int := if s[0] == '-' then -(Digits(digits) as int) else Digits(digits);
      if MIN_INT64 <= n <= MAX_INT64 then Some(n) else None
  }

  function Put(acc: Event, field: Field, value: Bytes): Event {
    match field
    case Data => acc.(data := acc.data + (value + [LF]))
    case Type => acc.(event := value)
    case Id => acc.(id := value)
    case Retry => if Atoi(value).Some? then acc.(retry := Atoi(value).value) else acc
    case Ignored => acc
  }

  /** The pending event after one non-blank line. */
  function Accumulate(acc: Event, text: Bytes): Event {
    Put(acc, FieldOf(text), ValueOf(text))
  }

  /** The reconnect delay in nanoseconds after one non-blank line. */
  function DelayAfter(delay: int, text: Bytes): int {
    if FieldOf(text).Retry? && Atoi(ValueOf(text)).Some?
    then WrapInt64(Atoi(ValueOf(text)).value * 1_000_000)
    else delay
  }

  function TrimLF(s: Bytes): Bytes {
    if s != [] && s[|s| - 1] == LF then s[..|s| - 1] else s
  }

  /** What a blank line delivers: nothing, or the pending event. */
  function Completed(acc: Event): (evs: seq<Event>)
    ensures |evs| <= 1
  {
    if acc.data == [] then []
    else [acc.(data := TrimLF(acc.data), event := if acc.event == [] then "message" else acc.event)]
  }

  // ---------- many lines ----------

  /** The pending event once `texts` have been read. */
  function Pending(texts: seq<Bytes>, acc: Event): Event {
    if texts == [] then acc
    else if texts[0] == [] then Pending(texts[1..], BLANK)
    else Pending(texts[1..], Accumulate(acc, texts[0]))
  }

  /** The events delivered while `texts` are read. */
  function Deliver(texts: seq<Bytes>, acc: Event): seq<Event> {
    if texts == [] then []
    else if texts[0] == [] then Completed(acc) + Deliver(texts[1..], BLANK)
    else Deliver(texts[1..], Accumulate(acc, texts[0]))
  }

  function Delay(texts: seq<Bytes>, delay: int): int {
    if texts == [] then delay
    else if texts[0] == [] then Delay(texts[1..], delay)
    else Delay(texts[1..], DelayAfter(delay, texts[0]))
  }

  /** The last non-empty id among `evs`, or `id`: what the client resumes from. */
  function LastID(evs: seq<Event>, id: Bytes): Bytes {
    if evs == [] then id
    else if evs[|evs| - 1].id != [] then evs[|evs| - 1].id
    else LastID(evs[..|evs| - 1], id)
  }

  /** The events read from one connection that carried `body`. */
  function Read(body: Bytes): seq<Event> {
    Deliver(Texts(body, true), BLANK)
  }

  lemma {:induction false} DeliverAppend(a: seq<Bytes>, b: seq<Bytes>, acc: Event)
    ensures Deliver(a + b, acc) == Deliver(a, acc) + Deliver(b, Pending(a, acc))
    ensures Pending(a + b, acc) == Pending(b, Pending(a, acc))
    decreases |a|
  {
    if a == [] {
      assert a + b == b;
    } else {
      assert (a + b)[1..] == a[1..] + b;
      DeliverAppend(a[1..], b, if a[0] == [] then BLANK else Accumulate(acc, a[0]));
    }
  }

  lemma {:induction false} DelayAppend(a: seq<Bytes>, b: seq<Bytes>, delay: int)
    ensures Delay(a + b, delay) == Delay(b, Delay(a, delay))
    decreases |a|
  {
    if a == [] {
      assert a + b == b;
    } else {
      assert (a + b)[1..] == a[1..] + b;
      DelayAppend(a[1..], b, if a[0] == [] then delay else DelayAfter(delay, a[0]));
    }
  }

  // ---------- prefixes and composition ----------

  lemma TextsUnfold(s: Bytes, i: nat, first: bool)
    requires i < |s| && s[i] == LF && LF !in s[..i]
    ensures var ts := Texts(s, first);
            ts != [] && ts[0] == LineText(s[..i + 1], first) && ts[1..] == Texts(s[i + 1..], false)
  {
    IndexOfIs(s, LF, i);
  }

  lemma TextsStep(a: Bytes, b: Bytes, i: nat, first: bool)
    requires i < |a| && a[i] == LF && LF !in a[..i]
    ensures var ts := Texts(a + b, first);
            ts != [] && ts[0] == LineText(a[..i + 1], first) && ts[1..] == Texts(a[i + 1..] + b, false)
  {
    var s := a + b;
    assert s[..i] == a[..i] && s[..i + 1] == a[..i + 1] && s[i + 1..] == a[i + 1..] + b;
    TextsUnfold(s, i, first);
  }

  /** What follows the last LF. */
  function Unread(s: Bytes): (r: Bytes)
    ensures LF !in r
    ensures s != [] && s[|s| - 1] == LF ==> r == []
    decreases |s|
  {
    var i := IndexOf(s, LF);
    if i == |s| then s else Unread(s[i + 1..])
  }

  lemma UnreadStep(a: Bytes, i: nat)
    requires i < |a| && a[i] == LF && LF !in a[..i]
    ensures Unread(a) == Unread(a[i + 1..])
  {
    IndexOfIs(a, LF, i);
  }

  lemma {:induction false} TextsAppendLater(a: Bytes, b: Bytes)
    ensures Texts(a + b, false) == Texts(a, false) + Texts(Unread(a) + b, false)
    decreases |a|
  {
    var ta, tab, later := Texts(a, false), Texts(a + b, false), Texts(Unread(a) + b, false);
    if LF in a {
      var i := IndexOf(a, LF);
      TextsUnfold(a, i, false);
      TextsStep(a, b, i, false);
      UnreadStep(a, i);
      TextsAppendLater(a[i + 1..], b);
      assert tab[1..] == ta[1..] + later;
      HeadAndTail(tab, ta, later);
    } else {
      assert ta == [] && tab == later;
    }
  }

  /** More bytes only continue the line that was not finished. */
  lemma TextsAppend(a: Bytes, b: Bytes, first: bool)
    ensures Texts(a + b, first) == Texts(a, first) + Texts(Unread(a) + b, first && LF !in a)
  {
    var i := IndexOf(a, LF);
    if i < |a| {
      TextsUnfold(a, i, first);
      TextsStep(a, b, i, first);
      TextsAppendLater(a[i + 1..], b);
      HeadAndTail(Texts(a + b, first), Texts(a, first), Texts(Unread(a) + b, false));
    }
  }

  /** A BOM matters only in the very first bytes. */
  lemma TextsWithoutBOM(s: Bytes)
    requires !(BOM <= s)
    ensures Texts(s, true) == Texts(s, false)
  {
    var i := IndexOf(s, LF);
    if i < |s| {
      TrimRightPrefix(s[..i + 1]);
      assert !(BOM <= TrimRight(s[..i + 1]));
    }
  }

  /** Cutting a stream anywhere loses only events from its end. */
  lemma ReadPrefix(a: Bytes, b: Bytes)
    ensures Read(a) <= Read(a + b)
  {
    TextsAppend(a, b, true);
    var ts := Texts(a, true);
    DeliverAppend(ts, Texts(Unread(a) + b, LF !in a), BLANK);
  }

  /** `s` stops right after a blank line. */
  predicate EndsBlank(s: Bytes) {
    s != [] && s[|s| - 1] == LF && Texts(s, true) != [] && LastOr(Texts(s, true), [LF]) == []
  }

  lemma PendingAfterBlank(ts: seq<Bytes>, acc: Event)
    requires ts != [] && ts[|ts| - 1] == []
    ensures Pending(ts, acc) == BLANK
  {
    var n := |ts| - 1;
    assert ts == ts[..n] + [[]];
    DeliverAppend(ts[..n], [[]], acc);
    assert Pending([[]], Pending(ts[..n], acc)) == Pending([], BLANK);
  }

  /** After a blank line the reader has forgotten everything. */
  lemma ReadAppend(a: Bytes, b: Bytes)
    requires EndsBlank(a) && !(BOM <= b)
    ensures Read(a + b) == Read(a) + Read(b)
  {
    TextsAppend(a, b, true);
    assert a[|a| - 1] in a && Unread(a) + b == b;
    TextsWithoutBOM(b);
    PendingAfterBlank(Texts(a, true), BLANK);
    DeliverAppend(Texts(a, true), Texts(b, true), BLANK);
  }

  // ---------- the declarative reading ----------

  /** The runs of non-blank lines, each closed by a blank one. */
  function Blocks(texts: seq<Bytes>): seq<seq<Bytes>> {
    var i := IndexOf(texts, []);
    if i == |texts| then [] else [texts[..i]] + Blocks(texts[i + 1..])
  }

  /** The values a block gives to one field, in order. */
  function Values(block: seq<Bytes>, field: Field): seq<Bytes> {
    if block == [] then []
    else if FieldOf(block[0]) == field then [ValueOf(block[0])] + Values(block[1..], field)
    else Values(block[1..], field)
  }

  function Numbers(values: seq<Bytes>): seq<int> {
    if values == [] then []
    else if Atoi(values[0]).Some? then [Atoi(values[0]).value] + Numbers(values[1..])
    else Numbers(values[1..])
  }

  /** A block with data is one event: last id, last type, data lines joined. */
  function BlockEvents(block: seq<Bytes>): seq<Event> {
    var data := Values(block, Data);
    var kind := LastOr(Values(block, Type), []);
    if data == [] then []
    else [Event(LastOr(Values(block, Id), []), if kind == [] then "message" else kind,
                JoinWith(data, LF), LastOr(Numbers(Values(block, Retry)), 0))]
  }

  function BlocksEvents(blocks: seq<seq<Bytes>>): seq<Event> {
    if blocks == [] then [] else BlockEvents(blocks[0]) + BlocksEvents(blocks[1..])
  }

  /** What the accumulator holds after `block`, field by field. */
  function Summary(block: seq<Bytes>, acc: Event): Event {
    Event(LastOr(Values(block, Id), acc.id), LastOr(Values(block, Type), acc.event),
          acc.data + Terminated(Values(block, Data)),
          LastOr(Numbers(Values(block, Retry)), acc.retry))
  }

  lemma ValuesCons(line: Bytes, block: seq<Bytes>, field: Field)
    ensures Values([line] + block, field) ==
            if FieldOf(line) == field then [ValueOf(line)] + Values(block, field) else Values(block, field)
  {
    assert ([line] + block)[1..] == block;
  }

  lemma NumbersCons(value: Bytes, values: seq<Bytes>)
    ensures Numbers([value] + values) ==
            if Atoi(value).Some? then [Atoi(value).value] + Numbers(values) else Numbers(values)
  {
    assert ([value] + values)[1..] == values;
  }

  lemma TerminatedCons(line: Bytes, lines: seq<Bytes>, before: Bytes)
    ensures before + Terminated([line] + lines) == before + (line + [LF]) + Terminated(lines)
  {
    assert ([line] + lines)[1..] == lines;
    AppendAssociates(before, line + [LF], Terminated(lines));
  }

  lemma SummaryPut(all: seq<Bytes>, block: seq<Bytes>, acc: Event, field: Field, value: Bytes)
    requires forall f :: Values(all, f) == if field == f then [value] + Values(block, f) else Values(block, f)
    ensures Summary(all, acc) == Summary(block, Put(acc, field, value))
  {
    NumbersCons(value, Values(block, Retry));
    TerminatedCons(value, Values(block, Data), acc.data);
    LastOrCons(value, Values(block, Id), acc.id);
    LastOrCons(value, Values(block, Type), acc.event);
  }

  lemma LastOrCons<T>(x: T, s: seq<T>, d: T)
    ensures LastOr([x] + s, d) == LastOr(s, x)
  {
  }

  lemma SummaryStep(line: Bytes, block: seq<Bytes>, acc: Event)
    ensures Summary([line] + block, acc) == Summary(block, Accumulate(acc, line))
  {
    forall f: Field
      ensures Values([line] + block, f) ==
              if FieldOf(line) == f then [ValueOf(line)] + Values(block, f) else Values(block, f)
    {
      ValuesCons(line, block, f);
    }
    SummaryPut([line] + block, block, acc, FieldOf(line), ValueOf(line));
  }

  /** The accumulator summarises the lines it has seen. */
  lemma {:induction false} AccumulatorMeaning(block: seq<Bytes>, acc: Event)
    requires [] !in block
    ensures Pending(block, acc) == Summary(block, acc)
    ensures Deliver(block, acc) == []
    decreases |block|
  {
    if block == [] {
      assert acc.data + Terminated([]) == acc.data;
    } else {
      assert block[0] in block && block == [block[0]] + block[1..];
      AccumulatorMeaning(block[1..], Accumulate(acc, block[0]));
      SummaryStep(block[0], block[1..], acc);
    }
  }

  lemma CompletedBlock(block: seq<Bytes>)
    requires [] !in block
    ensures Completed(Pending(block, BLANK)) == BlockEvents(block)
  {
    AccumulatorMeaning(block, BLANK);
    var data := Values(block, Data);
    assert BLANK.data + Terminated(data) == Terminated(data);
    if data != [] { TerminatedIsJoin(data); }
  }

  /** The one-pass reader delivers one event for each block that has data. */
  lemma {:induction false} DeliverIsBlocks(texts: seq<Bytes>)
    ensures Deliver(texts, BLANK) == BlocksEvents(Blocks(texts))
    decreases |texts|
  {
    var i := IndexOf(texts, []);
    if i == |texts| {
      AccumulatorMeaning(texts, BLANK);
    } else {
      var block, rest := texts[..i], texts[i + 1..];
      assert texts == block + ([[]] + rest);
      DeliverAppend(block, [[]] + rest, BLANK);
      AccumulatorMeaning(block, BLANK);
      CompletedBlock(block);
      assert ([[]] + rest)[1..] == rest;
      DeliverIsBlocks(rest);
    }
  }
}
