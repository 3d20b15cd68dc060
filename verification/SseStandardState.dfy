/** What a stream leaves behind by sections 9.2.4 and 9.2.6 of the WHATWG HTML Living
    Standard: the last event ID string, to be sent when reconnecting, and the reconnection
    time. The reader treats both differently in some blocks and lines; here is in which. */
module SseStandardState {
  import opened Bytes
  import opened SseStandard

  const NUL := '\0'

  // ---------- numbers in base ten ----------

  const DIGITS: Bytes := "0123456789"

  function DigitValue(c: char): nat
    requires c in DIGITS
  {
    match c
    case '0' => 0
    case '1' => 1
    case '2' => 2
    case '3' => 3
    case '4' => 4
    case '5' => 5
    case '6' => 6
    case '7' => 7
    case '8' => 8
    case '9' => 9
  }

  function Power10(k: nat): nat {
    if k == 0 then 1 else 10 * Power10(k - 1)
  }

  /** ASCII digits only, and at least one. */
  predicate PlainNumber(value: Bytes) { value != [] && OnlyDigits(value) }

  predicate OnlyDigits(s: Bytes) { forall c :: c in s ==> c in DIGITS }

  /** The value of a numeral: every digit counts by its place. */
  function PlaceValue(s: Bytes): nat
    requires OnlyDigits(s)
  {
    if s == [] then 0
    else
      assert s[0] in s;
      DigitValue(s[0]) * Power10(|s| - 1) + PlaceValue(s[1..])
  }

  lemma DigitsAreDigits(c: char)
    ensures R.IsDigit(c) <==> c in DIGITS
    ensures c in DIGITS ==> DigitValue(c) == c as int - '0' as int
  {
    if R.IsDigit(c) { assert DIGITS[c as int - '0' as int] == c; }
  }

  lemma {:induction false} PlaceValueLast(s: Bytes)
    requires s != [] && OnlyDigits(s)
    ensures s[|s| - 1] in DIGITS && OnlyDigits(s[..|s| - 1])
    ensures PlaceValue(s) == 10 * PlaceValue(s[..|s| - 1]) + DigitValue(s[|s| - 1])
  {
    var n := |s| - 1;
    assert s[n] in s;
    if n == 0 {
      assert s[1..] == [] && s[..0] == [];
    } else {
      PlaceValueLast(s[1..]);
      assert s[1..][..n - 1] == s[..n][1..];
      var d, p := DigitValue(s[0]), Power10(n - 1);
      assert d * Power10(n) == 10 * (d * p);
    }
  }

  lemma {:induction false} DigitsArePlaceValue(s: Bytes)
    ensures R.AllDigits(s) <==> OnlyDigits(s)
    ensures OnlyDigits(s) ==> R.Digits(s) == PlaceValue(s)
  {
    forall c { DigitsAreDigits(c); }
    if s != [] && OnlyDigits(s) {
      PlaceValueLast(s);
      DigitsArePlaceValue(s[..|s| - 1]);
    }
  }

  /** `s` is `n` in base ten, with or without a sign. */
  predicate IsNumeral(s: Bytes, n: int) {
    || (PlainNumber(s) && n == PlaceValue(s))
    || (s != [] && s[0] == '+' && PlainNumber(s[1..]) && n == PlaceValue(s[1..]))
    || (s != [] && s[0] == '-' && PlainNumber(s[1..]) && n + PlaceValue(s[1..]) == 0)
  }

  /** The reader's numbers are the signed decimal numerals of 64-bit integers. */
  lemma AtoiExactly(s: Bytes, n: int)
    ensures R.Atoi(s) == Some(n) <==>
            IsNumeral(s, n) && -9_223_372_036_854_775_808 <= n <= 9_223_372_036_854_775_807
  {
    DigitsArePlaceValue(s);
    if s != [] {
      DigitsArePlaceValue(s[1..]);
      DigitsAreDigits(s[0]);
      assert s[0] in s;
    }
  }

  /** A delay that leaves 64 bits wraps around. */
  lemma WrapIsModulo(x: int)
    ensures -9_223_372_036_854_775_808 <= R.WrapInt64(x) <= 9_223_372_036_854_775_807
    ensures (x - R.WrapInt64(x)) % 18_446_744_073_709_551_616 == 0
  {
  }

  // ---------- what the standard keeps ----------

  /** The last event ID buffer after one line. */
  function NextBuffer(buffer: Bytes, line: Bytes): Bytes
    requires line != []
  {
    if line[0] == ':' then buffer
    else
      var (name, value) := SplitField(line);
      if name == "id" && NUL !in value then value else buffer
  }

  /** A blank line makes the buffer the last event ID string, whether or not it dispatches
      an event; the buffer is kept. */
  function LastEventID(lines: seq<Bytes>, buffer: Bytes, last: Bytes): Bytes {
    if lines == [] then last
    else if lines[0] == [] then LastEventID(lines[1..], buffer, buffer)
    else LastEventID(lines[1..], NextBuffer(buffer, lines[0]), last)
  }

  /** The reconnection time after one line, in nanoseconds. */
  function NextTime(time: int, line: Bytes): int
    requires line != []
  {
    if line[0] == ':' then time
    else
      var (name, value) := SplitField(line);
      if name == "retry" && PlainNumber(value) then PlaceValue(value) * 1_000_000 else time
  }

  function ReconnectionTime(lines: seq<Bytes>, time: int): int {
    if lines == [] then time
    else if lines[0] == [] then ReconnectionTime(lines[1..], time)
    else ReconnectionTime(lines[1..], NextTime(time, lines[0]))
  }

  // ---------- the id, block by block ----------

  function WithoutNUL(values: seq<Bytes>): seq<Bytes> {
    if values == [] then []
    else if NUL in values[0] then WithoutNUL(values[1..])
    else [values[0]] + WithoutNUL(values[1..])
  }

  /** What a whole block makes of the standard's id, and of the reader's. */
  function StandardID(block: seq<Bytes>, id: Bytes): Bytes {
    LastOr(WithoutNUL(R.Values(block, R.Id)), id)
  }

  function ReaderID(block: seq<Bytes>, id: Bytes): Bytes {
    R.LastID(R.BlockEvents(block), id)
  }

  /** The block names no id; or it has data and its last id is neither empty nor holds a
      NUL; or it has no data and all its ids hold one. */
  predicate SameID(block: seq<Bytes>) {
    var ids, data := R.Values(block, R.Id), R.Values(block, R.Data);
    || ids == []
    || (data != [] && ids[|ids| - 1] != [] && NUL !in ids[|ids| - 1])
    || (data == [] && WithoutNUL(ids) == [])
  }

  lemma {:induction false} LastWithoutNUL(values: seq<Bytes>, d: Bytes)
    requires values != [] && NUL !in values[|values| - 1]
    ensures WithoutNUL(values) != [] && LastOr(WithoutNUL(values), d) == values[|values| - 1]
  {
    if |values| > 1 {
      LastWithoutNUL(values[1..], d);
    } else {
      assert values[1..] == [];
    }
  }

  lemma {:induction false} LastHasNoNUL(values: seq<Bytes>)
    ensures forall v :: v in WithoutNUL(values) ==> NUL !in v
  {
    if values != [] { LastHasNoNUL(values[1..]); }
  }

  lemma ReaderIDIs(block: seq<Bytes>, id: Bytes)
    ensures var last := LastOr(R.Values(block, R.Id), []);
            ReaderID(block, id) == if R.Values(block, R.Data) == [] || last == [] then id else last
  {
    var evs := R.BlockEvents(block);
    if evs != [] { assert evs[..0] == []; }
  }

  lemma SameIDAgrees(block: seq<Bytes>, id: Bytes)
    requires SameID(block)
    ensures ReaderID(block, id) == StandardID(block, id)
  {
    var ids := R.Values(block, R.Id);
    ReaderIDIs(block, id);
    if ids != [] && NUL !in ids[|ids| - 1] { LastWithoutNUL(ids, id); }
  }

  /** An id that the block leaves to one of them and not to the other. */
  lemma OtherIDDiffers(block: seq<Bytes>) returns (id: Bytes)
    requires !SameID(block)
    ensures ReaderID(block, id) != StandardID(block, id)
  {
    var ids := R.Values(block, R.Id);
    var plain, last := WithoutNUL(ids), ids[|ids| - 1];
    id := LastOr(plain, []) + last + "x";
    ReaderIDIs(block, id);
    if NUL in last {
      LastHasNoNUL(ids);
      if plain != [] { assert plain[|plain| - 1] in plain; }
    } else {
      LastWithoutNUL(ids, id);
    }
    assert |id| > |last| && |id| > |LastOr(plain, [])|;
  }

  /** A block means the same id to both, whatever the id before it, exactly in these cases. */
  lemma SameIDExactly(block: seq<Bytes>)
    ensures (forall id :: ReaderID(block, id) == StandardID(block, id)) <==> SameID(block)
  {
    if SameID(block) {
      forall id
        ensures ReaderID(block, id) == StandardID(block, id)
      {
        SameIDAgrees(block, id);
      }
    } else {
      var id := OtherIDDiffers(block);
    }
  }

  lemma NextBufferIs(buffer: Bytes, line: Bytes)
    requires line != []
    ensures NextBuffer(buffer, line) ==
            if R.FieldOf(line) == R.Id && NUL !in R.ValueOf(line) then R.ValueOf(line) else buffer
  {
    assert (":" <= line) == (line[0] == ':');
    SameSplit(line);
  }

  lemma {:induction false} BlockBuffer(block: seq<Bytes>, rest: seq<Bytes>, buffer: Bytes, last: Bytes)
    requires [] !in block
    ensures LastEventID(block + rest, buffer, last) == LastEventID(rest, StandardID(block, buffer), last)
    decreases |block|
  {
    if block == [] {
      assert block + rest == rest;
    } else {
      var line := block[0];
      assert line in block && (block + rest)[1..] == block[1..] + rest;
      NextBufferIs(buffer, line);
      BlockBuffer(block[1..], rest, NextBuffer(buffer, line), last);
      BufferCons(block, buffer);
    }
  }

  lemma BufferCons(block: seq<Bytes>, buffer: Bytes)
    requires block != [] && block[0] != []
    ensures StandardID(block, buffer) == StandardID(block[1..], NextBuffer(buffer, block[0]))
  {
    NextBufferIs(buffer, block[0]);
    var ids, later := R.Values(block, R.Id), R.Values(block[1..], R.Id);
    if R.FieldOf(block[0]) == R.Id {
      assert ids[1..] == later;
    }
  }

  /** What a list of blocks makes of the standard's id. */
  function StandardIDs(blocks: seq<seq<Bytes>>, id: Bytes): Bytes {
    if blocks == [] then id else StandardIDs(blocks[1..], StandardID(blocks[0], id))
  }

  lemma {:induction false} LastEventIDByBlocks(texts: seq<Bytes>, id: Bytes)
    ensures LastEventID(texts, id, id) == StandardIDs(R.Blocks(texts), id)
    decreases |texts|
  {
    var i := IndexOf(texts, []);
    if i == |texts| {
      assert texts + [] == texts;
      BlockBuffer(texts, [], id, id);
    } else {
      var block, rest := texts[..i], texts[i + 1..];
      assert texts == block + texts[i..] && texts[i..][1..] == rest;
      BlockBuffer(block, texts[i..], id, id);
      LastEventIDByBlocks(rest, StandardID(block, id));
    }
  }

  lemma {:induction false} LastIDAppend(a: seq<R.Event>, b: seq<R.Event>, id: Bytes)
    ensures R.LastID(a + b, id) == R.LastID(b, R.LastID(a, id))
    decreases |b|
  {
    if b == [] {
      assert a + b == a;
    } else {
      assert (a + b)[..|a + b| - 1] == a + b[..|b| - 1];
      LastIDAppend(a, b[..|b| - 1], id);
    }
  }

  lemma {:induction false} SameIDs(blocks: seq<seq<Bytes>>, id: Bytes)
    requires forall b :: b in blocks ==> SameID(b)
    ensures R.LastID(R.BlocksEvents(blocks), id) == StandardIDs(blocks, id)
    decreases |blocks|
  {
    if blocks != [] {
      assert blocks[0] in blocks;
      SameIDAgrees(blocks[0], id);
      LastIDAppend(R.BlockEvents(blocks[0]), R.BlocksEvents(blocks[1..]), id);
      SameIDs(blocks[1..], StandardID(blocks[0], id));
    }
  }

  /** If every whole block means the same id to both, the id the reader resumes from is the
      standard's last event ID string. */
  lemma LastIDMeetsStandard(stream: Bytes, id: Bytes)
    requires CRLFOnly(stream)
    requires forall b :: b in R.Blocks(R.Texts(stream, true)) ==> SameID(b)
    ensures R.LastID(R.Read(stream), id) == LastEventID(Lines(WithoutBOM(stream)), id, id)
  {
    var texts := R.Texts(stream, true);
    StreamTexts(stream);
    R.DeliverIsBlocks(texts);
    LastEventIDByBlocks(texts, id);
    SameIDs(R.Blocks(texts), id);
  }

  // ---------- the reconnection time, line by line ----------

  /** The line sets no delay; or plain digits whose nanoseconds fit 64 bits; or something
      that is a number to neither. */
  predicate SameTime(line: Bytes) {
    R.FieldOf(line) == R.Retry ==>
      var value := R.ValueOf(line);
      if PlainNumber(value) then PlaceValue(value) * 1_000_000 <= R.MAX_INT64 else R.Atoi(value).None?
  }

  lemma NextTimeIs(time: int, line: Bytes)
    requires line != []
    ensures NextTime(time, line) ==
            if R.FieldOf(line) == R.Retry && PlainNumber(R.ValueOf(line)) then PlaceValue(R.ValueOf(line)) * 1_000_000
            else time
  {
    assert (":" <= line) == (line[0] == ':');
    SameSplit(line);
  }

  lemma AtoiOfPlain(value: Bytes)
    requires PlainNumber(value)
    ensures R.Atoi(value) == if PlaceValue(value) <= R.MAX_INT64 then Some(PlaceValue(value)) else None
  {
    DigitsArePlaceValue(value);
    assert value[0] in value && R.IsDigit(value[0]);
  }

  lemma SameTimeAgrees(line: Bytes, t: int)
    requires line != [] && SameTime(line)
    ensures R.DelayAfter(t, line) == NextTime(t, line)
  {
    NextTimeIs(t, line);
    if PlainNumber(R.ValueOf(line)) { AtoiOfPlain(R.ValueOf(line)); }
  }

  /** A delay that the line leaves to one of them and not to the other. */
  lemma OtherTimeDiffers(line: Bytes) returns (t: int)
    requires line != [] && !SameTime(line)
    ensures R.DelayAfter(t, line) != NextTime(t, line)
  {
    var value := R.ValueOf(line);
    if PlainNumber(value) {
      t := 0;
      AtoiOfPlain(value);
      BeyondWraps(PlaceValue(value));
    } else {
      t := R.DelayAfter(0, line) + 1;
    }
    NextTimeIs(t, line);
  }

  /** A line leaves both with the same delay, whatever it was before, exactly in these
      cases: signed numbers and delays that leave 64 bits are where they part. */
  lemma SameTimeExactly(line: Bytes)
    requires line != []
    ensures (forall t: int :: R.DelayAfter(t, line) == NextTime(t, line)) <==> SameTime(line)
  {
    if SameTime(line) {
      forall t: int
        ensures R.DelayAfter(t, line) == NextTime(t, line)
      {
        SameTimeAgrees(line, t);
      }
    } else {
      var t := OtherTimeDiffers(line);
    }
  }

  lemma BeyondWraps(n: nat)
    requires n * 1_000_000 > R.MAX_INT64
    ensures R.WrapInt64(n * 1_000_000) <= R.MAX_INT64 && n * 1_000_000 != 0
  {
  }

  lemma {:induction false} SameTimes(lines: seq<Bytes>, time: int)
    requires forall line :: line in lines && line != [] ==> SameTime(line)
    ensures R.Delay(lines, time) == ReconnectionTime(lines, time)
    decreases |lines|
  {
    if lines != [] {
      assert lines[0] in lines;
      if lines[0] == [] {
        SameTimes(lines[1..], time);
      } else {
        SameTimeAgrees(lines[0], time);
        SameTimes(lines[1..], NextTime(time, lines[0]));
      }
    }
  }

  /** If every line means the same delay to both, the reader waits for the standard's
      reconnection time. */
  lemma DelayMeetsStandard(stream: Bytes, time: int)
    requires CRLFOnly(stream)
    requires forall line :: line in R.Texts(stream, true) && line != [] ==> SameTime(line)
    ensures R.Delay(R.Texts(stream, true), time) == ReconnectionTime(Lines(WithoutBOM(stream)), time)
  {
    StreamTexts(stream);
    SameTimes(R.Texts(stream, true), time);
  }
}
