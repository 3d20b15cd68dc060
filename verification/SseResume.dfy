/** A server log replayed from after a given id, and what a reader makes of any part of
    the replay (section 9.2.4 of the WHATWG HTML Living Standard, `Last-Event-ID`). */
module SseResume {
  import opened Bytes
  import opened SseReader
  import SseEncoding

  /** The bytes the server writes for one log entry: whatever they are, they read as
      exactly one event that has an id, and they end with a blank line. Comments and
      empty blocks may surround the event. */
  predicate IsEntry(chunk: Bytes) {
    EndsBlank(chunk) && !(BOM <= chunk) && |Read(chunk)| == 1 && Read(chunk)[0].id != []
  }

  function EntryEvent(chunk: Bytes): (e: Event)
    requires IsEntry(chunk)
    ensures e.id != []
  {
    Read(chunk)[0]
  }

  predicate Entries(log: seq<Bytes>) {
    forall i :: 0 <= i < |log| ==> IsEntry(log[i])
  }

  function LogEvents(log: seq<Bytes>): (evs: seq<Event>)
    requires Entries(log)
    ensures |evs| == |log|
    ensures forall i :: 0 <= i < |log| ==> evs[i] == EntryEvent(log[i])
  {
    if log == [] then [] else [EntryEvent(log[0])] + LogEvents(log[1..])
  }

  predicate DistinctIDs(evs: seq<Event>) {
    && (forall i :: 0 <= i < |evs| ==> evs[i].id != [])
    && forall i, j :: 0 <= i < j < |evs| ==> evs[i].id != evs[j].id
  }

  /** A log: entries whose ids are pairwise distinct. */
  predicate IsLog(log: seq<Bytes>) {
    Entries(log) && DistinctIDs(LogEvents(log))
  }

  /** How many events a client that holds `id` already knows. */
  function Known(evs: seq<Event>, id: Bytes): (k: nat)
    ensures k <= |evs|
  {
    if evs == [] then 0
    else if evs[0].id == id then 1
    else if Known(evs[1..], id) == 0 then 0
    else 1 + Known(evs[1..], id)
  }

  /** The whole body of a connection that asks for what comes after `id`. */
  function Replay(log: seq<Bytes>, id: Bytes): Bytes
    requires Entries(log)
  {
    Flatten(log[Known(LogEvents(log), id)..])
  }

  /** The id of the last of the first `k` events. */
  function IDAfter(evs: seq<Event>, k: nat): Bytes
    requires k <= |evs|
  {
    if k == 0 then [] else evs[k - 1].id
  }

  /** The id a client holds after the first `k` events finds its place again. */
  lemma {:induction false} KnownAfter(evs: seq<Event>, k: nat)
    requires DistinctIDs(evs) && k <= |evs|
    ensures Known(evs, IDAfter(evs, k)) == k
  {
    if k == 0 {
      if evs != [] { KnownAfter(evs[1..], 0); }
    } else if k > 1 {
      KnownAfter(evs[1..], k - 1);
    }
  }

  lemma {:induction false} ReadEntries(log: seq<Bytes>)
    requires Entries(log)
    ensures Read(Flatten(log)) == LogEvents(log)
    ensures !(BOM <= Flatten(log))
  {
    if log == [] {
      assert Read([]) == [];
    } else {
      ReadEntries(log[1..]);
      ReadAppend(log[0], Flatten(log[1..]));
      ChunkStart(log[0], Flatten(log[1..]));
    }
  }

  /** Joining bytes to an entry does not make it start with a BOM. */
  lemma ChunkStart(chunk: Bytes, tail: Bytes)
    requires IsEntry(chunk)
    ensures !(BOM <= chunk + tail)
  {
    if |chunk| >= 3 {
      assert (chunk + tail)[..3] == chunk[..3];
    } else {
      assert (chunk + tail)[|chunk| - 1] == LF;
    }
  }

  lemma {:induction false} LogEventsDrop(log: seq<Bytes>, k: nat)
    requires Entries(log) && k <= |log|
    ensures Entries(log[k..]) && LogEvents(log)[k..] == LogEvents(log[k..])
  {
  }

  lemma ReadPart(log: seq<Bytes>, body: Bytes)
    requires Entries(log)
    requires body <= Flatten(log)
    ensures Read(body) <= LogEvents(log)
    ensures body == Flatten(log) ==> Read(body) == LogEvents(log)
  {
    ReadEntries(log);
    var tail := Flatten(log)[|body|..];
    assert Flatten(log) == body + tail;
    ReadPrefix(body, tail);
  }

  /** Whatever part of a replay arrives, the reader delivers the next entries of the log
      in order and no others; a replay that arrives whole delivers all of them. */
  lemma ReadReplay(log: seq<Bytes>, k: nat, body: Bytes)
    requires Entries(log) && k <= |log|
    requires body <= Flatten(log[k..])
    ensures Read(body) <= LogEvents(log)[k..]
    ensures body == Flatten(log[k..]) ==> Read(body) == LogEvents(log)[k..]
  {
    LogEventsDrop(log, k);
    ReadPart(log[k..], body);
  }

  /** Events written one after the other with distinct ids form a log. */
  lemma WrittenLog(evs: seq<Event>)
    requires forall e :: e in evs ==> SseEncoding.Writable(e) && e.id != []
    requires forall i, j :: 0 <= i < j < |evs| ==> evs[i].id != evs[j].id
    ensures var log := seq(|evs|, i requires 0 <= i < |evs| => SseEncoding.Encode(evs[i]));
            IsLog(log) && LogEvents(log) == evs
  {
    forall i | 0 <= i < |evs|
      ensures IsEntry(SseEncoding.Encode(evs[i])) && EntryEvent(SseEncoding.Encode(evs[i])) == evs[i]
    {
      assert evs[i] in evs;
      SseEncoding.EncodeReads(evs[i]);
    }
  }
}
