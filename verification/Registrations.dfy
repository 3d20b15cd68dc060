/** Stored registrations: merging new ones into a configuration file's list, and finding
    the token of a worker in such a list. */
module Registrations {
  import opened Bytes

  datatype Registration = Registration(id: string, token: string, url: string)

  /** A decoded value and an entry of a decoded list: a table, or something else. */
  datatype Value = Text(text: string) | NoText

  datatype Entry = Table(fields: map<string, Value>) | NoTable

  /** What the file holds under "registrations". */
  datatype Stored = Absent | Entries(list: seq<Entry>) | OtherShape

  function Field(fields: map<string, Value>, key: string): string {
    if key in fields && fields[key].Text? then fields[key].text else ""
  }

  /** A table as the registration it describes. */
  function ReadTable(fields: map<string, Value>): Registration {
    Registration(Field(fields, "id"), Field(fields, "token"), Field(fields, "url"))
  }

  function WriteTable(r: Registration): map<string, Value> {
    var m := map["id" := Text(r.id), "token" := Text(r.token)];
    if r.url != "" then m["url" := Text(r.url)] else m
  }

  /** A text under a key of a decoded table. */
  predicate Says(fields: map<string, Value>, key: string, text: string) {
    key in fields && fields[key] == Text(text)
  }

  /** A table says id, token and URL under these names; what is missing or no text is
      empty, and an empty URL is not written. */
  lemma TableKeys(fields: map<string, Value>, r: Registration)
    ensures Says(fields, "id", r.id) && Says(fields, "token", r.token) && Says(fields, "url", r.url) ==>
              ReadTable(fields) == r
    ensures "url" !in fields || fields["url"].NoText? ==> ReadTable(fields).url == ""
    ensures "token" !in fields || fields["token"].NoText? ==> ReadTable(fields).token == ""
    ensures "id" !in fields || fields["id"].NoText? ==> ReadTable(fields).id == ""
    ensures Says(WriteTable(r), "id", r.id) && Says(WriteTable(r), "token", r.token)
    ensures if r.url != "" then Says(WriteTable(r), "url", r.url) else "url" !in WriteTable(r)
  {
  }

  lemma ReadWritten(r: Registration)
    ensures ReadTable(WriteTable(r)) == r
  {
  }

  /** The registrations that can be used: tables with an id. */
  function Usable(list: seq<Entry>): seq<Registration> {
    if list == [] then []
    else if list[0].Table? && ReadTable(list[0].fields).id != "" then
      [ReadTable(list[0].fields)] + Usable(list[1..])
    else Usable(list[1..])
  }

  function UsableStored(stored: Stored): seq<Registration> {
    if stored.Entries? then Usable(stored.list) else []
  }

  // ---------- last one wins ----------

  function LastWith(regs: seq<Registration>, id: string): Option<Registration> {
    if regs == [] then None
    else if regs[|regs| - 1].id == id then Some(regs[|regs| - 1])
    else LastWith(regs[..|regs| - 1], id)
  }

  /** Every id holds the last registration written under it. */
  predicate HoldsLast(m: map<string, Registration>, regs: seq<Registration>) {
    && (forall id :: id in m ==> LastWith(regs, id) == Some(m[id]))
    && (forall i :: 0 <= i < |regs| ==> regs[i].id in m)
  }

  lemma {:induction false} LastWithAppend(a: seq<Registration>, b: seq<Registration>, id: string)
    ensures LastWith(a + b, id) == if LastWith(b, id).Some? then LastWith(b, id) else LastWith(a, id)
  {
    if b == [] {
      assert a + b == a;
    } else {
      assert (a + b)[..|a + b| - 1] == a + b[..|b| - 1];
      LastWithAppend(a, b[..|b| - 1], id);
    }
  }

  lemma HoldsOneMore(m: map<string, Registration>, regs: seq<Registration>, r: Registration)
    requires HoldsLast(m, regs)
    ensures HoldsLast(m[r.id := r], regs + [r])
  {
    assert (regs + [r])[..|regs|] == regs;
  }

  lemma {:induction false} LastWithPresent(regs: seq<Registration>, id: string)
    ensures LastWith(regs, id).Some? ==> LastWith(regs, id).value.id == id
    ensures LastWith(regs, id).Some? <==> exists i :: 0 <= i < |regs| && regs[i].id == id
  {
    if regs != [] {
      var n := |regs| - 1;
      LastWithPresent(regs[..n], id);
      if regs[n].id != id && LastWith(regs, id).Some? {
        var i :| 0 <= i < n && regs[..n][i].id == id;
        assert regs[i].id == id;
      }
    }
  }

  lemma {:induction false} UsableAppend(a: seq<Entry>, b: seq<Entry>)
    ensures Usable(a + b) == Usable(a) + Usable(b)
  {
    if a == [] {
      assert a + b == b;
    } else {
      assert (a + b)[1..] == a[1..] + b;
      UsableAppend(a[1..], b);
    }
  }

  lemma UsableOne(e: Entry)
    ensures Usable([e]) == if e.Table? && ReadTable(e.fields).id != "" then [ReadTable(e.fields)] else []
  {
    assert [e][1..] == [];
  }

  lemma LoadOneMore(list: seq<Entry>, i: nat, m: map<string, Registration>)
    requires i < |list| && HoldsLast(m, Usable(list[..i]))
    ensures var e := list[i];
            var r := ReadTable(if e.Table? then e.fields else map[]);
            HoldsLast(if e.Table? && r.id != "" then m[r.id := r] else m, Usable(list[..i + 1]))
  {
    var e := list[i];
    assert list[..i + 1] == list[..i] + [e];
    UsableAppend(list[..i], [e]);
    UsableOne(e);
    if e.Table? && ReadTable(e.fields).id != "" {
      HoldsOneMore(m, Usable(list[..i]), ReadTable(e.fields));
    } else {
      assert Usable(list[..i]) + [] == Usable(list[..i]);
    }
  }

  /** The first loop: what the file holds. */
  method LoadStored(stored: Stored) returns (m: map<string, Registration>)
    ensures HoldsLast(m, UsableStored(stored))
  {
    m := map[];
    if stored.Entries? {
      var list := stored.list;
      for i := 0 to |list|
        invariant HoldsLast(m, Usable(list[..i]))
      {
        LoadOneMore(list, i, m);
        if list[i].Table? {
          var r := ReadTable(list[i].fields);
          if r.id != "" {
            m := m[r.id := r];
          }
        }
      }
      assert list[..|list|] == list;
    }
  }

  predicate IsValue(m: map<string, Registration>, r: Registration) { r.id in m && m[r.id] == r }

  /** A list that writes out the values of `m`, in whatever order. */
  predicate Lists(out: seq<Entry>, m: map<string, Registration>) {
    && (forall i :: 0 <= i < |out| ==> out[i].Table? && IsValue(m, ReadTable(out[i].fields)))
    && (forall i, j :: 0 <= i < j < |out| && out[i].Table? && out[j].Table? ==>
          ReadTable(out[i].fields).id != ReadTable(out[j].fields).id)
    && (forall id :: id in m ==> exists i :: 0 <= i < |out| && out[i].Table? && ReadTable(out[i].fields).id == id)
  }

  predicate HasEntry(out: seq<Entry>, id: string) {
    exists i :: 0 <= i < |out| && out[i].Table? && ReadTable(out[i].fields).id == id
  }

  predicate IsLast(regs: seq<Registration>, r: Registration) { LastWith(regs, r.id) == Some(r) }

  /** What a merged list is: tables only, each the last registration of its id, one for
      each id registered and no id twice. */
  predicate Merged(out: seq<Entry>, regs: seq<Registration>) {
    && (forall i :: 0 <= i < |out| ==> out[i].Table? && IsLast(regs, ReadTable(out[i].fields)))
    && (forall i, j :: 0 <= i < j < |out| && out[i].Table? && out[j].Table? ==>
          ReadTable(out[i].fields).id != ReadTable(out[j].fields).id)
    && (forall k :: 0 <= k < |regs| ==> HasEntry(out, regs[k].id))
  }

  lemma ListedIsMerged(out: seq<Entry>, m: map<string, Registration>, regs: seq<Registration>)
    requires HoldsLast(m, regs) && Lists(out, m)
    ensures Merged(out, regs)
  {
  }

  /** The map a merged list writes out. */
  lemma MergedIsListed(out: seq<Entry>, regs: seq<Registration>) returns (m: map<string, Registration>)
    requires Merged(out, regs)
    ensures HoldsLast(m, regs) && Lists(out, m)
  {
    var ids := set i | 0 <= i < |regs| :: regs[i].id;
    m := map id | id in ids && LastWith(regs, id).Some? :: LastWith(regs, id).value;
    forall i | 0 <= i < |regs|
      ensures regs[i].id in m
    {
      LastWithPresent(regs, regs[i].id);
    }
    forall i | 0 <= i < |out|
      ensures IsValue(m, ReadTable(out[i].fields))
    {
      LastWithPresent(regs, ReadTable(out[i].fields).id);
    }
    forall id | id in m
      ensures HasEntry(out, id)
    {
      var i :| 0 <= i < |regs| && regs[i].id == id;
      assert HasEntry(out, regs[i].id);
    }
  }

  /** The merge: stored registrations, overridden by the new ones, one entry for each id.
      The order of the result is the map's. */
  method MergeRegistrations(stored: Stored, newRegs: seq<Registration>) returns (out: seq<Entry>)
    ensures Merged(out, UsableStored(stored) + newRegs)
  {
    var regMap := LoadStored(stored);
    ghost var olds := UsableStored(stored);
    assert olds + [] == olds;
    for i := 0 to |newRegs|
      invariant HoldsLast(regMap, olds + newRegs[..i])
    {
      assert olds + newRegs[..i + 1] == olds + newRegs[..i] + [newRegs[i]];
      HoldsOneMore(regMap, olds + newRegs[..i], newRegs[i]);
      regMap := regMap[newRegs[i].id := newRegs[i]];
    }
    assert newRegs[..|newRegs|] == newRegs;
    MapIds(regMap, olds + newRegs);
    out := WriteOut(regMap);
    ListedIsMerged(out, regMap, olds + newRegs);
  }

  lemma MapIds(m: map<string, Registration>, regs: seq<Registration>)
    requires HoldsLast(m, regs)
    ensures forall id :: id in m ==> m[id].id == id
  {
    forall id | id in m
      ensures m[id].id == id
    {
      LastWithPresent(regs, id);
    }
  }

  method WriteOut(m: map<string, Registration>) returns (out: seq<Entry>)
    requires forall id :: id in m ==> m[id].id == id
    ensures Lists(out, m)
  {
    out := [];
    var left := m.Keys;
    while left != {}
      invariant left <= m.Keys
      invariant Lists(out, map id | id in m && id !in left :: m[id])
      decreases left
    {
      var id :| id in left;
      ghost var was := map k | k in m && k !in left :: m[k];
      ReadWritten(m[id]);
      ListsOneMore(out, was, m[id]);
      out := out + [Table(WriteTable(m[id]))];
      left := left - {id};
      assert (map k | k in m && k !in left :: m[k]) == was[id := m[id]];
    }
    assert (map k | k in m && k !in left :: m[k]) == m;
  }

  lemma ListsOneMore(out: seq<Entry>, m: map<string, Registration>, r: Registration)
    requires Lists(out, m) && r.id !in m && ReadTable(WriteTable(r)) == r
    ensures Lists(out + [Table(WriteTable(r))], m[r.id := r])
  {
    var out', m' := out + [Table(WriteTable(r))], m[r.id := r];
    forall id | id in m'
      ensures exists i :: 0 <= i < |out'| && out'[i].Table? && ReadTable(out'[i].fields).id == id
    {
      if id == r.id {
        assert out'[|out|].Table? && ReadTable(out'[|out|].fields).id == id;
      } else {
        var i :| 0 <= i < |out| && out[i].Table? && ReadTable(out[i].fields).id == id;
        assert out'[i] == out[i];
      }
    }
  }

  // ---------- reading the merged list back ----------

  lemma {:induction false} UsableOfList(out: seq<Entry>, m: map<string, Registration>, id: string)
    requires Lists(out, m) && id in m && id != ""
    ensures LastWith(Usable(out), id) == Some(m[id])
  {
    var i :| 0 <= i < |out| && out[i].Table? && ReadTable(out[i].fields).id == id;
    assert NoTableWith(out[i + 1..], id);
    UsableFinds(out, i);
  }

  predicate NoTableWith(list: seq<Entry>, id: string) {
    forall j :: 0 <= j < |list| && list[j].Table? ==> ReadTable(list[j].fields).id != id
  }

  lemma {:induction false} UsableNone(list: seq<Entry>, id: string)
    requires NoTableWith(list, id)
    ensures forall k :: 0 <= k < |Usable(list)| ==> Usable(list)[k].id != id
    ensures LastWith(Usable(list), id).None?
  {
    if list != [] {
      assert NoTableWith(list[1..], id);
      UsableNone(list[1..], id);
    }
    LastWithPresent(Usable(list), id);
  }

  lemma UsableHead(list: seq<Entry>, id: string)
    requires list != []
    ensures var later := LastWith(Usable(list[1..]), id);
            LastWith(Usable(list), id) == if later.Some? then later else LastWith(Usable([list[0]]), id)
  {
    assert list == [list[0]] + list[1..];
    UsableAppend([list[0]], list[1..]);
    LastWithAppend(Usable([list[0]]), Usable(list[1..]), id);
  }

  lemma {:induction false} UsableFinds(list: seq<Entry>, i: nat)
    requires i < |list| && list[i].Table? && ReadTable(list[i].fields).id != ""
    requires NoTableWith(list[i + 1..], ReadTable(list[i].fields).id)
    ensures LastWith(Usable(list), ReadTable(list[i].fields).id) == Some(ReadTable(list[i].fields))
  {
    var id := ReadTable(list[i].fields).id;
    UsableHead(list, id);
    if i == 0 {
      UsableNone(list[1..], id);
      UsableOne(list[0]);
    } else {
      assert list[1..][i..] == list[i + 1..];
      UsableFinds(list[1..], i - 1);
    }
  }

  /** Merging the same registrations into what a merge wrote gives the same entries, in
      whatever order either result was written. */
  lemma MergeIdempotent(stored: Stored, newRegs: seq<Registration>, out: seq<Entry>, again: seq<Entry>)
    requires Merged(out, UsableStored(stored) + newRegs)
    requires Merged(again, UsableStored(Entries(out)) + newRegs)
    ensures forall r :: r in Loaded(again) <==> r in Loaded(out)
  {
    var m := MergedIsListed(out, UsableStored(stored) + newRegs);
    var m' := MergedIsListed(again, UsableStored(Entries(out)) + newRegs);
    forall r: Registration
      ensures r in Loaded(again) <==> r in Loaded(out)
    {
      SameUnderId(stored, newRegs, out, m, m', r.id);
      LoadedValues(out, m, r);
      LoadedValues(again, m', r);
    }
  }

  lemma LoadedValues(out: seq<Entry>, m: map<string, Registration>, r: Registration)
    requires Lists(out, m)
    ensures r in Loaded(out) <==> IsValue(m, r)
  {
    if IsValue(m, r) {
      var i :| 0 <= i < |out| && out[i].Table? && ReadTable(out[i].fields).id == r.id;
      assert Loaded(out)[i] == r;
    }
  }

  lemma InMapExactly(m: map<string, Registration>, regs: seq<Registration>, id: string)
    requires HoldsLast(m, regs)
    ensures id in m <==> LastWith(regs, id).Some?
    ensures id in m ==> LastWith(regs, id) == Some(m[id])
  {
    LastWithPresent(regs, id);
  }

  lemma {:induction false} UsableHasId(list: seq<Entry>)
    ensures forall k :: 0 <= k < |Usable(list)| ==> Usable(list)[k].id != ""
  {
    if list != [] { UsableHasId(list[1..]); }
  }

  lemma SameUnderId(stored: Stored, newRegs: seq<Registration>, out: seq<Entry>,
                    m: map<string, Registration>, m': map<string, Registration>, id: string)
    requires HoldsLast(m, UsableStored(stored) + newRegs) && Lists(out, m)
    requires HoldsLast(m', Usable(out) + newRegs)
    ensures id in m <==> id in m'
    ensures id in m ==> m'[id] == m[id]
  {
    var olds := UsableStored(stored);
    InMapExactly(m, olds + newRegs, id);
    InMapExactly(m', Usable(out) + newRegs, id);
    LastWithAppend(olds, newRegs, id);
    LastWithAppend(Usable(out), newRegs, id);
    if LastWith(newRegs, id).None? {
      if id in m && id != "" {
        UsableOfList(out, m, id);
      } else if id in m {
        LastWithPresent(olds, id);
        if stored.Entries? { UsableHasId(stored.list); }
        assert false;
      } else {
        UsableNone(out, id);
      }
    }
  }

  // ---------- the token lookup ----------

  function FirstWith(regs: seq<Registration>, id: string): Option<Registration> {
    if regs == [] then None
    else if regs[0].id == id then Some(regs[0])
    else FirstWith(regs[1..], id)
  }

  /** The first one of that id, if there is one. */
  lemma {:induction false} FirstWithMeaning(regs: seq<Registration>, id: string)
    ensures match FirstWith(regs, id)
            case None => forall i :: 0 <= i < |regs| ==> regs[i].id != id
            case Some(r) => exists i :: 0 <= i < |regs| && regs[i] == r && r.id == id &&
                                        forall j :: 0 <= j < i ==> regs[j].id != id
  {
    if regs != [] && regs[0].id != id {
      FirstWithMeaning(regs[1..], id);
      if FirstWith(regs[1..], id).Some? {
        var r := FirstWith(regs[1..], id).value;
        var i :| 0 <= i < |regs| - 1 && regs[1..][i] == r && r.id == id &&
                 forall j :: 0 <= j < i ==> regs[1..][j].id != id;
        assert regs[i + 1] == r;
        assert forall j :: 0 < j < i + 1 ==> regs[j] == regs[1..][j - 1];
      }
    }
  }

  class Config {
    var id: string
    var token: string
    var url: string
    var registrations: seq<Registration>

    constructor (id: string, token: string, url: string, registrations: seq<Registration>)
      ensures this.id == id && this.token == token && this.url == url && this.registrations == registrations
    {
      this.id, this.token, this.url, this.registrations := id, token, url, registrations;
    }

    /** Fills in token and URL from the registration of the configured id, or everything
        from the only registration when no id is configured. A URL that is set stays. */
    method ResolveToken()
      modifies this`id, this`token, this`url
      ensures var regs := registrations;
              if old(id) != "" && old(token) == "" && FirstWith(regs, old(id)).Some? then
                var r := FirstWith(regs, old(id)).value;
                id == old(id) && token == r.token && url == (if old(url) == "" then r.url else old(url))
              else if old(id) == "" && |regs| == 1 then
                id == regs[0].id && token == regs[0].token &&
                url == (if old(url) == "" then regs[0].url else old(url))
              else id == old(id) && token == old(token) && url == old(url)
    {
      var regs := registrations;
      if |regs| == 0 {
        return;
      }
      if id != "" && token == "" {
        for i := 0 to |regs|
          invariant id == old(id) && token == old(token) && url == old(url)
          invariant FirstWith(regs, id) == FirstWith(regs[i..], id)
        {
          var r := regs[i];
          if r.id == id {
            token := r.token;
            if url == "" && r.url != "" {
              url := r.url;
            }
            return;
          }
        }
      } else if id == "" && |regs| == 1 {
        id := regs[0].id;
        token := regs[0].token;
        if url == "" && regs[0].url != "" {
          url := regs[0].url;
        }
      }
    }
  }

  /** The list a configuration file with these entries loads as. */
  function Loaded(out: seq<Entry>): (regs: seq<Registration>)
    requires forall i :: 0 <= i < |out| ==> out[i].Table?
    ensures |regs| == |out|
    ensures forall i :: 0 <= i < |out| ==> regs[i] == ReadTable(out[i].fields)
  {
    seq(|out|, i requires 0 <= i < |out| => ReadTable(out[i].fields))
  }

  lemma {:induction false} FirstWithUnique(regs: seq<Registration>, i: nat)
    requires i < |regs|
    requires forall j :: 0 <= j < |regs| && j != i ==> regs[j].id != regs[i].id
    ensures FirstWith(regs, regs[i].id) == Some(regs[i])
  {
    if i > 0 { FirstWithUnique(regs[1..], i - 1); }
  }

  lemma FoundInList(out: seq<Entry>, regs: seq<Registration>, k: nat)
    requires Merged(out, regs) && k < |regs|
    ensures FirstWith(Loaded(out), regs[k].id) == LastWith(regs, regs[k].id)
  {
    assert HasEntry(out, regs[k].id);
    var i :| 0 <= i < |out| && out[i].Table? && ReadTable(out[i].fields).id == regs[k].id;
    FirstWithUnique(Loaded(out), i);
  }

  lemma {:induction false} LastWithIs(regs: seq<Registration>, k: nat)
    requires k < |regs| && forall j :: k < j < |regs| ==> regs[j].id != regs[k].id
    ensures LastWith(regs, regs[k].id) == Some(regs[k])
  {
    if k < |regs| - 1 { LastWithIs(regs[..|regs| - 1], k); }
  }

  /** The merged list has exactly the registration that is the last of its id. */
  lemma MergedHasLast(out: seq<Entry>, regs: seq<Registration>, r: Registration)
    requires Merged(out, regs) && LastWith(regs, r.id) == Some(r)
    ensures exists i :: 0 <= i < |out| && out[i].Table? && ReadTable(out[i].fields) == r
  {
    LastWithPresent(regs, r.id);
    var k :| 0 <= k < |regs| && regs[k].id == r.id;
    assert HasEntry(out, regs[k].id);
    var i :| 0 <= i < |out| && out[i].Table? && ReadTable(out[i].fields).id == r.id;
    assert IsLast(regs, ReadTable(out[i].fields));
  }

  /** A stored table with an id is in the merged list with its token and URL, unless a later
      one or a new registration has the same id. */
  lemma StoredStays(list: seq<Entry>, newRegs: seq<Registration>, out: seq<Entry>, k: nat, r: Registration)
    requires Merged(out, UsableStored(Entries(list)) + newRegs)
    requires k < |list| && list[k].Table? && r.id != ""
    requires Says(list[k].fields, "id", r.id) && Says(list[k].fields, "token", r.token) &&
             Says(list[k].fields, "url", r.url)
    requires forall j :: k < j < |list| && list[j].Table? ==> !Says(list[j].fields, "id", r.id)
    requires forall j :: 0 <= j < |newRegs| ==> newRegs[j].id != r.id
    ensures exists i :: 0 <= i < |out| && out[i].Table? && ReadTable(out[i].fields) == r
  {
    TableKeys(list[k].fields, r);
    assert NoTableWith(list[k + 1..], r.id);
    UsableFinds(list, k);
    LastWithPresent(newRegs, r.id);
    LastWithAppend(Usable(list), newRegs, r.id);
    MergedHasLast(out, Usable(list) + newRegs, r);
  }

  /** After merging new registrations and loading the file again, looking up the id of a
      newly merged one finds exactly the token and URL of the last one with that id, in
      whatever order the merge wrote the list. */
  method MergeThenResolve(stored: Stored, newRegs: seq<Registration>, k: nat) returns (token: string, url: string)
    requires k < |newRegs| && newRegs[k].id != ""
    requires forall j :: k < j < |newRegs| ==> newRegs[j].id != newRegs[k].id
    ensures token == newRegs[k].token && url == newRegs[k].url
  {
    var out := MergeRegistrations(stored, newRegs);
    var regs := UsableStored(stored) + newRegs;
    LastWithIs(newRegs, k);
    LastWithAppend(UsableStored(stored), newRegs, newRegs[k].id);
    FoundInList(out, regs, |UsableStored(stored)| + k);
    var config := new Config(newRegs[k].id, "", "", Loaded(out));
    config.ResolveToken();
    token, url := config.token, config.url;
  }
}
