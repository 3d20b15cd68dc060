/** The parts of the configuration that decide what the worker may do and who it is:
    allowed verbs, tag lists, merged registrations and the token lookup. */
module Config {
  import opened Bytes

  // ---------- trimming ----------

  /** The characters with the Unicode property White_Space. */
  predicate IsSpace(c: char) {
    || '\t' <= c <= '\r' || c == ' ' || c == '\U{85}' || c == '\U{A0}' || c == '\U{1680}'
    || '\U{2000}' <= c <= '\U{200A}' || c == '\U{2028}' || c == '\U{2029}' || c == '\U{202F}'
    || c == '\U{205F}' || c == '\U{3000}'
  }

  /** White space, character by character. */
  lemma SpacesSpelledOut(c: char)
    ensures IsSpace(c) <==>
            c in "\t\n\U{B}\U{C}\r \U{85}\U{A0}\U{1680}\U{2028}\U{2029}\U{202F}\U{205F}\U{3000}" ||
            c in "\U{2000}\U{2001}\U{2002}\U{2003}\U{2004}\U{2005}\U{2006}\U{2007}\U{2008}\U{2009}\U{200A}"
  {
  }

  function TrimFunc(s: string, f: char -> bool): string {
    if s == [] then s
    else if f(s[0]) then TrimFunc(s[1..], f)
    else if f(s[|s| - 1]) then TrimFunc(s[..|s| - 1], f)
    else s
  }

  function TrimSpace(s: string): string { TrimFunc(s, IsSpace) }

  lemma {:induction false} TrimFuncMeaning(s: string, f: char -> bool) returns (l: nat, r: nat)
    ensures l <= r <= |s| && TrimFunc(s, f) == s[l..r]
    ensures forall k :: 0 <= k < l || r <= k < |s| ==> f(s[k])
    ensures l < r ==> !f(s[l]) && !f(s[r - 1])
    decreases |s|
  {
    if s == [] {
      l, r := 0, 0;
    } else if f(s[0]) {
      l, r := TrimFuncMeaning(s[1..], f);
      l, r := l + 1, r + 1;
    } else if f(s[|s| - 1]) {
      l, r := TrimFuncMeaning(s[..|s| - 1], f);
    } else {
      l, r := 0, |s|;
    }
  }

  /** Only white space is removed, and all of it at both ends. */
  lemma TrimSpaceMeaning(s: string) returns (l: nat, r: nat)
    ensures l <= r <= |s| && TrimSpace(s) == s[l..r]
    ensures forall k :: 0 <= k < l || r <= k < |s| ==> IsSpace(s[k])
    ensures l < r ==> !IsSpace(s[l]) && !IsSpace(s[r - 1])
  {
    l, r := TrimFuncMeaning(s, IsSpace);
  }

  lemma TrimSpaceTwice(s: string)
    ensures TrimSpace(TrimSpace(s)) == TrimSpace(s)
  {
    var l, r := TrimSpaceMeaning(s);
  }

  // ---------- allowed verbs ----------

  const ALL_VERBS: seq<string> := ["exec", "eval", "get_file", "put_file", "file_exists"]

  /** Some entry of the list is `verb` once trimmed. */
  ghost predicate Named(list: seq<string>, verb: string) {
    exists i :: 0 <= i < |list| && TrimSpace(list[i]) == verb
  }

  /** Whether a verb is allowed: named by the allow list, or any of the five when that list
      is empty, and not named by the deny list. */
  ghost predicate Allows(allow: seq<string>, deny: seq<string>, verb: string) {
    && (if allow == [] then verb in ALL_VERBS else verb != "" && Named(allow, verb))
    && !Named(deny, verb)
  }

  lemma NamedOneMore(list: seq<string>, i: nat, verb: string)
    requires i < |list|
    ensures Named(list[..i + 1], verb) <==> Named(list[..i], verb) || TrimSpace(list[i]) == verb
  {
    var p, q := list[..i], list[..i + 1];
    assert forall k :: 0 <= k < i ==> q[k] == p[k];
    assert q[i] == list[i];
  }

  method AllowedByList(allow: seq<string>) returns (allowed: set<string>)
    ensures forall v :: v in allowed <==> v != "" && Named(allow, v)
  {
    allowed := {};
    for i := 0 to |allow|
      invariant forall v :: v in allowed <==> v != "" && Named(allow[..i], v)
    {
      forall v { NamedOneMore(allow, i, v); }
      var v := TrimSpace(allow[i]);
      if v != "" {
        allowed := allowed + {v};
      }
    }
    assert allow[..|allow|] == allow;
  }

  /** The five verbs, or the entries that are not blank if there are entries at all; less
      the denied ones. */
  lemma AllowsSpelledOut(allow: seq<string>, deny: seq<string>, verb: string)
    ensures Allows(allow, deny, verb) <==>
            && (if |allow| == 0
                then verb == "exec" || verb == "eval" || verb == "get_file" || verb == "put_file" ||
                     verb == "file_exists"
                else verb != "" && exists a :: a in allow && TrimSpace(a) == verb)
            && !exists d :: d in deny && TrimSpace(d) == verb
  {
    NamedByEntry(allow, verb);
    NamedByEntry(deny, verb);
  }

  lemma NamedByEntry(list: seq<string>, verb: string)
    ensures Named(list, verb) <==> exists x :: x in list && TrimSpace(x) == verb
  {
    if Named(list, verb) {
      var i :| 0 <= i < |list| && TrimSpace(list[i]) == verb;
      assert list[i] in list;
    }
  }

  method ResolveAllowedVerbs(allow: seq<string>, deny: seq<string>) returns (allowed: set<string>)
    ensures forall v :: v in allowed <==> Allows(allow, deny, v)
  {
    if |allow| == 0 {
      allowed := set v | v in ALL_VERBS;
    } else {
      allowed := AllowedByList(allow);
    }
    ghost var named := allowed;
    for i := 0 to |deny|
      invariant forall v :: v in allowed <==> v in named && !Named(deny[..i], v)
    {
      forall v { NamedOneMore(deny, i, v); }
      allowed := allowed - {TrimSpace(deny[i])};
    }
    assert deny[..|deny|] == deny;
  }

  /** Two lists hold the same entries, in whatever order and however often. */
  predicate SameEntries(a: seq<string>, b: seq<string>) {
    (forall x :: x in a ==> x in b) && (forall x :: x in b ==> x in a)
  }

  lemma NamedBySame(a: seq<string>, b: seq<string>, verb: string)
    requires SameEntries(a, b) && Named(a, verb)
    ensures Named(b, verb)
  {
    var i :| 0 <= i < |a| && TrimSpace(a[i]) == verb;
    assert a[i] in a && a[i] in b;
    var j :| 0 <= j < |b| && b[j] == a[i];
  }

  /** Order and duplicates in either list do not matter, and a denied verb is never
      allowed, whatever the allow list says. */
  lemma AllowsIsAboutEntries(allow: seq<string>, deny: seq<string>, allow': seq<string>, deny': seq<string>,
                             verb: string)
    requires SameEntries(allow, allow') && SameEntries(deny, deny')
    ensures Allows(allow, deny, verb) <==> Allows(allow', deny', verb)
    ensures forall d :: d in deny && TrimSpace(d) == verb ==> !Allows(allow, deny, verb)
  {
    assert allow == [] <==> allow' == [] by {
      if allow != [] { assert allow[0] in allow'; }
      if allow' != [] { assert allow'[0] in allow; }
    }
    if Named(allow, verb) { NamedBySame(allow, allow', verb); }
    if Named(allow', verb) { NamedBySame(allow', allow, verb); }
    if Named(deny, verb) { NamedBySame(deny, deny', verb); }
    if Named(deny', verb) { NamedBySame(deny', deny, verb); }
  }

  // ---------- tag lists ----------

  function Trimmed(parts: seq<string>): seq<string> {
    if parts == [] then []
    else if TrimSpace(parts[0]) == "" then Trimmed(parts[1..])
    else [TrimSpace(parts[0])] + Trimmed(parts[1..])
  }

  lemma {:induction false} TrimmedAppend(a: seq<string>, b: seq<string>)
    ensures Trimmed(a + b) == Trimmed(a) + Trimmed(b)
  {
    if a == [] {
      assert a + b == b;
    } else {
      assert (a + b)[1..] == a[1..] + b;
      TrimmedAppend(a[1..], b);
    }
  }

  lemma TrimmedOne(part: string)
    ensures Trimmed([part]) == if TrimSpace(part) == "" then [] else [TrimSpace(part)]
  {
    assert [part][1..] == [];
  }

  /** The trimmed parts are the parts that are not blank, trimmed. */
  lemma {:induction false} TrimmedMeaning(parts: seq<string>, t: string)
    ensures t in Trimmed(parts) <==> t != "" && exists p :: p in parts && TrimSpace(p) == t
    ensures |Trimmed(parts)| <= |parts|
  {
    if parts != [] {
      TrimmedMeaning(parts[1..], t);
      assert forall p :: p in parts <==> p == parts[0] || p in parts[1..];
    }
  }

  method SplitTags(s: string) returns (result: seq<string>)
    ensures result == Trimmed(SplitOn(s, ','))
  {
    if s == "" {
      assert SplitOn("", ',') == [""] && [""][1..] == [];
      return [];
    }
    var parts := SplitOn(s, ',');
    result := [];
    for i := 0 to |parts|
      invariant result == Trimmed(parts[..i])
    {
      assert parts[..i + 1] == parts[..i] + [parts[i]];
      TrimmedAppend(parts[..i], [parts[i]]);
      TrimmedOne(parts[i]);
      var p := TrimSpace(parts[i]);
      if p != "" {
        result := result + [p];
      }
    }
    assert parts[..|parts|] == parts;
  }

  /** A tag that survives being written into a comma-separated list. */
  predicate PlainTag(t: string) {
    t != "" && ',' !in t && !IsSpace(t[0]) && !IsSpace(t[|t| - 1])
  }

  lemma {:induction false} TrimmedPlain(tags: seq<string>)
    requires forall t :: t in tags ==> PlainTag(t)
    ensures Trimmed(tags) == tags
  {
    if tags != [] {
      assert tags[0] in tags;
      TrimmedPlain(tags[1..]);
    }
  }

  /** Plain tags joined with commas split back into the same tags. */
  lemma TagsRoundTrip(tags: seq<string>)
    requires tags != [] && forall t :: t in tags ==> PlainTag(t)
    ensures Trimmed(SplitOn(JoinWith(tags, ','), ',')) == tags
  {
    SplitJoin(tags, ',');
    TrimmedPlain(tags);
  }
}
