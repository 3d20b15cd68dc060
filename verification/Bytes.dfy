/** Byte strings and the few operations on them that the stream reader uses.
    One `char` stands for one byte. */
module Bytes {
  type Bytes = string

  datatype Option<+T> = None | Some(value: T)

  const LF := '\n'
  const CR := '\r'

  /** The position of the first `c` in `s`, or |s| when there is none. */
  function IndexOf<T(==)>(s: seq<T>, c: T): (i: nat)
    ensures i <= |s|
    ensures c !in s[..i]
    ensures i < |s| ==> s[i] == c
    ensures i == |s| <==> c !in s
  {
    if s == [] then 0
    else if s[0] == c then 0
    else
      assert s == [s[0]] + s[1..];
      1 + IndexOf(s[1..], c)
  }

  lemma IndexOfIs<T>(s: seq<T>, c: T, k: nat)
    requires k < |s| && s[k] == c && c !in s[..k]
    ensures IndexOf(s, c) == k
  {
    var i := IndexOf(s, c);
    assert forall j :: 0 <= j < k ==> s[..k][j] == s[j];
    assert forall j :: 0 <= j < i ==> s[..i][j] == s[j];
  }

  /** Drops every trailing CR and LF. */
  function TrimRight(s: Bytes): Bytes {
    if s != [] && (s[|s| - 1] == CR || s[|s| - 1] == LF) then TrimRight(s[..|s| - 1]) else s
  }

  lemma {:induction false} TrimRightPrefix(s: Bytes)
    ensures TrimRight(s) <= s
    ensures var t := TrimRight(s); t != [] ==> t[|t| - 1] != CR && t[|t| - 1] != LF
  {
    if s != [] { TrimRightPrefix(s[..|s| - 1]); }
  }

  /** Each line followed by an LF. */
  function Terminated(lines: seq<Bytes>): (s: Bytes)
    ensures lines == [] <==> s == []
    ensures s != [] ==> s[|s| - 1] == LF
  {
    if lines == [] then [] else lines[0] + [LF] + Terminated(lines[1..])
  }

  /** The parts with a separator between neighbours. */
  function JoinWith(parts: seq<Bytes>, sep: char): Bytes {
    if parts == [] then []
    else if |parts| == 1 then parts[0]
    else parts[0] + [sep] + JoinWith(parts[1..], sep)
  }

  /** The pieces of `s` between separators; never empty. */
  function SplitOn(s: Bytes, sep: char): (parts: seq<Bytes>)
    ensures parts != []
    ensures forall p :: p in parts ==> sep !in p
  {
    var i := IndexOf(s, sep);
    if i == |s| then [s] else [s[..i]] + SplitOn(s[i + 1..], sep)
  }

  lemma JoinCons(part: Bytes, parts: seq<Bytes>, sep: char)
    requires parts != []
    ensures JoinWith([part] + parts, sep) == part + [sep] + JoinWith(parts, sep)
  {
    assert ([part] + parts)[1..] == parts;
  }

  lemma CutAt<T>(s: seq<T>, i: nat)
    requires i < |s|
    ensures s == s[..i] + [s[i]] + s[i + 1..]
  {
  }

  lemma {:induction false} JoinSplit(s: Bytes, sep: char)
    ensures JoinWith(SplitOn(s, sep), sep) == s
    decreases |s|
  {
    var i := IndexOf(s, sep);
    if i < |s| {
      var rest := s[i + 1..];
      JoinSplit(rest, sep);
      JoinCons(s[..i], SplitOn(rest, sep), sep);
      CutAt(s, i);
    }
  }

  lemma {:induction false} SplitJoin(parts: seq<Bytes>, sep: char)
    requires parts != []
    requires forall p :: p in parts ==> sep !in p
    ensures SplitOn(JoinWith(parts, sep), sep) == parts
  {
    var p, rest := parts[0], parts[1..];
    if rest == [] {
      assert parts == [p];
    } else {
      SplitJoin(rest, sep);
      var tail := JoinWith(rest, sep);
      var s := p + [sep] + tail;
      assert s[..|p|] == p && s[|p|] == sep && s[|p| + 1..] == tail;
      IndexOfIs(s, sep, |p|);
      assert parts == [p] + rest;
    }
  }

  lemma {:induction false} TerminatedIsJoin(lines: seq<Bytes>)
    requires lines != []
    ensures Terminated(lines) == JoinWith(lines, LF) + [LF]
  {
    if |lines| > 1 { TerminatedIsJoin(lines[1..]); }
  }

  lemma AppendAssociates<T>(a: seq<T>, b: seq<T>, c: seq<T>)
    ensures a + (b + c) == a + b + c
  {
  }

  lemma HeadAndTail<T>(s: seq<T>, p: seq<T>, q: seq<T>)
    requires s != [] && p != [] && s[0] == p[0] && s[1..] == p[1..] + q
    ensures s == p + q
  {
  }

  lemma {:induction false} TerminatedAppend(a: seq<Bytes>, b: seq<Bytes>)
    ensures Terminated(a + b) == Terminated(a) + Terminated(b)
  {
    if a == [] {
      assert a + b == b;
    } else {
      TerminatedAppend(a[1..], b);
      assert (a + b)[0] == a[0] && (a + b)[1..] == a[1..] + b;
      AppendAssociates(a[0] + [LF], Terminated(a[1..]), Terminated(b));
    }
  }

  function LastOr<T>(s: seq<T>, d: T): T {
    if s == [] then d else s[|s| - 1]
  }

  function Flatten<T>(parts: seq<seq<T>>): seq<T> {
    if parts == [] then [] else parts[0] + Flatten(parts[1..])
  }

  lemma {:induction false} FlattenAppend<T>(a: seq<seq<T>>, b: seq<seq<T>>)
    ensures Flatten(a + b) == Flatten(a) + Flatten(b)
  {
    if a == [] {
      assert a + b == b;
    } else {
      FlattenAppend(a[1..], b);
      assert (a + b)[0] == a[0] && (a + b)[1..] == a[1..] + b;
      AppendAssociates(a[0], Flatten(a[1..]), Flatten(b));
    }
  }
}
