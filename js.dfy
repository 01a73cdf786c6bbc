/**
 * The small part of JavaScript value semantics that the dashboard relies on:
 * optional values, truthiness of strings, plain objects as ordered key/value
 * lists, `Array.prototype.find`, `String.prototype.split`, `trim`,
 * `startsWith` and `toLowerCase`.
 */
module Js {

  /** `undefined`/`null` versus a present value. */
  datatype Option<+T> = None | Some(value: T) {
    /** `x ?? default` */
    function GetOr(default: T): T {
      match this
      case Some(v) => v
      case None => default
    }
  }

  /** A string used as a condition: `undefined`, `null` and "" are falsy. */
  predicate Truthy(s: Option<string>) {
    s.Some? && s.value != ""
  }

  /** `a || b` where `a` is an optional string and `b` a string. */
  function Or(a: Option<string>, b: string): (r: string)
    ensures Truthy(a) ==> r == a.value
    ensures !Truthy(a) ==> r == b
  {
    if Truthy(a) then a.value else b
  }

  // ---------------------------------------------------------------------------
  // Plain objects. A JavaScript object keeps its string keys in insertion
  // order; `Object.keys`, `Object.values` and `Object.entries` list them in
  // that order. An object is modelled as the list of its entries.
  // ---------------------------------------------------------------------------

  type Obj<V> = seq<(string, V)>

  function Keys<V>(o: Obj<V>): (ks: seq<string>)
    ensures |ks| == |o|
    ensures forall i :: 0 <= i < |o| ==> ks[i] == o[i].0
  {
    seq(|o|, i requires 0 <= i < |o| => o[i].0)
  }

  function Values<V>(o: Obj<V>): (vs: seq<V>)
    ensures |vs| == |o|
    ensures forall i :: 0 <= i < |o| ==> vs[i] == o[i].1
  {
    seq(|o|, i requires 0 <= i < |o| => o[i].1)
  }

  /** What every real JavaScript object satisfies. */
  predicate DistinctKeys<V>(o: Obj<V>) {
    forall i, j :: 0 <= i < j < |o| ==> o[i].0 != o[j].0
  }

  /** `Array.prototype.findIndex`, with "not found" as `|s|`. */
  function FindIndex<T>(s: seq<T>, p: T -> bool): (i: nat)
    ensures i <= |s|
    ensures i < |s| ==> p(s[i])
    ensures forall j :: 0 <= j < i ==> !p(s[j])
  {
    if |s| == 0 then 0
    else if p(s[0]) then 0
    else 1 + FindIndex(s[1..], p)
  }

  /** `Array.prototype.find` */
  function Find<T>(s: seq<T>, p: T -> bool): (r: Option<T>)
    ensures r.None? <==> forall j :: 0 <= j < |s| ==> !p(s[j])
    ensures r.Some? ==> exists i :: 0 <= i < |s| && s[i] == r.value && p(s[i]) &&
                           forall j :: 0 <= j < i ==> !p(s[j])
  {
    var i := FindIndex(s, p);
    if i < |s| then Some(s[i]) else None
  }

  /** `k in o` */
  predicate HasKey<V>(o: Obj<V>, k: string) {
    exists j :: 0 <= j < |o| && o[j].0 == k
  }

  /** Position of the entry for key `k`, or `|o|` when there is none. */
  function IndexOfKey<V>(o: Obj<V>, k: string): (i: nat)
    ensures i <= |o|
    ensures i < |o| ==> o[i].0 == k
    ensures forall j :: 0 <= j < i ==> o[j].0 != k
  {
    if |o| == 0 then 0
    else if o[0].0 == k then 0
    else 1 + IndexOfKey(o[1..], k)
  }

  /** `o[k]` */
  function Lookup<V>(o: Obj<V>, k: string): (r: Option<V>)
    ensures r.None? <==> forall j :: 0 <= j < |o| ==> o[j].0 != k
    ensures r.Some? ==> k in Keys(o)
  {
    var i := IndexOfKey(o, k);
    if i < |o| then Some(o[i].1) else None
  }

  /** In an object with distinct keys, the entry at position `i` is what `o[key]` reads. */
  lemma LookupAt<V>(o: Obj<V>, i: nat)
    requires DistinctKeys(o) && i < |o|
    ensures Lookup(o, o[i].0) == Some(o[i].1)
  {
    var j := IndexOfKey(o, o[i].0);
    assert j <= i;
  }

  /** The entries of `o` whose key is not `k`, in order. */
  function RemoveKey<V>(o: Obj<V>, k: string): (r: Obj<V>)
    ensures |r| <= |o|
    ensures forall i :: 0 <= i < |r| ==> r[i].0 != k
    ensures forall x :: x != k ==> Lookup(r, x) == Lookup(o, x)
  {
    if |o| == 0 then []
    else if o[0].0 == k then RemoveKey(o[1..], k)
    else
      var rest := RemoveKey(o[1..], k);
      assert forall x :: x != k && x != o[0].0 ==> Lookup([o[0]] + rest, x) == Lookup(rest, x) by {
        forall x | x != k && x != o[0].0 ensures Lookup([o[0]] + rest, x) == Lookup(rest, x) {
          LookupCons(o[0], rest, x);
        }
      }
      assert forall x :: x != o[0].0 ==> Lookup(o, x) == Lookup(o[1..], x) by {
        forall x | x != o[0].0 ensures Lookup(o, x) == Lookup(o[1..], x) {
          assert o == [o[0]] + o[1..];
          LookupCons(o[0], o[1..], x);
        }
      }
      [o[0]] + rest
  }

  lemma IndexOfKeyCons<V>(e: (string, V), o: Obj<V>, x: string)
    requires e.0 != x
    ensures IndexOfKey([e] + o, x) == 1 + IndexOfKey(o, x)
  {
    assert ([e] + o)[1..] == o;
  }

  /** Reading a key from an object with one more entry in front. */
  lemma LookupCons<V>(e: (string, V), o: Obj<V>, x: string)
    ensures Lookup([e] + o, x) == if e.0 == x then Some(e.1) else Lookup(o, x)
  {
    var o' := [e] + o;
    if e.0 != x {
      assert o'[0] == e && o'[1..] == o;
      IndexOfKeyCons(e, o, x);
    }
  }

  /** Reading a key from an object with one more entry at the back. */
  lemma LookupSnoc<V>(o: Obj<V>, e: (string, V), x: string)
    ensures Lookup(o + [e], x) == if Lookup(o, x).Some? then Lookup(o, x) else if e.0 == x then Some(e.1) else None
  {
    var o' := o + [e];
    var i := IndexOfKey(o', x);
    var j := IndexOfKey(o, x);
    if j < |o| {
      assert o'[j].0 == x;
      assert i <= j;
    } else {
      assert forall k :: 0 <= k < |o| ==> o'[k].0 != x;
      assert o'[|o|] == e;
      assert i >= |o|;
    }
  }

  // ---------------------------------------------------------------------------
  // Strings
  // ---------------------------------------------------------------------------

  /** Position of the first `c` in `s`, or `|s|`. */
  function IndexOf(s: string, c: char): (i: nat)
    ensures i <= |s|
    ensures i < |s| ==> s[i] == c
    ensures forall j :: 0 <= j < i ==> s[j] != c
    ensures i == |s| <==> c !in s
  {
    if |s| == 0 then 0
    else if s[0] == c then 0
    else 1 + IndexOf(s[1..], c)
  }

  /** `s.split(sep)` for a one-character separator. */
  function Split(s: string, sep: char): (r: seq<string>)
    ensures |r| >= 1
    ensures r[0] == s[..IndexOf(s, sep)]
    decreases |s|
  {
    var i := IndexOf(s, sep);
    if i == |s| then [s] else [s[..i]] + Split(s[i + 1..], sep)
  }

  /** Splitting at the first separator. */
  lemma SplitAtFirst(s: string, sep: char)
    requires sep in s
    ensures Split(s, sep) == [s[..IndexOf(s, sep)]] + Split(s[IndexOf(s, sep) + 1..], sep)
  {
  }

  /** Every piece that `split` produces is free of the separator. */
  lemma {:induction false} SplitPiecesAvoidSeparator(s: string, sep: char)
    ensures forall k :: 0 <= k < |Split(s, sep)| ==> sep !in Split(s, sep)[k]
    decreases |s|
  {
    var i := IndexOf(s, sep);
    if i < |s| {
      SplitPiecesAvoidSeparator(s[i + 1..], sep);
      var r := Split(s, sep);
      assert r == [s[..i]] + Split(s[i + 1..], sep);
      forall k | 0 <= k < |r| ensures sep !in r[k] {
        if k > 0 {
          assert r[k] == Split(s[i + 1..], sep)[k - 1];
        }
      }
    }
  }

  /** Joining the pieces back with the separator gives the original string. */
  function Join(pieces: seq<string>, sep: char): string
    requires |pieces| >= 1
  {
    if |pieces| == 1 then pieces[0] else pieces[0] + [sep] + Join(pieces[1..], sep)
  }

  lemma JoinCons(p: string, ps: seq<string>, sep: char)
    requires |ps| >= 1
    ensures Join([p] + ps, sep) == p + [sep] + Join(ps, sep)
  {
    assert ([p] + ps)[1..] == ps;
  }

  /** A non-empty sequence is its prefix followed by its last element. */
  lemma TakeSnoc<T>(s: seq<T>)
    requires |s| > 0
    ensures s == s[..|s| - 1] + [s[|s| - 1]]
  {
  }

  lemma SliceAround<T>(s: seq<T>, i: nat)
    requires i < |s|
    ensures s == s[..i] + [s[i]] + s[i + 1..]
  {
  }

  lemma {:induction false} SplitJoin(s: string, sep: char)
    ensures Join(Split(s, sep), sep) == s
    decreases |s|
  {
    var i := IndexOf(s, sep);
    if i < |s| {
      var head, tail := s[..i], s[i + 1..];
      SplitJoin(tail, sep);
      var r := Split(s, sep);
      assert r == [head] + Split(tail, sep);
      JoinCons(head, Split(tail, sep), sep);
      assert Join(r, sep) == head + [sep] + tail;
      SliceAround(s, i);
    } else {
      assert Split(s, sep) == [s];
    }
  }

  /** `s` with every `c` removed. */
  function RemoveAll(s: string, c: char): (r: string)
    ensures c !in r
  {
    if |s| == 0 then "" else (if s[0] == c then "" else [s[0]]) + RemoveAll(s[1..], c)
  }

  lemma {:induction false} RemoveAllAppend(a: string, b: string, c: char)
    ensures RemoveAll(a + b, c) == RemoveAll(a, c) + RemoveAll(b, c)
    decreases |a|
  {
    if |a| > 0 {
      var h := if a[0] == c then "" else [a[0]];
      assert (a + b)[0] == a[0];
      assert (a + b)[1..] == a[1..] + b;
      RemoveAllAppend(a[1..], b, c);
      assert RemoveAll(a + b, c) == h + RemoveAll(a[1..] + b, c);
      assert RemoveAll(a, c) == h + RemoveAll(a[1..], c);
    } else {
      assert a + b == b;
    }
  }

  /** A string made only of `c` has nothing left once `c` is removed. */
  lemma {:induction false} RemoveAllOfOnly(s: string, c: char)
    requires forall i :: 0 <= i < |s| ==> s[i] == c
    ensures RemoveAll(s, c) == ""
    decreases |s|
  {
    if |s| > 0 {
      RemoveAllOfOnly(s[1..], c);
    }
  }

  /** `s.startsWith(p)` */
  predicate StartsWith(s: string, p: string) {
    |p| <= |s| && s[..|p|] == p
  }

  /** The characters `String.prototype.trim` removes (ECMAScript WhiteSpace and LineTerminator). */
  predicate IsWhiteSpace(c: char) {
    c == ' ' || c == '\t' || c == '\n' || c == '\r' || c == '\U{000B}' || c == '\U{000C}' ||
    c == '\U{00A0}' || c == '\U{FEFF}' || c == '\U{1680}' ||
    ('\U{2000}' <= c <= '\U{200A}') || c == '\U{2028}' || c == '\U{2029}' ||
    c == '\U{202F}' || c == '\U{205F}' || c == '\U{3000}'
  }

  function TrimStart(s: string): (r: string)
    ensures |r| <= |s| && r == s[|s| - |r|..]
    ensures r == [] || !IsWhiteSpace(r[0])
    ensures forall i :: 0 <= i < |s| - |r| ==> IsWhiteSpace(s[i])
  {
    if |s| > 0 && IsWhiteSpace(s[0]) then TrimStart(s[1..]) else s
  }

  function TrimEnd(s: string): (r: string)
    ensures |r| <= |s| && r == s[..|r|]
    ensures r == [] || !IsWhiteSpace(r[|r| - 1])
    ensures forall i :: |r| <= i < |s| ==> IsWhiteSpace(s[i])
  {
    if |s| > 0 && IsWhiteSpace(s[|s| - 1]) then TrimEnd(s[..|s| - 1]) else s
  }

  /** `s.trim()` */
  function Trim(s: string): string {
    TrimEnd(TrimStart(s))
  }

  /** `toLowerCase` on one character, for the Basic Latin letters. */
  function LowerChar(c: char): char {
    if 'A' <= c <= 'Z' then (c as int + 32) as char else c
  }

  /** `s.toLowerCase()` for the Basic Latin letters. */
  function Lower(s: string): (r: string)
    ensures |r| == |s|
    ensures forall i :: 0 <= i < |s| ==> r[i] == LowerChar(s[i])
  {
    seq(|s|, i requires 0 <= i < |s| => LowerChar(s[i]))
  }
}
