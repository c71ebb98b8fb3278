/** The optional value: JavaScript's `null`/`undefined` against a present value. */
module Options {
  datatype Option<+T> = None | Some(value: T) {
    function GetOr(default: T): T {
      match this
      case Some(v) => v
      case None => default
    }
  }
}

module Integers {
  function Min(a: int, b: int): int {
    if a <= b then a else b
  }

  function Max(a: int, b: int): int {
    if a >= b then a else b
  }
}

/** The string operations the modelled files rely on. */
module Strings {

  /** The characters that `String.prototype.trim` strips. */
  predicate IsSpace(c: char) {
    || c == ' ' || '\t' <= c <= '\r' || c == '\U{00A0}' || c == '\U{1680}' || '\U{2000}' <= c <= '\U{200A}'
    || c == '\U{2028}' || c == '\U{2029}' || c == '\U{202F}' || c == '\U{205F}' || c == '\U{3000}'
    || c == '\U{FEFF}'
  }

  /** The four characters that the JSON grammar allows around a value. */
  predicate IsJsonSpace(c: char) {
    c == '\t' || c == '\n' || c == '\r' || c == ' '
  }

  function DropLeading(s: string, blank: char -> bool): (r: string)
    ensures |r| <= |s|
    ensures r != [] ==> !blank(r[0])
  {
    if s != [] && blank(s[0]) then DropLeading(s[1..], blank) else s
  }

  function DropTrailing(s: string, blank: char -> bool): (r: string)
    ensures |r| <= |s| && r == s[..|r|]
    ensures r != [] ==> !blank(r[|r| - 1])
  {
    if s != [] && blank(s[|s| - 1]) then DropTrailing(s[..|s| - 1], blank) else s
  }

  function TrimBy(s: string, blank: char -> bool): string {
    DropTrailing(DropLeading(s, blank), blank)
  }

  /** `s.trim()`. */
  function Trim(s: string): string {
    TrimBy(s, IsSpace)
  }

  /** Trimming a trimmed string changes nothing, so a trimmed identifier is already in normal form. */
  lemma TrimIdempotent(s: string)
    ensures Trim(Trim(s)) == Trim(s)
  {
    var t := DropLeading(s, IsSpace);
    var r := DropTrailing(t, IsSpace);
    assert r == [] || r[0] == t[0];
  }

  /** A trimmed string begins and ends with a visible character. */
  lemma TrimmedEnds(s: string)
    requires Trim(s) != ""
    ensures !IsSpace(Trim(s)[0]) && !IsSpace(Trim(s)[|Trim(s)| - 1])
  {
    var t := DropLeading(s, IsSpace);
    assert Trim(s)[0] == t[0];
  }

  /** `!s.trim()`, as `TrimEmptyIffBlank` shows. */
  predicate IsBlank(s: string) {
    forall c | c in s :: IsSpace(c)
  }

  lemma {:induction false} AllLeadingBlank(s: string)
    requires IsBlank(s)
    ensures DropLeading(s, IsSpace) == ""
  {
    if s != [] {
      assert s[0] in s;
      AllLeadingBlank(s[1..]);
    }
  }

  lemma {:induction false} DropLeadingRest(s: string)
    requires DropLeading(s, IsSpace) == ""
    ensures IsBlank(s)
  {
    if s != [] {
      DropLeadingRest(s[1..]);
      assert s == [s[0]] + s[1..];
    }
  }

  lemma DropTrailingKeepsFirst(s: string)
    requires s != [] && !IsSpace(s[0])
    ensures DropTrailing(s, IsSpace) != []
  {
  }

  lemma TrimEmptyIffBlank(s: string)
    ensures Trim(s) == "" <==> IsBlank(s)
  {
    var t := DropLeading(s, IsSpace);
    if IsBlank(s) {
      AllLeadingBlank(s);
    }
    if t == "" {
      DropLeadingRest(s);
    } else {
      DropTrailingKeepsFirst(t);
    }
  }

  /** `s.split("\n")`. */
  function Split(s: string): (lines: seq<string>)
    ensures lines != []
  {
    if s == "" then [""]
    else
      var rest := Split(s[1..]);
      if s[0] == '\n' then [""] + rest else [[s[0]] + rest[0]] + rest[1..]
  }

  function Join(lines: seq<string>): string
    requires lines != []
  {
    if |lines| == 1 then lines[0] else lines[0] + "\n" + Join(lines[1..])
  }

  predicate StartsWith(s: string, prefix: string) {
    prefix <= s
  }

  /** `s.startsWith(prefix + "/")`. */
  predicate StartsAt(s: string, prefix: string) {
    prefix + "/" <= s
  }

  predicate SlashFree(s: string) {
    '/' !in s
  }

  /** `s.indexOf(c)`, with the length of `s` in place of -1. */
  function IndexOf(s: string, c: char): (i: nat)
    ensures i <= |s|
    ensures i < |s| ==> s[i] == c
    ensures c !in s[..i]
  {
    if s == "" || s[0] == c then 0
    else
      var i := 1 + IndexOf(s[1..], c);
      assert s[..i] == [s[0]] + s[1..][..i - 1];
      i
  }

  lemma {:induction false} IndexAfter(prefix: string, c: char, rest: string)
    requires c !in prefix
    ensures IndexOf(prefix + [c] + rest, c) == |prefix|
  {
    var s := prefix + [c] + rest;
    if prefix != "" {
      assert s[0] == prefix[0];
      assert s[1..] == prefix[1..] + [c] + rest;
      IndexAfter(prefix[1..], c, rest);
    }
  }
}

/**
 * A JavaScript `Map` (or an object with string keys that are not integer-like): a finite map that is
 * iterated in the order in which its keys were first inserted.
 */
module OrderedMaps {
  import opened Options

  ghost predicate Distinct<K>(s: seq<K>) {
    forall i, j :: 0 <= i < j < |s| ==> s[i] != s[j]
  }

  /** `s` without its occurrences of `k`. */
  function Without<K(==)>(s: seq<K>, k: K): (r: seq<K>)
    ensures forall x | x in r :: x in s && x != k
    ensures forall x | x in s :: x == k || x in r
  {
    if s == [] then []
    else if s[0] == k then Without(s[1..], k)
    else [s[0]] + Without(s[1..], k)
  }

  lemma WithoutDistinct<K>(s: seq<K>, k: K)
    requires Distinct(s)
    ensures Distinct(Without(s, k))
    ensures |Without(s, k)| == if k in s then |s| - 1 else |s|
    ensures k !in s ==> Without(s, k) == s
  {
    if s != [] {
      var t := s[1..];
      assert Distinct(t);
      WithoutDistinct(t, k);
      if s[0] == k {
        assert k !in t;
      } else {
        assert k in s <==> k in t;
        var w := Without(t, k);
        assert s[0] !in t;
        assert forall j :: 0 <= j < |w| ==> w[j] in w;
        assert Distinct([s[0]] + w);
      }
    }
  }

  lemma {:induction false} WithoutAbsent<K>(s: seq<K>, k: K)
    requires k !in s
    ensures Without(s, k) == s
  {
    if s != [] {
      assert k !in s[1..];
      WithoutAbsent(s[1..], k);
    }
  }

  datatype OrderedMap<K(==), V> = OrderedMap(order: seq<K>, table: map<K, V>) {

    ghost predicate Valid() {
      && Distinct(order)
      && (forall k | k in order :: k in table)
      && (forall k | k in table :: k in order)
    }

    function Get(k: K): Option<V> {
      if k in table then Some(table[k]) else None
    }

    function Size(): nat {
      |order|
    }

    /** `map.set(k, v)`: an existing key keeps its place, a new one goes last. */
    function Set(k: K, v: V): OrderedMap<K, V> {
      OrderedMap(if k in table then order else order + [k], table[k := v])
    }

    /** `map.delete(k)`. */
    function Delete(k: K): OrderedMap<K, V> {
      OrderedMap(Without(order, k), table - {k})
    }
  }

  function Empty<K(==), V>(): OrderedMap<K, V> {
    OrderedMap([], map[])
  }

  lemma SetValid<K, V>(m: OrderedMap<K, V>, k: K, v: V)
    requires m.Valid()
    ensures m.Set(k, v).Valid()
  {
  }

  lemma DeleteValid<K, V>(m: OrderedMap<K, V>, k: K)
    requires m.Valid()
    ensures m.Delete(k).Valid()
    ensures m.Delete(k).Size() == if k in m.table then m.Size() - 1 else m.Size()
  {
    WithoutDistinct(m.order, k);
  }
}
