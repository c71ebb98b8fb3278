/**
 * The reordering of body fields and headers in `cliFingerprints.ts`. Objects are ordered maps from keys
 * that are not integer-like; the lower-casing of header names is an arbitrary function.
 */
module CliFingerprints {
  import opened OrderedMaps

  // ---------------------------------------------------------------- positions

  /** The position of the first `x`, or the length of `s`. */
  function IndexIn<T(==)>(s: seq<T>, x: T): (i: nat)
    ensures i <= |s|
    ensures i < |s| <==> x in s
    ensures i < |s| ==> s[i] == x
  {
    if s == [] || s[0] == x then 0 else 1 + IndexIn(s[1..], x)
  }

  lemma {:induction false} IndexConcat<T>(s: seq<T>, t: seq<T>, x: T)
    ensures IndexIn(s + t, x) == if x in s then IndexIn(s, x) else |s| + IndexIn(t, x)
  {
    if s == [] {
      assert s + t == t;
    } else {
      assert (s + t)[1..] == s[1..] + t;
      IndexConcat(s[1..], t, x);
    }
  }

  /** The elements of `order` that are in `keys`, each at its first place. */
  function Listed(order: seq<string>, keys: set<string>): (r: seq<string>)
    ensures forall x :: x in r <==> x in order && x in keys
    ensures Distinct(r)
  {
    if order == [] then []
    else
      var before, k := Listed(order[..|order| - 1], keys), order[|order| - 1];
      assert order == order[..|order| - 1] + [k];
      if k in keys && k !in before then before + [k] else before
  }

  /** The keys that are not in `order`. */
  function Unlisted(order: seq<string>, keys: seq<string>): (r: seq<string>)
    ensures forall x :: x in r <==> x in keys && x !in order
  {
    if keys == [] then []
    else if keys[0] in order then Unlisted(order, keys[1..])
    else [keys[0]] + Unlisted(order, keys[1..])
  }

  lemma {:induction false} ListedInOrder(order: seq<string>, keys: set<string>, a: string, b: string)
    requires a in order && a in keys && b in order && b in keys
    ensures IndexIn(Listed(order, keys), a) < IndexIn(Listed(order, keys), b)
            <==> IndexIn(order, a) < IndexIn(order, b)
  {
    var rest, k := order[..|order| - 1], order[|order| - 1];
    assert order == rest + [k];
    IndexConcat(rest, [k], a);
    IndexConcat(rest, [k], b);
    IndexConcat(Listed(rest, keys), [k], a);
    IndexConcat(Listed(rest, keys), [k], b);
    if a in rest && b in rest {
      ListedInOrder(rest, keys, a, b);
    }
  }

  lemma {:induction false} UnlistedInOrder(order: seq<string>, keys: seq<string>, a: string, b: string)
    requires a in keys && a !in order && b in keys && b !in order
    ensures IndexIn(Unlisted(order, keys), a) < IndexIn(Unlisted(order, keys), b)
            <==> IndexIn(keys, a) < IndexIn(keys, b)
  {
    var k, rest := keys[0], keys[1..];
    assert keys == [k] + rest;
    if a != k && b != k {
      UnlistedInOrder(order, rest, a, b);
    }
  }

  lemma {:induction false} UnlistedDistinct(order: seq<string>, keys: seq<string>)
    requires Distinct(keys)
    ensures Distinct(Unlisted(order, keys))
  {
    if keys != [] {
      assert Distinct(keys[1..]);
      assert keys[0] !in keys[1..];
      UnlistedDistinct(order, keys[1..]);
    }
  }

  lemma {:induction false} UnlistedStep(order: seq<string>, k: string, keys: seq<string>)
    ensures Unlisted(order + [k], keys) == Without(Unlisted(order, keys), k)
  {
    if keys != [] {
      UnlistedStep(order, k, keys[1..]);
      var w := Unlisted(order, keys);
      assert keys[0] !in order ==> w[1..] == Unlisted(order, keys[1..]);
    }
  }

  lemma {:induction false} UnlistedNone(keys: seq<string>)
    ensures Unlisted([], keys) == keys
  {
    if keys != [] {
      UnlistedNone(keys[1..]);
    }
  }

  // ---------------------------------------------------------------- fields

  function NewOrder(order: seq<string>, keys: seq<string>): seq<string> {
    Listed(order, set k | k in keys) + Unlisted(order, keys)
  }

  /** The object with its keys in the new order. */
  function Reordered<V>(obj: OrderedMap<string, V>, order: seq<string>): OrderedMap<string, V> {
    OrderedMap(NewOrder(order, obj.order), obj.table)
  }

  function Restrict<V>(keys: seq<string>, table: map<string, V>): OrderedMap<string, V>
    requires forall k :: k in keys ==> k in table
  {
    OrderedMap(keys, map k | k in keys :: table[k])
  }

  lemma RestrictSet<V>(keys: seq<string>, table: map<string, V>, k: string)
    requires forall x :: x in keys ==> x in table
    requires k in table
    ensures Restrict(keys, table).Set(k, table[k]) == Restrict(if k in keys then keys else keys + [k], table)
  {
  }

  /** The first loop: the listed keys, while `remaining` shrinks. */
  method AddListed<V>(obj: OrderedMap<string, V>, fieldOrder: seq<string>, ghost all: set<string>)
    returns (r: OrderedMap<string, V>, remaining: seq<string>)
    requires obj.Valid() && all == obj.table.Keys
    ensures r == Restrict(Listed(fieldOrder, all), obj.table)
    ensures remaining == Unlisted(fieldOrder, obj.order)
  {
    UnlistedNone(obj.order);
    r, remaining := OrderedMaps.Empty(), obj.order;
    for i := 0 to |fieldOrder|
      invariant r == Restrict(Listed(fieldOrder[..i], all), obj.table)
      invariant remaining == Unlisted(fieldOrder[..i], obj.order)
    {
      var key := fieldOrder[i];
      ListedStep(fieldOrder, i, all);
      UnlistedStep(fieldOrder[..i], key, obj.order);
      if key in obj.table {
        RestrictSet(Listed(fieldOrder[..i], all), obj.table, key);
        r := r.Set(key, obj.table[key]);
        remaining := Without(remaining, key);
      } else {
        WithoutAbsent(remaining, key);
      }
    }
    assert fieldOrder[..|fieldOrder|] == fieldOrder;
  }

  lemma ListedStep(order: seq<string>, i: nat, keys: set<string>)
    requires i < |order|
    ensures order[..i + 1] == order[..i] + [order[i]]
    ensures var before := Listed(order[..i], keys);
            Listed(order[..i + 1], keys)
            == if order[i] in keys && order[i] !in before then before + [order[i]] else before
  {
    assert order[..i + 1][..i] == order[..i];
  }

  lemma RestrictAll<V>(keys: seq<string>, table: map<string, V>)
    requires forall k :: k in keys <==> k in table
    ensures Restrict(keys, table) == OrderedMap(keys, table)
  {
  }

  /** The second loop: the remaining keys go last. */
  method AddRest<V>(start: OrderedMap<string, V>, remaining: seq<string>, table: map<string, V>,
                    ghost listed: seq<string>)
    returns (r: OrderedMap<string, V>)
    requires Distinct(listed + remaining) && (forall k :: k in listed + remaining ==> k in table)
    requires (forall k :: k in listed ==> k in table) && start == Restrict(listed, table)
    ensures r == Restrict(listed + remaining, table)
  {
    r := start;
    assert listed + remaining[..0] == listed;
    for j := 0 to |remaining|
      invariant forall k :: k in listed + remaining[..j] ==> k in table
      invariant r == Restrict(listed + remaining[..j], table)
    {
      var key := remaining[j];
      NextIsNew(listed, remaining, j);
      assert key in remaining;
      RestrictSet(listed + remaining[..j], table, key);
      r := r.Set(key, table[key]);
    }
    assert remaining[..|remaining|] == remaining;
  }

  /** `orderFields`: a new object, filled with the listed keys and then with the remaining ones. */
  method OrderFields<V>(obj: OrderedMap<string, V>, fieldOrder: seq<string>) returns (r: OrderedMap<string, V>)
    requires obj.Valid()
    ensures r == Reordered(obj, fieldOrder)
  {
    if fieldOrder == [] {
      UnlistedNone(obj.order);
      return obj;
    }
    ghost var all := set k | k in obj.order;
    assert all == obj.table.Keys;
    NewOrderDistinct(fieldOrder, obj.order);
    var remaining;
    r, remaining := AddListed(obj, fieldOrder, all);
    r := AddRest(r, remaining, obj.table, Listed(fieldOrder, all));
    RestrictAll(NewOrder(fieldOrder, obj.order), obj.table);
  }

  lemma NextIsNew<K>(s: seq<K>, t: seq<K>, j: nat)
    requires Distinct(s + t) && j < |t|
    ensures t[j] !in s + t[..j]
    ensures s + t[..j + 1] == s + t[..j] + [t[j]]
  {
    assert (s + t)[|s| + j] == t[j];
    assert forall i :: 0 <= i < |s| + j ==> (s + t[..j])[i] == (s + t)[i];
  }

  /** Listed keys come first, in list order; the others follow in their old order. */
  predicate Precedes(order: seq<string>, keys: seq<string>, a: string, b: string) {
    if a in order && b in order then IndexIn(order, a) < IndexIn(order, b)
    else if a in order || b in order then a in order
    else IndexIn(keys, a) < IndexIn(keys, b)
  }

  lemma NewOrderIs(order: seq<string>, keys: seq<string>, a: string, b: string)
    requires a in keys && b in keys
    ensures IndexIn(NewOrder(order, keys), a) < IndexIn(NewOrder(order, keys), b) <==> Precedes(order, keys, a, b)
  {
    var all := set k | k in keys;
    var listed, unlisted := Listed(order, all), Unlisted(order, keys);
    IndexConcat(listed, unlisted, a);
    IndexConcat(listed, unlisted, b);
    if a in order && b in order {
      ListedInOrder(order, all, a, b);
    } else if a !in order && b !in order {
      UnlistedInOrder(order, keys, a, b);
    }
  }

  lemma NewOrderDistinct(order: seq<string>, keys: seq<string>)
    requires Distinct(keys)
    ensures Distinct(NewOrder(order, keys))
    ensures forall k :: k in NewOrder(order, keys) <==> k in keys
  {
    UnlistedDistinct(order, keys);
    var listed, unlisted := Listed(order, set k | k in keys), Unlisted(order, keys);
    forall i, j | 0 <= i < |listed| && 0 <= j < |unlisted| ensures listed[i] != unlisted[j] {
      assert listed[i] in listed && unlisted[j] in unlisted;
    }
  }

  /** Reordering keeps every key with its value, and puts the keys in the promised order. */
  lemma ReorderingKeepsFields<V>(obj: OrderedMap<string, V>, order: seq<string>)
    requires obj.Valid()
    ensures Reordered(obj, order).Valid() && Reordered(obj, order).table == obj.table
    ensures forall a, b | a in obj.table && b in obj.table ::
              IndexIn(Reordered(obj, order).order, a) < IndexIn(Reordered(obj, order).order, b)
              <==> Precedes(order, obj.order, a, b)
  {
    NewOrderDistinct(order, obj.order);
    forall a, b | a in obj.table && b in obj.table
      ensures IndexIn(NewOrder(order, obj.order), a) < IndexIn(NewOrder(order, obj.order), b)
              <==> Precedes(order, obj.order, a, b)
    {
      NewOrderIs(order, obj.order, a, b);
    }
  }

  lemma {:induction false} UnlistedConcat(order: seq<string>, s: seq<string>, t: seq<string>)
    ensures Unlisted(order, s + t) == Unlisted(order, s) + Unlisted(order, t)
  {
    if s == [] {
      assert s + t == t;
    } else {
      assert (s + t)[1..] == s[1..] + t;
      UnlistedConcat(order, s[1..], t);
    }
  }

  lemma {:induction false} UnlistedAll(order: seq<string>, s: seq<string>)
    ensures (forall x :: x in s ==> x !in order) ==> Unlisted(order, s) == s
    ensures (forall x :: x in s ==> x in order) ==> Unlisted(order, s) == []
  {
    if s != [] {
      assert s[0] in s;
      UnlistedAll(order, s[1..]);
    }
  }

  lemma UnlistedAgain(order: seq<string>, keys: seq<string>)
    ensures Unlisted(order, NewOrder(order, keys)) == Unlisted(order, keys)
  {
    var listed, unlisted := Listed(order, set k | k in keys), Unlisted(order, keys);
    UnlistedConcat(order, listed, unlisted);
    UnlistedAll(order, listed);
    UnlistedAll(order, unlisted);
  }

  lemma NewOrderMembers(order: seq<string>, keys: seq<string>)
    ensures forall k :: k in NewOrder(order, keys) <==> k in keys
  {
  }

  lemma NewOrderTwice(order: seq<string>, keys: seq<string>)
    ensures NewOrder(order, NewOrder(order, keys)) == NewOrder(order, keys)
  {
    NewOrderMembers(order, keys);
    assert (set k | k in NewOrder(order, keys)) == set k | k in keys;
    UnlistedAgain(order, keys);
  }

  /** Reordering a reordered object changes nothing. */
  lemma ReorderingTwice<V>(obj: OrderedMap<string, V>, order: seq<string>)
    ensures Reordered(Reordered(obj, order), order) == Reordered(obj, order)
  {
    NewOrderTwice(order, obj.order);
  }

  // ---------------------------------------------------------------- headers

  type Headers = OrderedMap<string, string>

  /** Lower-case name to the last spelling and value. */
  type Names = OrderedMap<string, (string, string)>

  function LowerAll(s: seq<string>, lower: string -> string): seq<string> {
    seq(|s|, i requires 0 <= i < |s| => lower(s[i]))
  }

  /** The case-insensitive lookup table of the headers `keys`. */
  function Collect(keys: seq<string>, table: map<string, string>, lower: string -> string): Names
    requires forall k :: k in keys ==> k in table
  {
    if keys == [] then OrderedMaps.Empty()
    else
      var k := keys[|keys| - 1];
      Collect(keys[..|keys| - 1], table, lower).Set(lower(k), (k, table[k]))
  }

  /** Every entry is filed under the lower-case form of its spelling. */
  ghost predicate WellFiled(names: Names, lower: string -> string) {
    names.Valid() && forall k :: k in names.table ==> lower(names.table[k].0) == k
  }

  /** The headers that the entries under `keys` stand for, in that order. */
  function Spell(keys: seq<string>, table: map<string, (string, string)>): Headers
    requires forall k :: k in keys ==> k in table
  {
    if keys == [] then OrderedMaps.Empty()
    else
      var e := table[keys[|keys| - 1]];
      Spell(keys[..|keys| - 1], table).Set(e.0, e.1)
  }

  function OrderedHeaders(headers: Headers, order: seq<string>, lower: string -> string): Headers
    requires headers.Valid()
  {
    if order == [] then headers
    else
      var names := Collect(headers.order, headers.table, lower);
      CollectValid(headers.order, headers.table, lower);
      NewOrderDistinct(LowerAll(order, lower), names.order);
      Spell(NewOrder(LowerAll(order, lower), names.order), names.table)
  }

  lemma {:induction false} CollectValid(keys: seq<string>, table: map<string, string>, lower: string -> string)
    requires forall k :: k in keys ==> k in table
    ensures WellFiled(Collect(keys, table, lower), lower)
  {
    if keys != [] {
      CollectValid(keys[..|keys| - 1], table, lower);
    }
  }

  /** No later header has the same case-insensitive name. */
  predicate LastOfItsName(keys: seq<string>, i: int, lower: string -> string) {
    0 <= i < |keys| && forall j :: i < j < |keys| ==> lower(keys[j]) != lower(keys[i])
  }

  predicate LastUnder(keys: seq<string>, i: int, lower: string -> string, x: string) {
    LastOfItsName(keys, i, lower) && lower(keys[i]) == x
  }

  lemma LastUnderGrows(rest: seq<string>, k: string, i: int, lower: string -> string, x: string)
    ensures LastUnder(rest + [k], i, lower, x)
            <==> if lower(k) == x then i == |rest| else LastUnder(rest, i, lower, x)
  {
    var keys := rest + [k];
    assert keys[|rest|] == k;
    assert forall j :: 0 <= j < |rest| ==> keys[j] == rest[j];
    if 0 <= i < |rest| && LastUnder(rest, i, lower, x) && lower(k) != x {
      assert forall j :: i < j < |keys| ==> j < |rest| || keys[j] == k;
    }
  }

  /** The table holds the last spelling and value of each name. */
  lemma {:induction false} CollectHoldsLast(keys: seq<string>, table: map<string, string>, lower: string -> string,
                                            x: string)
    requires forall k :: k in keys ==> k in table
    ensures var names := Collect(keys, table, lower);
            x in names.table <==> exists i :: LastUnder(keys, i, lower, x)
    ensures var names := Collect(keys, table, lower);
            forall i :: LastUnder(keys, i, lower, x) && x in names.table
              ==> names.table[x] == (keys[i], table[keys[i]])
  {
    if keys != [] {
      var rest, k := keys[..|keys| - 1], keys[|keys| - 1];
      assert keys == rest + [k];
      CollectHoldsLast(rest, table, lower, x);
      forall i ensures LastUnder(keys, i, lower, x)
                       <==> if lower(k) == x then i == |rest| else LastUnder(rest, i, lower, x)
      {
        LastUnderGrows(rest, k, i, lower, x);
      }
      assert lower(k) == x ==> LastUnder(keys, |rest|, lower, x);
    }
  }

  lemma LowerLast(keys: seq<string>, lower: string -> string)
    requires keys != []
    ensures var n := |keys| - 1;
            LowerAll(keys, lower)[..n] == LowerAll(keys[..n], lower) && LowerAll(keys, lower)[n] == lower(keys[n])
  {
  }

  /** The names stand in the order in which they first occur. */
  lemma {:induction false} CollectOrder(keys: seq<string>, table: map<string, string>, lower: string -> string,
                                        all: set<string>)
    requires forall k :: k in keys ==> k in table && lower(k) in all
    ensures Collect(keys, table, lower).order == Listed(LowerAll(keys, lower), all)
  {
    if keys != [] {
      var rest, k := keys[..|keys| - 1], keys[|keys| - 1];
      assert k in keys;
      CollectOrder(rest, table, lower, all);
      CollectValid(rest, table, lower);
      LowerLast(keys, lower);
      assert lower(k) in Collect(rest, table, lower).table <==> lower(k) in Collect(rest, table, lower).order;
    }
  }

  /** Every key has an entry filed under it. */
  predicate Filed(keys: seq<string>, table: map<string, (string, string)>, lower: string -> string) {
    forall k :: k in keys ==> k in table && lower(table[k].0) == k
  }

  /** The spellings of the entries are all different. */
  lemma SpellingsApart(keys: seq<string>, table: map<string, (string, string)>, lower: string -> string,
                       i: nat, j: nat)
    requires Distinct(keys) && Filed(keys, table, lower) && i < j < |keys|
    ensures keys[i] in table && keys[j] in table && table[keys[i]].0 != table[keys[j]].0
  {
    assert keys[i] in keys && keys[j] in keys && keys[i] != keys[j];
  }

  ghost predicate Spelled(r: Headers, keys: seq<string>, table: map<string, (string, string)>)
    requires forall k :: k in keys ==> k in table
  {
    && r.Valid() && |r.order| == |keys|
    && (forall i :: 0 <= i < |keys| ==> r.order[i] == table[keys[i]].0)
    && (forall i :: 0 <= i < |keys| ==> r.order[i] in r.table && r.table[r.order[i]] == table[keys[i]].1)
  }

  lemma SpelledMore(before: Headers, keys: seq<string>, table: map<string, (string, string)>, lower: string -> string)
    requires keys != [] && Distinct(keys) && Filed(keys, table, lower)
    requires Spelled(before, keys[..|keys| - 1], table)
    ensures var e := table[keys[|keys| - 1]];
            e.0 !in before.table && Spelled(before.Set(e.0, e.1), keys, table)
  {
    var n := |keys| - 1;
    var e := table[keys[n]];
    forall i | 0 <= i < n ensures before.order[i] != e.0 {
      SpellingsApart(keys, table, lower, i, n);
    }
    assert e.0 !in before.order;
    SetValid(before, e.0, e.1);
  }

  /** One header for each entry, in order, with the spelling and value of the entry. */
  lemma {:induction false} SpellIs(keys: seq<string>, table: map<string, (string, string)>, lower: string -> string)
    requires Distinct(keys) && Filed(keys, table, lower)
    ensures Spelled(Spell(keys, table), keys, table)
  {
    if keys != [] {
      SpellIs(keys[..|keys| - 1], table, lower);
      SpelledMore(Spell(keys[..|keys| - 1], table), keys, table, lower);
    }
  }

  // ---------------------------------------------------------------- the two loops of orderHeaders

  /** The loop that fills the lookup table. */
  method BuildHeaderMap(headers: Headers, lower: string -> string) returns (headerMap: Names)
    requires headers.Valid()
    ensures headerMap == Collect(headers.order, headers.table, lower)
  {
    headerMap := OrderedMaps.Empty();
    for i := 0 to |headers.order|
      invariant headerMap == Collect(headers.order[..i], headers.table, lower)
    {
      assert headers.order[..i + 1][..i] == headers.order[..i];
      var key := headers.order[i];
      headerMap := headerMap.Set(lower(key), (key, headers.table[key]));
    }
    assert headers.order[..|headers.order|] == headers.order;
  }

  /** What is left of the table when the names in `taken` are deleted. */
  ghost function LeftOver(names: Names, taken: seq<string>): Names {
    if taken == [] then names
    else LeftOver(names, taken[..|taken| - 1]).Delete(taken[|taken| - 1])
  }

  lemma {:induction false} LeftOverIs(names: Names, taken: seq<string>)
    requires names.Valid()
    ensures LeftOver(names, taken).order == Unlisted(taken, names.order)
    ensures forall k :: k in LeftOver(names, taken).table <==> k in names.table && k !in taken
    ensures forall k :: k in LeftOver(names, taken).table ==> LeftOver(names, taken).table[k] == names.table[k]
  {
    if taken == [] {
      UnlistedNone(names.order);
    } else {
      var rest, k := taken[..|taken| - 1], taken[|taken| - 1];
      LeftOverIs(names, rest);
      UnlistedStep(rest, k, names.order);
      assert taken == rest + [k];
    }
  }

  lemma DeleteAbsent(m: Names, k: string)
    requires (forall x :: x in m.order <==> x in m.table) && k !in m.table
    ensures m.Delete(k) == m
  {
    WithoutAbsent(m.order, k);
  }

  lemma SpellStep(keys: seq<string>, table: map<string, (string, string)>, k: string)
    requires (forall x :: x in keys ==> x in table) && k in table
    ensures Spell(keys + [k], table) == Spell(keys, table).Set(table[k].0, table[k].1)
  {
    assert (keys + [k])[..|keys|] == keys;
  }

  /** The state of the first loop when the names `taken` of the fingerprint are done. */
  ghost predicate Moved(names: Names, taken: seq<string>, result: Headers, left: Names) {
    && result == Spell(Listed(taken, names.table.Keys), names.table)
    && left == LeftOver(names, taken)
  }

  lemma ListedMore(taken: seq<string>, low: string, all: set<string>)
    ensures Listed(taken + [low], all)
            == if low in all && low !in taken then Listed(taken, all) + [low] else Listed(taken, all)
  {
    assert (taken + [low])[..|taken|] == taken;
  }

  /** One round: a header that is still in the table moves to the result. */
  method MoveHeader(low: string, result: Headers, left: Names, ghost names: Names, ghost taken: seq<string>)
    returns (newResult: Headers, newLeft: Names)
    requires names.Valid() && Moved(names, taken, result, left)
    ensures Moved(names, taken + [low], newResult, newLeft)
  {
    newResult, newLeft := result, left;
    assert (taken + [low])[..|taken|] == taken;
    LeftOverIs(names, taken);
    ListedMore(taken, low, names.table.Keys);
    if low in left.table {
      SpellStep(Listed(taken, names.table.Keys), names.table, low);
      newResult := newResult.Set(left.table[low].0, left.table[low].1);
      newLeft := newLeft.Delete(low);
    } else {
      DeleteAbsent(left, low);
    }
  }

  /** The loop over the fingerprint. */
  method AddOrdered(names: Names, order: seq<string>, lower: string -> string)
    returns (result: Headers, left: Names)
    requires names.Valid()
    ensures Moved(names, LowerAll(order, lower), result, left)
  {
    ghost var lows := LowerAll(order, lower);
    result, left := OrderedMaps.Empty(), names;
    for i := 0 to |order|
      invariant Moved(names, lows[..i], result, left)
    {
      result, left := MoveHeader(lower(order[i]), result, left, names, lows[..i]);
      assert lows[..i + 1] == lows[..i] + [lower(order[i])];
    }
    assert lows[..|order|] == lows;
  }

  /** The last loop: the headers that are left, in the order of the table. */
  method AddRemaining(start: Headers, left: Names, ghost listed: seq<string>,
                      ghost table: map<string, (string, string)>)
    returns (result: Headers)
    requires forall k :: k in listed ==> k in table
    requires forall k :: k in left.order ==> k in left.table && k in table && left.table[k] == table[k]
    requires start == Spell(listed, table)
    ensures result == Spell(listed + left.order, table)
  {
    result := start;
    assert listed + left.order[..0] == listed;
    for j := 0 to |left.order|
      invariant result == Spell(listed + left.order[..j], table)
    {
      var k := left.order[j];
      assert k in left.order;
      assert listed + left.order[..j + 1] == listed + left.order[..j] + [k];
      SpellStep(listed + left.order[..j], table, k);
      result := result.Set(left.table[k].0, left.table[k].1);
    }
    assert left.order[..|left.order|] == left.order;
  }

  method OrderHeaders(headers: Headers, headerOrder: seq<string>, lower: string -> string) returns (result: Headers)
    requires headers.Valid()
    ensures result == OrderedHeaders(headers, headerOrder, lower)
  {
    if headerOrder == [] {
      return headers;
    }
    var names := BuildHeaderMap(headers, lower);
    CollectValid(headers.order, headers.table, lower);
    var left;
    result, left := AddOrdered(names, headerOrder, lower);
    assert (set k | k in names.order) == names.table.Keys;
    LeftOverIs(names, LowerAll(headerOrder, lower));
    result := AddRemaining(result, left, Listed(LowerAll(headerOrder, lower), names.table.Keys), names.table);
  }

  // ---------------------------------------------------------------- laws of the header order

  /** The last header of its name, in any spelling. */
  predicate IsLast(headers: Headers, k: string, lower: string -> string) {
    exists i :: 0 <= i < |headers.order| && LastOfItsName(headers.order, i, lower) && headers.order[i] == k
  }

  lemma FiledUnderLast(headers: Headers, lower: string -> string, x: string)
    requires headers.Valid()
    ensures var names := Collect(headers.order, headers.table, lower);
            x in names.table ==> IsLast(headers, names.table[x].0, lower) && lower(names.table[x].0) == x
                                 && names.table[x].1 == headers.table[names.table[x].0]
  {
    CollectHoldsLast(headers.order, headers.table, lower, x);
    CollectValid(headers.order, headers.table, lower);
  }

  lemma LastIsFiled(headers: Headers, lower: string -> string, k: string)
    requires headers.Valid() && IsLast(headers, k, lower)
    ensures var names := Collect(headers.order, headers.table, lower);
            lower(k) in names.table && names.table[lower(k)] == (k, headers.table[k])
  {
    CollectHoldsLast(headers.order, headers.table, lower, lower(k));
    var i :| 0 <= i < |headers.order| && LastOfItsName(headers.order, i, lower) && headers.order[i] == k;
    assert LastUnder(headers.order, i, lower, lower(k));
  }

  /** The lookup table and its keys in the new order. */
  ghost function Sorted(headers: Headers, order: seq<string>, lower: string -> string): (seq<string>, Names)
    requires headers.Valid()
  {
    var names := Collect(headers.order, headers.table, lower);
    (NewOrder(LowerAll(order, lower), names.order), names)
  }

  lemma SortedIs(headers: Headers, order: seq<string>, lower: string -> string)
    requires headers.Valid()
    ensures var (keys, names) := Sorted(headers, order, lower);
            && WellFiled(names, lower) && Distinct(keys) && (forall k :: k in keys <==> k in names.table)
            && (order != [] ==> OrderedHeaders(headers, order, lower) == Spell(keys, names.table))
            && (order != [] ==> Spelled(OrderedHeaders(headers, order, lower), keys, names.table))
  {
    var names := Collect(headers.order, headers.table, lower);
    CollectValid(headers.order, headers.table, lower);
    NewOrderDistinct(LowerAll(order, lower), names.order);
    SpellIs(NewOrder(LowerAll(order, lower), names.order), names.table, lower);
  }

  /** Every header of the result is the last of its name, with its value, and filed under that name. */
  lemma KeptIsLast(headers: Headers, order: seq<string>, lower: string -> string, k: string)
    requires headers.Valid() && order != []
    requires k in OrderedHeaders(headers, order, lower).table
    ensures IsLast(headers, k, lower)
    ensures k in headers.table && OrderedHeaders(headers, order, lower).table[k] == headers.table[k]
    ensures var (keys, names) := Sorted(headers, order, lower);
            lower(k) in names.table && names.table[lower(k)].0 == k
  {
    var (keys, names) := Sorted(headers, order, lower);
    SortedIs(headers, order, lower);
    var r := OrderedHeaders(headers, order, lower);
    assert k in r.order;
    var i :| 0 <= i < |r.order| && r.order[i] == k;
    assert keys[i] in keys;
    FiledUnderLast(headers, lower, keys[i]);
  }

  lemma LastIsKept(headers: Headers, order: seq<string>, lower: string -> string, k: string)
    requires headers.Valid() && order != [] && IsLast(headers, k, lower)
    ensures k in OrderedHeaders(headers, order, lower).table
  {
    var (keys, names) := Sorted(headers, order, lower);
    SortedIs(headers, order, lower);
    LastIsFiled(headers, lower, k);
    assert lower(k) in keys;
    var i :| 0 <= i < |keys| && keys[i] == lower(k);
    assert OrderedHeaders(headers, order, lower).order[i] == k;
  }

  /**
   * With a non-empty order there is one header for each case-insensitive name, the last one given, with its
   * spelling and value.
   */
  lemma HeadersKeepLast(headers: Headers, order: seq<string>, lower: string -> string)
    requires headers.Valid() && order != []
    ensures OrderedHeaders(headers, order, lower).Valid()
    ensures forall k :: k in OrderedHeaders(headers, order, lower).table <==> IsLast(headers, k, lower)
    ensures forall k :: k in OrderedHeaders(headers, order, lower).table
              ==> k in headers.table && OrderedHeaders(headers, order, lower).table[k] == headers.table[k]
    ensures forall a, b | && a in OrderedHeaders(headers, order, lower).table
                          && b in OrderedHeaders(headers, order, lower).table && lower(a) == lower(b) :: a == b
  {
    var r := OrderedHeaders(headers, order, lower);
    assert r.Valid() by {
      SortedIs(headers, order, lower);
    }
    forall k | k in r.table
      ensures IsLast(headers, k, lower) && k in headers.table && r.table[k] == headers.table[k]
      ensures var (keys, names) := Sorted(headers, order, lower);
              lower(k) in names.table && names.table[lower(k)].0 == k
    {
      KeptIsLast(headers, order, lower, k);
    }
    forall k | IsLast(headers, k, lower) ensures k in r.table {
      LastIsKept(headers, order, lower, k);
    }
  }

  lemma {:induction false} IndexAmongSpelled(keys: seq<string>, spelled: seq<string>, lower: string -> string,
                                             x: string)
    requires |keys| == |spelled| && Distinct(keys) && forall i :: 0 <= i < |keys| ==> lower(spelled[i]) == keys[i]
    requires x in spelled
    ensures IndexIn(spelled, x) == IndexIn(keys, lower(x))
  {
    if spelled[0] != x {
      assert x in spelled[1..];
      assert Distinct(keys[1..]);
      IndexAmongSpelled(keys[1..], spelled[1..], lower, x);
      var i :| 1 <= i < |spelled| && spelled[i] == x;
      assert keys[0] != keys[i];
    }
  }

  lemma PlaceOfHeader(headers: Headers, order: seq<string>, lower: string -> string, a: string)
    requires headers.Valid() && order != [] && a in OrderedHeaders(headers, order, lower).order
    ensures var (keys, names) := Sorted(headers, order, lower);
            && lower(a) in names.table
            && IndexIn(OrderedHeaders(headers, order, lower).order, a) == IndexIn(keys, lower(a))
  {
    var (keys, names) := Sorted(headers, order, lower);
    SortedIs(headers, order, lower);
    var r := OrderedHeaders(headers, order, lower);
    forall i | 0 <= i < |keys| ensures lower(r.order[i]) == keys[i] {
      assert keys[i] in keys;
    }
    IndexAmongSpelled(keys, r.order, lower, a);
    assert IndexIn(r.order, a) < |r.order|;
  }

  /** The headers of the fingerprint come first, in its order; the others as their names first occurred. */
  lemma {:induction false} HeadersInOrder(headers: Headers, order: seq<string>, lower: string -> string, a: string,
                                          b: string)
    requires headers.Valid() && order != []
    requires a in OrderedHeaders(headers, order, lower).order && b in OrderedHeaders(headers, order, lower).order
    ensures IndexIn(OrderedHeaders(headers, order, lower).order, a)
            < IndexIn(OrderedHeaders(headers, order, lower).order, b)
            <==> Precedes(LowerAll(order, lower), LowerAll(headers.order, lower), lower(a), lower(b))
  {
    var names := Collect(headers.order, headers.table, lower);
    PlaceOfHeader(headers, order, lower, a);
    PlaceOfHeader(headers, order, lower, b);
    CollectValid(headers.order, headers.table, lower);
    NewOrderIs(LowerAll(order, lower), names.order, lower(a), lower(b));
    NamesInOrder(headers, lower, lower(a), lower(b));
  }

  lemma NamesInOrder(headers: Headers, lower: string -> string, x: string, y: string)
    requires headers.Valid()
    requires var names := Collect(headers.order, headers.table, lower); x in names.table && y in names.table
    ensures var names := Collect(headers.order, headers.table, lower);
            IndexIn(names.order, x) < IndexIn(names.order, y)
            <==> IndexIn(LowerAll(headers.order, lower), x) < IndexIn(LowerAll(headers.order, lower), y)
  {
    var lows := LowerAll(headers.order, lower);
    var all := set k | k in lows;
    forall k | k in headers.order ensures lower(k) in all {
      var i :| 0 <= i < |headers.order| && headers.order[i] == k;
      assert lows[i] in lows;
    }
    CollectOrder(headers.order, headers.table, lower, all);
    CollectValid(headers.order, headers.table, lower);
    ListedInOrder(lows, all, x, y);
  }

  lemma {:induction false} CollectSame(keys: seq<string>, s: map<string, string>, t: map<string, string>,
                                       lower: string -> string)
    requires forall k :: k in keys ==> k in s && k in t && s[k] == t[k]
    ensures Collect(keys, s, lower) == Collect(keys, t, lower)
  {
    if keys != [] {
      CollectSame(keys[..|keys| - 1], s, t, lower);
    }
  }

  lemma CollectOneMore(before: Headers, e: (string, string), lower: string -> string)
    requires before.Valid() && e.0 !in before.table
    ensures before.Set(e.0, e.1).Valid()
    ensures Collect(before.Set(e.0, e.1).order, before.Set(e.0, e.1).table, lower)
            == Collect(before.order, before.table, lower).Set(lower(e.0), e)
  {
    var after := before.Set(e.0, e.1);
    assert after.order[..|before.order|] == before.order;
    CollectSame(before.order, before.table, after.table, lower);
  }

  /** Looking the spelled headers up again gives the table they were made from. */
  lemma {:induction false} CollectSpelled(keys: seq<string>, table: map<string, (string, string)>,
                                          lower: string -> string)
    requires Distinct(keys) && Filed(keys, table, lower)
    ensures Spell(keys, table).Valid()
    ensures Collect(Spell(keys, table).order, Spell(keys, table).table, lower) == Restrict(keys, table)
  {
    if keys != [] {
      var rest, k := keys[..|keys| - 1], keys[|keys| - 1];
      CollectSpelled(rest, table, lower);
      SpellIs(rest, table, lower);
      SpelledMore(Spell(rest, table), keys, table, lower);
      CollectOneMore(Spell(rest, table), table[k], lower);
      RestrictLast(keys, table);
    }
  }

  lemma RestrictLast<V>(keys: seq<string>, table: map<string, V>)
    requires keys != [] && Distinct(keys) && forall k :: k in keys ==> k in table
    ensures var k := keys[|keys| - 1];
            Restrict(keys, table) == Restrict(keys[..|keys| - 1], table).Set(k, table[k])
  {
    var rest, k := keys[..|keys| - 1], keys[|keys| - 1];
    assert k !in rest;
    assert keys == rest + [k];
    RestrictSet(rest, table, k);
  }

  /** Ordering ordered headers changes nothing. */
  lemma HeadersTwice(headers: Headers, order: seq<string>, lower: string -> string)
    requires headers.Valid()
    ensures order == [] ==> OrderedHeaders(headers, order, lower) == headers
    ensures OrderedHeaders(headers, order, lower).Valid()
    ensures OrderedHeaders(OrderedHeaders(headers, order, lower), order, lower) == OrderedHeaders(headers, order, lower)
  {
    if order != [] {
      var (keys, names) := Sorted(headers, order, lower);
      SortedIs(headers, order, lower);
      CollectSpelled(keys, names.table, lower);
      RestrictAll(keys, names.table);
      NewOrderTwice(LowerAll(order, lower), names.order);
    }
  }
}
