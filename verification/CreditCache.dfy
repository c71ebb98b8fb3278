/**
 * The credit-balance cache of `antigravity.ts`: a map in insertion order with a time to live and a
 * size cap, filled once from storage on the first read. Clock readings are part of each operation.
 */
module CreditCache {
  import opened Options
  import opened OrderedMaps

  const MAX_ENTRIES: nat := 50
  const TTL_MS: int := 300000

  datatype Entry = Entry(balance: real, updatedAt: int)

  type Entries = OrderedMap<string, Entry>

  datatype Cache = Cache(entries: Entries, hydrated: bool)

  const INITIAL := Cache(Empty<string, Entry>(), false)

  /** A persisted balance, with the clock reading at which hydration stores it. */
  datatype Loaded = Loaded(account: string, balance: real, at: int)

  predicate Stale(e: Entry, now: int) {
    now - e.updatedAt > TTL_MS
  }

  // ---------------------------------------------------------------- the operations

  function Load(m: Entries, l: Loaded): Entries {
    if l.account in m.table then m else m.Set(l.account, Entry(l.balance, l.at))
  }

  function LoadAll(m: Entries, loaded: seq<Loaded>): Entries {
    if loaded == [] then m else Load(LoadAll(m, loaded[..|loaded| - 1]), loaded[|loaded| - 1])
  }

  function Hydrate(c: Cache, loaded: seq<Loaded>): Cache {
    if c.hydrated then c else Cache(LoadAll(c.entries, loaded), true)
  }

  function DropIfStale(m: Entries, k: string, now: int): Entries {
    if k in m.table && Stale(m.table[k], now) then m.Delete(k) else m
  }

  function DropStale(m: Entries, keys: seq<string>, now: int): Entries {
    if keys == [] then m else DropIfStale(DropStale(m, keys[..|keys| - 1], now), keys[|keys| - 1], now)
  }

  function DropOldest(m: Entries): Entries {
    if m.order == [] then m else m.Delete(m.order[0])
  }

  function DropExcess(m: Entries): Entries
    decreases |m.order|
  {
    if |m.order| > MAX_ENTRIES then
      WithoutShorter(m.order);
      DropExcess(DropOldest(m))
    else m
  }

  lemma WithoutShorter(order: seq<string>)
    requires order != []
    ensures |Without(order, order[0])| < |order|
  {
    WithoutLength(order[1..], order[0]);
  }

  lemma {:induction false} WithoutLength(s: seq<string>, k: string)
    ensures |Without(s, k)| <= |s|
  {
    if s != [] {
      WithoutLength(s[1..], k);
    }
  }

  function Evict(m: Entries, now: int): Entries {
    DropExcess(DropStale(m, m.order, now))
  }

  function Put(m: Entries, account: string, balance: real, now: int): Entries {
    var room := if |m.order| >= MAX_ENTRIES && account !in m.table then DropOldest(m) else m;
    room.Set(account, Entry(balance, now))
  }

  function Lookup(m: Entries, account: string, now: int): (Entries, Option<real>) {
    if account !in m.table then (m, None)
    else if Stale(m.table[account], now) then (m.Delete(account), None)
    else (m, Some(m.table[account].balance))
  }

  datatype Op =
    | Update(account: string, balance: real, now: int)
    | Read(account: string, loaded: seq<Loaded>, now: int)
    | Sweep(now: int)

  /** The cache after an operation, and what a read returns. */
  function Step(c: Cache, op: Op): (Cache, Option<real>) {
    match op
    case Update(account, balance, now) => (c.(entries := Put(c.entries, account, balance, now)), None)
    case Read(account, loaded, now) =>
      var h := Hydrate(c, loaded);
      var (entries, result) := Lookup(h.entries, account, now);
      (h.(entries := entries), result)
    case Sweep(now) => (c.(entries := Evict(c.entries, now)), None)
  }

  function Run(ops: seq<Op>): Cache {
    if ops == [] then INITIAL else Step(Run(ops[..|ops| - 1]), ops[|ops| - 1]).0
  }

  // ---------------------------------------------------------------- what each operation means

  lemma LoadAllMeans(m: Entries, loaded: seq<Loaded>)
    requires m.Valid()
    ensures var r := LoadAll(m, loaded);
            && r.Valid()
            && |r.order| <= |m.order| + |loaded|
            && forall k | k in m.table :: k in r.table && r.table[k] == m.table[k]
  {
    if loaded != [] {
      var rest := loaded[..|loaded| - 1];
      LoadAllMeans(m, rest);
      var l := loaded[|loaded| - 1];
      SetValid(LoadAll(m, rest), l.account, Entry(l.balance, l.at));
    }
  }

  function KeepFresh(order: seq<string>, table: map<string, Entry>, now: int): seq<string> {
    if order == [] then []
    else
      var k := order[|order| - 1];
      KeepFresh(order[..|order| - 1], table, now)
      + if k in table && Stale(table[k], now) then [] else [k]
  }

  lemma {:induction false} WithoutFirst(order: seq<string>)
    requires order != [] && Distinct(order)
    ensures Without(order, order[0]) == order[1..]
  {
    assert order[0] !in order[1..];
    WithoutDistinct(order[1..], order[0]);
  }

  lemma {:induction false} WithoutAppended(a: seq<string>, b: seq<string>, k: string)
    ensures Without(a + b, k) == Without(a, k) + Without(b, k)
  {
    if a == [] {
      assert a + b == b;
    } else {
      assert (a + b)[1..] == a[1..] + b;
      WithoutAppended(a[1..], b, k);
    }
  }

  /** Having visited the keys before `n`, the sweep has dropped the stale ones among them. */
  lemma {:induction false} DropStaleTable(m: Entries, now: int, n: nat)
    requires m.Valid() && n <= |m.order|
    ensures var r := DropStale(m, m.order[..n], now);
            && (forall k | k in r.table :: k in m.table && r.table[k] == m.table[k])
            && (forall k | k in m.table :: k in r.table <==> !(k in m.order[..n] && Stale(m.table[k], now)))
  {
    if n > 0 {
      DropStaleTable(m, now, n - 1);
      assert m.order[..n][..n - 1] == m.order[..n - 1];
      assert m.order[..n] == m.order[..n - 1] + [m.order[n - 1]];
    }
  }

  lemma KeepFreshStep(before: seq<string>, k: string, after: seq<string>, table: map<string, Entry>, now: int)
    requires k !in before && k !in after
    ensures var order := KeepFresh(before, table, now) + ([k] + after);
            KeepFresh(before + [k], table, now) + after
            == if k in table && Stale(table[k], now) then Without(order, k) else order
  {
    var kept := KeepFresh(before, table, now);
    assert (before + [k])[..|before|] == before;
    if k in table && Stale(table[k], now) {
      DeleteInMiddle(kept, k, after, before, table, now);
      assert kept + [] == kept;
    } else {
      assert kept + ([k] + after) == (kept + [k]) + after;
    }
  }

  lemma DropStaleStep(m: Entries, now: int, n: nat)
    requires n < |m.order|
    ensures DropStale(m, m.order[..n + 1], now) == DropIfStale(DropStale(m, m.order[..n], now), m.order[n], now)
    ensures m.order[n..] == [m.order[n]] + m.order[n + 1..] && m.order[..n + 1] == m.order[..n] + [m.order[n]]
  {
    assert m.order[..n + 1][..n] == m.order[..n];
  }

  lemma {:induction false} DropStaleOrder(m: Entries, now: int, n: nat)
    requires m.Valid() && n <= |m.order|
    ensures DropStale(m, m.order[..n], now).order
            == KeepFresh(m.order[..n], m.table, now) + m.order[n..]
  {
    if n > 0 {
      var k := m.order[n - 1];
      DropStaleOrder(m, now, n - 1);
      DropStaleTable(m, now, n - 1);
      DropStaleStep(m, now, n - 1);
      assert k in m.order && k !in m.order[..n - 1];
      KeepFreshStep(m.order[..n - 1], k, m.order[n..], m.table, now);
    } else {
      assert m.order[..0] == [];
    }
  }

  lemma {:induction false} KeepFreshSubset(order: seq<string>, table: map<string, Entry>, now: int, k: string)
    requires k !in order
    ensures k !in KeepFresh(order, table, now)
  {
    if order != [] {
      KeepFreshSubset(order[..|order| - 1], table, now, k);
    }
  }

  lemma DeleteInMiddle(kept: seq<string>, k: string, after: seq<string>,
                       before: seq<string>, table: map<string, Entry>, now: int)
    requires kept == KeepFresh(before, table, now) && k !in before && k !in after
    ensures Without(kept + ([k] + after), k) == kept + after
  {
    KeepFreshSubset(before, table, now, k);
    WithoutAppended(kept, [k] + after, k);
    WithoutAbsent(kept, k);
    WithoutAbsent(after, k);
    assert ([k] + after)[1..] == after;
  }

  lemma {:induction false} KeepFreshDistinct(order: seq<string>, table: map<string, Entry>, now: int)
    requires Distinct(order)
    ensures Distinct(KeepFresh(order, table, now))
  {
    if order != [] {
      var rest, k := order[..|order| - 1], order[|order| - 1];
      KeepFreshDistinct(rest, table, now);
      assert k !in rest;
      KeepFreshSubset(rest, table, now, k);
      var kept := KeepFresh(rest, table, now);
      assert forall i :: 0 <= i < |kept| ==> kept[i] in kept;
    }
  }

  /** The newest `MAX_ENTRIES` of an order. */
  function Newest(order: seq<string>): seq<string> {
    if |order| > MAX_ENTRIES then order[|order| - MAX_ENTRIES..] else order
  }

  lemma WithinTwice(a: Entries, b: Entries, c: Entries)
    requires Within(a, b) && Within(b, c)
    ensures Within(a, c)
  {
  }

  lemma DropOldestMeans(m: Entries)
    requires m.Valid() && m.order != []
    ensures var r := DropOldest(m);
            r.Valid() && r.order == m.order[1..] && Within(r, m)
  {
    DeleteValid(m, m.order[0]);
    WithoutFirst(m.order);
  }

  lemma NewestTail(order: seq<string>)
    requires |order| > MAX_ENTRIES
    ensures Newest(order[1..]) == Newest(order)
  {
  }

  /** The entries of `r` are among those of `m`. */
  ghost predicate Within(r: Entries, m: Entries) {
    forall k | k in r.table :: k in m.table && r.table[k] == m.table[k]
  }

  lemma {:induction false} DropExcessMeans(m: Entries)
    requires m.Valid()
    ensures var r := DropExcess(m);
            r.Valid() && r.order == Newest(m.order) && Within(r, m)
    decreases |m.order|
  {
    if |m.order| > MAX_ENTRIES {
      var rest := DropOldest(m);
      DropOldestMeans(m);
      DropExcessMeans(rest);
      NewestTail(m.order);
      assert DropExcess(m) == DropExcess(rest);
      WithinTwice(DropExcess(rest), rest, m);
    }
  }

  lemma DropStaleMeans(m: Entries, now: int)
    requires m.Valid()
    ensures var r := DropStale(m, m.order, now);
            && r.Valid() && r.order == KeepFresh(m.order, m.table, now)
            && forall k | k in r.table :: k in m.table && r.table[k] == m.table[k] && !Stale(r.table[k], now)
  {
    DropStaleTable(m, now, |m.order|);
    DropStaleOrder(m, now, |m.order|);
    assert m.order[..|m.order|] == m.order && m.order[|m.order|..] == [];
    KeepFreshDistinct(m.order, m.table, now);
    KeepFreshMembers(m.order, m.table, now);
  }

  lemma {:induction false} KeepFreshMembers(order: seq<string>, table: map<string, Entry>, now: int)
    ensures forall k :: k in KeepFresh(order, table, now) <==> k in order && !(k in table && Stale(table[k], now))
  {
    if order != [] {
      KeepFreshMembers(order[..|order| - 1], table, now);
      assert order == order[..|order| - 1] + [order[|order| - 1]];
    }
  }

  /**
   * After a sweep: the fresh accounts in their order, only the newest fifty of them, with unchanged
   * entries; so at most fifty entries and none stale.
   */
  lemma SweepMeans(m: Entries, now: int)
    requires m.Valid()
    ensures var r := Evict(m, now);
            && r.Valid()
            && r.order == Newest(KeepFresh(m.order, m.table, now))
            && |r.order| <= 50
            && forall k | k in r.table ::
                 k in m.table && r.table[k] == m.table[k] && now - r.table[k].updatedAt <= 300000
  {
    DropStaleMeans(m, now);
    DropExcessMeans(DropStale(m, m.order, now));
  }

  /**
   * An update stores its entry and leaves every other alone, except that a new account in a full
   * cache pushes out the account that was inserted first. The size never exceeds the cap by it.
   */
  lemma UpdateMeans(m: Entries, account: string, balance: real, now: int)
    requires m.Valid()
    ensures var r := Put(m, account, balance, now);
            && r.Valid()
            && account in r.table && r.table[account] == Entry(balance, now)
            && (forall k | k in r.table && k != account :: k in m.table && r.table[k] == m.table[k])
            && (forall k | k in m.table && k !in r.table ::
                  k == m.order[0] && |m.order| >= MAX_ENTRIES && account !in m.table)
            && |r.order| <= (if |m.order| > MAX_ENTRIES then |m.order| else MAX_ENTRIES)
  {
    if m.order != [] {
      DeleteValid(m, m.order[0]);
    }
    var room := if |m.order| >= MAX_ENTRIES && account !in m.table then DropOldest(m) else m;
    SetValid(room, account, Entry(balance, now));
  }

  // ---------------------------------------------------------------- runs

  function FirstLoaded(loaded: seq<Loaded>, account: string): Option<Entry> {
    if loaded == [] then None
    else
      var before, l := FirstLoaded(loaded[..|loaded| - 1], account), loaded[|loaded| - 1];
      if before.Some? then before
      else if l.account == account then Some(Entry(l.balance, l.at)) else None
  }

  function HasRead(ops: seq<Op>): bool {
    exists i :: 0 <= i < |ops| && ops[i].Read?
  }

  /** The hydration of the last operation stores a balance for the account: nothing was cached for it. */
  predicate Loads(rest: seq<Op>, op: Op, account: string) {
    op.Read? && !HasRead(rest) && account !in Run(rest).entries.table && FirstLoaded(op.loaded, account).Some?
  }

  /** What was last stored for an account, by an update or by the hydration. */
  function LastStored(ops: seq<Op>, account: string): Option<Entry> {
    if ops == [] then None
    else
      var rest, op := ops[..|ops| - 1], ops[|ops| - 1];
      if op.Update? && op.account == account then Some(Entry(op.balance, op.now))
      else if Loads(rest, op, account) then FirstLoaded(op.loaded, account)
      else LastStored(rest, account)
  }

  /** Every cached entry is the last one stored for its account, and hydration happens at the first read. */
  ghost predicate Faithful(ops: seq<Op>, c: Cache) {
    && c.entries.Valid()
    && c.hydrated == HasRead(ops)
    && forall k | k in c.entries.table :: LastStored(ops, k) == Some(c.entries.table[k])
  }

  lemma {:induction false} LoadAllOffers(m: Entries, loaded: seq<Loaded>, k: string)
    ensures var r := LoadAll(m, loaded);
            && (k in r.table <==> k in m.table || FirstLoaded(loaded, k).Some?)
            && (k in r.table ==>
                  r.table[k] == if k in m.table then m.table[k] else FirstLoaded(loaded, k).value)
  {
    if loaded != [] {
      LoadAllOffers(m, loaded[..|loaded| - 1], k);
    }
  }

  lemma HasReadLast(rest: seq<Op>, op: Op)
    ensures HasRead(rest + [op]) <==> HasRead(rest) || op.Read?
  {
    assert (rest + [op])[|rest|] == op;
    if HasRead(rest) {
      var i :| 0 <= i < |rest| && rest[i].Read?;
      assert (rest + [op])[i].Read?;
    }
  }

  lemma LookupFaithful(m: Entries, account: string, now: int)
    requires m.Valid()
    ensures var (r, _) := Lookup(m, account, now);
            r.Valid() && forall k | k in r.table :: k in m.table && r.table[k] == m.table[k]
  {
    DeleteValid(m, account);
  }

  lemma LastStoredLast(rest: seq<Op>, op: Op, k: string)
    ensures LastStored(rest + [op], k)
            == if op.Update? && op.account == k then Some(Entry(op.balance, op.now))
               else if Loads(rest, op, k) then FirstLoaded(op.loaded, k)
               else LastStored(rest, k)
  {
    assert (rest + [op])[..|rest|] == rest;
  }

  lemma {:induction false} ReadFaithful(rest: seq<Op>, op: Op)
    requires op.Read? && Faithful(rest, Run(rest))
    ensures Faithful(rest + [op], Hydrate(Run(rest), op.loaded))
  {
    var c := Run(rest);
    HasReadLast(rest, op);
    LoadAllMeans(c.entries, op.loaded);
    var h := Hydrate(c, op.loaded);
    forall k | k in h.entries.table ensures LastStored(rest + [op], k) == Some(h.entries.table[k]) {
      LoadAllOffers(c.entries, op.loaded, k);
      LastStoredLast(rest, op, k);
    }
  }

  lemma {:induction false} UpdateFaithful(rest: seq<Op>, op: Op)
    requires Faithful(rest, Run(rest)) && op.Update?
    ensures Faithful(rest + [op], Step(Run(rest), op).0)
  {
    var c := Run(rest);
    HasReadLast(rest, op);
    UpdateMeans(c.entries, op.account, op.balance, op.now);
    forall k ensures LastStored(rest + [op], k)
                     == if op.account == k then Some(Entry(op.balance, op.now)) else LastStored(rest, k)
    {
      LastStoredLast(rest, op, k);
    }
  }

  lemma SweepFaithful(rest: seq<Op>, op: Op)
    requires Faithful(rest, Run(rest)) && op.Sweep?
    ensures Faithful(rest + [op], Step(Run(rest), op).0)
  {
    HasReadLast(rest, op);
    SweepMeans(Run(rest).entries, op.now);
    forall k ensures LastStored(rest + [op], k) == LastStored(rest, k) {
      LastStoredLast(rest, op, k);
    }
  }

  lemma {:induction false} StepFaithful(rest: seq<Op>, op: Op)
    requires Faithful(rest, Run(rest))
    ensures Faithful(rest + [op], Step(Run(rest), op).0)
  {
    match op
    case Update(_, _, _) => UpdateFaithful(rest, op);
    case Read(account, loaded, now) =>
      ReadFaithful(rest, op);
      LookupFaithful(Hydrate(Run(rest), loaded).entries, account, now);
    case Sweep(_) => SweepFaithful(rest, op);
  }

  lemma {:induction false} RunFaithful(ops: seq<Op>)
    ensures Faithful(ops, Run(ops))
  {
    if ops != [] {
      var rest := ops[..|ops| - 1];
      RunFaithful(rest);
      StepFaithful(rest, ops[|ops| - 1]);
      assert rest + [ops[|ops| - 1]] == ops;
    }
  }

  /**
   * For every run, exactly: a read returns the balance last stored for that account, by an update or by
   * the hydration, if the cache still holds an entry for it that is not older than the time to live; and
   * nothing otherwise.
   */
  lemma ReadReturnsLastStored(ops: seq<Op>, read: Op)
    requires read.Read?
    ensures var h, stored := Hydrate(Run(ops), read.loaded), LastStored(ops + [read], read.account);
            && (read.account in h.entries.table ==> stored == Some(h.entries.table[read.account]))
            && Step(Run(ops), read).1
               == if read.account in h.entries.table && read.now - stored.value.updatedAt <= 300000
                  then Some(stored.value.balance) else None
  {
    RunFaithful(ops);
    ReadFaithful(ops, read);
  }

  // ---------------------------------------------------------------- size

  /** The loaded balances of the one hydration of a run. */
  function LoadedIn(ops: seq<Op>): nat {
    if ops == [] then 0
    else
      var rest, op := ops[..|ops| - 1], ops[|ops| - 1];
      if op.Read? && !HasRead(rest) then |op.loaded| else LoadedIn(rest)
  }

  /** Over every run the cache holds no more than the cap and what hydration brought. */
  lemma {:induction false} RunSize(ops: seq<Op>)
    ensures |Run(ops).entries.order| <= MAX_ENTRIES + LoadedIn(ops)
    ensures !HasRead(ops) ==> LoadedIn(ops) == 0
  {
    if ops != [] {
      var rest, op := ops[..|ops| - 1], ops[|ops| - 1];
      var c := Run(rest);
      RunSize(rest);
      RunFaithful(rest);
      assert ops == rest + [op];
      HasReadLast(rest, op);
      match op {
        case Update(account, balance, now) => UpdateMeans(c.entries, account, balance, now);
        case Read(account, loaded, now) =>
          LoadAllMeans(c.entries, loaded);
          DeleteValid(Hydrate(c, loaded).entries, account);
        case Sweep(now) => SweepMeans(c.entries, now);
      }
    }
  }
}
