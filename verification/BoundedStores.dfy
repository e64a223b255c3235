/**
 Bounded keyed stores: one specification (a map with a cap), and the SQL and Durable Object forms that refine it
 (worker/state.ts:34-97, src/state.ts:99-185, aws/postgres-state.ts:34-158).
 */
module BoundedStores {
  import opened Common

  type Namespace = string
  type Key = string

  datatype Entry<V> = Entry(value: V, createdAt: Time)

  /** How a store breaks ties between keys; the three stores use different collations. */
  type KeyOrder = (Key, Key) -> bool

  ghost predicate TotalOrder(before: KeyOrder) {
    && (forall a :: !before(a, a))
    && (forall a, b :: a != b ==> before(a, b) || before(b, a))
    && (forall a, b, c :: before(a, b) && before(b, c) ==> before(a, c))
  }

  datatype Policy = Policy(maxEntries: nat, evictOldest: bool)

  /** `ORDER BY created_at, "key"` */
  predicate Older<V>(store: map<Key, Entry<V>>, a: Key, b: Key, before: KeyOrder)
    requires a in store && b in store
  {
    store[a].createdAt < store[b].createdAt || (store[a].createdAt == store[b].createdAt && before(a, b))
  }

  ghost predicate IsOldest<V>(store: map<Key, Entry<V>>, keys: set<Key>, k: Key, before: KeyOrder) {
    k in keys && keys <= store.Keys && forall j :: j in keys && j != k ==> Older(store, k, j, before)
  }

  lemma {:induction false} OldestExists<V>(store: map<Key, Entry<V>>, keys: set<Key>, before: KeyOrder)
    requires TotalOrder(before) && keys != {} && keys <= store.Keys
    ensures exists k :: IsOldest(store, keys, k, before)
    decreases |keys|
  {
    var x :| x in keys;
    if keys == {x} {
      assert IsOldest(store, keys, x, before);
    } else {
      OldestExists(store, keys - {x}, before);
      var k :| IsOldest(store, keys - {x}, k, before);
      var least := if Older(store, x, k, before) then x else k;
      forall j | j in keys && j != least
        ensures Older(store, least, j, before)
      {
        if j != x && j != k {
          assert Older(store, k, j, before);
        }
      }
      assert IsOldest(store, keys, least, before);
    }
  }

  lemma OldestIsUnique<V>(store: map<Key, Entry<V>>, keys: set<Key>, a: Key, b: Key, before: KeyOrder)
    requires TotalOrder(before) && IsOldest(store, keys, a, before) && IsOldest(store, keys, b, before)
    ensures a == b
  {
    OlderIsAsymmetric(store, a, b, before);
  }

  lemma OlderIsAsymmetric<V>(store: map<Key, Entry<V>>, a: Key, b: Key, before: KeyOrder)
    requires TotalOrder(before) && a in store && b in store
    ensures !Older(store, a, b, before) || !Older(store, b, a, before)
  {
    assert before(a, b) && before(b, a) ==> before(a, a);
  }

  lemma EmptyKeys<V>(store: map<Key, Entry<V>>)
    ensures store.Keys == {} ==> store == map[]
  {
    if store.Keys == {} {
      assert store == map[];
    }
  }

  ghost function Oldest<V>(store: map<Key, Entry<V>>, before: KeyOrder): (k: Key)
    requires TotalOrder(before) && store != map[]
    ensures IsOldest(store, store.Keys, k, before)
  {
    EmptyKeys(store);
    OldestExists(store, store.Keys, before);
    var k :| IsOldest(store, store.Keys, k, before);
    k
  }

  /** The specification of `register`. */
  ghost function Registered<V>(
    store: map<Key, Entry<V>>, key: Key, value: V, now: Time, policy: Policy, before: KeyOrder)
    : Result<map<Key, Entry<V>>, string>
    requires TotalOrder(before) && policy.maxEntries > 0
  {
    if key in store || |store| < policy.maxEntries then Success(store[key := Entry(value, now)])
    else if !policy.evictOldest then Failure("state store entry limit exceeded")
    else Success((store - {Oldest(store, before)})[key := Entry(value, now)])
  }

  /** The cap holds once it holds, replacement refreshes the age, and eviction takes exactly the oldest entry. */
  lemma RegisteredIsBounded<V>(
    store: map<Key, Entry<V>>, key: Key, value: V, now: Time, policy: Policy, before: KeyOrder)
    requires TotalOrder(before) && policy.maxEntries > 0
    ensures var r := Registered(store, key, value, now, policy, before);
            r.Success? ==>
              && key in r.value && r.value[key] == Entry(value, now)
              && |r.value| <= (if |store| > policy.maxEntries then |store| else policy.maxEntries)
              && (forall k :: k in r.value && k != key ==> k in store && r.value[k] == store[k])
              && (key in store || |store| < policy.maxEntries ==> store.Keys <= r.value.Keys)
              && (key !in store && |store| >= policy.maxEntries ==>
                    exists k :: IsOldest(store, store.Keys, k, before) && r.value.Keys == store.Keys - {k} + {key})
  {
    GrownSize(store, key, Entry(value, now));
    if key !in store && |store| >= policy.maxEntries && policy.evictOldest {
      var k := Oldest(store, before);
      FewerRows(store, k);
      GrownSize(store - {k}, key, Entry(value, now));
    }
  }

  lemma GrownSize<V>(store: map<Key, Entry<V>>, key: Key, entry: Entry<V>)
    ensures |store[key := entry]| == |store| + if key in store then 0 else 1
    ensures store[key := entry].Keys == store.Keys + {key}
  {
    assert store[key := entry].Keys == store.Keys + {key};
    assert |store[key := entry]| == |store[key := entry].Keys| && |store| == |store.Keys|;
    if key in store {
      assert store.Keys + {key} == store.Keys;
    }
  }

  lemma FewerRows<V>(store: map<Key, Entry<V>>, key: Key)
    ensures |store - {key}| == |store| - if key in store then 1 else 0
    ensures (store - {key}).Keys == store.Keys - {key}
  {
    assert (store - {key}).Keys == store.Keys - {key};
    assert |store - {key}| == |(store - {key}).Keys| && |store| == |store.Keys|;
    if key !in store {
      assert store.Keys - {key} == store.Keys;
    }
  }

  // ---------- Transactions ----------

  /** The rows of every namespace. */
  type Tables<V> = map<Namespace, map<Key, Entry<V>>>

  function Rows<V>(db: Tables<V>, ns: Namespace): map<Key, Entry<V>> { if ns in db then db[ns] else map[] }

  /** What runs inside a transaction.  A nested transaction joins the one around it, which may catch its error. */
  datatype Op<V> =
    | Register(ns: Namespace, key: Key, value: V, now: Time)
    | Delete(ns: Namespace, key: Key)
    | Nested(ops: seq<Op<V>>, caught: bool)
    | Throw

  type Policies = Namespace -> Policy

  ghost predicate PositiveCaps(policies: Policies) { forall ns :: policies(ns).maxEntries > 0 }

  /** The tables after an operation, and whether it ended without an error. */
  ghost function ExecOne<V>(db: Tables<V>, op: Op<V>, policies: Policies, before: KeyOrder): (Tables<V>, bool)
    requires TotalOrder(before) && PositiveCaps(policies)
    decreases op
  {
    match op
    case Register(ns, key, value, now) =>
      var r := Registered(Rows(db, ns), key, value, now, policies(ns), before);
      if r.Failure? then (db, false) else (db[ns := r.value], true)
    case Delete(ns, key) => (db[ns := Rows(db, ns) - {key}], true)
    case Nested(inner, caught) =>
      var r := Exec(db, inner, policies, before);
      (r.0, r.1 || caught)
    case Throw => (db, false)
  }

  /** The operations in order, up to the first error. */
  ghost function Exec<V>(db: Tables<V>, ops: seq<Op<V>>, policies: Policies, before: KeyOrder): (Tables<V>, bool)
    requires TotalOrder(before) && PositiveCaps(policies)
    decreases ops
  {
    if ops == [] then (db, true)
    else
      var r := ExecOne(db, ops[0], policies, before);
      if r.1 then Exec(r.0, ops[1..], policies, before) else r
  }

  ghost predicate Bounded<V>(db: Tables<V>, policies: Policies) {
    forall ns :: |Rows(db, ns)| <= policies(ns).maxEntries
  }

  /** No store ever exceeds its cap, wherever a transaction stops. */
  lemma {:induction false} ExecIsBounded<V>(db: Tables<V>, ops: seq<Op<V>>, policies: Policies, before: KeyOrder)
    requires TotalOrder(before) && PositiveCaps(policies) && Bounded(db, policies)
    ensures Bounded(Exec(db, ops, policies, before).0, policies)
    decreases ops
  {
    if ops != [] {
      OneIsBounded(db, ops[0], policies, before);
      ExecIsBounded(ExecOne(db, ops[0], policies, before).0, ops[1..], policies, before);
    }
  }

  lemma {:induction false} OneIsBounded<V>(db: Tables<V>, op: Op<V>, policies: Policies, before: KeyOrder)
    requires TotalOrder(before) && PositiveCaps(policies) && Bounded(db, policies)
    ensures Bounded(ExecOne(db, op, policies, before).0, policies)
    decreases op
  {
    match op
    case Register(ns, key, value, now) =>
      var r := Registered(Rows(db, ns), key, value, now, policies(ns), before);
      if r.Success? {
        RegisteredIsBounded(Rows(db, ns), key, value, now, policies(ns), before);
        OneTableBounded(db, ns, r.value, policies);
      }
    case Delete(ns, key) =>
      FewerRows(Rows(db, ns), key);
      OneTableBounded(db, ns, Rows(db, ns) - {key}, policies);
    case Nested(inner, _) => ExecIsBounded(db, inner, policies, before);
    case Throw =>
  }

  lemma OneTableBounded<V>(db: Tables<V>, ns: Namespace, rows: map<Key, Entry<V>>, policies: Policies)
    requires Bounded(db, policies) && |rows| <= policies(ns).maxEntries
    ensures Bounded(db[ns := rows], policies)
  {
    forall other
      ensures |Rows(db[ns := rows], other)| <= policies(other).maxEntries
    {
      assert other != ns ==> Rows(db[ns := rows], other) == Rows(db, other);
    }
  }

  predicate IsWrite<V>(op: Op<V>) { op.Register? || op.Delete? }

  /** The writes an operation makes, nested ones included, up to the error that stops it. */
  ghost function DoneByOne<V>(db: Tables<V>, op: Op<V>, policies: Policies, before: KeyOrder): (done: seq<Op<V>>)
    requires TotalOrder(before) && PositiveCaps(policies)
    ensures forall d :: d in done ==> IsWrite(d)
    decreases op
  {
    match op
    case Register(ns, key, value, now) =>
      if Registered(Rows(db, ns), key, value, now, policies(ns), before).Success? then [op] else []
    case Delete(_, _) => [op]
    case Nested(inner, _) => Done(db, inner, policies, before)
    case Throw => []
  }

  ghost function Done<V>(db: Tables<V>, ops: seq<Op<V>>, policies: Policies, before: KeyOrder): (done: seq<Op<V>>)
    requires TotalOrder(before) && PositiveCaps(policies)
    ensures forall d :: d in done ==> IsWrite(d)
    decreases ops
  {
    if ops == [] then []
    else
      var r := ExecOne(db, ops[0], policies, before);
      DoneByOne(db, ops[0], policies, before) + if r.1 then Done(r.0, ops[1..], policies, before) else []
  }

  lemma {:induction false} ExecAppend<V>(
    db: Tables<V>, first: seq<Op<V>>, second: seq<Op<V>>, policies: Policies, before: KeyOrder)
    requires TotalOrder(before) && PositiveCaps(policies) && Exec(db, first, policies, before).1
    ensures Exec(db, first + second, policies, before) ==
            Exec(Exec(db, first, policies, before).0, second, policies, before)
    decreases first
  {
    if first == [] {
      assert first + second == second;
    } else {
      assert (first + second)[1..] == first[1..] + second;
      ExecAppend(ExecOne(db, first[0], policies, before).0, first[1..], second, policies, before);
    }
  }

  lemma ExecSingle<V>(db: Tables<V>, op: Op<V>, policies: Policies, before: KeyOrder)
    requires TotalOrder(before) && PositiveCaps(policies)
    ensures Exec(db, [op], policies, before) == ExecOne(db, op, policies, before)
  {
    var r := ExecOne(db, op, policies, before);
    assert Exec(r.0, [], policies, before) == (r.0, true);
  }

  lemma {:induction false} DoneByOneIsKept<V>(db: Tables<V>, op: Op<V>, policies: Policies, before: KeyOrder)
    requires TotalOrder(before) && PositiveCaps(policies)
    ensures Exec(db, DoneByOne(db, op, policies, before), policies, before) ==
            (ExecOne(db, op, policies, before).0, true)
    decreases op, 0
  {
    match op
    case Nested(inner, _) => DoneIsKept(db, inner, policies, before);
    case _ => ExecSingle(db, op, policies, before);
  }

  /** Wherever operations stop, the tables are what exactly the writes made so far leave, none of which fails. */
  lemma {:induction false} DoneIsKept<V>(db: Tables<V>, ops: seq<Op<V>>, policies: Policies, before: KeyOrder)
    requires TotalOrder(before) && PositiveCaps(policies)
    ensures Exec(db, Done(db, ops, policies, before), policies, before) == (Exec(db, ops, policies, before).0, true)
    decreases ops, 0
  {
    if ops != [] {
      var r := ExecOne(db, ops[0], policies, before);
      var done := DoneByOne(db, ops[0], policies, before);
      DoneByOneIsKept(db, ops[0], policies, before);
      if r.1 {
        DoneIsKept(r.0, ops[1..], policies, before);
        ExecAppend(db, done, Done(r.0, ops[1..], policies, before), policies, before);
      } else {
        assert done + [] == done;
      }
    }
  }

  /**
   There are no savepoints: a nested transaction whose error is caught keeps exactly the writes made before the error,
   so it is as if it had not run exactly if those writes together change nothing.
   */
  lemma CaughtErrorKeepsWrites<V>(db: Tables<V>, inner: seq<Op<V>>, policies: Policies, before: KeyOrder)
    requires TotalOrder(before) && PositiveCaps(policies) && !Exec(db, inner, policies, before).1
    ensures var r := ExecOne(db, Nested(inner, true), policies, before);
            r.1 && r == Exec(db, Done(db, inner, policies, before), policies, before)
  {
    DoneIsKept(db, inner, policies, before);
  }

  /** In particular an entry registered last before the error is there afterwards. */
  lemma LastRegisterStays<V>(
    db: Tables<V>, inner: seq<Op<V>>, earlier: seq<Op<V>>, last: Op<V>, policies: Policies, before: KeyOrder)
    requires TotalOrder(before) && PositiveCaps(policies) && last.Register?
    requires Done(db, inner, policies, before) == earlier + [last]
    ensures var r := ExecOne(db, Nested(inner, true), policies, before);
            last.key in Rows(r.0, last.ns) && Rows(r.0, last.ns)[last.key] == Entry(last.value, last.now)
  {
    DoneIsKept(db, inner, policies, before);
    PrefixSucceeds(db, earlier, [last], policies, before);
    ExecAppend(db, earlier, [last], policies, before);
    var mid := Exec(db, earlier, policies, before).0;
    ExecSingle(mid, last, policies, before);
    RegisteredIsBounded(Rows(mid, last.ns), last.key, last.value, last.now, policies(last.ns), before);
  }

  lemma {:induction false} PrefixSucceeds<V>(
    db: Tables<V>, first: seq<Op<V>>, second: seq<Op<V>>, policies: Policies, before: KeyOrder)
    requires TotalOrder(before) && PositiveCaps(policies) && Exec(db, first + second, policies, before).1
    ensures Exec(db, first, policies, before).1
    decreases first
  {
    if first != [] {
      assert (first + second)[1..] == first[1..] + second;
      PrefixSucceeds(ExecOne(db, first[0], policies, before).0, first[1..], second, policies, before);
    }
  }

  // ---------- The SQL form ----------

  /** SQLite and PostgreSQL: one table, and statements under an exclusive transaction. */
  class SqlStateDatabase<V> {
    var tables: Tables<V>
    const policies: Policies
    const before: KeyOrder

    constructor (policies: Policies, before: KeyOrder)
      ensures tables == map[] && this.policies == policies && this.before == before
    {
      tables := map[];
      this.policies, this.before := policies, before;
    }

    ghost predicate Valid()
      reads this
    {
      TotalOrder(before) && PositiveCaps(policies) && Bounded(tables, policies)
    }

    /** `ORDER BY created_at, "key" LIMIT 1` */
    method SelectOldest(ns: Namespace) returns (k: Key)
      requires TotalOrder(before) && Rows(tables, ns) != map[]
      ensures k == Oldest(Rows(tables, ns), before)
    {
      var rows := Rows(tables, ns);
      EmptyKeys(rows);
      k :| k in rows.Keys;
      var seen := {k};
      var todo := rows.Keys - {k};
      while todo != {}
        invariant seen + todo == rows.Keys && IsOldest(rows, seen, k, before)
        decreases todo
      {
        var j :| j in todo;
        todo, seen := todo - {j}, seen + {j};
        if Older(rows, j, k, before) {
          k := j;
        }
      }
      assert seen == rows.Keys;
      OldestIsUnique(rows, rows.Keys, k, Oldest(rows, before), before);
    }

    method Register(ns: Namespace, key: Key, value: V, now: Time) returns (ok: bool)
      requires Valid()
      modifies this`tables
      ensures Valid()
      ensures var r := Registered(old(Rows(tables, ns)), key, value, now, policies(ns), before);
              ok == r.Success? && tables == if ok then old(tables)[ns := r.value] else old(tables)
    {
      var rows := Rows(tables, ns);
      RegisteredIsBounded(rows, key, value, now, policies(ns), before);
      if key !in rows && |rows| >= policies(ns).maxEntries {
        if !policies(ns).evictOldest {
          return false;
        }
        var k := SelectOldest(ns);
        rows := rows - {k};
      }
      rows := rows[key := Entry(value, now)];
      OneTableBounded(tables, ns, rows, policies);
      tables := tables[ns := rows];
      ok := true;
    }

    method DeleteRow(ns: Namespace, key: Key) returns (removed: bool)
      requires Valid()
      modifies this`tables
      ensures Valid() && tables == old(tables)[ns := old(Rows(tables, ns)) - {key}]
      ensures removed <==> key in old(Rows(tables, ns))
    {
      removed := key in Rows(tables, ns);
      FewerRows(Rows(tables, ns), key);
      OneTableBounded(tables, ns, Rows(tables, ns) - {key}, policies);
      tables := tables[ns := Rows(tables, ns) - {key}];
    }

    method RunOne(op: Op<V>) returns (ok: bool)
      requires Valid()
      modifies this`tables
      ensures Valid() && (tables, ok) == ExecOne(old(tables), op, policies, before)
      decreases op
    {
      match op {
        case Register(ns, key, value, now) =>
          ok := Register(ns, key, value, now);
        case Delete(ns, key) =>
          var _ := DeleteRow(ns, key);
          ok := true;
        case Nested(inner, caught) =>
          ok := RunOps(inner);
          ok := ok || caught;
        case Throw =>
          ok := false;
      }
    }

    /** The operations one after the other, inside a transaction. */
    method RunOps(ops: seq<Op<V>>) returns (ok: bool)
      requires Valid()
      modifies this`tables
      ensures Valid() && (tables, ok) == Exec(old(tables), ops, policies, before)
      decreases ops
    {
      ok := true;
      if ops != [] {
        ok := RunOne(ops[0]);
        if ok {
          ok := RunOps(ops[1..]);
        }
      }
    }

    /** BEGIN, the operations, then COMMIT or ROLLBACK: all of it or nothing. */
    method Transaction(ops: seq<Op<V>>) returns (ok: bool)
      requires Valid()
      modifies this`tables
      ensures Valid() && ok == Exec(old(tables), ops, policies, before).1
      ensures tables == if ok then Exec(old(tables), ops, policies, before).0 else old(tables)
    {
      var saved := tables;
      ok := RunOps(ops);
      if !ok {
        tables := saved;
      }
    }
  }

  // ---------- The Durable Object form ----------

  const PAGE: nat := 128

  /** `list({startAfter, limit: 128})`: the next keys in storage order. */
  ghost predicate IsPage(keys: set<Key>, startAfter: Option<Key>, page: seq<Key>, listed: KeyOrder) {
    && |page| <= PAGE
    && (forall i, j :: 0 <= i < j < |page| ==> listed(page[i], page[j]))
    && (forall i :: 0 <= i < |page| ==> page[i] in After(keys, startAfter, listed))
    && (|page| < PAGE ==> forall k :: k in After(keys, startAfter, listed) ==> k in page)
    && (forall k, i :: k in After(keys, startAfter, listed) && k !in page && 0 <= i < |page| ==> listed(page[i], k))
  }

  function After(keys: set<Key>, startAfter: Option<Key>, listed: KeyOrder): set<Key> {
    set k | k in keys && (startAfter.Some? ==> listed(startAfter.value, k))
  }

  /** One storage for all namespaces; a transaction inside another one joins it. */
  class DurableObjectStateDatabase<V> {
    var tables: Tables<V>
    /** Whether the code that runs is inside a transaction. */
    var active: bool
    const policies: Policies
    /** Storage lists keys in one order, and `localeCompare` breaks ties in another. */
    const listed: KeyOrder
    const before: KeyOrder

    constructor (policies: Policies, listed: KeyOrder, before: KeyOrder)
      ensures tables == map[] && !active
      ensures this.policies == policies && this.listed == listed && this.before == before
    {
      tables, active := map[], false;
      this.policies, this.listed, this.before := policies, listed, before;
    }

    ghost predicate Valid()
      reads this
    {
      TotalOrder(listed) && TotalOrder(before) && PositiveCaps(policies) && Bounded(tables, policies)
    }

    method First(keys: set<Key>) returns (k: Key)
      requires TotalOrder(listed) && keys != {}
      ensures k in keys && forall j :: j in keys && j != k ==> listed(k, j)
    {
      k :| k in keys;
      var todo := keys - {k};
      while todo != {}
        invariant todo <= keys && k in keys - todo
        invariant forall j :: j in keys - todo && j != k ==> listed(k, j)
        decreases todo
      {
        var j :| j in todo;
        todo := todo - {j};
        forall x | x in keys - todo
          ensures listed(j, k) && x != j ==> listed(j, x)
          ensures !listed(j, k) && x != k ==> listed(k, x)
        {
          assert x == k || x == j || listed(k, x);
        }
        if listed(j, k) {
          k := j;
        }
      }
    }

    /** The keys of one namespace, from where the page before ended. */
    method List(store: map<Key, Entry<V>>, startAfter: Option<Key>) returns (page: seq<Key>)
      requires TotalOrder(listed)
      ensures IsPage(store.Keys, startAfter, page, listed)
    {
      page := [];
      var left := set k | k in store.Keys && (startAfter.Some? ==> listed(startAfter.value, k));
      ghost var all := left;
      assert all == After(store.Keys, startAfter, listed);
      while left != {} && |page| < PAGE
        invariant |page| <= PAGE && left <= all
        invariant forall k :: k in all <==> k in left || k in page
        invariant forall i, j :: 0 <= i < j < |page| ==> listed(page[i], page[j])
        invariant forall i, k :: 0 <= i < |page| && k in left ==> listed(page[i], k)
        decreases left
      {
        var k := First(left);
        left := left - {k};
        page := page + [k];
      }
      assert forall i :: 0 <= i < |page| ==> page[i] in all by {
        assert forall i :: 0 <= i < |page| ==> page[i] in page;
      }
    }

    /** How far the paged loop has come: which keys it saw, how many, and the oldest of them. */
    ghost predicate Scanned(
      store: map<Key, Entry<V>>, seen: set<Key>, startAfter: Option<Key>, count: nat, oldest: Option<Key>)
    {
      && seen <= store.Keys && count == |seen|
      && seen == store.Keys - After(store.Keys, startAfter, listed)
      && (oldest.None? <==> seen == {})
      && (oldest.Some? ==> IsOldest(store, seen, oldest.value, before))
    }

    /** The paged loop: as many entries as there are, and the oldest of them. */
    method CountAndOldest(store: map<Key, Entry<V>>, policy: Policy)
      returns (full: bool, count: nat, oldest: Option<Key>)
      requires TotalOrder(listed) && TotalOrder(before) && policy.maxEntries > 0
      ensures full <==> |store.Keys| >= policy.maxEntries && !policy.evictOldest
      ensures !full ==> count == |store.Keys|
      ensures !full ==> (oldest.None? <==> store.Keys == {}) &&
                        (oldest.Some? ==> IsOldest(store, store.Keys, oldest.value, before))
    {
      full, count, oldest := false, 0, None;
      var startAfter: Option<Key> := None;
      ghost var seen: set<Key> := {};
      var more := true;
      while more
        invariant !full && Scanned(store, seen, startAfter, count, oldest)
        invariant !policy.evictOldest ==> count < policy.maxEntries
        invariant !more ==> seen == store.Keys
        decreases more, |store.Keys - seen|
      {
        var page := List(store, startAfter);
        PageIsNew(store.Keys, startAfter, page, seen, listed);
        count := count + |page|;
        if count >= policy.maxEntries && !policy.evictOldest {
          SubsetIsSmaller(seen + Elements(page), store.Keys);
          return true, count, oldest;
        }
        oldest := Least(store, page, oldest, seen);
        if |page| > 0 {
          startAfter := Some(page[|page| - 1]);
        }
        ScanShrinks(store.Keys, seen, page);
        seen := seen + Elements(page);
        more := |page| >= PAGE;
      }
    }

    /** The inner loop over one page. */
    method Least(store: map<Key, Entry<V>>, page: seq<Key>, sofar: Option<Key>, ghost seen: set<Key>)
      returns (oldest: Option<Key>)
      requires TotalOrder(before) && seen <= store.Keys && forall k :: k in page ==> k in store
      requires sofar.None? <==> seen == {}
      requires sofar.Some? ==> IsOldest(store, seen, sofar.value, before)
      ensures oldest.None? <==> seen + Elements(page) == {}
      ensures oldest.Some? ==> IsOldest(store, seen + Elements(page), oldest.value, before)
    {
      oldest := sofar;
      ghost var done := seen;
      for i := 0 to |page|
        invariant done == seen + Elements(page[..i]) && done <= store.Keys
        invariant oldest.None? <==> done == {}
        invariant oldest.Some? ==> IsOldest(store, done, oldest.value, before)
      {
        assert page[..i + 1] == page[..i] + [page[i]];
        assert page[i] in page;
        var was := oldest;
        if oldest.None? || Older(store, page[i], oldest.value, before) {
          oldest := Some(page[i]);
        }
        done := done + {page[i]};
        if was.Some? {
          forall j | j in done && j != oldest.value
            ensures Older(store, oldest.value, j, before)
          {
            if j != page[i] && j != was.value {
              assert Older(store, was.value, j, before);
            }
          }
        }
      }
      assert page[..|page|] == page;
    }

    /** The paged register computes what the specification says; a full store fails before anything is written. */
    method Register(ns: Namespace, key: Key, value: V, now: Time) returns (ok: bool)
      requires Valid()
      modifies this`tables
      ensures Valid()
      ensures var r := Registered(old(Rows(tables, ns)), key, value, now, policies(ns), before);
              ok == r.Success? && tables == if ok then old(tables)[ns := r.value] else old(tables)
    {
      var store := Rows(tables, ns);
      RegisteredIsBounded(store, key, value, now, policies(ns), before);
      if key !in store {
        var full, count, oldest := CountAndOldest(store, policies(ns));
        if full {
          return false;
        }
        if count >= policies(ns).maxEntries && oldest.Some? {
          OldestIsUnique(store, store.Keys, oldest.value, Oldest(store, before), before);
          store := store - {oldest.value};
        }
      }
      store := store[key := Entry(value, now)];
      OneTableBounded(tables, ns, store, policies);
      tables := tables[ns := store];
      ok := true;
    }

    method DeleteKey(ns: Namespace, key: Key)
      requires Valid()
      modifies this`tables
      ensures Valid() && tables == old(tables)[ns := old(Rows(tables, ns)) - {key}]
    {
      var store := Rows(tables, ns);
      FewerRows(store, key);
      OneTableBounded(tables, ns, store - {key}, policies);
      tables := tables[ns := store - {key}];
    }

    /** What a transaction runs, with a nested `transaction` call for each nested one. */
    method RunOne(op: Op<V>) returns (ok: bool)
      requires Valid() && active
      modifies this
      ensures Valid() && active && (tables, ok) == ExecOne(old(tables), op, policies, before)
      decreases op, 0
    {
      match op {
        case Register(ns, key, value, now) =>
          ok := Register(ns, key, value, now);
        case Delete(ns, key) =>
          DeleteKey(ns, key);
          ok := true;
        case Nested(inner, caught) =>
          ok := Transaction(inner);
          ok := ok || caught;
        case Throw =>
          ok := false;
      }
    }

    method RunOps(ops: seq<Op<V>>) returns (ok: bool)
      requires Valid() && active
      modifies this
      ensures Valid() && active && (tables, ok) == Exec(old(tables), ops, policies, before)
      decreases ops, 0
    {
      ok := true;
      if ops != [] {
        ok := RunOne(ops[0]);
        if ok {
          ok := RunOps(ops[1..]);
        }
      }
    }

    /** `transaction`: joins the one that is active, else all of it or nothing. */
    method Transaction(ops: seq<Op<V>>) returns (ok: bool)
      requires Valid()
      modifies this
      ensures Valid() && active == old(active) && ok == Exec(old(tables), ops, policies, before).1
      ensures tables == if ok || active then Exec(old(tables), ops, policies, before).0 else old(tables)
      decreases ops, 1
    {
      if active {
        ok := RunOps(ops);
        return;
      }
      var saved := tables;
      active := true;
      ok := RunOps(ops);
      active := false;
      if !ok {
        tables := saved;
      }
    }
  }

  lemma SubsetIsSmaller<T>(a: set<T>, b: set<T>)
    requires a <= b
    ensures |a| <= |b|
  {
    if a != {} {
      var x :| x in a;
      SubsetIsSmaller(a - {x}, b - {x});
    }
  }

  function Elements(page: seq<Key>): set<Key> { set k | k in page }

  lemma {:induction false} DistinctKeys(page: seq<Key>, listed: KeyOrder)
    requires TotalOrder(listed) && forall i, j :: 0 <= i < j < |page| ==> listed(page[i], page[j])
    ensures |Elements(page)| == |page|
  {
    if page != [] {
      var front := page[..|page| - 1];
      var last := page[|page| - 1];
      DistinctKeys(front, listed);
      assert page == front + [last];
      assert Elements(page) == Elements(front) + {last};
      assert last !in front;
    }
  }

  lemma ScanShrinks(keys: set<Key>, seen: set<Key>, page: seq<Key>)
    requires seen <= keys && Elements(page) <= keys && Elements(page) !! seen
    ensures |page| > 0 ==> |keys - (seen + Elements(page))| < |keys - seen|
  {
    if |page| > 0 {
      assert page[0] in Elements(page);
      SubsetIsSmaller(keys - (seen + Elements(page)), keys - seen - {page[0]});
    }
  }

  /** What follows the last key of a page is exactly what the page leaves over. */
  lemma AfterPage(keys: set<Key>, startAfter: Option<Key>, page: seq<Key>, seen: set<Key>, listed: KeyOrder, k: Key)
    requires TotalOrder(listed) && IsPage(keys, startAfter, page, listed) && page != []
    requires seen == keys - After(keys, startAfter, listed) && k in keys
    ensures k in seen + Elements(page) <==> k !in After(keys, Some(page[|page| - 1]), listed)
  {
    var last := page[|page| - 1];
    assert last in After(keys, startAfter, listed);
    if k in page {
      var i :| 0 <= i < |page| && page[i] == k;
      assert k == last || listed(k, last);
    } else if k in seen {
      assert k == startAfter.value || listed(k, startAfter.value);
      assert listed(k, last);
    } else {
      assert listed(last, k);
    }
  }

  lemma DisjointSize(a: set<Key>, b: set<Key>)
    requires a !! b
    ensures |a + b| == |a| + |b|
  {
  }

  lemma PageIsDisjoint(keys: set<Key>, startAfter: Option<Key>, page: seq<Key>, seen: set<Key>, listed: KeyOrder)
    requires IsPage(keys, startAfter, page, listed) && seen == keys - After(keys, startAfter, listed)
    ensures Elements(page) <= keys && Elements(page) !! seen
    ensures |page| < PAGE ==> seen + Elements(page) == keys
  {
  }

  /** A page has only new keys; a short one has all that are left. */
  lemma PageIsNew(keys: set<Key>, startAfter: Option<Key>, page: seq<Key>, seen: set<Key>, listed: KeyOrder)
    requires TotalOrder(listed) && IsPage(keys, startAfter, page, listed)
    requires seen == keys - After(keys, startAfter, listed)
    ensures |seen + Elements(page)| == |seen| + |page| && Elements(page) <= keys && Elements(page) !! seen
    ensures page != [] ==> seen + Elements(page) == keys - After(keys, Some(page[|page| - 1]), listed)
    ensures |page| < PAGE ==> seen + Elements(page) == keys
  {
    DistinctKeys(page, listed);
    PageIsDisjoint(keys, startAfter, page, seen, listed);
    DisjointSize(seen, Elements(page));
    if page != [] {
      forall k | k in keys
        ensures k in seen + Elements(page) <==> k !in After(keys, Some(page[|page| - 1]), listed)
      {
        AfterPage(keys, startAfter, page, seen, listed, k);
      }
    }
  }
}
