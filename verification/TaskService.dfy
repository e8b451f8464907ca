/**
 * TaskService with its cache, one request at a time: reads through the cache, removes an entry
 * after a write, and never fails because the cache fails. `Serve` says what one request does; the
 * class does it step by step on the table and on the string-keyed distributed cache.
 */
module TaskService {
  import opened Prelude
  import D = Delivery

  type Task = D.Task

  /* ---------- cache keys ---------- */

  // A GUID as a 128-bit number.
  type Guid = n: nat | n < 0x1_0000_0000_0000_0000_0000_0000_0000_0000

  const DIGITS := "0123456789abcdef"

  // The last k hexadecimal digits of n; the "N" format has 32 of them.
  function Hex(n: nat, k: nat): (s: string)
    ensures |s| == k
  {
    if k == 0 then "" else Hex(n / 16, k - 1) + [DIGITS[n % 16]]
  }

  function Prefixed(prefix: string): string {
    if prefix != "" && prefix[|prefix| - 1] == ':' then prefix else prefix + ":"
  }

  function KeyFor(prefix: string, id: Guid): string {
    Prefixed(prefix) + "task:" + Hex(id, 32)
  }

  function Pow16(k: nat): nat {
    if k == 0 then 1 else 16 * Pow16(k - 1)
  }

  lemma {:induction false} HexInjective(m: nat, n: nat, k: nat)
    requires m < Pow16(k) && n < Pow16(k) && Hex(m, k) == Hex(n, k)
    ensures m == n
  {
    if k > 0 {
      var a, b := Hex(m, k), Hex(n, k);
      assert a[..k - 1] == Hex(m / 16, k - 1) && b[..k - 1] == Hex(n / 16, k - 1);
      assert a[k - 1] == b[k - 1];
      DigitsDiffer(m % 16, n % 16);
      HexInjective(m / 16, n / 16, k - 1);
    }
  }

  // The number that hexadecimal digits stand for.
  function ValueOf(s: string): nat {
    if s == "" then 0
    else
      var c := s[|s| - 1];
      16 * ValueOf(s[..|s| - 1])
      + if '0' <= c <= '9' then (c - '0') as nat else if 'a' <= c <= 'f' then (c - 'a') as nat + 10 else 0
  }

  /** The key's digits are the id's, most significant first. */
  lemma {:induction false} HexReads(n: nat, k: nat)
    requires n < Pow16(k)
    ensures ValueOf(Hex(n, k)) == n
  {
    if k > 0 {
      HexReads(n / 16, k - 1);
      var s := Hex(n, k);
      assert s[..k - 1] == Hex(n / 16, k - 1) && s[k - 1] == DIGITS[n % 16];
      DigitReads(n % 16);
    }
  }

  lemma DigitReads(i: nat)
    requires i < 16
    ensures var c := DIGITS[i];
      i == if '0' <= c <= '9' then (c - '0') as nat else if 'a' <= c <= 'f' then (c - 'a') as nat + 10 else 0
  {}

  lemma DigitsDiffer(i: nat, j: nat)
    requires i < 16 && j < 16 && DIGITS[i] == DIGITS[j]
    ensures i == j
  {}

  lemma Pow16Value()
    ensures Pow16(32) == 0x1_0000_0000_0000_0000_0000_0000_0000_0000
  {
    assert Pow16(8) == 0x1_0000_0000;
    assert Pow16(16) == 0x1_0000_0000_0000_0000;
    assert Pow16(24) == 0x1_0000_0000_0000_0000_0000_0000;
  }

  /** Two keys are equal only for one id under one prefix: services whose prefixes differ by more
      than a final colon share a Redis without sharing an entry. */
  lemma KeysDiffer(p: string, id: Guid, q: string, jd: Guid)
    ensures KeyFor(p, id) == KeyFor(q, jd) <==> Prefixed(p) == Prefixed(q) && id == jd
  {
    if KeyFor(p, id) == KeyFor(q, jd) {
      var a, b := KeyFor(p, id), KeyFor(q, jd);
      assert a[..|a| - 37] == Prefixed(p) && b[..|b| - 37] == Prefixed(q);
      assert a[|a| - 32..] == Hex(id, 32) && b[|b| - 32..] == Hex(jd, 32);
      Pow16Value();
      HexInjective(id, jd, 32);
    }
  }

  /** A key is the prefix with one colon after it, `task:` and 32 digits that read as the id. */
  lemma KeyShape(prefix: string, id: Guid) returns (digits: string)
    ensures KeyFor(prefix, id) == Prefixed(prefix) + "task:" + digits && |digits| == 32 && ValueOf(digits) == id
    ensures Prefixed(prefix)[|Prefixed(prefix)| - 1] == ':' && (Prefixed(prefix) == prefix || Prefixed(prefix) == prefix + ":")
  {
    digits := Hex(id, 32);
    Pow16Value();
    HexReads(id, 32);
  }

  /* ---------- requests ---------- */

  datatype CreateRequest = CreateRequest(title: string, description: Option<string>, status: Option<D.Status>,
                                         priority: Option<D.Priority>, dueDate: Option<int>)

  datatype UpdateRequest = UpdateRequest(title: string, description: Option<string>, status: D.Status,
                                         priority: D.Priority, dueDate: Option<int>)

  datatype Op =
    | Get(id: Guid)
    | Create(id: Guid, create: CreateRequest)      // id: the new GUID
    | Ensure(command: D.Command)
    | Update(id: Guid, update: UpdateRequest)
    | Delete(id: Guid)

  // Which calls of the cache succeed, and the entries it has dropped by itself beforehand.
  datatype Faults = Faults(readOk: bool, writeOk: bool, removeOk: bool, evicted: set<string>)

  datatype Store = Store(table: map<Guid, Task>, cache: map<string, Task>)

  function Blankable(s: Option<string>): Option<D.Description> {
    if D.HasText(s) then Some(D.Note(D.Trim(s.value))) else None
  }

  // A description that is absent or all white space is left out.
  lemma BlankableExactlyWhen(s: Option<string>)
    ensures Blankable(s).None? <==> s.None? || D.AllWhiteSpace(s.value)
    ensures Blankable(s).Some? ==> Blankable(s).value == D.Note(D.Trim(s.value))
  {
    if s.Some? {
      D.HasTextExactlyWhen(s.value);
    }
  }

  function Created(r: CreateRequest, now: int): Task {
    D.Task(D.Text(D.Trim(r.title)), Blankable(r.description), if r.status.Some? then r.status.value else D.Todo,
           if r.priority.Some? then r.priority.value else D.Medium, r.dueDate, now, now)
  }

  function Updated(t: Task, r: UpdateRequest, now: int): Task {
    D.Task(D.Text(D.Trim(r.title)), Blankable(r.description), r.status, r.priority, r.dueDate, t.createdAt, now)
  }

  function Lookup(table: map<Guid, Task>, id: Guid): Option<Task> {
    if id in table then Some(table[id]) else None
  }

  /* ---------- what one request does ---------- */

  // Reads the entry under the id's key, or nothing if the cache fails.
  function Cached(cache: map<string, Task>, key: string, readOk: bool): Option<Task> {
    if readOk && key in cache then Some(cache[key]) else None
  }

  function Serve(prefix: string, s: Store, op: Op, f: Faults, now: int): (Store, Option<Task>) {
    var cache := s.cache - f.evicted;
    match op
    case Get(id) =>
      var hit := Cached(cache, KeyFor(prefix, id), f.readOk);
      if hit.Some? then (s.(cache := cache), hit)
      else if id !in s.table then (s.(cache := cache), None)
      else (s.(cache := if f.writeOk then cache[KeyFor(prefix, id) := s.table[id]] else cache), Some(s.table[id]))
    case Create(id, r) =>
      if id in s.table then (s.(cache := cache), None)
      else (Store(s.table[id := Created(r, now)], cache), Some(Created(r, now)))
    case Ensure(c) =>
      if c.orderId in s.table || c.orderId >= 0x1_0000_0000_0000_0000_0000_0000_0000_0000 then (s.(cache := cache), None)
      else (Store(s.table[c.orderId := D.DeliveryTask(c, now)], cache), Some(D.DeliveryTask(c, now)))
    case Update(id, r) =>
      if id !in s.table then (s.(cache := cache), None)
      else
        var t := Updated(s.table[id], r, now);
        (Store(s.table[id := t], if f.removeOk then cache - {KeyFor(prefix, id)} else cache), Some(t))
    case Delete(id) =>
      if id !in s.table then (s.(cache := cache), None)
      else (Store(s.table - {id}, if f.removeOk then cache - {KeyFor(prefix, id)} else cache), Some(s.table[id]))
  }

  // Every entry under one of this service's keys is the row it stands for.
  ghost predicate CacheIsPart(prefix: string, s: Store) {
    forall id: Guid | KeyFor(prefix, id) in s.cache :: id in s.table && s.table[id] == s.cache[KeyFor(prefix, id)]
  }

  // A write whose removal fails, with an entry in place that the row no longer agrees with.
  predicate Spoils(prefix: string, s: Store, op: Op, f: Faults, now: int) {
    && (op.Update? || op.Delete?) && op.id in s.table && !f.removeOk
    && KeyFor(prefix, op.id) in s.cache && KeyFor(prefix, op.id) !in f.evicted
    && (op.Update? ==> Updated(s.table[op.id], op.update, now) != s.table[op.id])
  }

  lemma ServeKeepsPart(prefix: string, s: Store, op: Op, f: Faults, now: int)
    requires CacheIsPart(prefix, s) && !Spoils(prefix, s, op, f, now)
    ensures CacheIsPart(prefix, Serve(prefix, s, op, f, now).0)
  {
    var t := Serve(prefix, s, op, f, now).0;
    var changed: Guid :=
      if op.Ensure? then (if t.table == s.table then 0 else op.command.orderId) else op.id;
    forall id: Guid | KeyFor(prefix, id) in t.cache
      ensures id in t.table && t.table[id] == t.cache[KeyFor(prefix, id)]
    {
      KeysDiffer(prefix, id, prefix, changed);
      if KeyFor(prefix, id) in s.cache {
        assert id in s.table && s.table[id] == s.cache[KeyFor(prefix, id)];
      }
    }
  }

  lemma SpoilsBreaksPart(prefix: string, s: Store, op: Op, f: Faults, now: int)
    requires CacheIsPart(prefix, s) && Spoils(prefix, s, op, f, now)
    ensures !CacheIsPart(prefix, Serve(prefix, s, op, f, now).0)
  {
    var t := Serve(prefix, s, op, f, now).0;
    assert s.table[op.id] == s.cache[KeyFor(prefix, op.id)];
    assert KeyFor(prefix, op.id) in t.cache;
  }

  /** One request keeps the cache a part of the table exactly when it is not a write that changed the
      row, whose removal failed, with the row's entry still in the cache. */
  lemma ServeKeepsPartExactlyWhen(prefix: string, s: Store, op: Op, f: Faults, now: int)
    requires CacheIsPart(prefix, s)
    ensures CacheIsPart(prefix, Serve(prefix, s, op, f, now).0) <==> !Spoils(prefix, s, op, f, now)
  {
    if Spoils(prefix, s, op, f, now) {
      SpoilsBreaksPart(prefix, s, op, f, now);
    } else {
      ServeKeepsPart(prefix, s, op, f, now);
    }
  }

  datatype Event = Event(op: Op, faults: Faults, now: int)

  function After(prefix: string, s: Store, e: Event): Store {
    Serve(prefix, s, e.op, e.faults, e.now).0
  }

  function Replay(prefix: string, s: Store, es: seq<Event>): Store
    decreases |es|
  {
    if es == [] then s else Replay(prefix, After(prefix, s, es[0]), es[1..])
  }

  predicate NeverSpoils(prefix: string, s: Store, es: seq<Event>)
    decreases |es|
  {
    es == [] || (!Spoils(prefix, s, es[0].op, es[0].faults, es[0].now) && NeverSpoils(prefix, After(prefix, s, es[0]), es[1..]))
  }

  /** The cache is part of the table after every request of a history exactly when no request of it
      spoils the cache. */
  lemma {:induction false} ReplayKeepsPartExactlyWhen(prefix: string, s: Store, es: seq<Event>)
    requires CacheIsPart(prefix, s)
    ensures (forall k | 0 <= k <= |es| :: CacheIsPart(prefix, Replay(prefix, s, es[..k]))) <==> NeverSpoils(prefix, s, es)
    decreases |es|
  {
    if es == [] {
      assert es[..0] == [];
    } else {
      var t, rest := After(prefix, s, es[0]), es[1..];
      ServeKeepsPartExactlyWhen(prefix, s, es[0].op, es[0].faults, es[0].now);
      forall k | 1 <= k <= |es| ensures Replay(prefix, s, es[..k]) == Replay(prefix, t, rest[..k - 1]) {
        assert es[..k][1..] == rest[..k - 1] && es[..k][0] == es[0];
      }
      assert es[..0] == [] && rest[..0] == [];
      assert Replay(prefix, s, es[..1]) == t;
      if CacheIsPart(prefix, t) {
        ReplayKeepsPartExactlyWhen(prefix, t, rest);
        assert (forall k | 0 <= k <= |es| :: CacheIsPart(prefix, Replay(prefix, s, es[..k])))
          <==> (forall k | 0 <= k <= |rest| :: CacheIsPart(prefix, Replay(prefix, t, rest[..k]))) by {
          forall k | 0 <= k <= |rest| ensures Replay(prefix, t, rest[..k]) == Replay(prefix, s, es[..k + 1]) {}
        }
      }
    }
  }

  // A history in which no removal fails, whatever else the cache does, spoils nothing.
  lemma {:induction false} RemovalsKeepPart(prefix: string, s: Store, es: seq<Event>)
    requires forall k | 0 <= k < |es| && (es[k].op.Update? || es[k].op.Delete?) :: es[k].faults.removeOk
    ensures NeverSpoils(prefix, s, es)
    decreases |es|
  {
    if es != [] {
      assert forall k | 0 <= k < |es[1..]| :: es[1..][k] == es[k + 1];
      RemovalsKeepPart(prefix, After(prefix, s, es[0]), es[1..]);
    }
  }

  /** After every history of requests served one at a time that spoils nothing, whatever else the
      cache did, a get returns the row of the table, or nothing if there is none. */
  lemma GetIsLookup(prefix: string, es: seq<Event>, id: Guid, f: Faults, now: int)
    requires NeverSpoils(prefix, Store(map[], map[]), es)
    ensures var s := Replay(prefix, Store(map[], map[]), es);
      Serve(prefix, s, Get(id), f, now).1 == Lookup(s.table, id)
  {
    ReplayKeepsPartExactlyWhen(prefix, Store(map[], map[]), es);
    assert es[..|es|] == es;
  }

  /** A failed removal is enough to break it: the get after the update returns the old task. */
  lemma FailedRemovalServesOldTask(prefix: string, id: Guid, a: CreateRequest, r: UpdateRequest, now: int, later: int)
    requires Updated(Created(a, now), r, later) != Created(a, now)
    ensures var ok := Faults(true, true, true, {});
      var s := Replay(prefix, Store(map[], map[]),
                      [Event(Create(id, a), ok, now), Event(Get(id), ok, now), Event(Update(id, r), ok.(removeOk := false), later)]);
      Serve(prefix, s, Get(id), ok, later).1 == Some(Created(a, now)) != Lookup(s.table, id)
  {
    var ok := Faults(true, true, true, {});
    var es := [Event(Create(id, a), ok, now), Event(Get(id), ok, now), Event(Update(id, r), ok.(removeOk := false), later)];
    assert es[1..] == [es[1], es[2]] && es[1..][1..] == [es[2]];
    var key := KeyFor(prefix, id);
    var s1 := Store(map[id := Created(a, now)], map[]);
    var s2 := Store(map[id := Created(a, now)], map[key := Created(a, now)]);
    var s3 := Store(map[id := Updated(Created(a, now), r, later)], map[key := Created(a, now)]);
    assert Serve(prefix, Store(map[], map[]), es[0].op, ok, now).0 == s1;
    assert Serve(prefix, s1, es[1].op, ok, now).0 == s2;
    assert Serve(prefix, s2, es[2].op, es[2].faults, later).0 == s3;
    assert Replay(prefix, s2, [es[2]]) == s3;
    assert Replay(prefix, s1, [es[1], es[2]]) == s3;
  }

  lemma PartAfter(prefix: string, s: Store, op: Op, f: Faults, now: int)
    ensures CacheIsPart(prefix, s) ==>
              (CacheIsPart(prefix, Serve(prefix, s, op, f, now).0) <==> !Spoils(prefix, s, op, f, now))
  {
    if CacheIsPart(prefix, s) {
      ServeKeepsPartExactlyWhen(prefix, s, op, f, now);
    }
  }

  lemma GetOnPart(prefix: string, s: Store, id: Guid, f: Faults, now: int)
    ensures var (t, r) := Serve(prefix, s, Get(id), f, now);
            CacheIsPart(prefix, s) ==> CacheIsPart(prefix, t) && r == Lookup(t.table, id)
  {
    PartAfter(prefix, s, Get(id), f, now);
  }

  /** Entries are kept apart: setting or removing one id's entry shows in a get of that id, and of no
      other id and under no other service's prefix. */
  lemma EntriesAreSeparate(cache: map<string, Task>, p: string, id: Guid, value: Task, q: string, jd: Guid, readOk: bool)
    ensures var same := Prefixed(p) == Prefixed(q) && id == jd; var before := Cached(cache, KeyFor(q, jd), readOk);
      && Cached(cache[KeyFor(p, id) := value], KeyFor(q, jd), readOk)
         == (if !same then before else if readOk then Some(value) else None)
      && Cached(cache - {KeyFor(p, id)}, KeyFor(q, jd), readOk) == (if same then None else before)
  {
    KeysDiffer(p, id, q, jd);
  }

  /* ---------- the classes ---------- */

  // The distributed cache behind swallowed failures.
  class TaskCache {
    const prefix: string
    var entries: map<string, Task>

    constructor (prefix: string)
      ensures this.prefix == prefix && entries == map[]
    {
      this.prefix, entries := prefix, map[];
    }

    method Get(id: Guid, ok: bool) returns (found: Option<Task>)
      ensures found == Cached(entries, KeyFor(prefix, id), ok)
    {
      found := None;
      var key := KeyFor(prefix, id);
      if ok && key in entries {
        found := Some(entries[key]);
      }
    }

    method Set(id: Guid, value: Task, ok: bool)
      modifies this
      ensures entries == if ok then old(entries)[KeyFor(prefix, id) := value] else old(entries)
    {
      if ok {
        entries := entries[KeyFor(prefix, id) := value];
      }
    }

    method Remove(id: Guid, ok: bool)
      modifies this
      ensures entries == if ok then old(entries) - {KeyFor(prefix, id)} else old(entries)
    {
      if ok {
        entries := entries - {KeyFor(prefix, id)};
      }
    }

    method Evict(keys: set<string>)
      modifies this
      ensures entries == old(entries) - keys
    {
      entries := entries - keys;
    }
  }

  class TaskService {
    var table: map<Guid, Task>
    const cache: TaskCache

    constructor (cache: TaskCache)
      ensures table == map[] && this.cache == cache
    {
      table, this.cache := map[], cache;
    }

    function Contents(): Store
      reads this, cache
    {
      Store(table, cache.entries)
    }

    ghost predicate Valid()
      reads this, cache
    {
      CacheIsPart(cache.prefix, Contents())
    }

    method GetAsync(id: Guid, f: Faults, now: int) returns (r: Option<Task>)
      modifies cache
      ensures (Contents(), r) == Serve(cache.prefix, old(Contents()), Get(id), f, now)
      ensures old(Valid()) ==> Valid() && r == Lookup(table, id)
      ensures table == old(table)
      ensures var kept := old(cache.entries) - f.evicted; var key := KeyFor(cache.prefix, id);
        if !(f.readOk && key in kept) && id in table && f.writeOk then cache.entries == kept[key := table[id]]
        else cache.entries == kept
    {
      GetOnPart(cache.prefix, Contents(), id, f, now);
      cache.Evict(f.evicted);
      var cached := cache.Get(id, f.readOk);
      if cached.Some? {
        return cached;
      }
      if id !in table {
        return None;
      }
      var dto := table[id];
      cache.Set(id, dto, f.writeOk);
      r := Some(dto);
    }

    method CreateAsync(id: Guid, request: CreateRequest, f: Faults, now: int) returns (r: Option<Task>)
      modifies this, cache
      ensures (Contents(), r) == Serve(cache.prefix, old(Contents()), Create(id, request), f, now)
      ensures old(Valid()) ==> Valid()
      ensures r.Some? <==> id !in old(table)
      ensures table == if r.Some? then old(table)[id := r.value] else old(table)
      ensures cache.entries == old(cache.entries) - f.evicted
      ensures r.Some? ==>
        && r.value.title == D.Text(D.Trim(request.title))
        && (r.value.description.None? <==> request.description.None? || D.AllWhiteSpace(request.description.value))
        && (r.value.description.Some? ==> r.value.description.value == D.Note(D.Trim(request.description.value)))
        && (request.status.Some? ==> r.value.status == request.status.value)
        && (request.status.None? ==> r.value.status == D.Todo)
        && (request.priority.Some? ==> r.value.priority == request.priority.value)
        && (request.priority.None? ==> r.value.priority == D.Medium)
        && r.value.dueDate == request.dueDate && r.value.createdAt == now && r.value.updatedAt == now
    {
      PartAfter(cache.prefix, Contents(), Create(id, request), f, now);
      BlankableExactlyWhen(request.description);
      cache.Evict(f.evicted);
      if id in table {
        return None;
      }
      var status := if request.status.Some? then request.status.value else D.Todo;
      var priority := if request.priority.Some? then request.priority.value else D.Medium;
      var entity := D.Task(D.Text(D.Trim(request.title)), Blankable(request.description), status, priority, request.dueDate, now, now);
      table := table[id := entity];
      r := Some(entity);
    }

    method EnsureDeliveryTaskFromOrderAsync(c: D.Command, f: Faults, now: int) returns (r: Option<Task>)
      requires c.orderId < 0x1_0000_0000_0000_0000_0000_0000_0000_0000
      modifies this, cache
      ensures (Contents(), r) == Serve(cache.prefix, old(Contents()), Ensure(c), f, now)
      ensures old(Valid()) ==> Valid()
      ensures r.Some? <==> c.orderId !in old(table)
      ensures cache.entries == old(cache.entries) - f.evicted
      ensures table == if r.Some? then old(table)[c.orderId := r.value] else old(table)
      ensures r.Some? ==>
        && r.value.title == D.DeliverOrder(c.orderId) && r.value.description == Some(D.DeliveryOf(c))
        && r.value.status == D.Todo && r.value.priority == D.High && r.value.dueDate == None
        && r.value.createdAt == now && r.value.updatedAt == now
    {
      PartAfter(cache.prefix, Contents(), Ensure(c), f, now);
      cache.Evict(f.evicted);
      if c.orderId in table {
        return None;
      }
      var entity := D.DeliveryTask(c, now);
      table := table[c.orderId := entity];
      r := Some(entity);
    }

    method UpdateAsync(id: Guid, request: UpdateRequest, f: Faults, now: int) returns (r: Option<Task>)
      modifies this, cache
      ensures (Contents(), r) == Serve(cache.prefix, old(Contents()), Update(id, request), f, now)
      ensures old(Valid()) ==> (Valid() <==> !Spoils(cache.prefix, old(Contents()), Update(id, request), f, now))
      ensures r.Some? <==> id in old(table)
      ensures table == if r.Some? then old(table)[id := r.value] else old(table)
      ensures r.Some? && f.removeOk ==> cache.entries == old(cache.entries) - f.evicted - {KeyFor(cache.prefix, id)}
      ensures r.None? || !f.removeOk ==> cache.entries == old(cache.entries) - f.evicted
      ensures r.Some? ==>
        && r.value.title == D.Text(D.Trim(request.title))
        && (r.value.description.None? <==> request.description.None? || D.AllWhiteSpace(request.description.value))
        && (r.value.description.Some? ==> r.value.description.value == D.Note(D.Trim(request.description.value)))
        && r.value.status == request.status && r.value.priority == request.priority && r.value.dueDate == request.dueDate
        && r.value.createdAt == old(table)[id].createdAt && r.value.updatedAt == now
    {
      PartAfter(cache.prefix, Contents(), Update(id, request), f, now);
      BlankableExactlyWhen(request.description);
      cache.Evict(f.evicted);
      if id !in table {
        return None;
      }
      var entity := table[id];
      entity := entity.(title := D.Text(D.Trim(request.title)));
      entity := entity.(description := Blankable(request.description));
      entity := entity.(status := request.status, priority := request.priority, dueDate := request.dueDate);
      entity := entity.(updatedAt := now);
      table := table[id := entity];
      cache.Remove(id, f.removeOk);
      r := Some(entity);
    }

    method DeleteAsync(id: Guid, f: Faults, now: int) returns (deleted: bool)
      modifies this, cache
      ensures var (s, r) := Serve(cache.prefix, old(Contents()), Delete(id), f, now);
              Contents() == s && deleted == r.Some?
      ensures deleted <==> id in old(table)
      ensures deleted && f.removeOk ==> cache.entries == old(cache.entries) - f.evicted - {KeyFor(cache.prefix, id)}
      ensures !deleted || !f.removeOk ==> cache.entries == old(cache.entries) - f.evicted
      ensures table == old(table) - {id}
      ensures old(Valid()) ==> (Valid() <==> !Spoils(cache.prefix, old(Contents()), Delete(id), f, now))
    {
      PartAfter(cache.prefix, Contents(), Delete(id), f, now);
      cache.Evict(f.evicted);
      deleted := id in table;
      if deleted {
        table := table - {id};
        cache.Remove(id, f.removeOk);
      }
    }
  }
}
