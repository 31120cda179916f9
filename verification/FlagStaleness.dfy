/** The flag cache under interleaving: readers that pause between the database read and the cache fill,
    writers whose cache deletes come late or never. */
module FlagStaleness {
  import opened Options
  import opened FeatureFlags

  /** A reader between its database read and its cache fill. */
  datatype Fill = Fill(slot: Slot, value: bool, readAt: int)

  /** Database, cache and clock are shared; `fills` are the readers in flight. */
  datatype Shared = Shared(db: Db, cache: map<string, Entry>, now: int, fills: map<nat, Fill>)

  datatype Event =
    | Pass(elapsed: nat)                    // time passes
    | Commit(slot: Slot, value: Option<bool>)  // a writer's commit: set, or delete an override
    | Delete(cacheKey: string)              // a cache delete takes effect
    | Read(reader: nat, slot: Slot)         // a reader that got nothing from the cache reads the database
    | Store(reader: nat)                    // and fills the cache
    | Fail(reader: nat)                     // or loses its fill

  function Committed(db: Db, slot: Slot, value: Option<bool>): Db {
    match slot
    case Global(k) => if value.Some? then db.(flags := db.flags[k := value.value]) else db
    case Override(_, _, _) =>
      db.(overrides := if value.Some? then db.overrides[slot := value.value] else db.overrides - {slot})
  }

  /** The only timing assumption: no reader takes longer than d from its database read to its fill. A reader
      may read the database whatever the cache holds by then: its own cache read came earlier, or failed. */
  predicate Enabled(d: int, keys: set<string>, s: Shared, e: Event) {
    match e
    case Pass(n) => forall r | r in s.fills :: s.now + n - s.fills[r].readAt <= d
    case Commit(slot, _) => slot.key in keys
    case Delete(_) => true
    case Read(r, slot) => r !in s.fills && slot.key in keys
    case Store(r) => r in s.fills
    case Fail(r) => r in s.fills
  }

  function Next(s: Shared, e: Event): Shared {
    match e
    case Pass(n) => s.(now := s.now + n)
    case Commit(slot, value) => s.(db := Committed(s.db, slot, value))
    case Delete(k) => s.(cache := s.cache - {k})
    case Read(r, slot) =>
      var v := DbValue(s.db, slot);
      if v.Some? then s.(fills := s.fills[r := Fill(slot, v.value, s.now)]) else s
    case Store(r) =>
      if r in s.fills then
        var f := s.fills[r];
        s.(cache := s.cache[CacheKey(f.slot) := Entry(f.value, s.now + CACHE_TTL)], fills := s.fills - {r})
      else s
    case Fail(r) => s.(fills := s.fills - {r})
  }

  function At(s: Shared, es: seq<Event>, i: nat): Shared
    requires i <= |es|
  {
    if i == 0 then s else Next(At(s, es, i - 1), es[i - 1])
  }

  ghost predicate Valid(d: int, keys: set<string>, s: Shared, es: seq<Event>) {
    s.cache == map[] && s.fills == map[] && ValidFrom(d, keys, s, es)
  }

  ghost predicate ValidFrom(d: int, keys: set<string>, s: Shared, es: seq<Event>) {
    forall i | 0 <= i < |es| :: Enabled(d, keys, At(s, es, i), es[i])
  }

  /** At some moment j up to i the database said v for this slot, and that was at `since` or later. */
  ghost predicate Said(s: Shared, es: seq<Event>, i: nat, slot: Slot, v: bool, since: int)
    requires i <= |es|
  {
    exists j: nat :: j <= i && DbValue(At(s, es, j).db, slot) == Some(v) && At(s, es, j).now >= since
  }

  ghost predicate EntrySourced(d: int, keys: set<string>, s: Shared, es: seq<Event>, i: nat, k: string, e: Entry)
    requires i <= |es|
  {
    exists slot: Slot :: slot.key in keys && CacheKey(slot) == k &&
      Said(s, es, i, slot, e.value, e.expiresAt - CACHE_TTL - d)
  }

  ghost predicate FillSourced(d: int, keys: set<string>, s: Shared, es: seq<Event>, i: nat, f: Fill, now: int)
    requires i <= |es|
  {
    f.slot.key in keys && now - f.readAt <= d && Said(s, es, i, f.slot, f.value, f.readAt)
  }

  /** Everything cached or in flight in st was said by the database at some moment up to i. */
  ghost predicate Sourced(d: int, keys: set<string>, s: Shared, es: seq<Event>, i: nat, st: Shared)
    requires i <= |es|
  {
    && (forall k | k in st.cache :: EntrySourced(d, keys, s, es, i, k, st.cache[k]))
    && (forall r | r in st.fills :: FillSourced(d, keys, s, es, i, st.fills[r], st.now))
  }

  lemma SourcedLater(d: int, keys: set<string>, s: Shared, es: seq<Event>, i: nat, st: Shared)
    requires i < |es| && Sourced(d, keys, s, es, i, st)
    ensures Sourced(d, keys, s, es, i + 1, st)
  {
    hide Next, CacheKey, DbValue;
    forall k | k in st.cache
      ensures EntrySourced(d, keys, s, es, i + 1, k, st.cache[k])
    {
      EntryLater(d, keys, s, es, i, k, st.cache[k]);
    }
    forall r | r in st.fills
      ensures FillSourced(d, keys, s, es, i + 1, st.fills[r], st.now)
    {
      SaidLater(s, es, i, st.fills[r].slot, st.fills[r].value, st.fills[r].readAt);
    }
  }

  lemma SaidLater(s: Shared, es: seq<Event>, i: nat, slot: Slot, v: bool, since: int)
    requires i < |es| && Said(s, es, i, slot, v, since)
    ensures Said(s, es, i + 1, slot, v, since)
  {
    hide Next, DbValue;
    var j: nat :| j <= i && DbValue(At(s, es, j).db, slot) == Some(v) && At(s, es, j).now >= since;
    assert j <= i + 1;
  }

  lemma EntryLater(d: int, keys: set<string>, s: Shared, es: seq<Event>, i: nat, k: string, e: Entry)
    requires i < |es| && EntrySourced(d, keys, s, es, i, k, e)
    ensures EntrySourced(d, keys, s, es, i + 1, k, e)
  {
    hide Said, CacheKey;
    var slot: Slot :| slot.key in keys && CacheKey(slot) == k &&
      Said(s, es, i, slot, e.value, e.expiresAt - CACHE_TTL - d);
    SaidLater(s, es, i, slot, e.value, e.expiresAt - CACHE_TTL - d);
  }

  /** A fill that is at most d old gives a sourced entry. */
  lemma StoredSourced(d: int, keys: set<string>, s: Shared, es: seq<Event>, i: nat, f: Fill, now: int)
    requires i <= |es| && FillSourced(d, keys, s, es, i, f, now)
    ensures EntrySourced(d, keys, s, es, i, CacheKey(f.slot), Entry(f.value, now + CACHE_TTL))
  {
    hide Next, CacheKey, DbValue;
    var j: nat :| j <= i && DbValue(At(s, es, j).db, f.slot) == Some(f.value) && At(s, es, j).now >= f.readAt;
    assert Said(s, es, i, f.slot, f.value, now + CACHE_TTL - CACHE_TTL - d);
  }

  lemma SaidNow(s: Shared, es: seq<Event>, i: nat)
    requires i < |es|
    ensures var e, st := es[i], At(s, es, i);
      e.Read? && DbValue(st.db, e.slot).Some? ==> Said(s, es, i + 1, e.slot, DbValue(st.db, e.slot).value, st.now)
  {
    hide Next;
    assert i <= i + 1;
  }

  /** The one new source is a reader's own database read. */
  lemma StepSourced(d: int, keys: set<string>, s: Shared, es: seq<Event>, i: nat, st: Shared, e: Event)
    requires d >= 0 && i <= |es| && Sourced(d, keys, s, es, i, st) && Enabled(d, keys, st, e)
    requires e.Read? && DbValue(st.db, e.slot).Some? ==> Said(s, es, i, e.slot, DbValue(st.db, e.slot).value, st.now)
    ensures Sourced(d, keys, s, es, i, Next(st, e))
  {
    hide Said, EntrySourced, CacheKey, DbValue, Lookup;
    if e.Store? {
      StoredSourced(d, keys, s, es, i, st.fills[e.reader], st.now);
    }
  }

  lemma {:induction false} AlwaysSourced(d: int, keys: set<string>, s: Shared, es: seq<Event>, i: nat)
    requires d >= 0 && i <= |es| && Valid(d, keys, s, es)
    ensures Sourced(d, keys, s, es, i, At(s, es, i))
  {
    hide Valid, Next;
    if i > 0 {
      hide Sourced;
      AlwaysSourced(d, keys, s, es, i - 1);
      StepAtSourced(d, keys, s, es, i - 1);
    } else {
      StartEmpty(d, keys, s, es);
    }
  }

  lemma StartEmpty(d: int, keys: set<string>, s: Shared, es: seq<Event>)
    requires Valid(d, keys, s, es)
    ensures At(s, es, 0).cache == map[] && At(s, es, 0).fills == map[]
  {
    hide Enabled;
  }

  lemma StepAtSourced(d: int, keys: set<string>, s: Shared, es: seq<Event>, i: nat)
    requires d >= 0 && i < |es| && Valid(d, keys, s, es) && Sourced(d, keys, s, es, i, At(s, es, i))
    ensures Sourced(d, keys, s, es, i + 1, At(s, es, i + 1))
  {
    hide Sourced, Enabled, DbValue, Next, Said;
    var st := At(s, es, i);
    SourcedLater(d, keys, s, es, i, st);
    SaidNow(s, es, i);
    StepSourced(d, keys, s, es, i + 1, st, es[i]);
  }

  /** Bounded staleness: in every interleaving, deletes lost or not, a cached value used at time t was the
      database's value for that very slot at some moment after t - 60 - d. */
  lemma {:induction false} BoundedStaleness(d: int, keys: set<string>, s: Shared, es: seq<Event>, i: nat, slot: Slot,
                                            v: bool)
    requires d >= 0 && NonClashing(keys) && i <= |es| && Valid(d, keys, s, es) && slot.key in keys
    requires Lookup(At(s, es, i).cache, At(s, es, i).now, CacheKey(slot)) == Some(v)
    ensures exists j: nat :: j <= i && DbValue(At(s, es, j).db, slot) == Some(v)
                             && At(s, es, j).now > At(s, es, i).now - 60 - d
  {
    hide Next, Valid, NonClashing, DbValue, CacheKey;
    AlwaysSourced(d, keys, s, es, i);
    EntrySaid(d, keys, s, es, i, slot);
    var e := At(s, es, i).cache[CacheKey(slot)];
    assert e.value == v && At(s, es, i).now < e.expiresAt;
  }

  lemma EntrySaid(d: int, keys: set<string>, s: Shared, es: seq<Event>, i: nat, slot: Slot)
    requires NonClashing(keys) && i <= |es| && slot.key in keys
    requires Sourced(d, keys, s, es, i, At(s, es, i)) && CacheKey(slot) in At(s, es, i).cache
    ensures var e := At(s, es, i).cache[CacheKey(slot)];
      Said(s, es, i, slot, e.value, e.expiresAt - CACHE_TTL - d)
  {
    hide Next, Said, DbValue, CacheKey, NonClashing;
    var e := At(s, es, i).cache[CacheKey(slot)];
    assert EntrySourced(d, keys, s, es, i, CacheKey(slot), e);
    var b: Slot :| b.key in keys && CacheKey(b) == CacheKey(slot) &&
      Said(s, es, i, b, e.value, e.expiresAt - CACHE_TTL - d);
    KeysDistinct(keys, b, slot);
  }

  // ---- When an invalidation holds ----

  /** Until it is written again, every later lookup that finds the slot cached finds the database's value. */
  ghost predicate StaysExact(d: int, keys: set<string>, s: Shared, slot: Slot) {
    forall es: seq<Event> | ValidFrom(d, keys, s, es) && NoCommit(es, slot) :: CacheExact(At(s, es, |es|), slot)
  }

  predicate NoCommit(es: seq<Event>, slot: Slot) {
    forall e | e in es && e.Commit? :: e.slot != slot
  }

  predicate CacheExact(s: Shared, slot: Slot) {
    var cached := Lookup(s.cache, s.now, CacheKey(slot));
    cached.Some? ==> cached == DbValue(s.db, slot)
  }

  /** No reader in flight holds another value of the slot than the database's. */
  predicate FillsExact(s: Shared, slot: Slot) {
    forall r | r in s.fills && s.fills[r].slot == slot :: Some(s.fills[r].value) == DbValue(s.db, slot)
  }

  predicate FillsWithin(s: Shared, keys: set<string>) {
    forall r | r in s.fills :: s.fills[r].slot.key in keys
  }

  lemma CommitOther(db: Db, slot: Slot, value: Option<bool>, other: Slot)
    requires slot != other
    ensures DbValue(Committed(db, slot, value), other) == DbValue(db, other)
  {
  }

  lemma StoreExact(keys: set<string>, s: Shared, r: nat, slot: Slot)
    requires NonClashing(keys) && slot.key in keys && FillsWithin(s, keys) && r in s.fills
    requires CacheExact(s, slot) && FillsExact(s, slot)
    ensures CacheExact(Next(s, Store(r)), slot)
  {
    if CacheKey(s.fills[r].slot) == CacheKey(slot) {
      KeysDistinct(keys, s.fills[r].slot, slot);
    }
    hide CacheKey, NonClashing, DbValue;
  }

  lemma StaysExactNext(d: int, keys: set<string>, s: Shared, e: Event, slot: Slot)
    requires NonClashing(keys) && slot.key in keys && FillsWithin(s, keys) && Enabled(d, keys, s, e)
    requires CacheExact(s, slot) && FillsExact(s, slot) && (e.Commit? ==> e.slot != slot)
    ensures CacheExact(Next(s, e), slot) && FillsExact(Next(s, e), slot) && FillsWithin(Next(s, e), keys)
  {
    hide CacheKey, NonClashing, DbValue, Committed;
    match e
    case Commit(b, v) => CommitOther(s.db, b, v, slot);
    case Store(r) => StoreExact(keys, s, r, slot);
    case _ =>
  }

  lemma {:induction false} StaysExactAlways(d: int, keys: set<string>, s: Shared, es: seq<Event>, i: nat, slot: Slot)
    requires NonClashing(keys) && slot.key in keys && FillsWithin(s, keys) && CacheExact(s, slot) && FillsExact(s, slot)
    requires ValidFrom(d, keys, s, es) && NoCommit(es, slot) && i <= |es|
    ensures CacheExact(At(s, es, i), slot) && FillsExact(At(s, es, i), slot) && FillsWithin(At(s, es, i), keys)
  {
    hide CacheExact, FillsExact, FillsWithin, Next, Enabled, NonClashing;
    if i > 0 {
      StaysExactAlways(d, keys, s, es, i - 1, slot);
      assert es[i - 1] in es;
      StaysExactNext(d, keys, At(s, es, i - 1), es[i - 1], slot);
    }
  }

  /** An invalidated slot stays exact, in every interleaving until the next write to it, exactly when no
      reader in flight read another value before the write. (Just deleted, the slot is exact itself.) */
  lemma {:induction false} InvalidationHoldsIff(d: int, keys: set<string>, s: Shared, slot: Slot)
    requires NonClashing(keys) && slot.key in keys && FillsWithin(s, keys)
    ensures StaysExact(d, keys, s, slot) <==> CacheExact(s, slot) && FillsExact(s, slot)
    ensures CacheKey(slot) !in s.cache ==> (StaysExact(d, keys, s, slot) <==> FillsExact(s, slot))
  {
    if CacheExact(s, slot) && FillsExact(s, slot) {
      forall es: seq<Event> | ValidFrom(d, keys, s, es) && NoCommit(es, slot)
        ensures CacheExact(At(s, es, |es|), slot)
      {
        StaysExactAlways(d, keys, s, es, |es|, slot);
      }
    }
    if StaysExact(d, keys, s, slot) {
      var none: seq<Event> := [];
      assert At(s, none, |none|) == s;
      assert ValidFrom(d, keys, s, none) && NoCommit(none, slot);
      forall r | r in s.fills && s.fills[r].slot == slot
        ensures Some(s.fills[r].value) == DbValue(s.db, slot)
      {
        StoreNow(d, keys, s, r);
      }
    }
  }

  lemma StoreNow(d: int, keys: set<string>, s: Shared, r: nat)
    requires r in s.fills && StaysExact(d, keys, s, s.fills[r].slot)
    ensures Some(s.fills[r].value) == DbValue(s.db, s.fills[r].slot)
  {
    var slot, es := s.fills[r].slot, [Store(r)];
    assert At(s, es, 0) == s && At(s, es, 1) == Next(s, Store(r));
    assert ValidFrom(d, keys, s, es) && NoCommit(es, slot);
    assert CacheExact(At(s, es, |es|), slot);
    assert Lookup(Next(s, Store(r)).cache, s.now, CacheKey(slot)) == Some(s.fills[r].value);
  }

  /** After i events, the database says what was last committed for the slot. (Deleting is for overrides.) */
  function LastCommitted(db: Db, es: seq<Event>, i: nat, slot: Slot): Option<bool>
    requires i <= |es|
  {
    if i == 0 then DbValue(db, slot) else
    var e := es[i - 1];
    if e.Commit? && e.slot == slot && (e.value.Some? || slot.Override?) then e.value
    else LastCommitted(db, es, i - 1, slot)
  }

  lemma NextCommitted(s: Shared, e: Event, slot: Slot)
    ensures DbValue(Next(s, e).db, slot)
         == if e.Commit? && e.slot == slot && (e.value.Some? || slot.Override?) then e.value else DbValue(s.db, slot)
  {
    if e.Commit? && e.slot != slot {
      CommitOther(s.db, e.slot, e.value, slot);
      hide Committed, DbValue;
    }
  }

  lemma {:induction false} DbIsLastCommitted(s: Shared, es: seq<Event>, i: nat, slot: Slot)
    requires i <= |es|
    ensures DbValue(At(s, es, i).db, slot) == LastCommitted(s.db, es, i, slot)
  {
    hide Next, DbValue;
    if i > 0 {
      DbIsLastCommitted(s, es, i - 1, slot);
      NextCommitted(At(s, es, i - 1), es[i - 1], slot);
    }
  }

  /** From a writer's commit and cache delete on, every cached value of the slot is the one it wrote, in every
      interleaving until the next write to the slot. */
  ghost predicate WriteVisible(d: int, keys: set<string>, s: Shared, slot: Slot, value: bool) {
    forall es: seq<Event> | ValidFrom(d, keys, Next(Next(s, Commit(slot, Some(value))), Delete(CacheKey(slot))), es)
                            && NoCommit(es, slot) ::
      var t := At(Next(Next(s, Commit(slot, Some(value))), Delete(CacheKey(slot))), es, |es|);
      Lookup(t.cache, t.now, CacheKey(slot)) in {None, Some(value)}
  }

  /** That is so exactly when no reader in flight at the commit holds the other value of the slot. */
  lemma {:induction false} WriteVisibleIff(d: int, keys: set<string>, s: Shared, slot: Slot, value: bool)
    requires NonClashing(keys) && slot.key in keys && FillsWithin(s, keys)
    ensures WriteVisible(d, keys, s, slot, value) <==>
      forall r | r in s.fills && s.fills[r].slot == slot :: s.fills[r].value == value
  {
    var s1 := Next(s, Commit(slot, Some(value)));
    var s2 := Next(s1, Delete(CacheKey(slot)));
    NextCommitted(s, Commit(slot, Some(value)), slot);
    NextCommitted(s1, Delete(CacheKey(slot)), slot);
    assert DbValue(s2.db, slot) == Some(value) && s2.fills == s.fills && CacheKey(slot) !in s2.cache;
    InvalidationHoldsIff(d, keys, s2, slot);
    VisibleIsExact(d, keys, s2, slot, value);
    hide Next, DbValue, Lookup, CacheKey, StaysExact, ValidFrom, NonClashing;
  }

  /** While a slot is not written, what the database says about it does not change. */
  lemma {:induction false} Unwritten(s: Shared, es: seq<Event>, i: nat, slot: Slot)
    requires NoCommit(es, slot) && i <= |es|
    ensures DbValue(At(s, es, i).db, slot) == DbValue(s.db, slot)
  {
    hide Next, DbValue;
    if i > 0 {
      assert es[i - 1] in es;
      Unwritten(s, es, i - 1, slot);
      NextCommitted(At(s, es, i - 1), es[i - 1], slot);
    }
  }

  lemma VisibleIsExact(d: int, keys: set<string>, s: Shared, slot: Slot, value: bool)
    requires DbValue(s.db, slot) == Some(value)
    ensures StaysExact(d, keys, s, slot) <==>
      forall es: seq<Event> | ValidFrom(d, keys, s, es) && NoCommit(es, slot) ::
        Lookup(At(s, es, |es|).cache, At(s, es, |es|).now, CacheKey(slot)) in {None, Some(value)}
  {
    forall es: seq<Event> | ValidFrom(d, keys, s, es) && NoCommit(es, slot)
      ensures CacheExact(At(s, es, |es|), slot) <==>
        Lookup(At(s, es, |es|).cache, At(s, es, |es|).now, CacheKey(slot)) in {None, Some(value)}
    {
      Unwritten(s, es, |es|, slot);
    }
    hide At, DbValue, Lookup, CacheKey, ValidFrom, NoCommit, CacheExact;
  }

  /** In every run the readers in flight read flags of `keys`, so this decides every reachable state. */
  lemma FillsAlwaysWithin(d: int, keys: set<string>, s: Shared, es: seq<Event>, i: nat)
    requires d >= 0 && i <= |es| && Valid(d, keys, s, es)
    ensures FillsWithin(At(s, es, i), keys)
  {
    AlwaysSourced(d, keys, s, es, i);
    hide At, Said, Valid;
  }

  /** The invalidation on every write does not do better: a reader that read before the commit may fill
      the cache after the delete, and its value is then served although the write is complete. */
  lemma DeleteCanBeOvertaken(k: string, d: int)
    requires d >= 0
    ensures var slot, s0 := Global(k), Shared(Db(map[k := true], map[]), map[], 0, map[]);
      var es := [Read(0, slot), Commit(slot, Some(false)), Delete(CacheKey(slot)), Store(0), Pass(CACHE_TTL - 1)];
      && Valid(d, {k}, s0, es)
      && DbValue(At(s0, es, 2).db, slot) == Some(false)
      && Lookup(At(s0, es, 5).cache, At(s0, es, 5).now, CacheKey(slot)) == Some(true)
  {
    var slot, s0 := Global(k), Shared(Db(map[k := true], map[]), map[], 0, map[]);
    var es := [Read(0, slot), Commit(slot, Some(false)), Delete(CacheKey(slot)), Store(0), Pass(CACHE_TTL - 1)];
    var s1 := s0.(fills := map[0 := Fill(slot, true, 0)]);
    assert At(s0, es, 1) == s1;
    var s2 := s1.(db := Db(map[k := false], map[]));
    assert At(s0, es, 2) == s2;
    assert At(s0, es, 3) == s2;
    var s4 := Shared(s2.db, map[CacheKey(slot) := Entry(true, CACHE_TTL)], 0, map[]);
    assert At(s0, es, 4) == s4;
    assert At(s0, es, 5) == s4.(now := CACHE_TTL - 1);
  }
}
