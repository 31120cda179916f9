/** Feature flags with a cache in front of the database: app/services/feature_service.py, its requests
    taken one at a time. */
module FeatureFlags {
  import opened Options
  import Delimited

  datatype Subject = User | Tenant

  /** One stored value: a flag, or the override of a flag for one subject. */
  datatype Slot = Global(key: string) | Override(key: string, subject: Subject, id: string)

  datatype Db = Db(flags: map<string, bool>, overrides: map<Slot, bool>)

  datatype Entry = Entry(value: bool, expiresAt: int)

  datatype State = State(db: Db, cache: map<string, Entry>, now: int)

  const CACHE_TTL: int := 60

  // ---- Cache keys ----

  function SubjectName(t: Subject): string {
    if t.User? then "user" else "tenant"
  }

  function Head(key: string, t: Subject): string {
    key + [':'] + SubjectName(t) + [':']
  }

  /** A cache key without its "ff:". */
  function Body(slot: Slot): string {
    if slot.Global? then slot.key else Head(slot.key, slot.subject) + slot.id
  }

  function CacheKey(slot: Slot): string {
    "ff:" + Body(slot)
  }

  lemma SameBody(a: Slot, b: Slot)
    ensures CacheKey(a) == CacheKey(b) <==> Body(a) == Body(b)
  {
    assert Body(a) == CacheKey(a)[3..] && Body(b) == CacheKey(b)[3..];
  }

  /** At a boundary between segments, `longer` goes on from `shorter` with a subject type. */
  predicate GoesOn(longer: string, shorter: string, t: Subject) {
    Head(shorter, t) <= longer + [':']
  }

  predicate Clash(k1: string, k2: string) {
    exists t :: GoesOn(k1, k2, t) || GoesOn(k2, k1, t)
  }

  predicate NonClashing(keys: set<string>) {
    forall k1, k2 | k1 in keys && k2 in keys && k1 != k2 :: !Clash(k1, k2)
  }

  lemma SubjectColonFree(t: Subject)
    ensures Delimited.Free(':', SubjectName(t))
  {
  }

  /** Within one flag, cache keys are distinct. */
  lemma SameFlagKeys(a: Slot, b: Slot)
    requires a.key == b.key && CacheKey(a) == CacheKey(b)
    ensures a == b
  {
    SameBody(a, b);
    if a.Override? && b.Override? {
      SubjectColonFree(a.subject);
      SubjectColonFree(b.subject);
      assert Body(a) == a.key + [':'] + (SubjectName(a.subject) + [':'] + a.id);
      assert Body(b) == a.key + [':'] + (SubjectName(b.subject) + [':'] + b.id);
      assert Body(a)[|a.key| + 1..] == Body(b)[|a.key| + 1..];
      Delimited.SplitFirst(':', SubjectName(a.subject), a.id, SubjectName(b.subject), b.id);
    } else {
      assert a.Override? ==> |Body(a)| > |a.key|;
      assert b.Override? ==> |Body(b)| > |a.key|;
    }
  }

  lemma SharedKeyGoesOn(a: Slot, b: Slot)
    requires |a.key| >= |b.key| && a.key != b.key && CacheKey(a) == CacheKey(b)
    ensures b.Override? && GoesOn(a.key, b.key, b.subject)
  {
    SameBody(a, b);
    var x, ak := Body(a), a.key + [':'];
    assert a.key <= x && b.key <= x && (a.Override? ==> ak <= x);
    assert a.key == x[..|a.key|] && b.key == x[..|b.key|];
    assert b.Override?;
    HeadShape(b.key, b.subject);
    var head := Head(b.key, b.subject);
    assert head <= x;
    assert a.Override? ==> x[|a.key|] == ':';
    assert |head| <= |ak|;
    assert forall i | 0 <= i < |head| :: head[i] == ak[i];
  }

  lemma HeadShape(key: string, t: Subject)
    ensures |Head(key, t)| == |key| + |SubjectName(t)| + 2
    ensures Head(key, t)[|key|] == ':' && Head(key, t)[|Head(key, t)| - 1] == ':'
    ensures forall i | |key| < i < |Head(key, t)| - 1 :: Head(key, t)[i] != ':'
  {
    SubjectColonFree(t);
    forall i | |key| < i < |Head(key, t)| - 1
      ensures Head(key, t)[i] != ':'
    {
      assert Head(key, t)[i] == SubjectName(t)[i - |key| - 1];
      assert SubjectName(t)[i - |key| - 1] in SubjectName(t);
    }
  }

  /** Slots of two different flags can share a cache key exactly when the flag names clash. */
  lemma ClashIff(k1: string, k2: string)
    requires k1 != k2
    ensures (exists a: Slot, b: Slot :: a.key == k1 && b.key == k2 && CacheKey(a) == CacheKey(b)) <==> Clash(k1, k2)
  {
    if a: Slot, b: Slot :| a.key == k1 && b.key == k2 && CacheKey(a) == CacheKey(b) {
      if |k1| >= |k2| {
        SharedKeyGoesOn(a, b);
      } else {
        SharedKeyGoesOn(b, a);
      }
    }
    if Clash(k1, k2) {
      var t :| GoesOn(k1, k2, t) || GoesOn(k2, k1, t);
      if GoesOn(k1, k2, t) {
        var a, b := SharingSlots(k1, k2, t);
      } else {
        var b, a := SharingSlots(k2, k1, t);
      }
    }
  }

  lemma SharingSlots(longer: string, shorter: string, t: Subject) returns (a: Slot, b: Slot)
    requires GoesOn(longer, shorter, t)
    ensures a == Override(longer, User, "x") && b.Override? && b.key == shorter && b.subject == t && b.id != ""
    ensures CacheKey(a) == CacheKey(b)
  {
    var head := Head(shorter, t);
    var w := (longer + [':'])[|head|..];
    a, b := Override(longer, User, "x"), Override(shorter, t, w + "user:x");
    SameBody(a, b);
    assert longer + [':'] == head + w;
    assert Body(a) == longer + [':'] + "user:x";
    assert Body(b) == head + (w + "user:x");
    assert head + w + "user:x" == head + (w + "user:x");
  }

  /** Colon-free names never clash. */
  lemma ColonFreeNonClashing(keys: set<string>)
    requires forall k | k in keys :: Delimited.Free(':', k)
    ensures NonClashing(keys)
  {
    forall k1, k2, t | k1 in keys && k2 in keys
      ensures !GoesOn(k1, k2, t)
    {
      if GoesOn(k1, k2, t) {
        GoesOnHasColon(k1, k2, t);
      }
    }
  }

  lemma GoesOnHasColon(longer: string, shorter: string, t: Subject)
    requires GoesOn(longer, shorter, t)
    ensures ':' in longer
  {
    HeadShape(shorter, t);
    assert longer[|shorter|] == Head(shorter, t)[|shorter|];
  }

  // ---- Reading and writing ----

  /** What the database says; a flag that does not exist is off, an override may be absent. */
  function DbValue(db: Db, slot: Slot): Option<bool> {
    if slot.Global? then Some(slot.key in db.flags && db.flags[slot.key])
    else if slot in db.overrides then Some(db.overrides[slot]) else None
  }

  function Lookup(cache: map<string, Entry>, now: int, cacheKey: string): Option<bool> {
    if cacheKey in cache && now < cache[cacheKey].expiresAt then Some(cache[cacheKey].value) else None
  }

  /** One layer of a lookup: the cache, else the database, remembering what it said unless it said nothing. */
  function ReadSlot(s: State, slot: Slot): (State, Option<bool>) {
    var cached := Lookup(s.cache, s.now, CacheKey(slot));
    if cached.Some? then (s, cached) else
    match DbValue(s.db, slot)
    case None => (s, None)
    case Some(v) => (s.(cache := s.cache[CacheKey(slot) := Entry(v, s.now + CACHE_TTL)]), Some(v))
  }

  /** What a read leaves in the cache: nothing new after a hit or for an absent override, and else the
      database's value, for 60 seconds. */
  lemma ReadFills(s: State, slot: Slot, later: int)
    ensures var s', found := ReadSlot(s, slot).0, DbValue(s.db, slot);
      if Lookup(s.cache, s.now, CacheKey(slot)).Some? || found.None? then s' == s else
      && Lookup(s'.cache, later, CacheKey(slot)) == (if later < s.now + 60 then found else None)
      && s'.db == s.db && s'.now == s.now
      && forall k | k != CacheKey(slot) :: k in s'.cache <==> k in s.cache && s'.cache[k] == s.cache[k]
  {
  }

  datatype Query = Query(key: string, user: Option<string>, tenant: Option<string>)

  predicate Given(id: Option<string>) {
    id.Some? && id.value != ""
  }

  function ReadOverride(s: State, key: string, t: Subject, id: Option<string>): (State, Option<bool>) {
    if Given(id) then ReadSlot(s, Override(key, t, id.value)) else (s, None)
  }

  function IsEnabled(s: State, q: Query): (State, bool) {
    var (s1, v1) := ReadOverride(s, q.key, User, q.user);
    if v1.Some? then (s1, v1.value) else
    var (s2, v2) := ReadOverride(s1, q.key, Tenant, q.tenant);
    if v2.Some? then (s2, v2.value) else
    var (s3, v3) := ReadSlot(s2, Global(q.key));
    (s3, v3 == Some(true))
  }

  /** The evaluator without a cache: user override, then tenant override, then the flag. */
  function Evaluate(db: Db, q: Query): bool {
    if Given(q.user) && Override(q.key, User, q.user.value) in db.overrides
    then db.overrides[Override(q.key, User, q.user.value)]
    else if Given(q.tenant) && Override(q.key, Tenant, q.tenant.value) in db.overrides
    then db.overrides[Override(q.key, Tenant, q.tenant.value)]
    else q.key in db.flags && db.flags[q.key]
  }

  function Invalidate(cache: map<string, Entry>, slot: Slot): map<string, Entry> {
    cache - {CacheKey(slot)}
  }

  datatype Op =
    | Ask(q: Query)
    | SetFlag(flag: string, enabled: bool)
    | SetOverride(slot: Slot, enabled: bool)
    | DeleteOverride(slot: Slot)
    | Tick(elapsed: nat)

  function Apply(s: State, op: Op): State {
    match op
    case Ask(q) => IsEnabled(s, q).0
    case SetFlag(k, v) =>
      State(s.db.(flags := s.db.flags[k := v]), Invalidate(s.cache, Global(k)), s.now)
    case SetOverride(slot, v) =>
      State(s.db.(overrides := s.db.overrides[slot := v]), Invalidate(s.cache, slot), s.now)
    case DeleteOverride(slot) =>
      if slot in s.db.overrides
      then State(s.db.(overrides := s.db.overrides - {slot}), Invalidate(s.cache, slot), s.now) else s
    case Tick(n) => s.(now := s.now + n)
  }

  function After(s: State, ops: seq<Op>): State
    decreases |ops|
  {
    if ops == [] then s else After(Apply(s, ops[0]), ops[1..])
  }

  /** The operation concerns flags in `keys` only. */
  predicate Within(op: Op, keys: set<string>) {
    match op
    case Ask(q) => q.key in keys
    case SetFlag(k, v) => k in keys
    case SetOverride(slot, v) => slot.Override? && slot.key in keys
    case DeleteOverride(slot) => slot.Override? && slot.key in keys
    case Tick(n) => true
  }

  // ---- Coherence ----

  /** Every live cache entry of these flags is the database's value. */
  ghost predicate Coherent(s: State, keys: set<string>) {
    forall slot: Slot | slot.key in keys && Lookup(s.cache, s.now, CacheKey(slot)).Some? ::
      Lookup(s.cache, s.now, CacheKey(slot)) == DbValue(s.db, slot)
  }

  lemma KeysDistinct(keys: set<string>, a: Slot, b: Slot)
    requires NonClashing(keys) && a.key in keys && b.key in keys && CacheKey(a) == CacheKey(b)
    ensures a == b
  {
    if a.key == b.key {
      SameFlagKeys(a, b);
    } else {
      ClashIff(a.key, b.key);
    }
  }

  lemma ReadSlotExact(s: State, keys: set<string>, slot: Slot)
    requires NonClashing(keys) && Coherent(s, keys) && slot.key in keys
    ensures ReadSlot(s, slot).1 == DbValue(s.db, slot)
    ensures Coherent(ReadSlot(s, slot).0, keys) && ReadSlot(s, slot).0.db == s.db
  {
    var s' := ReadSlot(s, slot).0;
    forall b: Slot | b.key in keys && Lookup(s'.cache, s'.now, CacheKey(b)).Some?
      ensures Lookup(s'.cache, s'.now, CacheKey(b)) == DbValue(s'.db, b)
    {
      if CacheKey(b) == CacheKey(slot) {
        KeysDistinct(keys, b, slot);
      } else {
        assert Lookup(s'.cache, s'.now, CacheKey(b)) == Lookup(s.cache, s.now, CacheKey(b));
      }
    }
  }

  /** In a coherent state the cached evaluator agrees with the cache-free one, and stays coherent. */
  lemma IsEnabledExact(s: State, keys: set<string>, q: Query)
    requires NonClashing(keys) && Coherent(s, keys) && q.key in keys
    ensures IsEnabled(s, q).1 == Evaluate(s.db, q)
    ensures Coherent(IsEnabled(s, q).0, keys) && IsEnabled(s, q).0.db == s.db
  {
    hide Coherent, NonClashing, ReadSlot;
    var (s1, v1) := ReadOverride(s, q.key, User, q.user);
    if Given(q.user) {
      ReadSlotExact(s, keys, Override(q.key, User, q.user.value));
    }
    var (s2, v2) := ReadOverride(s1, q.key, Tenant, q.tenant);
    if Given(q.tenant) {
      ReadSlotExact(s1, keys, Override(q.key, Tenant, q.tenant.value));
    }
    ReadSlotExact(s2, keys, Global(q.key));
  }

  /** A write with its invalidation keeps coherence. */
  lemma WriteKeepsCoherent(s: State, keys: set<string>, slot: Slot, db: Db)
    requires NonClashing(keys) && Coherent(s, keys) && slot.key in keys
    requires forall b: Slot | b != slot :: DbValue(db, b) == DbValue(s.db, b)
    ensures Coherent(State(db, Invalidate(s.cache, slot), s.now), keys)
  {
    var s' := State(db, Invalidate(s.cache, slot), s.now);
    forall b: Slot | b.key in keys && Lookup(s'.cache, s'.now, CacheKey(b)).Some?
      ensures Lookup(s'.cache, s'.now, CacheKey(b)) == DbValue(s'.db, b)
    {
      assert CacheKey(b) != CacheKey(slot);
      assert Lookup(s.cache, s.now, CacheKey(b)) == Lookup(s'.cache, s'.now, CacheKey(b));
    }
  }

  lemma ApplyKeepsCoherent(s: State, keys: set<string>, op: Op)
    requires NonClashing(keys) && Coherent(s, keys) && Within(op, keys)
    ensures Coherent(Apply(s, op), keys)
  {
    match op
    case Ask(q) => IsEnabledExact(s, keys, q);
    case SetFlag(k, v) => WriteKeepsCoherent(s, keys, Global(k), Apply(s, op).db);
    case SetOverride(slot, v) => WriteKeepsCoherent(s, keys, slot, Apply(s, op).db);
    case DeleteOverride(slot) =>
      if slot in s.db.overrides {
        WriteKeepsCoherent(s, keys, slot, Apply(s, op).db);
      }
    case Tick(n) =>
      forall slot: Slot | slot.key in keys && Lookup(s.cache, s.now + n, CacheKey(slot)).Some?
        ensures Lookup(s.cache, s.now + n, CacheKey(slot)) == DbValue(s.db, slot)
      {
        assert Lookup(s.cache, s.now, CacheKey(slot)).Some?;
      }
  }

  lemma {:induction false} CoherentAlways(s: State, keys: set<string>, ops: seq<Op>)
    requires NonClashing(keys) && Coherent(s, keys) && forall op | op in ops :: Within(op, keys)
    ensures Coherent(After(s, ops), keys)
    decreases |ops|
  {
    hide NonClashing, Coherent, Apply;
    if ops != [] {
      ApplyKeepsCoherent(s, keys, ops[0]);
      CoherentAlways(Apply(s, ops[0]), keys, ops[1..]);
    }
  }

  // ---- Answers are last writes ----

  /** What was last set for the flag, or what the database had to begin with. */
  function LastFlag(db: Db, ops: seq<Op>, key: string): bool {
    if ops == [] then key in db.flags && db.flags[key] else
    var op := ops[|ops| - 1];
    if op.SetFlag? && op.flag == key then op.enabled else LastFlag(db, ops[..|ops| - 1], key)
  }

  /** What was last set for the override and not deleted since, or what the database had to begin with. */
  function LastOverride(db: Db, ops: seq<Op>, slot: Slot): Option<bool> {
    if ops == [] then (if slot in db.overrides then Some(db.overrides[slot]) else None) else
    var op := ops[|ops| - 1];
    if op.SetOverride? && op.slot == slot then Some(op.enabled)
    else if op.DeleteOverride? && op.slot == slot then None
    else LastOverride(db, ops[..|ops| - 1], slot)
  }

  /** The user's override if there is one, else the tenant's, else the flag. */
  function LastWritten(db: Db, ops: seq<Op>, q: Query): bool {
    var forUser := if Given(q.user) then LastOverride(db, ops, Override(q.key, User, q.user.value)) else None;
    var forTenant := if Given(q.tenant) then LastOverride(db, ops, Override(q.key, Tenant, q.tenant.value)) else None;
    if forUser.Some? then forUser.value
    else if forTenant.Some? then forTenant.value
    else LastFlag(db, ops, q.key)
  }

  lemma {:induction false} AfterLast(s: State, ops: seq<Op>)
    requires ops != []
    ensures After(s, ops) == Apply(After(s, ops[..|ops| - 1]), ops[|ops| - 1])
    decreases |ops|
  {
    hide Apply;
    var n := |ops| - 1;
    if n == 0 {
      assert ops[1..] == [] && ops[..0] == [];
    } else {
      AfterLast(Apply(s, ops[0]), ops[1..]);
      assert ops[1..][..n - 1] == ops[..n][1..] && ops[1..][n - 1] == ops[n] && ops[..n][0] == ops[0];
    }
  }

  lemma ReadsKeepDb(s: State, q: Query)
    ensures IsEnabled(s, q).0.db == s.db
  {
  }

  lemma ApplyFlag(s: State, op: Op, key: string)
    ensures (key in Apply(s, op).db.flags && Apply(s, op).db.flags[key])
         == if op.SetFlag? && op.flag == key then op.enabled else key in s.db.flags && s.db.flags[key]
  {
    if op.Ask? {
      ReadsKeepDb(s, op.q);
    }
    hide IsEnabled, Invalidate;
  }

  lemma ApplyOverride(s: State, op: Op, slot: Slot)
    ensures slot in Apply(s, op).db.overrides <==>
      (op.SetOverride? && op.slot == slot) || (slot in s.db.overrides && !(op.DeleteOverride? && op.slot == slot))
    ensures slot in Apply(s, op).db.overrides ==>
      Apply(s, op).db.overrides[slot] == if op.SetOverride? && op.slot == slot then op.enabled else s.db.overrides[slot]
  {
    if op.Ask? {
      ReadsKeepDb(s, op.q);
    }
    hide IsEnabled, Invalidate;
  }

  lemma {:induction false} DbHasLastWrites(s: State, ops: seq<Op>, key: string, slot: Slot)
    ensures var db := After(s, ops).db;
      && (key in db.flags && db.flags[key]) == LastFlag(s.db, ops, key)
      && (if slot in db.overrides then Some(db.overrides[slot]) else None) == LastOverride(s.db, ops, slot)
  {
    hide Apply;
    if ops != [] {
      var n := |ops| - 1;
      DbHasLastWrites(s, ops[..n], key, slot);
      AfterLast(s, ops);
      ApplyFlag(After(s, ops[..n]), ops[n], key);
      ApplyOverride(After(s, ops[..n]), ops[n], slot);
      hide After;
    }
  }

  /** After every run from an empty cache over flags that do not clash, an answer is what was last written for
      the user, for the tenant or for the flag, whatever is cached and however old it is. */
  lemma {:induction false} AnswersAreLastWrites(s: State, keys: set<string>, ops: seq<Op>, q: Query)
    requires NonClashing(keys) && s.cache == map[] && (forall op | op in ops :: Within(op, keys)) && q.key in keys
    ensures IsEnabled(After(s, ops), q).1 == LastWritten(s.db, ops, q)
  {
    CoherentAlways(s, keys, ops);
    hide After, Coherent, NonClashing, IsEnabled, LastFlag, LastOverride, Within;
    IsEnabledExact(After(s, ops), keys, q);
    var user := Override(q.key, User, if Given(q.user) then q.user.value else "");
    var tenant := Override(q.key, Tenant, if Given(q.tenant) then q.tenant.value else "");
    DbHasLastWrites(s, ops, q.key, user);
    DbHasLastWrites(s, ops, q.key, tenant);
  }

  /** Over every run from an empty cache that concerns only flags in `keys`, every answer is what the
      cache-free evaluator would give. */
  ghost predicate AlwaysExact(keys: set<string>) {
    forall s: State, ops: seq<Op>, q: Query
      | s.cache == map[] && (forall op | op in ops :: Within(op, keys)) && q.key in keys ::
      IsEnabled(After(s, ops), q).1 == Evaluate(After(s, ops).db, q)
  }

  /** The cache is invisible to a set of flags exactly when no two of their names clash. */
  lemma AlwaysExactIff(keys: set<string>)
    ensures AlwaysExact(keys) <==> NonClashing(keys)
  {
    if NonClashing(keys) {
      forall s: State, ops: seq<Op>, q: Query
        | s.cache == map[] && (forall op | op in ops :: Within(op, keys)) && q.key in keys
        ensures IsEnabled(After(s, ops), q).1 == Evaluate(After(s, ops).db, q)
      {
        CoherentAlways(s, keys, ops);
        IsEnabledExact(After(s, ops), keys, q);
      }
    } else {
      var k1, k2 :| k1 in keys && k2 in keys && k1 != k2 && Clash(k1, k2);
      var t :| GoesOn(k1, k2, t) || GoesOn(k2, k1, t);
      if GoesOn(k1, k2, t) {
        ClashMisleads(keys, k1, k2, t);
      } else {
        ClashMisleads(keys, k2, k1, t);
      }
    }
  }

  /** Ask about an override that is on, then about one that is absent but shares its cache key. */
  lemma ClashMisleads(keys: set<string>, longer: string, shorter: string, t: Subject)
    requires longer in keys && shorter in keys && longer != shorter && GoesOn(longer, shorter, t)
    ensures !AlwaysExact(keys)
  {
    var a, b := SharingSlots(longer, shorter, t);
    var s := State(Db(map[], map[a := true]), map[], 0);
    var first := Query(longer, Some("x"), None);
    var second := if t.User? then Query(shorter, Some(b.id), None) else Query(shorter, None, Some(b.id));
    var s' := Apply(s, Ask(first));
    assert s' == s.(cache := map[CacheKey(a) := Entry(true, CACHE_TTL)]);
    assert After(s, [Ask(first)]) == s' by {
      assert [Ask(first)][1..] == [];
    }
    assert Lookup(s'.cache, s'.now, CacheKey(b)) == Some(true);
    assert IsEnabled(s', second).1 && !Evaluate(s'.db, second);
    assert Within(Ask(first), keys) && second.key in keys;
  }

  // ---- The code ----

  class FeatureService {
    var db: Db
    var cache: map<string, Entry>
    var now: int

    function View(): State
      reads this
    {
      State(db, cache, now)
    }

    method GetGlobal(key: string) returns (value: bool)
      modifies `cache
      ensures (View(), Some(value)) == old(ReadSlot(View(), Global(key)))
    {
      var cacheKey := CacheKey(Global(key));
      var cached := Lookup(cache, now, cacheKey);
      if cached.Some? {
        return cached.value;
      }
      value := key in db.flags && db.flags[key];
      cache := cache[cacheKey := Entry(value, now + CACHE_TTL)];
    }

    method GetOverride(key: string, subject: Subject, id: string) returns (value: Option<bool>)
      modifies `cache
      ensures (View(), value) == old(ReadSlot(View(), Override(key, subject, id)))
    {
      var slot := Override(key, subject, id);
      var cached := Lookup(cache, now, CacheKey(slot));
      if cached.Some? {
        return cached;
      }
      if slot !in db.overrides {
        return None;
      }
      cache := cache[CacheKey(slot) := Entry(db.overrides[slot], now + CACHE_TTL)];
      value := Some(db.overrides[slot]);
    }

    method Enabled(q: Query) returns (value: bool)
      modifies `cache
      ensures (View(), value) == old(IsEnabled(View(), q))
    {
      if Given(q.user) {
        var v := GetOverride(q.key, User, q.user.value);
        if v.Some? {
          return v.value;
        }
      }
      if Given(q.tenant) {
        var v := GetOverride(q.key, Tenant, q.tenant.value);
        if v.Some? {
          return v.value;
        }
      }
      value := GetGlobal(q.key);
    }

    method PutFlag(key: string, enabled: bool)
      modifies this
      ensures View() == old(Apply(View(), SetFlag(key, enabled)))
    {
      db := db.(flags := db.flags[key := enabled]);
      cache := Invalidate(cache, Global(key));
    }

    method PutOverride(key: string, subject: Subject, id: string, enabled: bool)
      modifies this
      ensures View() == old(Apply(View(), SetOverride(Override(key, subject, id), enabled)))
    {
      db := db.(overrides := db.overrides[Override(key, subject, id) := enabled]);
      cache := Invalidate(cache, Override(key, subject, id));
    }

    method RemoveOverride(key: string, subject: Subject, id: string) returns (existed: bool)
      modifies this
      ensures existed == old(Override(key, subject, id) in db.overrides)
      ensures View() == old(Apply(View(), DeleteOverride(Override(key, subject, id))))
    {
      var slot := Override(key, subject, id);
      existed := slot in db.overrides;
      if existed {
        db := db.(overrides := db.overrides - {slot});
        cache := Invalidate(cache, slot);
      }
    }
  }
}
