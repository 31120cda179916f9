/** API keys over their life: issue, rotate, revoke, authenticate (app/services/api_key_service.py), one
    request at a time. */
module ApiKeys {
  import opened Options
  import Delimited

  /** What a rotation hands on. */
  datatype Grant = Grant(owner: string, name: string, scopes: string, expiresAt: Option<int>)

  datatype Key = Key(grant: Grant, prefix: string, hash: string, revokedAt: Option<int>, lastUsedAt: Option<int>)

  /** The key table; for each key the issued key that its lineage began with; and what was issued then. */
  datatype State = State(keys: map<string, Key>, root: map<string, string>, issued: map<string, Grant>)

  const PREFIX := "fpsk_"
  const DAY: int := 86400

  datatype Op =
    | Issue(id: string, raw: string, owner: string, name: string, scopes: seq<string>, expiresDays: Option<int>,
            now: int)
    | Rotate(id: string, owner: string, newId: string, raw: string, now: int)
    | Revoke(id: string, owner: string, now: int)
    | Authenticate(raw: string, now: int)

  // ---- The operations ----

  function ScopeString(scopes: seq<string>): string {
    if scopes == [] then "" else Delimited.Join(' ', scopes)
  }

  /** No expiry for None and for 0 days. */
  function Expiry(days: Option<int>, now: int): Option<int> {
    if days.Some? && days.value != 0 then Some(now + days.value * DAY) else None
  }

  function NewKey(grant: Grant, raw: string, hash: string): Key {
    Key(grant, if |raw| < 12 then raw else raw[..12], hash, None, None)
  }

  predicate Owned(s: State, id: string, owner: string) {
    id in s.keys && s.keys[id].grant.owner == owner
  }

  /** A rotation finds its key unless it is missing, someone else's, or revoked. */
  predicate Rotatable(s: State, id: string, owner: string) {
    Owned(s, id, owner) && s.keys[id].revokedAt.None?
  }

  predicate Active(s: State, id: string) {
    id in s.keys && s.keys[id].revokedAt.None?
  }

  /** The raw key opens this row at this time. */
  predicate Authenticates(hash: string -> string, s: State, raw: string, id: string, now: int) {
    && PREFIX <= raw && Active(s, id) && s.keys[id].hash == hash(raw)
    && !(s.keys[id].grant.expiresAt.Some? && s.keys[id].grant.expiresAt.value < now)
  }

  function Next(hash: string -> string, s: State, op: Op): State {
    match op
    case Issue(id, raw, owner, name, scopes, days, now) =>
      var grant := Grant(owner, name, ScopeString(scopes), Expiry(days, now));
      State(s.keys[id := NewKey(grant, raw, hash(raw))], s.root[id := id], s.issued[id := grant])
    case Rotate(id, owner, newId, raw, now) =>
      if !Rotatable(s, id, owner) then s else
      State(s.keys[id := s.keys[id].(revokedAt := Some(now))][newId := NewKey(s.keys[id].grant, raw, hash(raw))],
            s.root[newId := if id in s.root then s.root[id] else id], s.issued)
    case Revoke(id, owner, now) =>
      if !Owned(s, id, owner) then s else s.(keys := s.keys[id := s.keys[id].(revokedAt := Some(now))])
    case Authenticate(raw, now) =>
      s.(keys := map id | id in s.keys ::
           if Authenticates(hash, s, raw, id, now) then s.keys[id].(lastUsedAt := Some(now)) else s.keys[id])
  }

  /** Key ids are fresh UUIDs, and the hash of a fresh raw key is not in the table (the column is unique). */
  predicate Fresh(hash: string -> string, s: State, op: Op) {
    match op
    case Issue(id, raw, _, _, _, _, _) => id !in s.keys && forall k | k in s.keys :: s.keys[k].hash != hash(raw)
    case Rotate(_, _, id, raw, _) => id !in s.keys && forall k | k in s.keys :: s.keys[k].hash != hash(raw)
    case _ => true
  }

  function After(hash: string -> string, s: State, ops: seq<Op>): State
    decreases |ops|
  {
    if ops == [] then s else After(hash, Next(hash, s, ops[0]), ops[1..])
  }

  predicate FreshRun(hash: string -> string, s: State, ops: seq<Op>)
    decreases |ops|
  {
    ops == [] || (Fresh(hash, s, ops[0]) && FreshRun(hash, Next(hash, s, ops[0]), ops[1..]))
  }

  const EMPTY := State(map[], map[], map[])

  // ---- Lineages ----

  /** Every key descends from an issued key and still has its grant. */
  ghost predicate Linked(s: State) {
    && s.root.Keys == s.keys.Keys && s.issued.Keys <= s.keys.Keys
    && (forall k | k in s.keys :: s.root[k] in s.issued && s.issued[s.root[k]] == s.keys[k].grant)
    && (forall k | k in s.issued :: s.root[k] == k)
  }

  ghost predicate UniqueHashes(s: State) {
    forall k, l | k in s.keys && l in s.keys && s.keys[k].hash == s.keys[l].hash :: k == l
  }

  /** No lineage has two keys that are not revoked. */
  ghost predicate OneActive(s: State) {
    forall k, l | Active(s, k) && Active(s, l) && k in s.root && l in s.root && s.root[k] == s.root[l] :: k == l
  }

  ghost predicate Valid(s: State) {
    Linked(s) && UniqueHashes(s) && OneActive(s)
  }

  lemma SameGrantsLinked(s: State, t: State)
    requires Linked(s) && t.root == s.root && t.issued == s.issued && t.keys.Keys == s.keys.Keys
    requires forall k | k in s.keys :: t.keys[k].grant == s.keys[k].grant
    ensures Linked(t)
  {
  }

  /** A successor takes over the grant and the lineage of its predecessor. */
  lemma SuccessorLinked(s: State, id: string, key: Key, newId: string, newKey: Key)
    requires Linked(s) && id in s.keys && newId !in s.keys
    requires key.grant == s.keys[id].grant && newKey.grant == s.keys[id].grant
    ensures Linked(State(s.keys[id := key][newId := newKey], s.root[newId := s.root[id]], s.issued))
  {
    var t := State(s.keys[id := key][newId := newKey], s.root[newId := s.root[id]], s.issued);
    assert t.root.Keys == t.keys.Keys;
    assert forall k | k in s.keys :: t.root[k] == s.root[k] && t.keys[k].grant == s.keys[k].grant;
  }

  lemma RotateLinked(hash: string -> string, s: State, op: Op)
    requires Linked(s) && op.Rotate? && Fresh(hash, s, op) && Rotatable(s, op.id, op.owner)
    ensures Linked(Next(hash, s, op))
  {
    var key := s.keys[op.id];
    SuccessorLinked(s, op.id, key.(revokedAt := Some(op.now)), op.newId, NewKey(key.grant, op.raw, hash(op.raw)));
    assert op.id in s.root;
    hide Linked;
  }

  lemma NextLinked(hash: string -> string, s: State, op: Op)
    requires Linked(s) && Fresh(hash, s, op)
    ensures Linked(Next(hash, s, op))
  {
    match op
    case Issue(_, _, _, _, _, _, _) =>
    case Rotate(id, owner, _, _, _) =>
      if Rotatable(s, id, owner) {
        RotateLinked(hash, s, op);
      }
      hide Linked;
    case _ =>
      hide Authenticates, Linked;
      SameGrantsLinked(s, Next(hash, s, op));
  }

  lemma NextUniqueHashes(hash: string -> string, s: State, op: Op)
    requires UniqueHashes(s) && Fresh(hash, s, op)
    ensures UniqueHashes(Next(hash, s, op))
  {
    hide Authenticates;
  }

  lemma NextOneActive(hash: string -> string, s: State, op: Op)
    requires Linked(s) && OneActive(s) && Fresh(hash, s, op)
    ensures OneActive(Next(hash, s, op))
  {
    var s' := Next(hash, s, op);
    forall k, l | Active(s', k) && Active(s', l) && k in s'.root && l in s'.root && s'.root[k] == s'.root[l]
      ensures k == l
    {
      hide Next, Linked, OneActive, Fresh, Active;
      TwoActive(hash, s, op, k, l);
    }
  }

  lemma TwoActive(hash: string -> string, s: State, op: Op, k: string, l: string)
    requires Linked(s) && OneActive(s) && Fresh(hash, s, op)
    requires var s' := Next(hash, s, op);
      Active(s', k) && Active(s', l) && k in s'.root && l in s'.root && s'.root[k] == s'.root[l]
    ensures k == l
  {
    StillActive(hash, s, op, k);
    StillActive(hash, s, op, l);
    NextRoots(hash, s, op, k);
    NextRoots(hash, s, op, l);
    hide Next, Active;
  }

  /** The lineage of a key: its own if issued, that of its predecessor if rotated to, else what it was. */
  lemma NextRoots(hash: string -> string, s: State, op: Op, k: string)
    requires Linked(s) && Fresh(hash, s, op) && k in Next(hash, s, op).root
    ensures var r := Next(hash, s, op).root[k];
      if op.Issue? && k == op.id then r == k
      else if op.Rotate? && Rotatable(s, op.id, op.owner) && k == op.newId then op.id in s.root && r == s.root[op.id]
      else k in s.root && r == s.root[k] && r in s.keys && (op.Issue? ==> r != op.id)
  {
    hide Authenticates;
  }

  /** A key active after a step is new, or was active and has not just been rotated away. */
  lemma StillActive(hash: string -> string, s: State, op: Op, k: string)
    requires Active(Next(hash, s, op), k)
    ensures (op.Issue? && k == op.id) || (op.Rotate? && k == op.newId && Rotatable(s, op.id, op.owner))
         || (Active(s, k) && (op.Rotate? && Rotatable(s, op.id, op.owner) ==> k != op.id))
  {
    hide Authenticates;
  }

  lemma NextValid(hash: string -> string, s: State, op: Op)
    requires Valid(s) && Fresh(hash, s, op)
    ensures Valid(Next(hash, s, op))
  {
    hide Linked, UniqueHashes, OneActive, Fresh, Next;
    NextLinked(hash, s, op);
    NextUniqueHashes(hash, s, op);
    NextOneActive(hash, s, op);
  }

  lemma {:induction false} ValidAlways(hash: string -> string, s: State, ops: seq<Op>)
    requires Valid(s) && FreshRun(hash, s, ops)
    ensures Valid(After(hash, s, ops))
    decreases |ops|
  {
    hide Valid, Fresh, Next;
    if ops != [] {
      NextValid(hash, s, ops[0]);
      ValidAlways(hash, Next(hash, s, ops[0]), ops[1..]);
    }
  }

  /** Over any run, every key has the owner, name, scopes and expiry its lineage was issued with, and a
      lineage has at most one key that is not revoked. */
  lemma LineageInvariant(hash: string -> string, ops: seq<Op>, k: string, l: string)
    requires FreshRun(hash, EMPTY, ops)
    requires k in After(hash, EMPTY, ops).keys && l in After(hash, EMPTY, ops).keys
    ensures var s := After(hash, EMPTY, ops);
      && k in s.root && l in s.root && s.root[k] in s.issued && s.keys[k].grant == s.issued[s.root[k]]
      && (Active(s, k) && Active(s, l) && s.root[k] == s.root[l] ==> k == l)
  {
    ValidAlways(hash, EMPTY, ops);
    hide Next, After;
  }

  // ---- What a key is, by the operations that made it ----

  lemma {:induction false} AfterLast(hash: string -> string, s: State, ops: seq<Op>)
    requires ops != [] && FreshRun(hash, s, ops)
    ensures var before, op := ops[..|ops| - 1], ops[|ops| - 1];
      && FreshRun(hash, s, before) && Fresh(hash, After(hash, s, before), op)
      && After(hash, s, ops) == Next(hash, After(hash, s, before), op)
    decreases |ops|
  {
    hide Next, Fresh;
    var n := |ops| - 1;
    if n == 0 {
      assert ops[1..] == [] && ops[..0] == [];
    } else {
      AfterLast(hash, Next(hash, s, ops[0]), ops[1..]);
      assert ops[1..][..n - 1] == ops[..n][1..] && ops[1..][n - 1] == ops[n] && ops[..n][0] == ops[0];
    }
  }

  /** This operation brought the key into the table. */
  predicate Makes(op: Op, k: string) {
    (op.Issue? && op.id == k) || (op.Rotate? && op.newId == k)
  }

  function RawOf(op: Op): string
    requires op.Issue? || op.Rotate?
  {
    op.raw
  }

  /** The key has the hash of this raw key, and shows the first twelve characters of it. */
  predicate Holds(hash: string -> string, key: Key, raw: string) {
    key.hash == hash(raw) && key.prefix <= raw && |key.prefix| == if |raw| < 12 then |raw| else 12
  }

  /** The grant says what the issue asked for. */
  predicate Asked(op: Op, g: Grant)
    requires op.Issue?
  {
    && g.owner == op.owner && g.name == op.name
    && (if op.scopes == [] then g.scopes == "" else g.scopes == Delimited.Join(' ', op.scopes))
    && (if op.expiresDays == None || op.expiresDays == Some(0) then g.expiresAt == None
        else g.expiresAt == Some(op.now + op.expiresDays.value * 86400))
  }

  lemma NextMakes(hash: string -> string, s: State, op: Op, k: string)
    requires k in Next(hash, s, op).keys
    ensures k !in s.keys ==> Makes(op, k) && Holds(hash, Next(hash, s, op).keys[k], RawOf(op))
    ensures k in s.keys && !Makes(op, k) ==>
      var key, key' := s.keys[k], Next(hash, s, op).keys[k];
      key'.hash == key.hash && key'.prefix == key.prefix
  {
    hide Authenticates;
  }

  lemma {:induction false} MadeBy(hash: string -> string, ops: seq<Op>, k: string) returns (j: nat)
    requires FreshRun(hash, EMPTY, ops) && k in After(hash, EMPTY, ops).keys
    ensures j < |ops| && Makes(ops[j], k) && Holds(hash, After(hash, EMPTY, ops).keys[k], RawOf(ops[j]))
  {
    assert ops != [];
    var n := |ops| - 1;
    var before := After(hash, EMPTY, ops[..n]);
    AfterLast(hash, EMPTY, ops);
    NextMakes(hash, before, ops[n], k);
    FreshMakes(hash, before, ops[n], k);
    hide Next, Fresh, Holds, After;
    if k in before.keys {
      j := MadeBy(hash, ops[..n], k);
      HoldsStill(hash, before.keys[k], After(hash, EMPTY, ops).keys[k], RawOf(ops[j]));
    } else {
      j := n;
    }
  }

  lemma FreshMakes(hash: string -> string, s: State, op: Op, k: string)
    requires Fresh(hash, s, op)
    ensures Makes(op, k) ==> k !in s.keys
  {
  }

  lemma HoldsStill(hash: string -> string, key: Key, key': Key, raw: string)
    requires Holds(hash, key, raw) && key'.hash == key.hash && key'.prefix == key.prefix
    ensures Holds(hash, key', raw)
  {
  }

  lemma NextIssued(hash: string -> string, s: State, op: Op, id: string)
    requires id in Next(hash, s, op).issued
    ensures if op.Issue? && op.id == id then Asked(op, Next(hash, s, op).issued[id])
            else id in s.issued && Next(hash, s, op).issued[id] == s.issued[id]
  {
    hide Authenticates;
  }

  lemma {:induction false} IssuedBy(hash: string -> string, ops: seq<Op>, id: string) returns (i: nat)
    requires FreshRun(hash, EMPTY, ops) && id in After(hash, EMPTY, ops).issued
    ensures i < |ops| && ops[i].Issue? && ops[i].id == id && Asked(ops[i], After(hash, EMPTY, ops).issued[id])
  {
    assert ops != [];
    var n := |ops| - 1;
    AfterLast(hash, EMPTY, ops);
    NextIssued(hash, After(hash, EMPTY, ops[..n]), ops[n], id);
    hide Next, Asked, After;
    if ops[n].Issue? && ops[n].id == id {
      i := n;
    } else {
      i := IssuedBy(hash, ops[..n], id);
    }
  }

  /** What every key of every run is. Its lineage began with an Issue in the run, operation i, and owner,
      name, scopes and expiry are those asked for there, through whatever rotations. Operation j, that issue
      or a rotation, made the key, and its raw key opens the key, as long as it is not revoked, exactly until
      the issue time and the days asked for, or always without any. */
  lemma {:induction false} KeyIsWhatWasAsked(hash: string -> string, ops: seq<Op>, k: string, now: int)
    returns (i: nat, j: nat)
    requires FreshRun(hash, EMPTY, ops) && k in After(hash, EMPTY, ops).keys
    ensures var s := After(hash, EMPTY, ops);
      && i < |ops| && ops[i].Issue? && k in s.root && ops[i].id == s.root[k] && Asked(ops[i], s.keys[k].grant)
      && j < |ops| && Makes(ops[j], k) && Holds(hash, s.keys[k], RawOf(ops[j]))
      && (Authenticates(hash, s, RawOf(ops[j]), k, now) <==>
            && "fpsk_" <= RawOf(ops[j]) && s.keys[k].revokedAt.None?
            && (ops[i].expiresDays == None || ops[i].expiresDays == Some(0)
                || now <= ops[i].now + ops[i].expiresDays.value * 86400))
  {
    ValidAlways(hash, EMPTY, ops);
    j := MadeBy(hash, ops, k);
    var s := After(hash, EMPTY, ops);
    i := IssuedBy(hash, ops, s.root[k]);
    hide After, Next, FreshRun;
  }

  /** When the key was last revoked, by its owner or by a rotation of it, in a run. */
  function LastRevoked(hash: string -> string, ops: seq<Op>, k: string): Option<int> {
    if ops == [] then None else
    var op, before := ops[|ops| - 1], ops[..|ops| - 1];
    var s := After(hash, EMPTY, before);
    if op.Revoke? && op.id == k && k in s.keys && s.keys[k].grant.owner == op.owner then Some(op.now)
    else if op.Rotate? && op.id == k && k in s.keys && s.keys[k].grant.owner == op.owner && s.keys[k].revokedAt.None?
    then Some(op.now)
    else LastRevoked(hash, before, k)
  }

  /** When its raw key last opened it. */
  function LastOpened(hash: string -> string, ops: seq<Op>, k: string): Option<int> {
    if ops == [] then None else
    var op, before := ops[|ops| - 1], ops[..|ops| - 1];
    if op.Authenticate? && Authenticates(hash, After(hash, EMPTY, before), op.raw, k, op.now) then Some(op.now)
    else LastOpened(hash, before, k)
  }

  lemma NextTimes(hash: string -> string, s: State, op: Op, k: string)
    requires Fresh(hash, s, op)
    ensures var t := Next(hash, s, op);
      && (k in t.keys && k !in s.keys ==> t.keys[k].revokedAt == None && t.keys[k].lastUsedAt == None)
      && (k in s.keys ==>
            && k in t.keys
            && t.keys[k].revokedAt == (
                 if op.Revoke? && op.id == k && s.keys[k].grant.owner == op.owner then Some(op.now)
                 else if op.Rotate? && op.id == k && s.keys[k].grant.owner == op.owner && s.keys[k].revokedAt.None?
                 then Some(op.now) else s.keys[k].revokedAt)
            && t.keys[k].lastUsedAt == (
                 if op.Authenticate? && Authenticates(hash, s, op.raw, k, op.now) then Some(op.now)
                 else s.keys[k].lastUsedAt))
  {
    hide Authenticates;
  }

  /** The times in the table are those of the run: a key is revoked exactly when a revocation by its owner or
      a rotation has reached it, and was last used when it was last opened. */
  lemma {:induction false} TimesAreOperations(hash: string -> string, ops: seq<Op>, k: string)
    requires FreshRun(hash, EMPTY, ops)
    ensures var s := After(hash, EMPTY, ops);
      if k in s.keys
      then s.keys[k].revokedAt == LastRevoked(hash, ops, k) && s.keys[k].lastUsedAt == LastOpened(hash, ops, k)
      else LastRevoked(hash, ops, k) == None && LastOpened(hash, ops, k) == None
  {
    if ops != [] {
      var n := |ops| - 1;
      var before := After(hash, EMPTY, ops[..n]);
      AfterLast(hash, EMPTY, ops);
      TimesAreOperations(hash, ops[..n], k);
      NextTimes(hash, before, ops[n], k);
      NotThere(hash, before, k);
      hide Next, After, Authenticates;
    }
  }

  lemma NotThere(hash: string -> string, s: State, k: string)
    ensures k !in s.keys ==> forall raw, now :: !Authenticates(hash, s, raw, k, now)
  {
  }

  // ---- Conservation ----

  function ActiveKeys(s: State): set<string> {
    set k | k in s.keys && Active(s, k)
  }

  /** A rotation replaces one unrevoked key by another, so their number stays as it was. */
  lemma RotationConserves(hash: string -> string, s: State, op: Op)
    requires Fresh(hash, s, op) && op.Rotate?
    ensures Rotatable(s, op.id, op.owner) ==>
      ActiveKeys(Next(hash, s, op)) == ActiveKeys(s) - {op.id} + {op.newId}
    ensures |ActiveKeys(Next(hash, s, op))| == |ActiveKeys(s)|
  {
    var before, s' := ActiveKeys(s), Next(hash, s, op);
    if Rotatable(s, op.id, op.owner) {
      forall k
        ensures Active(s', k) <==> (Active(s, k) && k != op.id) || k == op.newId
      {
      }
      assert ActiveKeys(s') == before - {op.id} + {op.newId};
      assert op.id in before && op.newId !in before;
    }
  }

  /** What an operation does to the number of unrevoked keys. */
  function Balance(s: State, op: Op): int {
    match op
    case Issue(_, _, _, _, _, _, _) => 1
    case Rotate(_, _, _, _, _) => 0
    case Revoke(id, owner, _) => if Owned(s, id, owner) && Active(s, id) then -1 else 0
    case Authenticate(_, _) => 0
  }

  function BalanceOf(hash: string -> string, s: State, ops: seq<Op>): int
    decreases |ops|
  {
    if ops == [] then 0 else Balance(s, ops[0]) + BalanceOf(hash, Next(hash, s, ops[0]), ops[1..])
  }

  /** The unrevoked keys after a step that is not a rotation. */
  lemma NextActiveKeys(hash: string -> string, s: State, op: Op)
    requires !op.Rotate?
    ensures ActiveKeys(Next(hash, s, op)) ==
      if op.Issue? then ActiveKeys(s) + {op.id}
      else if op.Revoke? && Owned(s, op.id, op.owner) then ActiveKeys(s) - {op.id} else ActiveKeys(s)
  {
    hide Authenticates;
    var s' := Next(hash, s, op);
    forall k
      ensures Active(s', k) <==> if op.Issue? && k == op.id then true
                                 else Active(s, k) && !(op.Revoke? && Owned(s, op.id, op.owner) && k == op.id)
    {
    }
  }

  lemma NextBalance(hash: string -> string, s: State, op: Op)
    requires Fresh(hash, s, op)
    ensures |ActiveKeys(Next(hash, s, op))| == |ActiveKeys(s)| + Balance(s, op)
  {
    if op.Rotate? {
      RotationConserves(hash, s, op);
    } else {
      NextActiveKeys(hash, s, op);
    }
    hide Next;
  }

  /** Over any run the unrevoked keys are those there were, plus the issues, minus the revocations of keys
      not yet revoked: rotations neither add nor lose one, and authentication changes none. */
  lemma {:induction false} ActiveBalance(hash: string -> string, s: State, ops: seq<Op>)
    requires FreshRun(hash, s, ops)
    ensures |ActiveKeys(After(hash, s, ops))| == |ActiveKeys(s)| + BalanceOf(hash, s, ops)
    decreases |ops|
  {
    hide Fresh, Next, ActiveKeys, Balance;
    if ops != [] {
      NextBalance(hash, s, ops[0]);
      ActiveBalance(hash, Next(hash, s, ops[0]), ops[1..]);
    }
  }

  // ---- Revocation is for good ----

  predicate Revoked(s: State, k: string, h: string) {
    k in s.keys && s.keys[k].hash == h && s.keys[k].revokedAt.Some?
  }

  lemma RevokedNext(hash: string -> string, s: State, op: Op, k: string, h: string)
    requires Revoked(s, k, h) && Fresh(hash, s, op)
    ensures Revoked(Next(hash, s, op), k, h)
  {
  }

  lemma {:induction false} RevokedAlways(hash: string -> string, s: State, ops: seq<Op>, k: string, h: string)
    requires Revoked(s, k, h) && FreshRun(hash, s, ops)
    ensures Revoked(After(hash, s, ops), k, h)
    decreases |ops|
  {
    hide Revoked, Fresh, Next;
    if ops != [] {
      RevokedNext(hash, s, ops[0], k, h);
      RevokedAlways(hash, Next(hash, s, ops[0]), ops[1..], k, h);
    }
  }

  /** Whatever happens after a key is revoked, its raw key opens no row at any time. */
  lemma RevokedNeverAuthenticates(hash: string -> string, ops: seq<Op>, more: seq<Op>, k: string, raw: string,
                                  id: string, now: int)
    requires FreshRun(hash, EMPTY, ops) && FreshRun(hash, After(hash, EMPTY, ops), more)
    requires Revoked(After(hash, EMPTY, ops), k, hash(raw))
    ensures !Authenticates(hash, After(hash, After(hash, EMPTY, ops), more), raw, id, now)
  {
    hide Next;
    ValidAlways(hash, EMPTY, ops);
    ValidAlways(hash, After(hash, EMPTY, ops), more);
    RevokedAlways(hash, After(hash, EMPTY, ops), more, k, hash(raw));
  }

  /** The raw key returned by a rotation opens the new row exactly until the expiry that was issued, and
      the old raw key opens nothing from then on. */
  lemma RotatedKeyWorks(hash: string -> string, ops: seq<Op>, op: Op, now: int)
    requires FreshRun(hash, EMPTY, ops) && op.Rotate? && Fresh(hash, After(hash, EMPTY, ops), op)
    requires Rotatable(After(hash, EMPTY, ops), op.id, op.owner) && PREFIX <= op.raw
    ensures var s, s' := After(hash, EMPTY, ops), Next(hash, After(hash, EMPTY, ops), op);
      && Authenticates(hash, s', op.raw, op.newId, now)
           == (s.keys[op.id].grant.expiresAt.None? || now <= s.keys[op.id].grant.expiresAt.value)
      && Revoked(s', op.id, s.keys[op.id].hash)
  {
  }

  // ---- The code ----

  class ApiKeyService {
    const hash: string -> string
    var keys: map<string, Key>
    ghost var root: map<string, string>
    ghost var issued: map<string, Grant>

    ghost function View(): State
      reads this
    {
      State(keys, root, issued)
    }

    method IssueKey(id: string, raw: string, owner: string, name: string, scopes: seq<string>,
                    expiresDays: Option<int>, now: int)
      requires Fresh(hash, View(), Issue(id, raw, owner, name, scopes, expiresDays, now))
      modifies this
      ensures View() == Next(hash, old(View()), Issue(id, raw, owner, name, scopes, expiresDays, now))
    {
      var expiresAt := None;
      if expiresDays.Some? && expiresDays.value != 0 {
        expiresAt := Some(now + expiresDays.value * DAY);
      }
      var grant := Grant(owner, name, ScopeString(scopes), expiresAt);
      keys := keys[id := NewKey(grant, raw, hash(raw))];
      root, issued := root[id := id], issued[id := grant];
    }

    method RotateKey(id: string, owner: string, newId: string, raw: string, now: int) returns (rotated: bool)
      requires Fresh(hash, View(), Rotate(id, owner, newId, raw, now)) && Valid(View())
      modifies this
      ensures rotated == old(Rotatable(View(), id, owner))
      ensures View() == Next(hash, old(View()), Rotate(id, owner, newId, raw, now))
    {
      rotated := id in keys && keys[id].grant.owner == owner && keys[id].revokedAt.None?;
      if rotated {
        keys := keys[id := keys[id].(revokedAt := Some(now))];
        keys := keys[newId := NewKey(keys[id].grant, raw, hash(raw))];
        root := root[newId := root[id]];
      }
    }

    method RevokeKey(id: string, owner: string, now: int) returns (found: bool)
      modifies this
      ensures found == old(Owned(View(), id, owner))
      ensures View() == Next(hash, old(View()), Revoke(id, owner, now))
    {
      found := id in keys && keys[id].grant.owner == owner;
      if found {
        keys := keys[id := keys[id].(revokedAt := Some(now))];
      }
    }

    /** An unrevoked row with this hash, if there is one; hashes are unique, so no order is needed to choose it. */
    method FindActive(h: string) returns (found: Option<string>)
      ensures found.Some? ==> Active(View(), found.value) && keys[found.value].hash == h
      ensures found.None? ==> forall id | Active(View(), id) :: keys[id].hash != h
    {
      var candidates := set id | id in keys && keys[id].hash == h && keys[id].revokedAt.None?;
      if candidates == {} {
        assert forall id | Active(View(), id) && keys[id].hash == h :: id in candidates;
        return None;
      }
      var id :| id in candidates;
      found := Some(id);
    }

    method AuthenticateKey(raw: string, now: int) returns (found: Option<string>)
      requires Valid(View())
      modifies this
      ensures forall id :: old(Authenticates(hash, View(), raw, id, now)) <==> found == Some(id)
      ensures View() == Next(hash, old(View()), Authenticate(raw, now))
    {
      ghost var s := View();
      found := None;
      if PREFIX <= raw {
        found := FindActive(hash(raw));
        if found.Some? {
          OnlyCandidate(hash, s, raw, found.value, now);
          if keys[found.value].grant.expiresAt.Some? && keys[found.value].grant.expiresAt.value < now {
            found := None;
          }
        }
      }
      assert forall id :: Authenticates(hash, s, raw, id, now) <==> found == Some(id);
      hide Authenticates, Valid, Active;
      OneTouched(hash, s, raw, found, now);
      if found.Some? {
        keys := keys[found.value := keys[found.value].(lastUsedAt := Some(now))];
      }
    }
  }

  /** Authentication marks the row it opened as used, and changes nothing else. */
  lemma OneTouched(hash: string -> string, s: State, raw: string, found: Option<string>, now: int)
    requires forall id :: Authenticates(hash, s, raw, id, now) <==> found == Some(id)
    ensures found.Some? ==> found.value in s.keys
    ensures Next(hash, s, Authenticate(raw, now)) ==
      if found.None? then s else s.(keys := s.keys[found.value := s.keys[found.value].(lastUsedAt := Some(now))])
  {
    assert found.Some? ==> Authenticates(hash, s, raw, found.value, now);
    assert Next(hash, s, Authenticate(raw, now)).keys ==
      if found.None? then s.keys else s.keys[found.value := s.keys[found.value].(lastUsedAt := Some(now))];
  }

  lemma OnlyCandidate(hash: string -> string, s: State, raw: string, id: string, now: int)
    requires Valid(s) && PREFIX <= raw && Active(s, id) && s.keys[id].hash == hash(raw)
    ensures forall k :: Authenticates(hash, s, raw, k, now) <==>
      k == id && !(s.keys[id].grant.expiresAt.Some? && s.keys[id].grant.expiresAt.value < now)
  {
    hide Linked, OneActive;
  }
}
