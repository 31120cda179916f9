/** Refresh-token rotation, revocation and the collection of old revocation rows: app/routers/auth.py,
    app/core/deps.py and app/tasks/cleanup_tasks.py. A request is split into the steps between which the
    clock or the database may change: decoding a token, reading its revocation row, inserting one. The
    steps of different requests interleave. */
module RefreshTokens {
  import opened Options

  datatype TokenType = Access | Refresh | PasswordReset

  /** The claims of an issued token (RFC 7519: sub, exp); its jti is its key in the token table. */
  datatype Token = Token(sub: string, kind: TokenType, exp: int)

  /** What a request does next with its token: read the row of a decoded token (Using, CheckingRefresh,
      CheckingLogout), insert one (Rotating, RevokingBearer, RevokingRefresh), or decode (LoggingOut,
      LoggedOut). */
  datatype Stage =
    | Using
    | CheckingRefresh
    | Rotating
    | CheckingLogout
    | LoggingOut
    | RevokingBearer
    | LoggedOut
    | RevokingRefresh

  /** What get_api_key_user makes of a request: no API key, one it rejects, or the user of the key. */
  datatype ApiKeyCheck = NoKey | BadKey | KeyUser(user: string)

  /** A request under way. A logout knows its user, once checked, and the refresh token sent along. */
  datatype Pending = Pending(stage: Stage, jti: nat, user: string, refresh: Option<nat>)

  /** `tokens` are the tokens ever signed, under jtis below `next`; `revoked` is the table of revocation
      rows, a unique jti with its expiry. `root` maps each refresh token to the login it descends from. */
  datatype State = State(now: int, next: nat, tokens: map<nat, Token>, revoked: map<nat, int>, users: set<string>,
                         root: map<nat, nat>, pending: map<nat, Pending>)

  datatype Event =
    | Tick(elapsed: nat)
    | SetUsers(users: set<string>)
    | Login(user: string, accessExp: int, refreshExp: int)
    | RequestReset(user: string, exp: int)
    | AskAccess(request: nat, bearer: Option<nat>, key: ApiKeyCheck)
    | AskRefresh(request: nat, jti: nat)
    | AskLogout(request: nat, bearer: Option<nat>, refresh: Option<nat>, key: ApiKeyCheck)
    | Resume(request: nat, accessExp: int, refreshExp: int)
    | Cleanup

  // ---- The steps ----

  /** decode_token: a signature that verifies and, by section 4.1.4 of RFC 7519, a time before exp. */
  predicate Decodes(s: State, jti: nat) {
    jti in s.tokens && s.now < s.tokens[jti].exp
  }

  predicate DecodesAs(s: State, jti: nat, kind: TokenType) {
    Decodes(s, jti) && s.tokens[jti].kind == kind
  }

  /** The two queries behind a decoded token: no revocation row, and the user exists. */
  predicate Accepts(s: State, jti: nat) {
    jti in s.tokens && jti !in s.revoked && s.tokens[jti].sub in s.users
  }

  /** Sign an access token and a refresh token of the lineage `root`. */
  function Issue(s: State, user: string, accessExp: int, refreshExp: int, root: nat): State {
    s.(next := s.next + 2,
       tokens := s.tokens[s.next := Token(user, Access, accessExp)][s.next + 1 := Token(user, Refresh, refreshExp)],
       root := s.root[s.next + 1 := root])
  }

  /** Sign a password-reset token. */
  function SignReset(s: State, user: string, exp: int): State {
    s.(next := s.next + 1, tokens := s.tokens[s.next := Token(user, PasswordReset, exp)])
  }

  /** Insert a revocation row; the unique jti makes the second insert fail. */
  function Revoke(s: State, jti: nat): (State, bool) {
    if jti in s.revoked then (s, false)
    else (s.(revoked := s.revoked[jti := if jti in s.tokens then s.tokens[jti].exp else 0]), true)
  }

  /** Spend a refresh token, then issue its successors. */
  function Rotate(s: State, jti: nat, accessExp: int, refreshExp: int): (State, bool) {
    var (s', ok) := Revoke(s, jti);
    if ok && jti in s.tokens && jti in s.root
    then (Issue(s', s.tokens[jti].sub, accessExp, refreshExp, s.root[jti]), true) else (s', false)
  }

  function Put(s: State, request: nat, p: Pending): State {
    s.(pending := s.pending[request := p])
  }

  function Done(s: State, request: nat): State {
    s.(pending := s.pending - {request})
  }

  /** A request arrives, and decodes its token unless it has an API key. */
  function Arrive(s: State, e: Event): (State, bool)
    requires e.AskAccess? || e.AskRefresh? || e.AskLogout?
  {
    if e.request in s.pending then (s, false) else
    match e
    case AskAccess(q, b, k) =>
      if k.KeyUser? then (s, true)
      else if k.NoKey? && b.Some? && DecodesAs(s, b.value, Access)
      then (Put(s, q, Pending(Using, b.value, "", None)), true) else (s, false)
    case AskRefresh(q, j) =>
      if DecodesAs(s, j, Refresh) then (Put(s, q, Pending(CheckingRefresh, j, "", None)), true) else (s, false)
    case AskLogout(q, b, r, k) =>
      if b.None? || k.BadKey? then (s, false)
      else if k.KeyUser? then (Put(s, q, Pending(LoggingOut, b.value, k.user, r)), true)
      else if DecodesAs(s, b.value, Access) then (Put(s, q, Pending(CheckingLogout, b.value, "", r)), true)
      else (s, false)
  }

  /** What the next step of a request does to the tables, and whether it succeeds. */
  function Effect(s: State, p: Pending, accessExp: int, refreshExp: int): (State, bool) {
    match p.stage
    case Using => (s, Accepts(s, p.jti))
    case CheckingRefresh => (s, Accepts(s, p.jti))
    case Rotating => Rotate(s, p.jti, accessExp, refreshExp)
    case CheckingLogout => (s, Accepts(s, p.jti))
    case LoggingOut => (s, Decodes(s, p.jti))
    case RevokingBearer => Revoke(s, p.jti)
    case LoggedOut => (s, Decodes(s, p.jti))
    case RevokingRefresh => Revoke(s, p.jti)
  }

  /** How a request goes on after a step that succeeds. A logout leaves alone a refresh token of another user. */
  function Onward(s: State, p: Pending): Option<Pending> {
    match p.stage
    case CheckingRefresh => Some(p.(stage := Rotating))
    case CheckingLogout =>
      if p.jti in s.tokens then Some(p.(stage := LoggingOut, user := s.tokens[p.jti].sub)) else None
    case LoggingOut => Some(p.(stage := RevokingBearer))
    case RevokingBearer => if p.refresh.Some? then Some(Pending(LoggedOut, p.refresh.value, p.user, None)) else None
    case LoggedOut =>
      if p.jti in s.tokens && s.tokens[p.jti].sub == p.user then Some(p.(stage := RevokingRefresh)) else None
    case _ => None
  }

  function Become(s: State, q: nat, p: Option<Pending>): State {
    if p.Some? then Put(s, q, p.value) else Done(s, q)
  }

  function Advance(s: State, q: nat, p: Pending, accessExp: int, refreshExp: int): (State, bool) {
    var (s', ok) := Effect(s, p, accessExp, refreshExp);
    (Become(s', q, if ok then Onward(s, p) else None), ok)
  }

  /** The state after an event and whether its request was served; `gc` says whether cleanup runs at all. */
  function Next(gc: bool, s: State, e: Event): (State, bool) {
    match e
    case Tick(n) => (s.(now := s.now + n), true)
    case SetUsers(us) => (s.(users := us), true)
    case Login(u, a, r) => if u in s.users then (Issue(s, u, a, r, s.next + 1), true) else (s, false)
    case RequestReset(u, x) => if u in s.users then (SignReset(s, u, x), true) else (s, false)
    case Resume(q, a, r) => if q in s.pending then Advance(s, q, s.pending[q], a, r) else (s, false)
    case Cleanup =>
      (if gc then s.(revoked := map j | j in s.revoked && !(s.revoked[j] < s.now) :: s.revoked[j]) else s, true)
    case _ => Arrive(s, e)
  }

  // ---- Runs ----

  function After(gc: bool, s: State, es: seq<Event>): State
    decreases |es|
  {
    if es == [] then s else After(gc, Next(gc, s, es[0]).0, es[1..])
  }

  /** Which events of the run were served. */
  function Served(gc: bool, s: State, es: seq<Event>): seq<bool>
    decreases |es|
  {
    if es == [] then [] else [Next(gc, s, es[0]).1] + Served(gc, Next(gc, s, es[0]).0, es[1..])
  }

  /** The next step reads or inserts the token's revocation row. */
  predicate AtRow(p: Pending) {
    p.stage != LoggingOut && p.stage != LoggedOut
  }

  /** A request that has decoded its token reads or inserts the token's row at most `slack` after exp. */
  predicate Timely(slack: int, s: State, e: Event) {
    e.Resume? && e.request in s.pending && AtRow(s.pending[e.request]) && s.pending[e.request].jti in s.tokens ==>
      s.now <= s.tokens[s.pending[e.request].jti].exp + slack
  }

  predicate TimelyRun(slack: int, gc: bool, s: State, es: seq<Event>)
    decreases |es|
  {
    es == [] || (Timely(slack, s, es[0]) && TimelyRun(slack, gc, Next(gc, s, es[0]).0, es[1..]))
  }

  /** Rows carry their token's exp, and exactly the refresh tokens belong to a login. */
  ghost predicate Tables(s: State) {
    && (forall j | j in s.tokens :: j < s.next)
    && (forall j | j in s.revoked :: j in s.tokens && s.revoked[j] == s.tokens[j].exp)
    && (forall j :: j in s.root <==> j in s.tokens && s.tokens[j].kind == Refresh)
  }

  /** Requests that have decoded a token hold a real one, of the right kind. */
  ghost predicate Requests(s: State) {
    forall q | q in s.pending && AtRow(s.pending[q]) ::
      && s.pending[q].jti in s.tokens
      && (s.pending[q].stage == CheckingRefresh || s.pending[q].stage == Rotating ==> s.pending[q].jti in s.root)
  }

  /** What every reachable state satisfies. */
  ghost predicate Valid(s: State) {
    Tables(s) && Requests(s)
  }

  function Initial(now: int, users: set<string>): State {
    State(now, 0, map[], map[], users, map[], map[])
  }

  /** s and t differ in their requests only. */
  predicate SameTables(s: State, t: State) {
    s == t.(pending := s.pending)
  }

  lemma ArriveShape(s: State, e: Event)
    requires e.AskAccess? || e.AskRefresh? || e.AskLogout?
    ensures SameTables(s, Arrive(s, e).0)
  {
  }

  lemma BecomeShape(s: State, q: nat, p: Option<Pending>)
    ensures SameTables(s, Become(s, q, p))
  {
  }

  lemma AdvanceShape(s: State, q: nat, p: Pending, a: int, r: int)
    ensures SameTables(Effect(s, p, a, r).0, Advance(s, q, p, a, r).0)
  {
    hide Effect, Onward;
    BecomeShape(Effect(s, p, a, r).0, q, if Effect(s, p, a, r).1 then Onward(s, p) else None);
  }

  lemma SameTablesValid(s: State, t: State)
    requires Tables(s) && SameTables(s, t)
    ensures Tables(t)
  {
  }

  lemma IssueTables(s: State, user: string, a: int, r: int, root: nat)
    requires Tables(s)
    ensures Tables(Issue(s, user, a, r, root))
  {
  }

  lemma RevokeTables(s: State, j: nat)
    requires Tables(s) && j in s.tokens
    ensures Tables(Revoke(s, j).0)
  {
  }

  lemma RotateTables(s: State, j: nat, a: int, r: int)
    requires Tables(s) && j in s.tokens
    ensures Tables(Rotate(s, j, a, r).0)
  {
    RevokeTables(s, j);
    if j in s.root {
      IssueTables(Revoke(s, j).0, s.tokens[j].sub, a, r, s.root[j]);
    }
    hide Tables, Issue, Revoke;
  }

  lemma AdvanceTables(s: State, q: nat, p: Pending, a: int, r: int)
    requires Tables(s) && (AtRow(p) ==> p.jti in s.tokens)
    ensures Tables(Advance(s, q, p, a, r).0)
  {
    hide Tables, Rotate, Revoke, Advance;
    if AtRow(p) {
      RotateTables(s, p.jti, a, r);
      RevokeTables(s, p.jti);
    }
    AdvanceShape(s, q, p, a, r);
    SameTablesValid(Effect(s, p, a, r).0, Advance(s, q, p, a, r).0);
  }

  /** Tokens are never forgotten, and neither are their lineages. */
  predicate Grows(s: State, t: State) {
    && (forall j | j in s.tokens :: j in t.tokens && t.tokens[j] == s.tokens[j])
    && (forall j | j in s.root :: j in t.root && t.root[j] == s.root[j])
  }

  lemma IssueGrows(s: State, user: string, a: int, r: int, root: nat)
    requires Tables(s)
    ensures Grows(s, Issue(s, user, a, r, root))
  {
  }

  lemma RotateGrows(s: State, j: nat, a: int, r: int)
    requires Tables(s) && j in s.tokens
    ensures Grows(s, Rotate(s, j, a, r).0) && Grows(s, Revoke(s, j).0)
  {
    if j in s.root {
      RevokeTables(s, j);
      IssueGrows(Revoke(s, j).0, s.tokens[j].sub, a, r, s.root[j]);
    }
    hide Tables, Issue;
  }

  lemma AdvanceGrows(s: State, q: nat, p: Pending, a: int, r: int)
    requires Tables(s) && (AtRow(p) ==> p.jti in s.tokens)
    ensures Grows(s, Advance(s, q, p, a, r).0)
  {
    hide Tables, Rotate, Revoke, Advance;
    if AtRow(p) {
      RotateGrows(s, p.jti, a, r);
    }
    AdvanceShape(s, q, p, a, r);
  }

  /** The other requests stay as they are, and this one, if it goes on, holds a token it has decoded. */
  lemma AdvanceRequests(s: State, q: nat, a: int, r: int)
    requires Valid(s) && q in s.pending
    ensures Requests(Advance(s, q, s.pending[q], a, r).0)
  {
    var p, t := s.pending[q], Advance(s, q, s.pending[q], a, r).0;
    AdvanceGrows(s, q, p, a, r);
    AdvanceSelf(s, q, p, a, r);
    hide Advance, Tables, Decodes;
    forall x | x in t.pending && AtRow(t.pending[x])
      ensures t.pending[x].jti in t.tokens
      ensures t.pending[x].stage == CheckingRefresh || t.pending[x].stage == Rotating ==> t.pending[x].jti in t.root
    {
      if x != q {
        AdvanceOther(s, q, p, a, r, x);
      }
    }
  }

  /** Inserting rows and issuing tokens do not touch the requests. */
  lemma EffectPending(s: State, p: Pending, a: int, r: int)
    ensures Effect(s, p, a, r).0.pending == s.pending
  {
    hide Accepts, Decodes;
  }

  lemma AdvanceOther(s: State, q: nat, p: Pending, a: int, r: int, x: nat)
    requires x != q
    ensures var t := Advance(s, q, p, a, r).0;
      (x in t.pending <==> x in s.pending) && (x in s.pending ==> t.pending[x] == s.pending[x])
  {
    EffectPending(s, p, a, r);
    hide Effect, Onward;
  }

  /** A request that goes on to its token's row was there already, or has just decoded the token; only one
      whose guards hold goes on to rotate. */
  lemma AdvanceSelf(s: State, q: nat, p: Pending, a: int, r: int)
    ensures var t := Advance(s, q, p, a, r).0;
      q in t.pending && AtRow(t.pending[q]) ==>
        && t.pending[q].jti == p.jti && p.jti in s.tokens && t.pending[q].stage != CheckingRefresh
        && (t.pending[q].stage == Rotating ==> p.stage == CheckingRefresh)
        && (AtRow(p) || Decodes(s, p.jti))
  {
    EffectPending(s, p, a, r);
    hide Rotate, Revoke;
  }

  lemma ArriveValid(s: State, e: Event)
    requires Valid(s) && (e.AskAccess? || e.AskRefresh? || e.AskLogout?)
    ensures Valid(Arrive(s, e).0)
  {
    ArriveShape(s, e);
    SameTablesValid(s, Arrive(s, e).0);
  }

  lemma NextValid(gc: bool, s: State, e: Event)
    requires Valid(s)
    ensures Valid(Next(gc, s, e).0)
  {
    hide Arrive, Advance, Issue, SignReset;
    match e
    case Login(u, a, r) =>
      IssueTables(s, u, a, r, s.next + 1);
      IssueGrows(s, u, a, r, s.next + 1);
      IssueRequests(s, u, a, r, s.next + 1);
    case RequestReset(u, x) => SignResetValid(s, u, x);
    case Resume(q, a, r) =>
      if q in s.pending {
        AdvanceTables(s, q, s.pending[q], a, r);
        AdvanceRequests(s, q, a, r);
      }
    case AskAccess(_, _, _) => ArriveValid(s, e);
    case AskRefresh(_, _) => ArriveValid(s, e);
    case AskLogout(_, _, _, _) => ArriveValid(s, e);
    case _ =>
  }

  lemma SignResetValid(s: State, user: string, exp: int)
    requires Valid(s)
    ensures Valid(SignReset(s, user, exp)) && Grows(s, SignReset(s, user, exp))
  {
  }

  lemma IssueRequests(s: State, user: string, a: int, r: int, root: nat)
    requires Valid(s)
    ensures Requests(Issue(s, user, a, r, root))
  {
    IssueGrows(s, user, a, r, root);
    assert Issue(s, user, a, r, root).pending == s.pending;
    hide Issue, Tables;
  }

  // ---- Cleanup cannot be observed ----

  /** s with cleanup and t without differ only in rows of tokens past their exp. */
  ghost predicate Alike(s: State, t: State) {
    && s == t.(revoked := s.revoked)
    && (forall j | j in s.revoked :: j in t.revoked && s.revoked[j] == t.revoked[j])
    && (forall j | j in t.revoked && j !in s.revoked :: t.revoked[j] < t.now)
  }

  /** Alike states agree about every token that is not past its exp. */
  lemma AlikeOn(s: State, t: State, j: nat)
    requires Tables(t) && Alike(s, t) && j in s.tokens && s.now <= s.tokens[j].exp
    ensures j in s.revoked <==> j in t.revoked
    ensures Accepts(s, j) == Accepts(t, j)
  {
  }

  lemma RevokeAlike(s: State, t: State, j: nat)
    requires Tables(s) && Tables(t) && Alike(s, t) && j in s.tokens && s.now <= s.tokens[j].exp
    ensures Revoke(s, j).1 == Revoke(t, j).1 && Alike(Revoke(s, j).0, Revoke(t, j).0)
  {
    AlikeOn(s, t, j);
  }

  lemma IssueAlike(s: State, t: State, user: string, a: int, r: int, root: nat)
    requires Alike(s, t)
    ensures Alike(Issue(s, user, a, r, root), Issue(t, user, a, r, root))
  {
  }

  lemma SignResetAlike(s: State, t: State, user: string, exp: int)
    requires Alike(s, t)
    ensures Alike(SignReset(s, user, exp), SignReset(t, user, exp))
  {
  }

  lemma RotateAlike(s: State, t: State, j: nat, a: int, r: int)
    requires Tables(s) && Tables(t) && Alike(s, t) && j in s.tokens && s.now <= s.tokens[j].exp
    ensures Rotate(s, j, a, r).1 == Rotate(t, j, a, r).1 && Alike(Rotate(s, j, a, r).0, Rotate(t, j, a, r).0)
  {
    RevokeAlike(s, t, j);
    if j in s.root {
      IssueAlike(Revoke(s, j).0, Revoke(t, j).0, s.tokens[j].sub, a, r, s.root[j]);
    }
    hide Issue, Tables;
  }

  lemma BecomeAlike(s: State, t: State, q: nat, p: Option<Pending>)
    requires Alike(s, t)
    ensures Alike(Become(s, q, p), Become(t, q, p))
  {
  }

  lemma EffectAlike(s: State, t: State, p: Pending, a: int, r: int)
    requires Tables(s) && Tables(t) && Alike(s, t)
    requires AtRow(p) ==> p.jti in s.tokens && s.now <= s.tokens[p.jti].exp
    ensures Effect(s, p, a, r).1 == Effect(t, p, a, r).1
    ensures Alike(Effect(s, p, a, r).0, Effect(t, p, a, r).0)
  {
    hide Revoke, Rotate, Accepts, Alike, Tables, Decodes;
    SameDecoding(s, t, p.jti);
    if AtRow(p) {
      AlikeOn(s, t, p.jti);
      RevokeAlike(s, t, p.jti);
      RotateAlike(s, t, p.jti, a, r);
    }
  }

  lemma AdvanceAlike(s: State, t: State, q: nat, p: Pending, a: int, r: int)
    requires Tables(s) && Tables(t) && Alike(s, t)
    requires AtRow(p) ==> p.jti in s.tokens && s.now <= s.tokens[p.jti].exp
    ensures Advance(s, q, p, a, r).1 == Advance(t, q, p, a, r).1
    ensures Alike(Advance(s, q, p, a, r).0, Advance(t, q, p, a, r).0)
  {
    hide Effect, Alike, Tables, Become;
    EffectAlike(s, t, p, a, r);
    SameDecoding(s, t, p.jti);
    BecomeAlike(Effect(s, p, a, r).0, Effect(t, p, a, r).0, q, if Effect(s, p, a, r).1 then Onward(s, p) else None);
  }

  lemma SameDecoding(s: State, t: State, j: nat)
    requires Alike(s, t)
    ensures Decodes(s, j) == Decodes(t, j) && s.tokens == t.tokens && s.pending == t.pending
  {
  }

  lemma ArriveAlike(s: State, t: State, e: Event)
    requires Alike(s, t) && (e.AskAccess? || e.AskRefresh? || e.AskLogout?)
    ensures Arrive(s, e).1 == Arrive(t, e).1 && Alike(Arrive(s, e).0, Arrive(t, e).0)
  {
    hide Alike, Decodes;
    var jti := match e
      case AskRefresh(_, j) => j
      case AskAccess(_, b, _) => if b.Some? then b.value else 0
      case AskLogout(_, b, _, _) => if b.Some? then b.value else 0;
    SameDecoding(s, t, jti);
    match e
    case AskAccess(q, _, _) => BecomeAlike(s, t, q, Some(Pending(Using, jti, "", None)));
    case AskRefresh(q, _) => BecomeAlike(s, t, q, Some(Pending(CheckingRefresh, jti, "", None)));
    case AskLogout(q, _, r, k) =>
      BecomeAlike(s, t, q, Some(Pending(CheckingLogout, jti, "", r)));
      BecomeAlike(s, t, q, Some(Pending(LoggingOut, jti, if k.KeyUser? then k.user else "", r)));
  }

  lemma AlikeNext(slack: int, s: State, t: State, e: Event)
    requires slack <= 0 && Valid(s) && Valid(t) && Alike(s, t) && Timely(slack, s, e)
    ensures Next(true, s, e).1 == Next(false, t, e).1
    ensures Alike(Next(true, s, e).0, Next(false, t, e).0)
  {
    hide Arrive, Advance, Issue, Tables;
    match e
    case Login(u, a, r) => IssueAlike(s, t, u, a, r, s.next + 1);
    case RequestReset(u, x) => SignResetAlike(s, t, u, x);
    case Resume(q, a, r) =>
      if q in s.pending {
        AdvanceAlike(s, t, q, s.pending[q], a, r);
      }
    case AskAccess(_, _, _) => ArriveAlike(s, t, e);
    case AskRefresh(_, _) => ArriveAlike(s, t, e);
    case AskLogout(_, _, _, _) => ArriveAlike(s, t, e);
    case _ =>
  }

  /** Over any interleaving in which no row is read or inserted after its token's exp, the same requests
      are served whether or not old revocation rows are deleted. */
  lemma {:induction false} CleanupUnobservable(slack: int, s: State, t: State, es: seq<Event>)
    requires slack <= 0 && Valid(s) && Valid(t) && Alike(s, t) && TimelyRun(slack, true, s, es)
    ensures Served(true, s, es) == Served(false, t, es)
    decreases |es|
  {
    hide Valid, Alike, Timely, Next;
    if es != [] {
      AlikeNext(slack, s, t, es[0]);
      NextValid(true, s, es[0]);
      NextValid(false, t, es[0]);
      CleanupUnobservable(slack, Next(true, s, es[0]).0, Next(false, t, es[0]).0, es[1..]);
    }
  }

  // ---- A refresh token is spent once ----

  /** This event rotates the token j. */
  predicate Rotates(gc: bool, s: State, e: Event, j: nat) {
    e.Resume? && e.request in s.pending && s.pending[e.request].stage == Rotating && s.pending[e.request].jti == j
      && Next(gc, s, e).1
  }

  function Rotations(gc: bool, s: State, es: seq<Event>, j: nat): nat
    decreases |es|
  {
    if es == [] then 0 else
    (if Rotates(gc, s, es[0], j) then 1 else 0) + Rotations(gc, Next(gc, s, es[0]).0, es[1..], j)
  }

  /** Spent for good: the row is there, or the time for a timely insert has passed. */
  predicate Spent(s: State, j: nat) {
    j in s.tokens && (j in s.revoked || s.tokens[j].exp < s.now)
  }

  lemma AdvanceSpent(s: State, q: nat, p: Pending, a: int, r: int, j: nat)
    requires Tables(s) && (AtRow(p) ==> p.jti in s.tokens) && Spent(s, j)
    ensures Spent(Advance(s, q, p, a, r).0, j)
  {
    AdvanceGrows(s, q, p, a, r);
    AdvanceShape(s, q, p, a, r);
    hide Advance, Tables, Accepts, Decodes;
  }

  lemma SpentNext(gc: bool, s: State, e: Event, j: nat)
    requires Valid(s) && Spent(s, j)
    ensures Spent(Next(gc, s, e).0, j)
  {
    hide Arrive, Advance;
    match e
    case Resume(q, a, r) =>
      if q in s.pending {
        AdvanceSpent(s, q, s.pending[q], a, r, j);
      }
    case AskAccess(_, _, _) => ArriveShape(s, e);
    case AskRefresh(_, _) => ArriveShape(s, e);
    case AskLogout(_, _, _, _) => ArriveShape(s, e);
    case _ =>
  }

  lemma RotatesNeedsUnspent(slack: int, gc: bool, s: State, e: Event, j: nat)
    requires slack <= 0 && Valid(s) && Timely(slack, s, e) && Rotates(gc, s, e, j)
    ensures !Spent(s, j) && Spent(Next(gc, s, e).0, j)
  {
    var p := s.pending[e.request];
    RotateSpends(s, j, e.accessExp, e.refreshExp);
    AdvanceShape(s, e.request, p, e.accessExp, e.refreshExp);
    assert Effect(s, p, e.accessExp, e.refreshExp) == Rotate(s, j, e.accessExp, e.refreshExp);
    hide Rotate, Tables, Become, Onward;
  }

  lemma RotateSpends(s: State, j: nat, a: int, r: int)
    ensures Rotate(s, j, a, r).1 ==> j !in s.revoked && j in s.tokens
    ensures Rotate(s, j, a, r).1 && Tables(s) ==> Spent(Rotate(s, j, a, r).0, j)
  {
  }

  lemma {:induction false} SpentNeverRotates(slack: int, gc: bool, s: State, es: seq<Event>, j: nat)
    requires slack <= 0 && Valid(s) && Spent(s, j) && TimelyRun(slack, gc, s, es)
    ensures Rotations(gc, s, es, j) == 0
    decreases |es|
  {
    hide Valid, Spent, Timely, Next, Rotates;
    if es != [] {
      SpentNext(gc, s, es[0], j);
      NextValid(gc, s, es[0]);
      if Rotates(gc, s, es[0], j) {
        RotatesNeedsUnspent(slack, gc, s, es[0], j);
      }
      SpentNeverRotates(slack, gc, Next(gc, s, es[0]).0, es[1..], j);
    }
  }

  /** However requests, clean-ups and the clock interleave, a refresh token is rotated at most once. */
  lemma {:induction false} RotatesAtMostOnce(slack: int, gc: bool, s: State, es: seq<Event>, j: nat)
    requires slack <= 0 && Valid(s) && TimelyRun(slack, gc, s, es)
    ensures Rotations(gc, s, es, j) <= 1
    decreases |es|
  {
    hide Valid, Spent, Timely, Next, Rotates;
    if es != [] {
      NextValid(gc, s, es[0]);
      if Rotates(gc, s, es[0], j) {
        RotatesNeedsUnspent(slack, gc, s, es[0], j);
        SpentNeverRotates(slack, gc, Next(gc, s, es[0]).0, es[1..], j);
      } else {
        RotatesAtMostOnce(slack, gc, Next(gc, s, es[0]).0, es[1..], j);
      }
    }
  }

  // ---- A login has one usable descendant ----

  /** Neither revoked nor past its exp. */
  predicate Live(s: State, j: nat) {
    j in s.root && j in s.tokens && j !in s.revoked && s.now <= s.tokens[j].exp
  }

  ghost predicate OneLivePerLogin(s: State) {
    forall i, j | Live(s, i) && Live(s, j) && s.root[i] == s.root[j] :: i == j
  }

  /** Roots are refresh tokens themselves. */
  ghost predicate RootsBelow(s: State) {
    forall j | j in s.root :: s.root[j] < s.next
  }

  ghost predicate Lineages(s: State) {
    OneLivePerLogin(s) && RootsBelow(s)
  }

  /** An event that makes no token live keeps the invariant. */
  lemma FewerLive(s: State, s': State)
    requires Lineages(s) && s'.root == s.root && s'.next >= s.next
    requires forall j | Live(s', j) :: Live(s, j)
    ensures Lineages(s')
  {
  }

  /** A new token of a lineage in which nothing else is live. */
  lemma IssueOneLive(s: State, user: string, a: int, r: int, root: nat)
    requires Tables(s) && Lineages(s) && root < s.next + 2
    requires forall j | Live(s, j) :: s.root[j] != root
    ensures Lineages(Issue(s, user, a, r, root))
  {
    var s' := Issue(s, user, a, r, root);
    forall j | Live(s', j)
      ensures j == s.next + 1 || (Live(s, j) && s'.root[j] == s.root[j])
    {
    }
  }

  /** A new token that is no refresh token makes none live. */
  lemma SignResetLive(s: State, user: string, exp: int)
    requires Tables(s)
    ensures forall j | Live(SignReset(s, user, exp), j) :: Live(s, j)
  {
  }

  lemma RevokeLineages(s: State, j: nat)
    requires Lineages(s)
    ensures Lineages(Revoke(s, j).0)
  {
    FewerLive(s, Revoke(s, j).0);
  }

  lemma RotateLineages(s: State, j: nat, a: int, r: int)
    requires Tables(s) && Lineages(s) && j in s.root && j in s.tokens && s.now <= s.tokens[j].exp
    ensures Lineages(Rotate(s, j, a, r).0)
  {
    var s' := Revoke(s, j).0;
    RevokeLineages(s, j);
    RevokeTables(s, j);
    if j !in s.revoked {
      assert Live(s, j) && !Live(s', j);
      assert forall i | Live(s', i) :: Live(s, i) && s.root[i] != s.root[j];
      IssueOneLive(s', s.tokens[j].sub, a, r, s.root[j]);
    }
    hide Issue, Tables, Lineages, OneLivePerLogin, RootsBelow;
  }

  lemma AdvanceLineages(s: State, q: nat, p: Pending, a: int, r: int)
    requires Tables(s) && Lineages(s)
    requires p.stage == Rotating ==> p.jti in s.root && p.jti in s.tokens && s.now <= s.tokens[p.jti].exp
    ensures Lineages(Advance(s, q, p, a, r).0)
  {
    hide Advance, Tables, Lineages, Rotate, Revoke;
    if p.stage == Rotating {
      RotateLineages(s, p.jti, a, r);
    }
    RevokeLineages(s, p.jti);
    AdvanceShape(s, q, p, a, r);
    FewerLive(Effect(s, p, a, r).0, Advance(s, q, p, a, r).0);
  }

  lemma LineagesNext(slack: int, gc: bool, s: State, e: Event)
    requires slack <= 0 && Valid(s) && Lineages(s) && Timely(slack, s, e)
    ensures Lineages(Next(gc, s, e).0)
  {
    hide Arrive, Advance, Issue, OneLivePerLogin;
    match e
    case Login(u, a, r) =>
      assert forall j | Live(s, j) :: s.root[j] != s.next + 1;
      IssueOneLive(s, u, a, r, s.next + 1);
    case Resume(q, a, r) =>
      if q in s.pending {
        AdvanceLineages(s, q, s.pending[q], a, r);
      }
    case RequestReset(u, x) =>
      SignResetLive(s, u, x);
      FewerLive(s, Next(gc, s, e).0);
    case Tick(_) => FewerLive(s, Next(gc, s, e).0);
    case SetUsers(_) => FewerLive(s, Next(gc, s, e).0);
    case Cleanup => CleanupLineages(gc, s);
    case _ =>
      ArriveShape(s, e);
      FewerLive(s, Next(gc, s, e).0);
  }

  lemma CleanupLineages(gc: bool, s: State)
    requires Tables(s) && Lineages(s)
    ensures Lineages(Next(gc, s, Cleanup).0)
  {
    FewerLive(s, Next(gc, s, Cleanup).0);
  }

  lemma {:induction false} OneLiveAlways(slack: int, gc: bool, s: State, es: seq<Event>)
    requires slack <= 0 && Valid(s) && Lineages(s) && TimelyRun(slack, gc, s, es)
    ensures Valid(After(gc, s, es)) && Lineages(After(gc, s, es))
    decreases |es|
  {
    hide Valid, Lineages, Timely, Next;
    if es != [] {
      NextValid(gc, s, es[0]);
      LineagesNext(slack, gc, s, es[0]);
      OneLiveAlways(slack, gc, Next(gc, s, es[0]).0, es[1..]);
    }
  }

  /** The guards of the refresh handler. */
  predicate MayRefresh(s: State, j: nat) {
    DecodesAs(s, j, Refresh) && Accepts(s, j)
  }

  lemma MayRefreshIsLive(s: State, j: nat)
    requires Tables(s) && MayRefresh(s, j)
    ensures Live(s, j)
  {
  }

  /** At every moment of every run of timely requests, each login has at most one descendant that the
      refresh handler could accept. */
  lemma OneUsablePerLogin(slack: int, gc: bool, now: int, users: set<string>, es: seq<Event>, i: nat, j: nat)
    requires slack <= 0 && TimelyRun(slack, gc, Initial(now, users), es)
    requires MayRefresh(After(gc, Initial(now, users), es), i) && MayRefresh(After(gc, Initial(now, users), es), j)
    ensures var root := After(gc, Initial(now, users), es).root;
      i in root && j in root && (root[i] == root[j] ==> i == j)
  {
    OneLiveAlways(slack, gc, Initial(now, users), es);
    hide After, Next, TimelyRun, Tables;
    MayRefreshIsLive(After(gc, Initial(now, users), es), i);
    MayRefreshIsLive(After(gc, Initial(now, users), es), j);
  }

  // ---- A logout ends a login ----

  /** No token of the lineage is live. */
  ghost predicate Ended(s: State, root: nat) {
    root < s.next && forall j | Live(s, j) :: s.root[j] != root
  }

  lemma FewerLiveEnded(s: State, s': State, root: nat)
    requires Ended(s, root) && s'.root == s.root && s'.next >= s.next
    requires forall j | Live(s', j) :: Live(s, j)
    ensures Ended(s', root)
  {
  }

  lemma IssueEnded(s: State, user: string, a: int, r: int, lineage: nat, root: nat)
    requires Tables(s) && Ended(s, root) && lineage != root
    ensures Ended(Issue(s, user, a, r, lineage), root)
  {
    var s' := Issue(s, user, a, r, lineage);
    forall j | Live(s', j)
      ensures j == s.next + 1 || (Live(s, j) && s'.root[j] == s.root[j])
    {
    }
  }

  lemma RotateEnded(s: State, j: nat, a: int, r: int, root: nat)
    requires Tables(s) && Ended(s, root) && j in s.root && j in s.tokens && s.now <= s.tokens[j].exp
    ensures Ended(Rotate(s, j, a, r).0, root)
  {
    var s' := Revoke(s, j).0;
    RevokeTables(s, j);
    FewerLiveEnded(s, s', root);
    if j !in s.revoked {
      assert Live(s, j);
      IssueEnded(s', s.tokens[j].sub, a, r, s.root[j], root);
    }
    hide Issue, Tables, Ended;
  }

  lemma AdvanceEnded(s: State, q: nat, p: Pending, a: int, r: int, root: nat)
    requires Tables(s) && Ended(s, root)
    requires p.stage == Rotating ==> p.jti in s.root && p.jti in s.tokens && s.now <= s.tokens[p.jti].exp
    ensures Ended(Advance(s, q, p, a, r).0, root)
  {
    hide Advance, Tables, Ended, Rotate;
    if p.stage == Rotating {
      RotateEnded(s, p.jti, a, r, root);
    }
    FewerLiveEnded(s, Revoke(s, p.jti).0, root);
    hide Revoke;
    AdvanceShape(s, q, p, a, r);
    FewerLiveEnded(Effect(s, p, a, r).0, Advance(s, q, p, a, r).0, root);
  }

  lemma EndedNext(slack: int, gc: bool, s: State, e: Event, root: nat)
    requires slack <= 0 && Valid(s) && Ended(s, root) && Timely(slack, s, e)
    ensures Ended(Next(gc, s, e).0, root)
  {
    hide Arrive, Advance, Issue;
    match e
    case Login(u, a, r) => IssueEnded(s, u, a, r, s.next + 1, root);
    case Resume(q, a, r) =>
      if q in s.pending {
        AdvanceEnded(s, q, s.pending[q], a, r, root);
      }
    case RequestReset(u, x) =>
      SignResetLive(s, u, x);
      FewerLiveEnded(s, Next(gc, s, e).0, root);
    case Tick(_) => FewerLiveEnded(s, Next(gc, s, e).0, root);
    case SetUsers(_) => FewerLiveEnded(s, Next(gc, s, e).0, root);
    case Cleanup => FewerLiveEnded(s, Next(gc, s, e).0, root);
    case _ =>
      ArriveShape(s, e);
      FewerLiveEnded(s, Next(gc, s, e).0, root);
  }

  lemma {:induction false} EndedAlways(slack: int, gc: bool, s: State, es: seq<Event>, root: nat)
    requires slack <= 0 && Valid(s) && Ended(s, root) && TimelyRun(slack, gc, s, es)
    ensures Valid(After(gc, s, es)) && Ended(After(gc, s, es), root)
    decreases |es|
  {
    hide Valid, Ended, Timely, Next;
    if es != [] {
      NextValid(gc, s, es[0]);
      EndedNext(slack, gc, s, es[0], root);
      EndedAlways(slack, gc, Next(gc, s, es[0]).0, es[1..], root);
    }
  }

  /** This event is the insert of a logout for the refresh token j. */
  predicate LogsOut(s: State, e: Event, j: nat) {
    e.Resume? && e.request in s.pending && s.pending[e.request].stage == RevokingRefresh
      && s.pending[e.request].jti == j && j in s.root && j in s.tokens
  }

  /** A served insert finds the token live, and so the only live one of its lineage. */
  lemma LogoutEnds(slack: int, gc: bool, s: State, e: Event, j: nat)
    requires slack <= 0 && Valid(s) && Lineages(s) && Timely(slack, s, e) && LogsOut(s, e, j) && Next(gc, s, e).1
    ensures Ended(Next(gc, s, e).0, s.root[j])
  {
    var p, s' := s.pending[e.request], Revoke(s, j).0;
    assert Effect(s, p, e.accessExp, e.refreshExp) == Revoke(s, j);
    assert Live(s, j) && !Live(s', j);
    assert forall i | Live(s', i) :: Live(s, i) && i != j;
    AdvanceShape(s, e.request, p, e.accessExp, e.refreshExp);
    hide Valid, Tables, Onward, Effect, Become;
    assert Ended(s', s.root[j]);
    FewerLiveEnded(s', Next(gc, s, e).0, s.root[j]);
  }

  /** What a logout achieves, over every run of timely requests from the empty database: once its insert for
      a refresh token is served, no token of that login is ever accepted for a refresh again, whatever
      requests are under way and whatever follows. */
  lemma {:induction false} LogoutEndsLineage(slack: int, gc: bool, now: int, users: set<string>, before: seq<Event>,
                                             e: Event, more: seq<Event>, j: nat, i: nat)
    requires slack <= 0 && TimelyRun(slack, gc, Initial(now, users), before)
    requires var s := After(gc, Initial(now, users), before);
      Timely(slack, s, e) && LogsOut(s, e, j) && Next(gc, s, e).1 && TimelyRun(slack, gc, Next(gc, s, e).0, more)
    ensures var s := After(gc, Initial(now, users), before);
      var t := After(gc, Next(gc, s, e).0, more);
      MayRefresh(t, i) ==> i in t.root && t.root[i] != s.root[j]
  {
    OneLiveAlways(slack, gc, Initial(now, users), before);
    hide After, Next, TimelyRun, Valid, Lineages, Initial, Timely, LogsOut, Live;
    var s := After(gc, Initial(now, users), before);
    LogoutEnds(slack, gc, s, e, j);
    NextValid(gc, s, e);
    EndedAlways(slack, gc, Next(gc, s, e).0, more, s.root[j]);
    EndedRefused(After(gc, Next(gc, s, e).0, more), s.root[j], i);
  }

  lemma EndedRefused(t: State, root: nat, i: nat)
    requires Valid(t) && Ended(t, root)
    ensures MayRefresh(t, i) ==> i in t.root && t.root[i] != root
  {
    if MayRefresh(t, i) {
      MayRefreshIsLive(t, i);
    }
  }

  // ---- The time limit is exact ----

  lemma Cons(slack: int, gc: bool, s: State, e: Event, es: seq<Event>, j: nat)
    ensures var t := Next(gc, s, e).0;
      && After(gc, s, [e] + es) == After(gc, t, es)
      && Served(gc, s, [e] + es) == [Next(gc, s, e).1] + Served(gc, t, es)
      && (TimelyRun(slack, gc, s, [e] + es) <==> Timely(slack, s, e) && TimelyRun(slack, gc, t, es))
      && Rotations(gc, s, [e] + es, j) == (if Rotates(gc, s, e, j) then 1 else 0) + Rotations(gc, t, es, j)
  {
    hide Next, Timely, Rotates;
    assert ([e] + es)[1..] == es;
  }

  /** This event is served, rotates j as said, and is in time. */
  predicate Goes(slack: int, gc: bool, s: State, e: Event, j: nat, served: bool, rotates: bool, t: State) {
    Next(gc, s, e) == (t, served) && Rotates(gc, s, e, j) == rotates && Timely(slack, s, e)
  }

  lemma ConsGoes(slack: int, gc: bool, s: State, e: Event, es: seq<Event>, j: nat, served: bool, rotates: bool,
                 t: State)
    requires Goes(slack, gc, s, e, j, served, rotates, t)
    ensures Served(gc, s, [e] + es) == [served] + Served(gc, t, es)
    ensures Rotations(gc, s, [e] + es, j) == (if rotates then 1 else 0) + Rotations(gc, t, es, j)
    ensures TimelyRun(slack, gc, s, [e] + es) <==> TimelyRun(slack, gc, t, es)
  {
    hide Next, Rotates, Timely, Served, Rotations, TimelyRun;
    Cons(slack, gc, s, e, es, j);
  }

  /** Two requests check the same token and the first spends it; the token expires and its row is
      collected; the second request spends it again. */
  function BothCheck(j: nat): seq<Event> {
    [AskRefresh(0, j), AskRefresh(1, j), Resume(0, 0, 0), Resume(1, 0, 0)]
  }

  function LateInsert(wait: nat): seq<Event> {
    [Resume(0, 0, 0), Tick(wait), Cleanup, Resume(1, 0, 0)]
  }

  function Rotator(j: nat): Pending {
    Pending(Rotating, j, "", None)
  }

  lemma AskStep(gc: bool, s: State, q: nat, j: nat)
    requires MayRefresh(s, j) && q !in s.pending
    ensures Next(gc, s, AskRefresh(q, j)) == (Put(s, q, Rotator(j).(stage := CheckingRefresh)), true)
    ensures Goes(0, gc, s, AskRefresh(q, j), j, true, false, Put(s, q, Rotator(j).(stage := CheckingRefresh)))
  {
  }

  lemma CheckStep(gc: bool, s: State, q: nat, j: nat)
    requires MayRefresh(s, j) && q in s.pending && s.pending[q] == Rotator(j).(stage := CheckingRefresh)
    ensures Next(gc, s, Resume(q, 0, 0)) == (Put(s, q, Rotator(j)), true)
    ensures Goes(0, gc, s, Resume(q, 0, 0), j, true, false, Put(s, q, Rotator(j)))
  {
    assert s.pending[q].(stage := Rotating) == Rotator(j);
  }

  lemma PendingOnly(s: State, t: State, j: nat)
    requires SameTables(s, t)
    ensures MayRefresh(s, j) == MayRefresh(t, j)
  {
  }

  lemma TimelyMore(slack: int, gc: bool, s: State, e: Event, j: nat, served: bool, rotates: bool, t: State)
    requires slack >= 0 && Goes(0, gc, s, e, j, served, rotates, t)
    ensures Goes(slack, gc, s, e, j, served, rotates, t)
  {
    hide Next, Rotates;
  }

  lemma TwoChecked(slack: int, gc: bool, s: State, j: nat, es: seq<Event>)
    requires MayRefresh(s, j) && 0 !in s.pending && 1 !in s.pending && slack >= 0
    ensures var t := s.(pending := s.pending[0 := Rotator(j)][1 := Rotator(j)]);
      && Rotations(gc, s, BothCheck(j) + es, j) == Rotations(gc, t, es, j)
      && Served(gc, s, BothCheck(j) + es) == [true, true, true, true] + Served(gc, t, es)
      && (TimelyRun(slack, gc, s, BothCheck(j) + es) <==> TimelyRun(slack, gc, t, es))
  {
    hide Goes, Served, TimelyRun, Rotations, MayRefresh;
    var p := Rotator(j).(stage := CheckingRefresh);
    var s1, s2 := Put(s, 0, p), Put(Put(s, 0, p), 1, p);
    var s3 := Put(s2, 0, Rotator(j));
    var t := Put(s3, 1, Rotator(j));
    PendingOnly(s, s1, j);
    PendingOnly(s, s2, j);
    PendingOnly(s, s3, j);
    AskStep(gc, s, 0, j);
    AskStep(gc, s1, 1, j);
    CheckStep(gc, s2, 0, j);
    CheckStep(gc, s3, 1, j);
    TimelyMore(slack, gc, s, AskRefresh(0, j), j, true, false, s1);
    TimelyMore(slack, gc, s1, AskRefresh(1, j), j, true, false, s2);
    TimelyMore(slack, gc, s2, Resume(0, 0, 0), j, true, false, s3);
    TimelyMore(slack, gc, s3, Resume(1, 0, 0), j, true, false, t);
    var r4 := [Resume(1, 0, 0)] + es;
    var r3 := [Resume(0, 0, 0)] + r4;
    var r2 := [AskRefresh(1, j)] + r3;
    ConsGoes(slack, gc, s, AskRefresh(0, j), r2, j, true, false, s1);
    ConsGoes(slack, gc, s1, AskRefresh(1, j), r3, j, true, false, s2);
    ConsGoes(slack, gc, s2, Resume(0, 0, 0), r4, j, true, false, s3);
    ConsGoes(slack, gc, s3, Resume(1, 0, 0), es, j, true, false, t);
    assert BothCheck(j) + es == [AskRefresh(0, j)] + r2;
    assert t.pending == s.pending[0 := Rotator(j)][1 := Rotator(j)];
    assert [true, true, true, true] + Served(gc, t, es) == [true] + ([true] + ([true] + ([true] + Served(gc, t, es))));
  }

  /** With cleanup the second insert is served, without it is not; it comes just after exp. */
  lemma SecondInsert(slack: int, gc: bool, t: State, j: nat)
    requires Valid(t) && MayRefresh(t, j) && slack >= 1
    requires 0 in t.pending && t.pending[0] == Rotator(j) && 1 in t.pending && t.pending[1] == Rotator(j)
    ensures var es := LateInsert(t.tokens[j].exp - t.now + 1);
      && Rotations(gc, t, es, j) == (if gc then 2 else 1)
      && Served(gc, t, es) == [true, true, true, gc]
      && TimelyRun(slack, gc, t, es)
  {
    var wait := t.tokens[j].exp - t.now + 1;
    var t1 := FirstInsert(slack, gc, t, j);
    hide Goes, Served, TimelyRun, Rotations, Valid, MayRefresh, SpentOnce;
    var t2, t3, t4 := LateSteps(slack, gc, t1, j, wait);
    var r4 := [Resume(1, 0, 0)] + [];
    var r3 := [Cleanup] + r4;
    var r2 := [Tick(wait)] + r3;
    ConsGoes(slack, gc, t, Resume(0, 0, 0), r2, j, true, true, t1);
    ConsGoes(slack, gc, t1, Tick(wait), r3, j, true, false, t2);
    ConsGoes(slack, gc, t2, Cleanup, r4, j, true, false, t3);
    ConsGoes(slack, gc, t3, Resume(1, 0, 0), [], j, gc, gc, t4);
    NoEvents(slack, gc, t4, j);
    assert LateInsert(wait) == [Resume(0, 0, 0)] + r2;
  }

  lemma NoEvents(slack: int, gc: bool, s: State, j: nat)
    ensures Served(gc, s, []) == [] && Rotations(gc, s, [], j) == 0 && TimelyRun(slack, gc, s, [])
  {
  }

  /** The token j is spent and one more request is about to spend it. */
  predicate SpentOnce(t: State, j: nat) {
    && 1 in t.pending && t.pending[1] == Rotator(j)
    && j in t.tokens && j in t.root && j in t.revoked && t.revoked[j] == t.tokens[j].exp
  }

  lemma FirstInsert(slack: int, gc: bool, t: State, j: nat) returns (t1: State)
    requires Valid(t) && MayRefresh(t, j) && slack >= 0
    requires 0 in t.pending && t.pending[0] == Rotator(j) && 1 in t.pending && t.pending[1] == Rotator(j)
    ensures Goes(slack, gc, t, Resume(0, 0, 0), j, true, true, t1)
    ensures SpentOnce(t1, j) && t1.tokens[j] == t.tokens[j] && t1.now == t.now
  {
    t1 := Next(gc, t, Resume(0, 0, 0)).0;
    assert t1 == Done(Rotate(t, j, 0, 0).0, 0);
  }

  lemma LateSteps(slack: int, gc: bool, t1: State, j: nat, wait: nat) returns (t2: State, t3: State, t4: State)
    requires SpentOnce(t1, j) && slack >= 1 && t1.now + wait == t1.tokens[j].exp + 1
    ensures Goes(slack, gc, t1, Tick(wait), j, true, false, t2)
    ensures Goes(slack, gc, t2, Cleanup, j, true, false, t3)
    ensures Goes(slack, gc, t3, Resume(1, 0, 0), j, gc, gc, t4)
  {
    t2 := t1.(now := t1.now + wait);
    t3 := Next(gc, t2, Cleanup).0;
    assert j in t3.revoked <==> !gc;
    t4 := Next(gc, t3, Resume(1, 0, 0)).0;
    RotateIff(t3, j);
    hide Rotate;
    assert Effect(t3, t3.pending[1], 0, 0) == Rotate(t3, j, 0, 0);
  }

  lemma RotateIff(s: State, j: nat)
    ensures Rotate(s, j, 0, 0).1 <==> j !in s.revoked && j in s.tokens && j in s.root
  {
  }

  lemma RotatorsValid(s: State, j: nat)
    requires Valid(s) && MayRefresh(s, j)
    ensures Valid(s.(pending := s.pending[0 := Rotator(j)][1 := Rotator(j)]))
  {
  }

  /** In any state with a usable refresh token, a second insert after exp is served if cleanup came first. */
  lemma LateInsertRotatesTwice(slack: int, s: State, j: nat)
    requires slack >= 1 && Valid(s) && MayRefresh(s, j) && 0 !in s.pending && 1 !in s.pending
    ensures var es := BothCheck(j) + LateInsert(s.tokens[j].exp - s.now + 1);
      && TimelyRun(slack, true, s, es) && Rotations(true, s, es, j) == 2
      && Served(true, s, es) != Served(false, s, es)
  {
    hide Valid, Served, Rotations, TimelyRun, BothCheck, LateInsert, Accepts;
    var t := s.(pending := s.pending[0 := Rotator(j)][1 := Rotator(j)]);
    RotatorsValid(s, j);
    PendingOnly(s, t, j);
    var es := LateInsert(s.tokens[j].exp - s.now + 1);
    TwoChecked(slack, true, s, j, es);
    SecondInsert(slack, true, t, j);
    TwoChecked(slack, false, s, j, es);
    SecondInsert(slack, false, t, j);
    assert Served(true, s, BothCheck(j) + es)[7] && !Served(false, s, BothCheck(j) + es)[7];
  }

  lemma ConsDiffers(b: bool, x: seq<bool>, y: seq<bool>)
    requires x != y
    ensures [b] + x != [b] + y
  {
    assert ([b] + x)[1..] == x && ([b] + y)[1..] == y;
  }

  /** One user, one login, and both of its tokens expire at 1. */
  function LateRun(): seq<Event> {
    [Login("u", 1, 1)] + (BothCheck(1) + LateInsert(2))
  }

  lemma FirstLogin(gc: bool)
    ensures var s0, s := Initial(0, {"u"}), Issue(Initial(0, {"u"}), "u", 1, 1, 1);
      && Next(gc, s0, Login("u", 1, 1)) == (s, true) && !Rotates(gc, s0, Login("u", 1, 1), 1)
      && Timely(1, s0, Login("u", 1, 1))
      && Valid(s) && MayRefresh(s, 1) && 0 !in s.pending && 1 !in s.pending
      && s.tokens[1].exp == 1 && s.now == 0
  {
  }

  lemma LateRunRotatesTwice(slack: int)
    requires slack >= 1
    ensures TimelyRun(slack, true, Initial(0, {"u"}), LateRun())
    ensures Rotations(true, Initial(0, {"u"}), LateRun(), 1) == 2
    ensures Served(true, Initial(0, {"u"}), LateRun()) != Served(false, Initial(0, {"u"}), LateRun())
  {
    var s0 := Initial(0, {"u"});
    var s := Issue(s0, "u", 1, 1, 1);
    FirstLogin(true);
    FirstLogin(false);
    hide Initial, Issue, Next, MayRefresh, Valid, BothCheck, LateInsert, Rotates, Served, TimelyRun, Rotations;
    LateInsertRotatesTwice(slack, s, 1);
    var es := BothCheck(1) + LateInsert(2);
    Cons(slack, true, s0, Login("u", 1, 1), es, 1);
    Cons(slack, false, s0, Login("u", 1, 1), es, 1);
    ConsDiffers(true, Served(true, s, es), Served(false, s, es));
  }

  /** Deleting old revocation rows is unobservable over all runs, from the empty database on, in which rows
      are read and inserted at most `slack` after exp, exactly when the slack is not positive. */
  lemma CleanupUnobservableIff(slack: int)
    ensures slack <= 0 <==>
      forall now: int, users: set<string>, es: seq<Event> | TimelyRun(slack, true, Initial(now, users), es) ::
        Served(true, Initial(now, users), es) == Served(false, Initial(now, users), es)
  {
    if slack <= 0 {
      forall now: int, users: set<string>, es: seq<Event> | TimelyRun(slack, true, Initial(now, users), es)
        ensures Served(true, Initial(now, users), es) == Served(false, Initial(now, users), es)
      {
        CleanupUnobservable(slack, Initial(now, users), Initial(now, users), es);
      }
    } else {
      LateRunRotatesTwice(slack);
    }
  }

  /** and so is it that no refresh token is rotated twice. */
  lemma RotatesOnceIff(slack: int)
    ensures slack <= 0 <==>
      forall now: int, users: set<string>, es: seq<Event>, j: nat | TimelyRun(slack, true, Initial(now, users), es) ::
        Rotations(true, Initial(now, users), es, j) <= 1
  {
    if slack <= 0 {
      forall now: int, users: set<string>, es: seq<Event>, j: nat | TimelyRun(slack, true, Initial(now, users), es)
        ensures Rotations(true, Initial(now, users), es, j) <= 1
      {
        RotatesAtMostOnce(slack, true, Initial(now, users), es, j);
      }
    } else {
      LateRunRotatesTwice(slack);
    }
  }

  // ---- Requests that nothing interrupts are timely ----

  /** Every request at a token's row has decoded the token without time passing since. */
  ghost predicate JustDecoded(s: State) {
    forall q | q in s.pending && AtRow(s.pending[q]) && s.pending[q].jti in s.tokens ::
      s.now < s.tokens[s.pending[q].jti].exp
  }

  lemma AdvanceJustDecoded(s: State, q: nat, a: int, r: int)
    requires Valid(s) && JustDecoded(s) && q in s.pending
    ensures JustDecoded(Advance(s, q, s.pending[q], a, r).0)
  {
    var p, t := s.pending[q], Advance(s, q, s.pending[q], a, r).0;
    AdvanceGrows(s, q, p, a, r);
    AdvanceSelf(s, q, p, a, r);
    AdvanceShape(s, q, p, a, r);
    hide Advance, Tables;
    forall x | x in t.pending && AtRow(t.pending[x]) && t.pending[x].jti in t.tokens
      ensures t.now < t.tokens[t.pending[x].jti].exp
    {
      if x != q {
        AdvanceOther(s, q, p, a, r, x);
      }
      assert t.now == s.now;
    }
  }

  lemma JustDecodedNext(gc: bool, s: State, e: Event)
    requires Valid(s) && JustDecoded(s) && !e.Tick?
    ensures JustDecoded(Next(gc, s, e).0)
  {
    hide Advance;
    match e
    case Resume(q, a, r) =>
      if q in s.pending {
        AdvanceJustDecoded(s, q, a, r);
      }
    case Login(u, a, r) => hide Arrive;
    case RequestReset(_, _) => hide Arrive;
    case SetUsers(_) => hide Arrive;
    case Cleanup => hide Arrive;
    case _ =>
  }

  /** Whatever requests interleave, those that begin and end while the clock stands still are timely. */
  lemma {:induction false} InstantIsTimely(gc: bool, s: State, es: seq<Event>)
    requires Valid(s) && JustDecoded(s) && forall e | e in es :: !e.Tick?
    ensures TimelyRun(0, gc, s, es)
    decreases |es|
  {
    if es != [] {
      assert Timely(0, s, es[0]);
      JustDecodedNext(gc, s, es[0]);
      NextValid(gc, s, es[0]);
      hide Valid, JustDecoded, Timely, Next;
      InstantIsTimely(gc, Next(gc, s, es[0]).0, es[1..]);
    }
  }

  // ---- The code, one request at a time ----

  /** An event on the deployment that runs cleanup. */
  function Then(s: State, e: Event): State {
    Next(true, s, e).0
  }

  /** The next step of the only request. */
  function Step(s: State, accessExp: int, refreshExp: int): State {
    Then(s, Resume(0, accessExp, refreshExp))
  }

  function CurrentUser(s: State, bearer: Option<nat>, key: ApiKeyCheck): Option<string> {
    match key
    case KeyUser(u) => Some(u)
    case BadKey => None
    case NoKey =>
      if bearer.Some? && DecodesAs(s, bearer.value, Access) && Accepts(s, bearer.value)
      then Some(s.tokens[bearer.value].sub) else None
  }

  function RefreshAtOnce(s: State, jti: nat, accessExp: int, refreshExp: int): (State, bool) {
    if MayRefresh(s, jti) then Rotate(s, jti, accessExp, refreshExp) else (s, false)
  }

  /** A logout without interruption, and whether it is answered with success. */
  function LogoutAtOnce(s: State, bearer: Option<nat>, refresh: Option<nat>, user: Option<string>): (State, bool) {
    if user.None? || bearer.None? || !Decodes(s, bearer.value) then (s, false) else
    var (s', ok) := Revoke(s, bearer.value);
    if ok && refresh.Some? then RevokeOwn(s', user.value, refresh.value) else (s', ok)
  }

  /** Revoke the refresh token sent with a logout, if it is the user's. */
  function RevokeOwn(s: State, user: string, token: nat): (State, bool) {
    if !Decodes(s, token) then (s, false)
    else if s.tokens[token].sub != user then (s, true)
    else Revoke(s, token)
  }

  /** An uninterrupted check of an access token is its two steps. */
  lemma CurrentUserIsItsSteps(s: State, bearer: Option<nat>, key: ApiKeyCheck)
    requires s.pending == map[]
    ensures var (s1, asked) := Next(true, s, AskAccess(0, bearer, key));
      && (CurrentUser(s, bearer, key).Some? <==> asked && (s1.pending != map[] ==> Next(true, s1, Resume(0, 0, 0)).1))
      && Step(s1, 0, 0) == s
  {
    var s1 := Then(s, AskAccess(0, bearer, key));
    if s1.pending != map[] {
      assert Done(s1, 0) == s;
    }
  }

  /** An uninterrupted refresh is its three steps, and succeeds exactly when the guards hold. */
  lemma RefreshIsItsSteps(s: State, jti: nat, accessExp: int, refreshExp: int)
    requires Valid(s) && s.pending == map[]
    ensures RefreshAtOnce(s, jti, accessExp, refreshExp)
         == (Step(Step(Then(s, AskRefresh(0, jti)), 0, 0), accessExp, refreshExp), MayRefresh(s, jti))
  {
    if MayRefresh(s, jti) {
      RefreshSteps(s, jti, accessExp, refreshExp);
    } else {
      RefusedSteps(s, jti, accessExp, refreshExp);
    }
    hide MayRefresh, Rotate, Step, Then;
  }

  lemma RefreshSteps(s: State, jti: nat, accessExp: int, refreshExp: int)
    requires Valid(s) && s.pending == map[] && MayRefresh(s, jti)
    ensures Rotate(s, jti, accessExp, refreshExp)
         == (Step(Step(Then(s, AskRefresh(0, jti)), 0, 0), accessExp, refreshExp), true)
  {
    var p := Rotator(jti).(stage := CheckingRefresh);
    var s1 := Put(s, 0, p);
    AskStep(true, s, 0, jti);
    PendingOnly(s, s1, jti);
    CheckStep(true, s1, 0, jti);
    RotateStep(s, Put(s1, 0, Rotator(jti)), jti, accessExp, refreshExp);
    hide MayRefresh, Rotate, Next;
  }

  lemma RotateStep(s: State, t: State, jti: nat, accessExp: int, refreshExp: int)
    requires Valid(s) && s.pending == map[] && MayRefresh(s, jti) && t == s.(pending := map[0 := Rotator(jti)])
    ensures Next(true, t, Resume(0, accessExp, refreshExp)) == Rotate(s, jti, accessExp, refreshExp)
    ensures Rotate(s, jti, accessExp, refreshExp).1
  {
    assert Done(Rotate(t, jti, accessExp, refreshExp).0, 0) == Rotate(s, jti, accessExp, refreshExp).0;
  }

  lemma RefusedSteps(s: State, jti: nat, accessExp: int, refreshExp: int)
    requires s.pending == map[] && !MayRefresh(s, jti)
    ensures Step(Step(Then(s, AskRefresh(0, jti)), 0, 0), accessExp, refreshExp) == s
  {
    var s1 := Then(s, AskRefresh(0, jti));
    if s1.pending != map[] {
      assert Done(s1, 0) == s;
    }
  }

  function LoggingOutState(s: State, bearer: nat, user: string, refresh: Option<nat>): State {
    s.(pending := map[0 := Pending(LoggingOut, bearer, user, refresh)])
  }

  /** The check of a logout: the state in which it has its user. */
  lemma LogoutCheckSteps(s: State, bearer: nat, refresh: Option<nat>, key: ApiKeyCheck)
    requires s.pending == map[]
    ensures var user, s1 := CurrentUser(s, Some(bearer), key), Then(s, AskLogout(0, Some(bearer), refresh, key));
      var s2 := if key.NoKey? then Step(s1, 0, 0) else s1;
      s2 == if user.None? then s else LoggingOutState(s, bearer, user.value, refresh)
  {
    var s1 := Then(s, AskLogout(0, Some(bearer), refresh, key));
    if key.NoKey? && s1.pending != map[] {
      assert Done(s1, 0) == s;
      assert s1.pending[0] == Pending(CheckingLogout, bearer, "", refresh);
    }
  }

  /** Its insertions: decode and insert the bearer token, then decode and insert the refresh token. */
  lemma LogoutInsertSteps(s: State, bearer: nat, user: string, refresh: Option<nat>)
    requires s.pending == map[]
    ensures Step(Step(Step(Step(LoggingOutState(s, bearer, user, refresh), 0, 0), 0, 0), 0, 0), 0, 0)
         == LogoutAtOnce(s, Some(bearer), refresh, Some(user)).0
  {
    var s1 := LoggingOutState(s, bearer, user, refresh);
    var s3 := Step(Step(s1, 0, 0), 0, 0);
    BearerSteps(s, bearer, user, refresh);
    var (r, ok) := Revoke(s, bearer);
    if !Decodes(s, bearer) || !ok || refresh.None? {
      NothingPending(s3);
      NothingPending(Step(s3, 0, 0));
    } else {
      OwnSteps(r, user, refresh.value);
    }
    hide Step, Revoke, Decodes, RevokeOwn;
  }

  lemma NothingPending(s: State)
    requires s.pending == map[]
    ensures Step(s, 0, 0) == s
  {
  }

  lemma BearerSteps(s: State, bearer: nat, user: string, refresh: Option<nat>)
    requires s.pending == map[]
    ensures var t, (r, ok) := Step(Step(LoggingOutState(s, bearer, user, refresh), 0, 0), 0, 0), Revoke(s, bearer);
      t == if !Decodes(s, bearer) then s else if ok && refresh.Some?
           then r.(pending := map[0 := Pending(LoggedOut, refresh.value, user, None)]) else r
  {
    var s1 := LoggingOutState(s, bearer, user, refresh);
    assert Done(s1, 0) == s;
    var s2 := Step(s1, 0, 0);
    if Decodes(s, bearer) {
      assert s2 == s.(pending := map[0 := Pending(RevokingBearer, bearer, user, refresh)]);
      assert Done(s2, 0) == s;
    }
  }

  lemma OwnSteps(s: State, user: string, token: nat)
    requires s.pending == map[]
    ensures Step(Step(s.(pending := map[0 := Pending(LoggedOut, token, user, None)]), 0, 0), 0, 0)
         == RevokeOwn(s, user, token).0
  {
    var s1 := s.(pending := map[0 := Pending(LoggedOut, token, user, None)]);
    assert Done(s1, 0) == s;
    var s2 := Step(s1, 0, 0);
    if Decodes(s, token) && s.tokens[token].sub == user {
      assert s2 == s.(pending := map[0 := Pending(RevokingRefresh, token, user, None)]);
      assert Done(s2, 0) == s;
    }
  }

  /** An uninterrupted logout is its steps: the check, which an API key spares, and the insertions. */
  lemma {:induction false} LogoutIsItsSteps(s: State, bearer: Option<nat>, refresh: Option<nat>, key: ApiKeyCheck)
    requires s.pending == map[]
    ensures var s1 := Then(s, AskLogout(0, bearer, refresh, key));
      var s2 := if key.NoKey? then Step(s1, 0, 0) else s1;
      LogoutAtOnce(s, bearer, refresh, CurrentUser(s, bearer, key)).0 ==
        Step(Step(Step(Step(s2, 0, 0), 0, 0), 0, 0), 0, 0)
  {
    NothingPending(s);
    if bearer.Some? {
      LogoutCheckSteps(s, bearer.value, refresh, key);
      var user := CurrentUser(s, bearer, key);
      if user.Some? {
        LogoutInsertSteps(s, bearer.value, user.value, refresh);
      }
    }
    hide Step, CurrentUser, LoggingOutState, Decodes;
  }

  // ---- What tokens are good for ----

  lemma NextGrows(gc: bool, s: State, e: Event)
    requires Valid(s)
    ensures Grows(s, Next(gc, s, e).0)
  {
    hide Arrive, Advance, Issue, SignReset, Tables;
    match e
    case Login(u, a, r) => IssueGrows(s, u, a, r, s.next + 1);
    case RequestReset(u, x) => SignResetValid(s, u, x);
    case Resume(q, a, r) =>
      if q in s.pending {
        AdvanceGrows(s, q, s.pending[q], a, r);
      }
    case AskAccess(_, _, _) => ArriveShape(s, e);
    case AskRefresh(_, _) => ArriveShape(s, e);
    case AskLogout(_, _, _, _) => ArriveShape(s, e);
    case _ =>
  }

  lemma GrowsMore(s: State, t: State, u: State)
    requires Grows(s, t) && Grows(t, u)
    ensures Grows(s, u)
  {
  }

  lemma {:induction false} GrowsAlways(gc: bool, s: State, es: seq<Event>)
    requires Valid(s)
    ensures Valid(After(gc, s, es)) && Grows(s, After(gc, s, es))
    decreases |es|
  {
    hide Valid, Next, Grows;
    if es == [] {
      GrowsItself(gc, s);
    } else {
      NextValid(gc, s, es[0]);
      NextGrows(gc, s, es[0]);
      GrowsAlways(gc, Next(gc, s, es[0]).0, es[1..]);
      GrowsMore(s, Next(gc, s, es[0]).0, After(gc, s, es));
    }
  }

  lemma GrowsItself(gc: bool, s: State)
    ensures After(gc, s, []) == s && Grows(s, s)
  {
  }

  /** Until it is revoked, the access token identifies the user exactly before accessExp and while the user
      exists, and the refresh token may be refreshed exactly before refreshExp and while the user exists.
      Neither passes for the other. */
  ghost predicate PairWorks(t: State, access: nat, refresh: nat, user: string, accessExp: int, refreshExp: int) {
    && CurrentUser(t, Some(access), NoKey)
       == (if t.now < accessExp && user in t.users && access !in t.revoked then Some(user) else None)
    && (MayRefresh(t, refresh) <==> t.now < refreshExp && user in t.users && refresh !in t.revoked)
    && CurrentUser(t, Some(refresh), NoKey) == None && !MayRefresh(t, access)
  }

  lemma IssuedWorks(s: State, t: State, user: string, a: int, r: int, root: nat)
    requires Tables(s) && Grows(Issue(s, user, a, r, root), t)
    ensures PairWorks(t, s.next, s.next + 1, user, a, r)
    ensures s.next !in Issue(s, user, a, r, root).revoked && s.next + 1 !in Issue(s, user, a, r, root).revoked
  {
    var s' := Issue(s, user, a, r, root);
    assert s.next in s'.tokens && s.next + 1 in s'.tokens;
  }

  /** A login is served exactly for a user who exists, and its two tokens, not revoked at first, work as said
      after every run that follows. */
  lemma {:induction false} LoginTokensWork(gc: bool, s: State, user: string, accessExp: int, refreshExp: int,
                                           es: seq<Event>)
    requires Valid(s)
    ensures var (s', ok) := Next(gc, s, Login(user, accessExp, refreshExp));
      && (ok <==> user in s.users)
      && (ok ==>
            && s.next !in s'.revoked && s.next + 1 !in s'.revoked
            && PairWorks(After(gc, s', es), s.next, s.next + 1, user, accessExp, refreshExp))
  {
    if user in s.users {
      var s' := Issue(s, user, accessExp, refreshExp, s.next + 1);
      assert Next(gc, s, Login(user, accessExp, refreshExp)) == (s', true);
      NextValid(gc, s, Login(user, accessExp, refreshExp));
      hide Next, Issue, After, PairWorks, Grows, Requests, Tables;
      GrowsAlways(gc, s', es);
      IssuedWorks(s, After(gc, s', es), user, accessExp, refreshExp, s.next + 1);
    }
  }

  /** After a served rotation the new tokens work for the subject of the spent one, which works no more. */
  lemma {:induction false} RotationTokensWork(gc: bool, s: State, q: nat, accessExp: int, refreshExp: int,
                                              es: seq<Event>)
    requires Valid(s) && q in s.pending && s.pending[q].stage == Rotating && s.pending[q].jti in s.tokens
    ensures var (s', ok) := Next(gc, s, Resume(q, accessExp, refreshExp));
      var spent := s.pending[q].jti;
      && (ok <==> spent !in s.revoked)
      && (ok ==>
            && s.next !in s'.revoked && s.next + 1 !in s'.revoked && !MayRefresh(After(gc, s', es), spent)
            && PairWorks(After(gc, s', es), s.next, s.next + 1, s.tokens[spent].sub, accessExp, refreshExp))
  {
    var (s', ok) := Next(gc, s, Resume(q, accessExp, refreshExp));
    var j := s.pending[q].jti;
    var r := Rotate(s, j, accessExp, refreshExp);
    assert j in s.root && (r.1 <==> j !in s.revoked);
    AdvanceShape(s, q, s.pending[q], accessExp, refreshExp);
    assert SameTables(r.0, s') && ok == r.1;
    if ok {
      NextValid(gc, s, Resume(q, accessExp, refreshExp));
      RotatedIssues(s, s', j, accessExp, refreshExp);
      hide Next, After, PairWorks, Rotate, Spent, MayRefresh, Valid, Tables;
      GrowsAlways(gc, s', es);
      RotatedWorks(s, s', After(gc, s', es), j, accessExp, refreshExp);
      RefusedAlways(gc, s', es, j);
    }
  }

  lemma RotatedIssues(s: State, s': State, j: nat, a: int, r: int)
    requires Tables(s) && Rotate(s, j, a, r).1 && SameTables(Rotate(s, j, a, r).0, s')
    ensures Spent(s', j) && s.next !in s'.revoked && s.next + 1 !in s'.revoked
  {
  }

  lemma RotatedWorks(s: State, s': State, t: State, j: nat, a: int, r: int)
    requires Tables(s) && Rotate(s, j, a, r).1 && SameTables(Rotate(s, j, a, r).0, s') && Grows(s', t) && j in s.tokens
    ensures PairWorks(t, s.next, s.next + 1, s.tokens[j].sub, a, r)
  {
    var u := Revoke(s, j).0;
    RevokeTables(s, j);
    IssuedWorks(u, t, s.tokens[j].sub, a, r, s.root[j]);
  }

  lemma {:induction false} SpentAlways(gc: bool, s: State, es: seq<Event>, j: nat)
    requires Valid(s) && Spent(s, j)
    ensures Spent(After(gc, s, es), j)
    decreases |es|
  {
    hide Valid, Next, Spent;
    if es != [] {
      NextValid(gc, s, es[0]);
      SpentNext(gc, s, es[0], j);
      SpentAlways(gc, Next(gc, s, es[0]).0, es[1..], j);
    }
  }

  /** A token revoked, or past its exp, is refused for ever, cleanup or not. */
  lemma {:induction false} RefusedAlways(gc: bool, s: State, es: seq<Event>, j: nat)
    requires Valid(s) && Spent(s, j)
    ensures CurrentUser(After(gc, s, es), Some(j), NoKey) == None && !MayRefresh(After(gc, s, es), j)
  {
    SpentAlways(gc, s, es, j);
    hide After;
  }

  /** A password-reset token is neither an access token nor a refresh token. */
  lemma {:induction false} ResetTokenIsNoLogin(gc: bool, s: State, user: string, exp: int, es: seq<Event>)
    requires Valid(s) && user in s.users
    ensures var t := After(gc, Next(gc, s, RequestReset(user, exp)).0, es);
      && s.next in t.tokens && t.tokens[s.next].sub == user && t.tokens[s.next].exp == exp
      && CurrentUser(t, Some(s.next), NoKey) == None && !MayRefresh(t, s.next)
  {
    var s' := SignReset(s, user, exp);
    assert Next(gc, s, RequestReset(user, exp)).0 == s';
    SignResetValid(s, user, exp);
    hide Next, After, Valid;
    GrowsAlways(gc, s', es);
  }

  // ---- What a logout does ----

  /** The refresh token sent with a logout belongs to its user. */
  predicate Owns(s: State, user: Option<string>, refresh: Option<nat>) {
    user.Some? && refresh.Some? && refresh.value in s.tokens && s.tokens[refresh.value].sub == user.value
  }

  /** An uninterrupted logout succeeds exactly when its bearer token can be revoked and the refresh token sent
      along, if any, decodes and, if it is the user's, can be revoked as well. */
  lemma LogoutServedIff(s: State, bearer: Option<nat>, refresh: Option<nat>, key: ApiKeyCheck)
    ensures var user := CurrentUser(s, bearer, key);
      LogoutAtOnce(s, bearer, refresh, user).1 <==>
        && user.Some? && bearer.Some? && Decodes(s, bearer.value) && bearer.value !in s.revoked
        && (refresh.Some? ==> Decodes(s, refresh.value))
        && (Owns(s, user, refresh) ==> refresh.value !in s.revoked && refresh != bearer)
  {
  }

  /** It revokes these tokens and no others, in a served logout both of them, and they are refused after every
      run that follows. */
  lemma {:induction false} LogoutLogsOut(gc: bool, s: State, bearer: Option<nat>, refresh: Option<nat>,
                                         key: ApiKeyCheck, es: seq<Event>)
    requires Valid(s)
    ensures var user := CurrentUser(s, bearer, key);
      var (s', ok) := LogoutAtOnce(s, bearer, refresh, user);
      var t := After(gc, s', es);
      && (forall j | j in s'.revoked && j !in s.revoked ::
            Some(j) == bearer || (Some(j) == refresh && Owns(s, user, refresh)))
      && (ok ==> bearer.Some? && CurrentUser(t, bearer, NoKey) == None)
      && (ok && Owns(s, user, refresh) ==>
            !MayRefresh(t, refresh.value) && CurrentUser(t, refresh, NoKey) == None)
  {
    var user := CurrentUser(s, bearer, key);
    var (s', ok) := LogoutAtOnce(s, bearer, refresh, user);
    LogoutRevokes(s, bearer, refresh, user);
    if ok {
      hide LogoutAtOnce, Valid, MayRefresh, After, Spent;
      RefusedAlways(gc, s', es, bearer.value);
      if Owns(s, user, refresh) {
        RefusedAlways(gc, s', es, refresh.value);
      }
    }
  }

  lemma LogoutRevokes(s: State, bearer: Option<nat>, refresh: Option<nat>, user: Option<string>)
    requires Valid(s)
    ensures var (s', ok) := LogoutAtOnce(s, bearer, refresh, user);
      && (forall j | j in s'.revoked && j !in s.revoked ::
            Some(j) == bearer || (Some(j) == refresh && Owns(s, user, refresh)))
      && (ok ==> Valid(s') && bearer.Some? && Spent(s', bearer.value))
      && (ok && Owns(s, user, refresh) ==> Spent(s', refresh.value))
  {
    hide Tables;
    if bearer.Some? && Decodes(s, bearer.value) {
      RevokeTables(s, bearer.value);
      if refresh.Some? && Decodes(s, refresh.value) {
        RevokeTables(Revoke(s, bearer.value).0, refresh.value);
      }
    }
  }

  class AuthService {
    var now: int
    var next: nat
    var tokens: map<nat, Token>
    var revoked: map<nat, int>
    var users: set<string>
    ghost var root: map<nat, nat>

    ghost function View(): State
      reads this
    {
      State(now, next, tokens, revoked, users, root, map[])
    }

    predicate Decodable(jti: nat)
      reads this
    {
      jti in tokens && now < tokens[jti].exp
    }

    method GetCurrentUser(bearer: Option<nat>, key: ApiKeyCheck) returns (user: Option<string>)
      ensures user == CurrentUser(View(), bearer, key)
      ensures key.KeyUser? ==> user == Some(key.user)
      ensures key.BadKey? ==> user == None
      ensures key.NoKey? && user.Some? ==>
        && bearer.Some? && bearer.value in tokens && tokens[bearer.value].sub == user.value && user.value in users
        && tokens[bearer.value].kind == Access && now < tokens[bearer.value].exp && bearer.value !in revoked
      ensures key.NoKey? && user.None? ==>
        || bearer.None? || bearer.value !in tokens || tokens[bearer.value].kind != Access
        || now >= tokens[bearer.value].exp || bearer.value in revoked || tokens[bearer.value].sub !in users
    {
      match key {
        case KeyUser(u) => return Some(u);
        case BadKey => return None;
        case NoKey =>
      }
      if bearer.None? || !Decodable(bearer.value) || tokens[bearer.value].kind != Access {
        return None;
      }
      if bearer.value in revoked {
        return None;
      }
      var sub := tokens[bearer.value].sub;
      user := if sub in users then Some(sub) else None;
    }

    method RevokeToken(jti: nat) returns (inserted: bool)
      requires jti in tokens
      modifies `revoked
      ensures (View(), inserted) == Revoke(old(View()), jti)
    {
      inserted := jti !in revoked;
      if inserted {
        revoked := revoked[jti := tokens[jti].exp];
      }
    }

    method IssueTokens(user: string, accessExp: int, refreshExp: int, ghost lineage: nat)
      modifies this
      ensures View() == Issue(old(View()), user, accessExp, refreshExp, lineage)
    {
      tokens := tokens[next := Token(user, Access, accessExp)][next + 1 := Token(user, Refresh, refreshExp)];
      root := root[next + 1 := lineage];
      next := next + 2;
    }

    method LogIn(user: string, accessExp: int, refreshExp: int) returns (ok: bool)
      modifies this
      ensures (View(), ok) == Next(true, old(View()), Login(user, accessExp, refreshExp))
    {
      ok := user in users;
      if ok {
        IssueTokens(user, accessExp, refreshExp, next + 1);
      }
    }

    method RefreshTokens(jti: nat, accessExp: int, refreshExp: int) returns (ok: bool)
      requires Valid(View())
      modifies this
      ensures (View(), ok) == old(RefreshAtOnce(View(), jti, accessExp, refreshExp))
      ensures ok <==> old(MayRefresh(View(), jti))
    {
      ok := false;
      if !Decodable(jti) || tokens[jti].kind != Refresh {
        return;
      }
      if jti in revoked {
        return;
      }
      var user := tokens[jti].sub;
      if user !in users {
        return;
      }
      var inserted := RevokeToken(jti);
      IssueTokens(user, accessExp, refreshExp, root[jti]);
      ok := true;
    }

    /** The logout handler: the bearer token first, then the refresh token in the body if it is the user's. */
    method LogOut(bearer: Option<nat>, refresh: Option<nat>, key: ApiKeyCheck) returns (ok: bool)
      modifies this
      ensures (View(), ok) == old(LogoutAtOnce(View(), bearer, refresh, CurrentUser(View(), bearer, key)))
    {
      var user := GetCurrentUser(bearer, key);
      ok := false;
      if user.None? || bearer.None? || !Decodable(bearer.value) {
        return;
      }
      ok := RevokeToken(bearer.value);
      if ok && refresh.Some? {
        ok := false;
        if Decodable(refresh.value) {
          ok := true;
          if tokens[refresh.value].sub == user.value {
            ok := RevokeToken(refresh.value);
          }
        }
      }
    }

    method CollectRevoked() returns (deleted: nat)
      modifies `revoked
      ensures View() == Then(old(View()), Cleanup)
      ensures deleted == |old(revoked)| - |revoked|
    {
      var kept := map j | j in revoked && !(revoked[j] < now) :: revoked[j];
      assert kept.Keys <= revoked.Keys;
      KeysBound(kept.Keys, revoked.Keys);
      deleted := |revoked| - |kept|;
      revoked := kept;
    }
  }

  lemma KeysBound(a: set<nat>, b: set<nat>)
    requires a <= b
    ensures |a| <= |b|
  {
    assert b == a + (b - a);
  }
}
