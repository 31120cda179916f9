/** The batched backfill of app/db/migration_helpers.py: an UPDATE carried out page by page behind a
    primary-key cursor. The cursor test is `>=`, so the last row of a page is looked at again. */
module Backfill {
  import opened Options

  /** `UPDATE table SET upd WHERE filter`, both of them functions of the row alone. */
  datatype Job<!Row> = Job(filter: Row -> bool, upd: Row -> Row)

  /** Where the generator is suspended: the table's rows, its cursor, the counts it has yielded, and
      whether it has returned. Rows are kept in primary-key order; the key of row i is pks[i]. */
  datatype Gen<Row> = Gen(rows: seq<Row>, cursor: int, counts: seq<nat>, done: bool)

  predicate Ordered(pks: seq<int>) {
    forall i, j | 0 <= i < j < |pks| :: pks[i] < pks[j]
  }

  // ---- Selecting rows ----

  predicate Increasing(s: seq<nat>) {
    forall i, j | 0 <= i < j < |s| :: s[i] < s[j]
  }

  predicate Within(s: seq<nat>, n: nat) {
    forall i | 0 <= i < |s| :: s[i] < n
  }

  /** The numbers below n that satisfy p, in order: the rows a WHERE clause selects. */
  function Where(n: nat, p: nat -> bool): seq<nat> {
    if n == 0 then [] else Where(n - 1, p) + (if p(n - 1) then [n - 1] else [])
  }

  lemma {:induction false} WhereSpec(n: nat, p: nat -> bool)
    ensures Increasing(Where(n, p)) && Within(Where(n, p), n)
    ensures forall i: nat :: i in Where(n, p) <==> i < n && p(i)
  {
    if n > 0 {
      WhereSpec(n - 1, p);
    }
  }

  lemma {:induction false} IncreasingUnique(a: seq<nat>, b: seq<nat>)
    requires Increasing(a) && Increasing(b)
    requires forall i: nat :: i in a <==> i in b
    ensures a == b
  {
    assert |a| > 0 ==> a[|a| - 1] in a && a[|a| - 1] in b;
    assert |b| > 0 ==> b[|b| - 1] in b && b[|b| - 1] in a;
    if a != [] && b != [] {
      var a', b' := a[..|a| - 1], b[..|b| - 1];
      DropLast(a, a');
      DropLast(b, b');
      assert a[|a| - 1] == b[|b| - 1];
      hide Increasing;
      IncreasingUnique(a', b');
    }
  }

  /** The part of an increasing sequence between two of its positions. */
  lemma SliceMembers(m: seq<nat>, a: nat, b: nat)
    requires Increasing(m) && a < b <= |m|
    ensures forall i: nat :: i in m[a..b] <==> i in m && m[a] <= i <= m[b - 1]
  {
    forall i: nat | i in m && m[a] <= i <= m[b - 1]
      ensures i in m[a..b]
    {
      var j :| 0 <= j < |m| && m[j] == i;
      assert m[a..b][j - a] == i;
    }
  }

  lemma DropLast(a: seq<nat>, a': seq<nat>)
    requires Increasing(a) && a != [] && a' == a[..|a| - 1]
    ensures Increasing(a')
    ensures forall i: nat :: i in a' <==> i in a && i != a[|a| - 1]
    ensures forall i: nat | i in a :: i <= a[|a| - 1]
  {
    assert a == a' + [a[|a| - 1]];
  }

  /** The rows the filter selects in the whole table. */
  function Matches<Row>(job: Job<Row>, rows: seq<Row>): seq<nat> {
    Where(|rows|, (i: nat) => i < |rows| && job.filter(rows[i]))
  }

  /** The rows the filter selects at or after the cursor. */
  function MatchesFrom<Row>(job: Job<Row>, pks: seq<int>, rows: seq<Row>, cursor: int): seq<nat>
    requires |pks| == |rows|
  {
    Where(|rows|, (i: nat) => i < |rows| && pks[i] >= cursor && job.filter(rows[i]))
  }

  function UpdateRows<Row>(job: Job<Row>, rows: seq<Row>, page: seq<nat>): (r: seq<Row>)
    ensures |r| == |rows|
  {
    seq(|rows|, i requires 0 <= i < |rows| => if i in page then job.upd(rows[i]) else rows[i])
  }

  /** The one UPDATE statement that the backfill stands for. */
  function SingleUpdate<Row>(job: Job<Row>, rows: seq<Row>): seq<Row> {
    seq(|rows|, i requires 0 <= i < |rows| => if job.filter(rows[i]) then job.upd(rows[i]) else rows[i])
  }

  // ---- The generator ----

  function Start<Row>(pks: seq<int>, rows: seq<Row>): Gen<Row>
    requires |pks| == |rows|
  {
    if rows == [] then Gen(rows, 0, [], true) else Gen(rows, pks[0], [], false)
  }

  function Take(s: seq<nat>, b: nat): seq<nat> {
    if b < |s| then s[..b] else s
  }

  /** What one resumption does: fetch a page, update it and yield its size, or return. */
  function Resume<Row>(job: Job<Row>, pks: seq<int>, b: nat, g: Gen<Row>): (r: Gen<Row>)
    requires |pks| == |g.rows|
    ensures |r.rows| == |g.rows|
  {
    if g.done then g else
    var page := Take(MatchesFrom(job, pks, g.rows, g.cursor), b);
    if page == [] then g.(done := true) else
    WhereSpec(|g.rows|, (i: nat) => i < |g.rows| && pks[i] >= g.cursor && job.filter(g.rows[i]));
    var last := page[|page| - 1];
    assert last in page && last in MatchesFrom(job, pks, g.rows, g.cursor);
    Gen(UpdateRows(job, g.rows, page), pks[last], g.counts + [|page|], pks[last] >= pks[|pks| - 1])
  }

  /** The state after k resumptions, with nobody else writing to the table. */
  function Run<Row>(job: Job<Row>, pks: seq<int>, rows: seq<Row>, b: nat, k: nat): (r: Gen<Row>)
    requires |pks| == |rows|
    ensures |r.rows| == |rows|
  {
    if k == 0 then Start(pks, rows) else Resume(job, pks, b, Run(job, pks, rows, b, k - 1))
  }

  function Sum(s: seq<nat>): nat {
    if s == [] then 0 else Sum(s[..|s| - 1]) + s[|s| - 1]
  }

  // ---- Conditions a caller can check ----

  /** The update leaves the row matching the filter. */
  predicate Keeps<Row>(job: Job<Row>, r: Row) {
    job.filter(r) && job.filter(job.upd(r))
  }

  /** A row that still matches after one update still matches after a second one. */
  ghost predicate Settles<Row(!new)>(job: Job<Row>) {
    forall r {:trigger job.upd(job.upd(r))} | Keeps(job, r) :: Keeps(job, job.upd(r))
  }

  /** On rows that keep matching, SET applied twice is SET applied once. */
  ghost predicate IdempotentOnKept<Row(!new)>(job: Job<Row>) {
    forall r {:trigger job.upd(job.upd(r))} | Keeps(job, r) :: job.upd(job.upd(r)) == job.upd(r)
  }

  /** The row after t updates. */
  function Times<Row>(job: Job<Row>, r: Row, t: nat): Row {
    if t == 0 then r else job.upd(Times(job, r, t - 1))
  }

  /** Updating the row again and again makes it stop matching. */
  ghost predicate Clears<Row>(job: Job<Row>, r: Row) {
    exists t: nat :: t >= 1 && !job.filter(Times(job, r, t))
  }

  /** Every matching row that never stops matching is the last row of the table, unless pages hold at
      least two rows and some later row matches too. */
  ghost predicate Ends<Row>(job: Job<Row>, rows: seq<Row>, b: nat) {
    b == 0 ||
    forall i | 0 <= i < |rows| && job.filter(rows[i]) && !Clears(job, rows[i]) ::
      i == |rows| - 1 || (b >= 2 && exists j | i < j < |rows| :: job.filter(rows[j]))
  }

  // ---- How far a run has got ----

  /** What decides the pages of a run: the matching rows, whether the j-th of them still matches after t
      updates, the number of rows in the table, and the page size. */
  datatype Plan = Plan(m: seq<nat>, keep: (nat, nat) -> bool, size: nat, b: nat)

  /** The first p matching rows have been updated, the last of them h times; the pages had `counts` rows. */
  datatype Progress = Progress(p: nat, h: nat, counts: seq<nat>, done: bool)

  predicate Sound(c: Plan) {
    Increasing(c.m) && Within(c.m, c.size)
  }

  /** 1 when the last row updated is looked at again. */
  function Carried(c: Plan, p: nat, h: nat): (n: nat) {
    if p > 0 && c.keep(p - 1, h) then 1 else 0
  }

  /** The size of the next page: what is left, including the carried row, up to the page size. */
  function PageSize(c: Plan, p: nat, h: nat): nat
    requires p <= |c.m|
  {
    var left := Carried(c, p, h) + |c.m| - p;
    if c.b < left then c.b else left
  }

  /** How many of the matching rows the next page leaves updated. */
  function NextP(c: Plan, p: nat, h: nat): (p': nat)
    requires p <= |c.m| && PageSize(c, p, h) > 0
    ensures p <= p' && 0 < p' <= |c.m|
  {
    p + PageSize(c, p, h) - Carried(c, p, h)
  }

  /** How often the last of them has then been updated. */
  function NextH(c: Plan, p: nat, h: nat): nat
    requires p <= |c.m| && PageSize(c, p, h) > 0
  {
    if NextP(c, p, h) == p then h + 1 else 1
  }

  function NextPage(c: Plan, a: Progress): (r: Progress)
    requires Sound(c) && a.p <= |c.m|
    ensures r.p <= |c.m|
  {
    if a.done then a else
    var n := PageSize(c, a.p, a.h);
    if n == 0 then a.(done := true) else
    var p := NextP(c, a.p, a.h);
    Progress(p, NextH(c, a.p, a.h), a.counts + [n], c.m[p - 1] == c.size - 1)
  }

  function Pages(c: Plan, k: nat): (r: Progress)
    requires Sound(c)
    ensures r.p <= |c.m|
  {
    if k == 0 then Progress(0, 0, [], c.size == 0) else NextPage(c, Pages(c, k - 1))
  }

  function PlanFor<Row>(job: Job<Row>, rows: seq<Row>, b: nat): (c: Plan)
    ensures Sound(c)
  {
    var m := Matches(job, rows);
    MatchesSpec(job, rows);
    Plan(m, (j: nat, t: nat) => j < |m| && m[j] < |rows| && job.filter(Times(job, rows[m[j]], t)), |rows|, b)
  }

  lemma MatchesSpec<Row>(job: Job<Row>, rows: seq<Row>)
    ensures Increasing(Matches(job, rows)) && Within(Matches(job, rows), |rows|)
    ensures forall i: nat :: i in Matches(job, rows) <==> i < |rows| && job.filter(rows[i])
  {
    WhereSpec(|rows|, (i: nat) => i < |rows| && job.filter(rows[i]));
  }

  /** c is the plan of job on rows. */
  ghost predicate Plans<Row>(c: Plan, job: Job<Row>, rows: seq<Row>) {
    && Sound(c) && c.size == |rows|
    && (forall i: nat :: i in c.m <==> i < |rows| && job.filter(rows[i]))
    && (forall j: nat, t: nat | j < |c.m| :: c.keep(j, t) == job.filter(Times(job, rows[c.m[j]], t)))
  }

  lemma PlanForPlans<Row>(job: Job<Row>, rows: seq<Row>, b: nat)
    ensures Plans(PlanFor(job, rows, b), job, rows)
  {
    MatchesSpec(job, rows);
  }

  /** The rows the next page is cut from: the carried row, then the matching rows not yet updated. */
  function Pending(c: Plan, p: nat, h: nat): seq<nat>
    requires p <= |c.m|
  {
    c.m[p - Carried(c, p, h)..]
  }

  /** One past the last row updated. */
  function Cut(c: Plan, p: nat): nat
    requires p <= |c.m|
  {
    if p == 0 then 0 else c.m[p - 1] + 1
  }

  /** Of the rows before the cut, exactly the matching ones have been updated, the last of them h times. */
  ghost predicate Updated<Row>(job: Job<Row>, rows0: seq<Row>, rows: seq<Row>, cut: nat, h: nat, idempotent: bool)
    requires |rows0| == |rows| && cut <= |rows|
  {
    && (forall i | 0 <= i < |rows| ::
          if i < cut && job.filter(rows0[i]) then idempotent ==> rows[i] == job.upd(rows0[i]) else rows[i] == rows0[i])
    && (cut > 0 ==> rows[cut - 1] == Times(job, rows0[cut - 1], h))
  }

  /** No page carries a row over, so no row is updated twice. */
  ghost predicate Once(c: Plan) {
    c.b >= 1 && NoneCarries(c)
  }

  /** A row updated is a row given its update once. */
  ghost predicate Exact<Row(!new)>(c: Plan, job: Job<Row>) {
    IdempotentOnKept(job) || Once(c)
  }

  /** The generator state g shows the progress a. */
  ghost predicate Shows<Row(!new)>(c: Plan, job: Job<Row>, pks: seq<int>, rows0: seq<Row>, g: Gen<Row>, a: Progress)
    requires Sound(c) && c.size == |rows0| == |pks|
  {
    && |g.rows| == |rows0| && a.p <= |c.m|
    && Updated(job, rows0, g.rows, Cut(c, a.p), a.h, Exact(c, job))
    && g.counts == a.counts && g.done == a.done
    && (!g.done ==> rows0 != [] && g.cursor == (if a.p == 0 then pks[0] else pks[c.m[a.p - 1]]))
  }

  lemma PendingMembers(c: Plan, p: nat, h: nat)
    requires Sound(c) && p <= |c.m|
    ensures Increasing(Pending(c, p, h))
    ensures forall i: nat :: i in Pending(c, p, h) <==>
      i in c.m && (i >= Cut(c, p) || (Carried(c, p, h) == 1 && i == c.m[p - 1]))
  {
    var a := p - Carried(c, p, h);
    if a < |c.m| {
      SliceMembers(c.m, a, |c.m|);
      assert Pending(c, p, h) == c.m[a..|c.m|];
    }
    assert forall i: nat | i in c.m :: i <= c.m[|c.m| - 1];
  }

  /** Rows before the last one updated are behind the cursor, rows after it are as they were. */
  lemma PendingAt<Row(!new)>(c: Plan, job: Job<Row>, pks: seq<int>, rows0: seq<Row>, g: Gen<Row>, a: Progress, i: nat)
    requires Plans(c, job, rows0) && |pks| == |rows0| && Ordered(pks) && i < |rows0|
    requires Shows(c, job, pks, rows0, g, a) && !g.done
    ensures pks[i] >= g.cursor && job.filter(g.rows[i]) <==>
      i in c.m && (i >= Cut(c, a.p) || (Carried(c, a.p, a.h) == 1 && i == c.m[a.p - 1]))
  {
    hide Exact, Increasing;
    if a.p > 0 {
      LastUpdated(c, job, rows0, a.p, a.h);
      assert pks[i] >= g.cursor <==> i >= c.m[a.p - 1];
    }
  }

  lemma PendingRows<Row(!new)>(c: Plan, job: Job<Row>, pks: seq<int>, rows0: seq<Row>, g: Gen<Row>, a: Progress)
    requires Plans(c, job, rows0) && |pks| == |rows0| && Ordered(pks)
    requires Shows(c, job, pks, rows0, g, a) && !g.done
    ensures MatchesFrom(job, pks, g.rows, g.cursor) == Pending(c, a.p, a.h)
  {
    PendingMembers(c, a.p, a.h);
    forall i: nat
      ensures i in Pending(c, a.p, a.h) <==> i < |rows0| && pks[i] >= g.cursor && job.filter(g.rows[i])
    {
      if i < |rows0| {
        PendingAt(c, job, pks, rows0, g, a, i);
      }
    }
    hide Exact, Updated, Increasing, Pending, Carried, Cut;
    SelectedAre(job, pks, g.rows, g.cursor, Pending(c, a.p, a.h));
  }

  lemma SelectedAre<Row>(job: Job<Row>, pks: seq<int>, rows: seq<Row>, cursor: int, s: seq<nat>)
    requires |pks| == |rows| && Increasing(s)
    requires forall i: nat :: i in s <==> i < |rows| && pks[i] >= cursor && job.filter(rows[i])
    ensures MatchesFrom(job, pks, rows, cursor) == s
  {
    WhereSpec(|rows|, (i: nat) => i < |rows| && pks[i] >= cursor && job.filter(rows[i]));
    IncreasingUnique(MatchesFrom(job, pks, rows, cursor), s);
  }

  /** g' is g after the given page, or after finding no page. */
  ghost predicate PageDone<Row>(job: Job<Row>, pks: seq<int>, g: Gen<Row>, page: seq<nat>, g': Gen<Row>) {
    if page == [] then g' == g.(done := true) else
    var last := page[|page| - 1];
    && last < |pks| && g'.rows == UpdateRows(job, g.rows, page) && g'.cursor == pks[last]
    && g'.counts == g.counts + [|page|] && (g'.done <==> last == |pks| - 1)
  }

  lemma PageIs<Row>(job: Job<Row>, pks: seq<int>, g: Gen<Row>, b: nat, s: seq<nat>)
    requires |pks| == |g.rows| && Ordered(pks) && !g.done && MatchesFrom(job, pks, g.rows, g.cursor) == s
    ensures PageDone(job, pks, g, Take(s, b), Resume(job, pks, b, g))
  {
    var page := Take(s, b);
    if page != [] {
      WhereSpec(|g.rows|, (i: nat) => i < |g.rows| && pks[i] >= g.cursor && job.filter(g.rows[i]));
      assert page[|page| - 1] in s;
    }
  }

  /** The page after p matching rows, as a piece of the matching rows. */
  lemma PageSlice(c: Plan, p: nat, h: nat) returns (page: seq<nat>)
    requires p <= |c.m| && PageSize(c, p, h) > 0
    ensures page == Take(Pending(c, p, h), c.b)
    ensures var p' := NextP(c, p, h);
      && page == c.m[p - Carried(c, p, h)..p']
      && |page| == PageSize(c, p, h) && page[|page| - 1] == c.m[p' - 1]
  {
    page := c.m[p - Carried(c, p, h)..NextP(c, p, h)];
  }

  lemma PageMembers<Row>(c: Plan, job: Job<Row>, rows0: seq<Row>, p: nat, h: nat, page: seq<nat>)
    requires Plans(c, job, rows0) && p <= |c.m| && PageSize(c, p, h) > 0
    requires page == c.m[p - Carried(c, p, h)..NextP(c, p, h)]
    ensures forall i: nat :: i in page <==>
      i < |rows0| && job.filter(rows0[i]) && Cut(c, p) - Carried(c, p, h) <= i < Cut(c, NextP(c, p, h))
  {
    var a, p' := p - Carried(c, p, h), NextP(c, p, h);
    SliceMembers(c.m, a, p');
    PageBegins(c, p, h);
    CutGrows(c, p, p');
    hide Increasing, Carried, NextP;
  }

  /** The first row of the page, seen from the cut. */
  lemma PageBegins(c: Plan, p: nat, h: nat)
    requires Sound(c) && p <= |c.m| && PageSize(c, p, h) > 0
    ensures var a := p - Carried(c, p, h);
      a < NextP(c, p, h) && forall i: nat | i in c.m :: i >= c.m[a] <==> i >= Cut(c, p) - Carried(c, p, h)
  {
    CutAt(c, p);
    hide Increasing;
  }

  lemma CutAt(c: Plan, p: nat)
    requires Sound(c) && p <= |c.m|
    ensures p < |c.m| ==> forall i: nat | i in c.m :: i >= Cut(c, p) <==> i >= c.m[p]
    ensures Cut(c, p) <= c.size
  {
    assert p > 0 ==> forall j | 0 <= j < p :: c.m[j] <= c.m[p - 1];
  }

  /** After the page, the last row is the carried one again, or one updated for the first time. */
  lemma UpdatedPage<Row>(job: Job<Row>, rows0: seq<Row>, rows: seq<Row>, cut: nat, h: nat, cut': nat, h': nat,
                         page: seq<nat>, carried: nat, idempotent: bool)
    requires |rows| == |rows0| && cut <= cut' && 0 < cut' <= |rows| && carried <= 1 && carried <= cut
    requires Updated(job, rows0, rows, cut, h, idempotent)
    requires forall i: nat :: i in page <==> i < |rows| && job.filter(rows0[i]) && cut - carried <= i < cut'
    requires job.filter(rows0[cut' - 1]) && (cut == cut' ==> carried == 1) && h' == if cut == cut' then h + 1 else 1
    requires carried == 1 && idempotent ==> job.upd(job.upd(rows0[cut - 1])) == job.upd(rows0[cut - 1])
    ensures Updated(job, rows0, UpdateRows(job, rows, page), cut', h', idempotent)
  {
    assert Times(job, rows0[cut' - 1], 0) == rows0[cut' - 1];
  }

  lemma PageUpdates<Row(!new)>(c: Plan, job: Job<Row>, rows0: seq<Row>, rows: seq<Row>, p: nat, h: nat)
    returns (page: seq<nat>)
    requires Sound(c) && Plans(c, job, rows0) && |rows| == |rows0| && p <= |c.m| && PageSize(c, p, h) > 0
    requires Once(c) ==> Carried(c, p, h) == 0
    requires Cut(c, p) <= |rows| && Updated(job, rows0, rows, Cut(c, p), h, Exact(c, job))
    ensures page == Take(Pending(c, p, h), c.b) && |page| == PageSize(c, p, h)
    ensures var p' := NextP(c, p, h);
      && page[|page| - 1] == c.m[p' - 1] && Cut(c, p') <= |rows|
      && Updated(job, rows0, UpdateRows(job, rows, page), Cut(c, p'), NextH(c, p, h), Exact(c, job))
  {
    hide Sound, UpdateRows, Exact, Updated, Plans, Times;
    hide Carried, PageSize, NextP, NextH, Cut, Pending, Take;
    page := PageSlice(c, p, h);
    var p' := NextP(c, p, h);
    PageMembers(c, job, rows0, p, h, page);
    LastUpdated(c, job, rows0, p', 0);
    CutGrows(c, p, p');
    NextFacts(c, p, h);
    CarriedFacts(c, job, rows0, rows, p, h);
    UpdatedPage(job, rows0, rows, Cut(c, p), h, Cut(c, p'), NextH(c, p, h), page, Carried(c, p, h),
                Exact(c, job));
  }

  lemma NextFacts(c: Plan, p: nat, h: nat)
    requires p <= |c.m| && PageSize(c, p, h) > 0
    ensures NextP(c, p, h) == p ==> Carried(c, p, h) == 1
    ensures NextH(c, p, h) == if NextP(c, p, h) == p then h + 1 else 1
  {
  }

  /** The carried row is a matching one, and with an idempotent SET it may be updated again. */
  lemma CarriedFacts<Row(!new)>(c: Plan, job: Job<Row>, rows0: seq<Row>, rows: seq<Row>, p: nat, h: nat)
    requires Plans(c, job, rows0) && |rows| == |rows0| && p <= |c.m| && (Once(c) ==> Carried(c, p, h) == 0)
    requires Cut(c, p) <= |rows| && Updated(job, rows0, rows, Cut(c, p), h, Exact(c, job))
    ensures Carried(c, p, h) <= 1 && Carried(c, p, h) <= Cut(c, p)
    ensures Carried(c, p, h) == 1 && Exact(c, job) ==>
      job.upd(job.upd(rows0[Cut(c, p) - 1])) == job.upd(rows0[Cut(c, p) - 1])
  {
    hide Updated, IdempotentOnKept, Increasing, Once;
    if Carried(c, p, h) == 1 {
      LastUpdated(c, job, rows0, p, h);
      if Exact(c, job) {
        CarriedIsKept(job, rows0, rows, Cut(c, p), h);
      }
    }
  }

  /** With a SET that is idempotent on the rows that keep matching, the carried row is one of those. */
  lemma CarriedIsKept<Row(!new)>(job: Job<Row>, rows0: seq<Row>, rows: seq<Row>, cut: nat, h: nat)
    requires |rows0| == |rows| && 0 < cut <= |rows| && Updated(job, rows0, rows, cut, h, true) && IdempotentOnKept(job)
    requires job.filter(rows0[cut - 1]) && job.filter(Times(job, rows0[cut - 1], h))
    ensures job.upd(job.upd(rows0[cut - 1])) == job.upd(rows0[cut - 1])
  {
    assert rows[cut - 1] == job.upd(rows0[cut - 1]);
    assert Keeps(job, rows0[cut - 1]);
  }

  lemma CutGrows(c: Plan, p: nat, p': nat)
    requires Sound(c) && p <= p' <= |c.m|
    ensures Cut(c, p) <= Cut(c, p') && (Cut(c, p) == Cut(c, p') <==> p == p')
    ensures p' > 0 ==> Cut(c, p') == c.m[p' - 1] + 1
  {
    if 0 < p < p' {
      assert c.m[p - 1] < c.m[p' - 1];
    }
  }

  lemma LastUpdated<Row>(c: Plan, job: Job<Row>, rows0: seq<Row>, p: nat, h: nat)
    requires Plans(c, job, rows0) && 0 < p <= |c.m|
    ensures var i := Cut(c, p) - 1;
      i < |rows0| && job.filter(rows0[i]) && c.keep(p - 1, h) == job.filter(Times(job, rows0[i], h))
  {
    assert c.m[p - 1] in c.m;
  }

  lemma {:induction false} StepShows<Row(!new)>(c: Plan, job: Job<Row>, pks: seq<int>, rows0: seq<Row>, g: Gen<Row>,
                                                a: Progress, g': Gen<Row>)
    requires Plans(c, job, rows0) && |pks| == |rows0|
    requires Shows(c, job, pks, rows0, g, a) && !g.done && (Once(c) ==> Carried(c, a.p, a.h) == 0)
    requires PageDone(job, pks, g, Take(Pending(c, a.p, a.h), c.b), g')
    ensures Shows(c, job, pks, rows0, g', NextPage(c, a))
  {
    hide Updated, Exact, Once, UpdateRows, Increasing;
    if PageSize(c, a.p, a.h) > 0 {
      var page := PageUpdates(c, job, rows0, g.rows, a.p, a.h);
      NextPageShows(c, job, pks, rows0, g', a, page);
    }
  }

  /** One resumption of the generator is one step of the plan. */
  lemma ResumeShows<Row(!new)>(c: Plan, job: Job<Row>, pks: seq<int>, rows0: seq<Row>, g: Gen<Row>, a: Progress)
    requires Plans(c, job, rows0) && |pks| == |rows0| && Ordered(pks)
    requires Shows(c, job, pks, rows0, g, a) && (Once(c) && !a.done ==> Carried(c, a.p, a.h) == 0)
    ensures Shows(c, job, pks, rows0, Resume(job, pks, c.b, g), NextPage(c, a))
  {
    if !g.done {
      PendingRows(c, job, pks, rows0, g, a);
      PageIs(job, pks, g, c.b, Pending(c, a.p, a.h));
      StepShows(c, job, pks, rows0, g, a, Resume(job, pks, c.b, g));
    }
  }

  lemma NextPageShows<Row(!new)>(c: Plan, job: Job<Row>, pks: seq<int>, rows0: seq<Row>, g': Gen<Row>, a: Progress,
                                 page: seq<nat>)
    requires Sound(c) && c.size == |rows0| == |pks| == |g'.rows| && rows0 != [] && !a.done && a.p <= |c.m|
    requires PageSize(c, a.p, a.h) > 0 && |page| == PageSize(c, a.p, a.h) && page[|page| - 1] < |pks|
    requires var p', last := NextP(c, a.p, a.h), page[|page| - 1];
      && last == c.m[p' - 1] && Cut(c, p') <= |rows0|
      && Updated(job, rows0, g'.rows, Cut(c, p'), NextH(c, a.p, a.h), Exact(c, job))
      && g'.cursor == pks[last] && g'.counts == a.counts + [|page|] && (g'.done <==> last == |pks| - 1)
    ensures Shows(c, job, pks, rows0, g', NextPage(c, a))
  {
  }

  lemma {:induction false} RunShows<Row(!new)>(job: Job<Row>, pks: seq<int>, rows0: seq<Row>, b: nat, k: nat)
    requires |pks| == |rows0| && Ordered(pks)
    ensures Shows(PlanFor(job, rows0, b), job, pks, rows0, Run(job, pks, rows0, b, k), Pages(PlanFor(job, rows0, b), k))
  {
    PlanForPlans(job, rows0, b);
    RunShowsPlan(PlanFor(job, rows0, b), job, pks, rows0, k);
  }

  lemma OnePage(c: Plan, k: nat)
    requires Sound(c)
    ensures Pages(c, k + 1) == NextPage(c, Pages(c, k))
  {
  }

  lemma StartShows<Row(!new)>(c: Plan, job: Job<Row>, pks: seq<int>, rows0: seq<Row>)
    requires Plans(c, job, rows0) && |pks| == |rows0|
    ensures Shows(c, job, pks, rows0, Start(pks, rows0), Pages(c, 0))
  {
    hide Exact, Increasing;
  }

  lemma NoResumption<Row>(job: Job<Row>, pks: seq<int>, rows0: seq<Row>, b: nat)
    requires |pks| == |rows0|
    ensures Run(job, pks, rows0, b, 0) == Start(pks, rows0)
  {
  }

  lemma OneResumption<Row>(job: Job<Row>, pks: seq<int>, rows0: seq<Row>, b: nat, k: nat)
    requires |pks| == |rows0|
    ensures Run(job, pks, rows0, b, k + 1) == Resume(job, pks, b, Run(job, pks, rows0, b, k))
  {
    hide Resume, Start;
  }

  lemma RunShowsMore<Row(!new)>(c: Plan, job: Job<Row>, pks: seq<int>, rows0: seq<Row>, k: nat)
    requires Plans(c, job, rows0) && |pks| == |rows0| && Ordered(pks)
    requires Shows(c, job, pks, rows0, Run(job, pks, rows0, c.b, k), Pages(c, k))
    ensures Shows(c, job, pks, rows0, Run(job, pks, rows0, c.b, k + 1), Pages(c, k + 1))
  {
    hide Shows, Resume, NextPage, Sound, Ordered, Run, Pages, Once, Carried;
    OnePage(c, k);
    OneResumption(job, pks, rows0, c.b, k);
    OnceCarriesNothing(c, k);
    ResumeShows(c, job, pks, rows0, Run(job, pks, rows0, c.b, k), Pages(c, k));
  }

  lemma {:induction false} RunShowsPlan<Row(!new)>(c: Plan, job: Job<Row>, pks: seq<int>, rows0: seq<Row>, k: nat)
    requires Plans(c, job, rows0) && |pks| == |rows0| && Ordered(pks)
    ensures Shows(c, job, pks, rows0, Run(job, pks, rows0, c.b, k), Pages(c, k))
  {
    hide Shows, Run, Pages, Sound, Ordered, Plans, Start;
    if k == 0 {
      StartShows(c, job, pks, rows0);
      assert Run(job, pks, rows0, c.b, 0) == Start(pks, rows0) by {
        NoResumption(job, pks, rows0, c.b);
      }
    } else {
      RunShowsPlan(c, job, pks, rows0, k - 1);
      RunShowsMore(c, job, pks, rows0, k - 1);
    }
  }

  /** A run that has returned has updated every matching row, unless pages were empty. */
  lemma {:induction false} PagesReach(c: Plan, k: nat)
    requires Sound(c)
    ensures var a := Pages(c, k);
      && (a.done && c.b > 0 ==> a.p == |c.m|)
      && (!a.done && a.p > 0 ==> c.m[a.p - 1] < c.size - 1)
  {
    if k > 0 {
      PagesReach(c, k - 1);
      var a, a' := Pages(c, k - 1), Pages(c, k);
      assert 0 < a'.p < |c.m| ==> c.m[a'.p - 1] < c.m[a'.p] < c.size;
    }
    assert |c.m| > 0 ==> c.m[0] < c.size;
  }

  /** The counts of a run are the page sizes of its plan. */
  lemma RunPages<Row(!new)>(job: Job<Row>, pks: seq<int>, rows0: seq<Row>, b: nat, k: nat)
    requires |pks| == |rows0| && Ordered(pks)
    ensures var c, g, a := PlanFor(job, rows0, b), Run(job, pks, rows0, b, k), Pages(PlanFor(job, rows0, b), k);
      && c.m == Matches(job, rows0) && g.counts == a.counts && g.done == a.done
      && (g.done && b > 0 ==> a.p == |c.m|)
  {
    RunShows(job, pks, rows0, b, k);
    PagesReach(PlanFor(job, rows0, b), k);
  }

  lemma PlanKeeps<Row>(job: Job<Row>, rows: seq<Row>, b: nat, j: nat, t: nat)
    requires j < |PlanFor(job, rows, b).m|
    ensures var i := PlanFor(job, rows, b).m[j];
      i < |rows| && job.filter(rows[i]) && PlanFor(job, rows, b).keep(j, t) == job.filter(Times(job, rows[i], t))
  {
    PlanForPlans(job, rows, b);
    assert PlanFor(job, rows, b).m[j] in PlanFor(job, rows, b).m;
  }

  // ---- When the backfill ends ----

  ghost predicate PlanClears(c: Plan, j: nat) {
    exists t: nat :: t >= 1 && !c.keep(j, t)
  }

  /** Ends, in terms of the plan. */
  ghost predicate PlanEnds(c: Plan)
    requires Sound(c)
  {
    c.b == 0 ||
    forall j | 0 <= j < |c.m| :: c.m[j] == c.size - 1 || (c.b >= 2 && j + 1 < |c.m|) || PlanClears(c, j)
  }

  lemma ClearsIsPlanClears<Row>(job: Job<Row>, rows: seq<Row>, b: nat, j: nat)
    requires j < |PlanFor(job, rows, b).m|
    ensures var i := PlanFor(job, rows, b).m[j];
      i < |rows| && job.filter(rows[i]) && (PlanClears(PlanFor(job, rows, b), j) <==> Clears(job, rows[i]))
  {
    var c := PlanFor(job, rows, b);
    PlanKeeps(job, rows, b, j, 0);
    forall t: nat
      ensures c.keep(j, t) == job.filter(Times(job, rows[c.m[j]], t))
    {
      PlanKeeps(job, rows, b, j, t);
    }
  }

  lemma EndsIsPlanEnds<Row>(job: Job<Row>, rows: seq<Row>, b: nat)
    ensures Ends(job, rows, b) <==> PlanEnds(PlanFor(job, rows, b))
  {
    var c := PlanFor(job, rows, b);
    PlanForPlans(job, rows, b);
    hide Clears, PlanClears;
    if Ends(job, rows, b) && b > 0 {
      forall j: nat | j < |c.m|
        ensures c.m[j] == c.size - 1 || (c.b >= 2 && j + 1 < |c.m|) || PlanClears(c, j)
      {
        ClearsIsPlanClears(job, rows, b, j);
        if c.m[j] != c.size - 1 && !PlanClears(c, j) {
          var i :| c.m[j] < i < |rows| && job.filter(rows[i]);
          assert i in c.m;
        }
      }
    }
    if PlanEnds(c) && b > 0 {
      forall i | 0 <= i < |rows| && job.filter(rows[i]) && !Clears(job, rows[i])
        ensures i == |rows| - 1 || (b >= 2 && exists j | i < j < |rows| :: job.filter(rows[j]))
      {
        assert i in c.m;
        var j :| 0 <= j < |c.m| && c.m[j] == i;
        ClearsIsPlanClears(job, rows, b, j);
        if i != |rows| - 1 {
          assert c.m[j + 1] in c.m;
        }
      }
    }
  }

  /** The generator returns after finitely many pages exactly when Ends holds of the table it starts on. */
  lemma {:induction false} TerminatesIff<Row(!new)>(job: Job<Row>, pks: seq<int>, rows0: seq<Row>, b: nat)
    requires |pks| == |rows0| && Ordered(pks)
    ensures (exists k: nat :: Run(job, pks, rows0, b, k).done) <==> Ends(job, rows0, b)
  {
    var c := PlanFor(job, rows0, b);
    EndsIsPlanEnds(job, rows0, b);
    hide Ends;
    if PlanEnds(c) {
      var k := ReachesDone(c, 0);
      RunPages(job, pks, rows0, b, k);
      assert Run(job, pks, rows0, b, k).done;
    } else {
      var q: nat :| q < |c.m| && !PlanClears(c, q) && c.m[q] != c.size - 1 && (c.b == 1 || q + 1 == |c.m|);
      forall k: nat
        ensures !Run(job, pks, rows0, b, k).done
      {
        NeverDone(c, q, k);
        RunPages(job, pks, rows0, b, k);
      }
    }
  }

  /** Each page gets further, except those that look at one row until it is cleared. */
  lemma {:induction false} ReachesDone(c: Plan, k: nat) returns (end: nat)
    requires Sound(c) && PlanEnds(c) && Pages(c, k).h <= 1
    ensures end >= k && Pages(c, end).done
    decreases |c.m| - Pages(c, k).p
  {
    hide PlanEnds, Increasing;
    var next := LeavesRow(c, k);
    if Pages(c, next).done {
      end := next;
    } else {
      end := ReachesDone(c, next);
    }
  }

  lemma {:induction false} LeavesRow(c: Plan, k: nat) returns (next: nat)
    requires Sound(c) && PlanEnds(c) && Pages(c, k).h <= 1
    ensures next >= k && Leaves(Pages(c, k), Pages(c, next))
  {
    hide Sound, Pages, PlanEnds, NextPage;
    var a := Pages(c, k);
    PagesReach(c, k);
    next := k + 1;
    OnePage(c, k);
    if !a.done && c.b > 0 && a.p > 0 && (c.b == 1 || a.p == |c.m|) {
      var t := ClearsAfter(c, a.p);
      HitsPositive(c, k);
      next := ClearsRow(c, k, t);
    } else {
      GetsFurther(c, a);
    }
  }

  lemma GetsFurther(c: Plan, a: Progress)
    requires Sound(c) && a.p <= |c.m| && (a.done || c.b == 0 || a.p == 0 || (c.b > 1 && a.p < |c.m|))
    ensures Leaves(a, NextPage(c, a))
  {
    hide Increasing, Within;
  }

  /** The run has returned, or has a new last row. */
  predicate Leaves(a: Progress, a': Progress) {
    a'.done || (a'.p > a.p && a'.h == 1)
  }

  lemma ClearsAfter(c: Plan, p: nat) returns (t: nat)
    requires Sound(c) && PlanEnds(c) && 0 < p <= |c.m| && c.m[p - 1] < c.size - 1
    requires c.b > 0 && (c.b == 1 || p == |c.m|)
    ensures t >= 1 && !c.keep(p - 1, t)
  {
    assert PlanClears(c, p - 1);
    t :| t >= 1 && !c.keep(p - 1, t);
  }

  lemma {:induction false} HitsPositive(c: Plan, k: nat)
    requires Sound(c)
    ensures Pages(c, k).p > 0 ==> Pages(c, k).h >= 1
  {
    if k > 0 {
      hide Increasing;
      HitsPositive(c, k - 1);
    }
  }

  lemma {:induction false} ClearsRow(c: Plan, k: nat, t: nat) returns (next: nat)
    requires Sound(c) && c.b > 0 && 1 <= Pages(c, k).h <= t && Pages(c, k).p > 0 && !c.keep(Pages(c, k).p - 1, t)
    requires c.b == 1 || Pages(c, k).p == |c.m|
    ensures next >= k && Leaves(Pages(c, k), Pages(c, next))
    decreases t - Pages(c, k).h
  {
    hide NextPage, Sound, Pages;
    LooksAgain(c, Pages(c, k));
    OnePage(c, k);
    next := k + 1;
    if !Leaves(Pages(c, k), Pages(c, k + 1)) {
      next := ClearsRow(c, k + 1, t);
    }
  }

  /** A page that cannot get past the last row looks at that row alone, while it matches. */
  lemma LooksAgain(c: Plan, a: Progress)
    requires Sound(c) && c.b > 0 && 0 < a.p <= |c.m| && (c.b == 1 || a.p == |c.m|)
    ensures var a' := NextPage(c, a);
      Leaves(a, a') || (c.keep(a.p - 1, a.h) && a'.p == a.p && a'.h == a.h + 1)
  {
    hide Increasing, Within;
  }

  /** Where row m[q] never stops matching and no page can get past it, no resumption returns. */
  lemma {:induction false} NeverDone(c: Plan, q: nat, k: nat)
    requires Sound(c) && q < |c.m| && !PlanClears(c, q) && c.m[q] != c.size - 1
    requires c.b > 0 && (c.b == 1 || q + 1 == |c.m|)
    ensures !Pages(c, k).done && Pages(c, k).p <= q + 1 && (Pages(c, k).p > 0 ==> Pages(c, k).h >= 1)
  {
    hide Sound, Pages, NextPage, PlanClears;
    if k == 0 {
      NoPage(c);
    } else {
      NeverDone(c, q, k - 1);
      OnePage(c, k - 1);
      NeverDoneNext(c, q, Pages(c, k - 1));
    }
  }

  lemma NoPage(c: Plan)
    requires Sound(c)
    ensures Pages(c, 0).p == 0 && (|c.m| > 0 ==> !Pages(c, 0).done)
  {
    assert |c.m| > 0 ==> c.m[0] < c.size;
  }

  lemma NeverDoneNext(c: Plan, q: nat, a: Progress)
    requires Sound(c) && q < |c.m| && !PlanClears(c, q) && c.m[q] != c.size - 1
    requires c.b > 0 && (c.b == 1 || q + 1 == |c.m|)
    requires !a.done && a.p <= q + 1 && (a.p > 0 ==> a.h >= 1)
    ensures var a' := NextPage(c, a); !a'.done && a'.p <= q + 1 && (a'.p > 0 ==> a'.h >= 1)
  {
    var a' := NextPage(c, a);
    assert a'.p > 0 && a'.p <= q + 1 ==> c.m[a'.p - 1] <= c.m[q];
    hide Increasing;
  }

  /** A row that still matches after one update matches for ever if every such row still matches after two,
      so for these jobs Ends asks of a row only whether its first update clears it. */
  lemma {:induction false} ClearsAtOnce<Row(!new)>(job: Job<Row>, r: Row)
    requires Settles(job) && job.filter(r)
    ensures Clears(job, r) <==> !Keeps(job, r)
  {
    assert Times(job, r, 1) == job.upd(Times(job, r, 0)) == job.upd(r);
    if Keeps(job, r) {
      forall t: nat
        ensures job.filter(Times(job, r, t))
      {
        KeepsMatching(job, r, t);
      }
    }
  }

  lemma {:induction false} KeepsMatching<Row(!new)>(job: Job<Row>, r: Row, t: nat)
    requires Settles(job) && Keeps(job, r)
    ensures Keeps(job, Times(job, r, t))
  {
    if t > 0 {
      KeepsMatching(job, r, t - 1);
      var u := job.upd(Times(job, r, t - 1));
      assert job.upd(u) == job.upd(job.upd(Times(job, r, t - 1)));
    }
  }

  /** Rows that keep matching settle where SET is idempotent on them. */
  lemma IdempotentSettles<Row(!new)>(job: Job<Row>)
    requires IdempotentOnKept(job)
    ensures Settles(job)
  {
    forall r | Keeps(job, r)
      ensures Keeps(job, job.upd(r))
    {
      assert job.upd(job.upd(r)) == job.upd(r);
    }
  }

  // ---- What the backfill leaves in the table ----

  /** A finished backfill is the single UPDATE, for every table and page size, exactly when SET is
      idempotent on the rows that keep matching: the rows shared by two pages are updated twice. */
  lemma RefinesSingleUpdateIff<Row(!new)>(job: Job<Row>)
    ensures IdempotentOnKept(job) <==>
      forall pks: seq<int>, rows: seq<Row>, b: nat, k: nat
        | |pks| == |rows| && Ordered(pks) && b >= 1 && Run(job, pks, rows, b, k).done ::
        Run(job, pks, rows, b, k).rows == SingleUpdate(job, rows)
  {
    if IdempotentOnKept(job) {
      forall pks: seq<int>, rows: seq<Row>, b: nat, k: nat
        | |pks| == |rows| && Ordered(pks) && b >= 1 && Run(job, pks, rows, b, k).done
        ensures Run(job, pks, rows, b, k).rows == SingleUpdate(job, rows)
      {
        FinishedIsSingleUpdate(job, pks, rows, b, k);
      }
    } else {
      var r :| Keeps(job, r) && job.upd(job.upd(r)) != job.upd(r);
      SharedRowUpdatedTwice(job, r);
      assert SingleUpdate(job, [r, r, r])[1] == job.upd(r);
      assert |[0, 1, 2]| == |[r, r, r]| && Ordered([0, 1, 2]);
    }
  }

  /** A finished run leaves the table of the single UPDATE if SET is idempotent on the rows that keep matching
      or, whatever SET does, if no page shares a row with the next. */
  lemma {:induction false} FinishedIsSingleUpdate<Row(!new)>(job: Job<Row>, pks: seq<int>, rows0: seq<Row>, b: nat,
                                                             k: nat)
    requires |pks| == |rows0| && Ordered(pks) && b >= 1 && Run(job, pks, rows0, b, k).done
    requires IdempotentOnKept(job) || SlicesEndClear(job, rows0, b)
    ensures Run(job, pks, rows0, b, k).rows == SingleUpdate(job, rows0)
  {
    var c := PlanFor(job, rows0, b);
    PlanForPlans(job, rows0, b);
    RunShows(job, pks, rows0, b, k);
    PagesReach(c, k);
    SlicesAreCarries(job, rows0, b);
    hide IdempotentOnKept, NoneCarries, SlicesEndClear, Increasing;
    AllUpdated(c, job, rows0, Run(job, pks, rows0, b, k).rows, Pages(c, k).h);
  }

  lemma AllUpdated<Row>(c: Plan, job: Job<Row>, rows0: seq<Row>, rows: seq<Row>, h: nat)
    requires Plans(c, job, rows0) && |rows| == |rows0| && Cut(c, |c.m|) <= |rows|
    requires Updated(job, rows0, rows, Cut(c, |c.m|), h, true)
    ensures rows == SingleUpdate(job, rows0)
  {
    CutAt(c, |c.m|);
    forall i: nat | i < |rows0|
      ensures rows[i] == SingleUpdate(job, rows0)[i]
    {
      if job.filter(rows0[i]) {
        BeforeLast(c, i);
      }
    }
  }

  lemma BeforeLast(c: Plan, i: nat)
    requires Sound(c) && i in c.m
    ensures i < Cut(c, |c.m|)
  {
    var j :| 0 <= j < |c.m| && c.m[j] == i;
  }

  /** Under either condition, at any moment of a run every row is as it was or has been given its update. */
  lemma PartialRunIsPartialUpdate<Row(!new)>(job: Job<Row>, pks: seq<int>, rows0: seq<Row>, b: nat, k: nat, i: nat)
    requires |pks| == |rows0| && Ordered(pks) && i < |rows0|
    requires IdempotentOnKept(job) || (b >= 1 && SlicesEndClear(job, rows0, b))
    ensures Run(job, pks, rows0, b, k).rows[i] in {rows0[i], SingleUpdate(job, rows0)[i]}
  {
    var c := PlanFor(job, rows0, b);
    PlanForPlans(job, rows0, b);
    RunShows(job, pks, rows0, b, k);
    if b >= 1 {
      SlicesAreCarries(job, rows0, b);
    }
    hide IdempotentOnKept, NoneCarries, SlicesEndClear, Increasing;
    var p := Pages(c, k).p;
    if i in c.m[..p] {
      var j :| 0 <= j < p && c.m[j] == i;
      assert i in c.m;
    }
  }

  /** Three equal rows in pages of two: the middle one is in both pages. */
  lemma SharedRowUpdatedTwice<Row(!new)>(job: Job<Row>, r: Row)
    requires Keeps(job, r)
    ensures Run(job, [0, 1, 2], [r, r, r], 2, 2).done
    ensures Run(job, [0, 1, 2], [r, r, r], 2, 2).rows == [job.upd(r), job.upd(job.upd(r)), job.upd(r)]
  {
    var u, pks := job.upd(r), [0, 1, 2];
    var g0, g1 := Gen([r, r, r], 0, [], false), Gen([u, u, r], 1, [2], false);
    assert UpdateRows(job, g0.rows, [0, 1]) == g1.rows;
    assert UpdateRows(job, g1.rows, [1, 2]) == [u, job.upd(u), u];
    FirstPage(job, pks, g0, [0, 1, 2]);
    FirstPage(job, pks, g1, [1, 2]);
    RunTwice(job, pks, g0.rows, 2);
  }

  lemma FirstPage<Row>(job: Job<Row>, pks: seq<int>, g: Gen<Row>, s: seq<nat>)
    requires |pks| == |g.rows| && Ordered(pks) && Increasing(s) && |s| >= 2 && !g.done
    requires forall i: nat :: i in s <==> i < |pks| && pks[i] >= g.cursor && job.filter(g.rows[i])
    ensures PageDone(job, pks, g, [s[0], s[1]], Resume(job, pks, 2, g))
  {
    SelectedAre(job, pks, g.rows, g.cursor, s);
    assert Take(s, 2) == [s[0], s[1]];
    PageIs(job, pks, g, 2, s);
  }

  lemma RunTwice<Row>(job: Job<Row>, pks: seq<int>, rows: seq<Row>, b: nat)
    requires |pks| == |rows|
    ensures Run(job, pks, rows, b, 2) == Resume(job, pks, b, Resume(job, pks, b, Start(pks, rows)))
  {
    assert Run(job, pks, rows, b, 1) == Resume(job, pks, b, Run(job, pks, rows, b, 0));
  }

  /** In any state, the page to come and the one after it have one row in common, the last of the first,
      if its update left that row matching; otherwise they have none. */
  lemma {:induction false} PagesShare<Row>(job: Job<Row>, pks: seq<int>, g: Gen<Row>, b: nat)
    requires |pks| == |g.rows| && Ordered(pks) && !g.done && Take(MatchesFrom(job, pks, g.rows, g.cursor), b) != []
    ensures var page, g' := Take(MatchesFrom(job, pks, g.rows, g.cursor), b), Resume(job, pks, b, g);
      var page' := Take(MatchesFrom(job, pks, g'.rows, g'.cursor), b);
      var last := page[|page| - 1];
      && last < |pks|
      && forall i: nat :: i in page && i in page' <==> i == last && job.filter(job.upd(g.rows[last]))
  {
    hide Resume, MatchesFrom, Increasing, Within;
    var s, g' := MatchesFrom(job, pks, g.rows, g.cursor), Resume(job, pks, b, g);
    var page := Take(s, b);
    PageIs(job, pks, g, b, s);
    FromSpec(job, pks, g.rows, g.cursor);
    FromSpec(job, pks, g'.rows, g'.cursor);
    var last := page[|page| - 1];
    assert last in page && last in s;
    PagesMeet(s, MatchesFrom(job, pks, g'.rows, g'.cursor), b, last, job.filter(job.upd(g.rows[last])));
  }

  /** The rows the filter selects at or after the cursor, in order. */
  lemma FromSpec<Row>(job: Job<Row>, pks: seq<int>, rows: seq<Row>, cursor: int)
    requires |pks| == |rows|
    ensures var s := MatchesFrom(job, pks, rows, cursor);
      && Increasing(s) && Within(s, |rows|)
      && forall i: nat :: i in s <==> i < |rows| && pks[i] >= cursor && job.filter(rows[i])
  {
    WhereSpec(|rows|, (i: nat) => i < |rows| && pks[i] >= cursor && job.filter(rows[i]));
  }

  /** A page that ends at `last` and one cut from what follows, which may begin with `last` again. */
  lemma PagesMeet(s: seq<nat>, s': seq<nat>, b: nat, last: nat, again: bool)
    requires Increasing(s) && Increasing(s') && Take(s, b) != [] && last == Take(s, b)[|Take(s, b)| - 1]
    requires (forall i: nat | i in s' :: i >= last) && (last in s' <==> again)
    ensures forall i: nat :: i in Take(s, b) && i in Take(s', b) <==> i == last && again
  {
    var page, page' := Take(s, b), Take(s', b);
    assert forall i: nat | i in page :: i <= last;
    assert last in page;
    assert forall i: nat | i in page' :: i in s';
    if again {
      FirstIsLeast(s', last);
      assert page'[0] == last;
    }
  }

  lemma FirstIsLeast(s: seq<nat>, x: nat)
    requires Increasing(s) && x in s && forall i: nat | i in s :: i >= x
    ensures s[0] == x
  {
    assert s[0] in s;
  }

  // ---- What the backfill counts ----

  ghost predicate SelfClearing<Row(!new)>(job: Job<Row>) {
    forall r {:trigger job.upd(r)} | job.filter(r) :: !job.filter(job.upd(r))
  }

  /** For instance no WHERE clause at all. */
  ghost predicate Stable<Row(!new)>(job: Job<Row>) {
    forall r {:trigger job.upd(r)} | job.filter(r) :: job.filter(job.upd(r))
  }

  lemma SumAppend(s: seq<nat>, x: nat)
    ensures Sum(s + [x]) == Sum(s) + x
  {
    assert (s + [x])[..|s|] == s;
  }

  /** With a filter the update clears, a finished run has counted each of the n matching rows once, in
      ceil(n / b) pages. */
  lemma {:induction false} SelfClearingCounts<Row(!new)>(job: Job<Row>, pks: seq<int>, rows0: seq<Row>, b: nat, k: nat)
    requires |pks| == |rows0| && Ordered(pks) && b >= 1 && SelfClearing(job)
    requires Run(job, pks, rows0, b, k).done
    ensures var counts, n := Run(job, pks, rows0, b, k).counts, |Matches(job, rows0)|;
      && Sum(counts) == n
      && (if counts == [] then n == 0 else (|counts| - 1) * b < n <= |counts| * b)
  {
    var c := PlanFor(job, rows0, b);
    RunPages(job, pks, rows0, b, k);
    forall j: nat | j < |c.m|
      ensures !c.keep(j, 1)
    {
      PlanKeeps(job, rows0, b, j, 1);
      var r := rows0[c.m[j]];
      assert Times(job, r, 1) == job.upd(Times(job, r, 0)) == job.upd(r);
    }
    hide SelfClearing, Run;
    ClearingPages(c, k);
  }

  /** One count per row; every page but the last is full. */
  predicate ClearingCounts(a: Progress, n: nat, b: nat) {
    var q := |a.counts|;
    && Sum(a.counts) == a.p
    && (a.p > 0 ==> a.h == 1)
    && (a.p < n ==> a.p == q * b)
    && (if q == 0 then a.p == 0 else (q - 1) * b < a.p <= q * b)
  }

  lemma {:induction false} ClearingPages(c: Plan, k: nat)
    requires Sound(c) && c.b >= 1 && forall j: nat | j < |c.m| :: !c.keep(j, 1)
    ensures ClearingCounts(Pages(c, k), |c.m|, c.b)
  {
    if k > 0 {
      hide ClearingCounts, Increasing;
      ClearingPages(c, k - 1);
      if !Pages(c, k - 1).done {
        ClearingNext(c, Pages(c, k - 1));
      }
    }
  }

  lemma ClearingNext(c: Plan, a: Progress)
    requires Sound(c) && c.b >= 1 && (forall j: nat | j < |c.m| :: !c.keep(j, 1)) && a.p <= |c.m| && !a.done
    requires ClearingCounts(a, |c.m|, c.b)
    ensures ClearingCounts(NextPage(c, a), |c.m|, c.b)
  {
    hide Increasing, Within;
    SumAppend(a.counts, PageSize(c, a.p, a.h));
    ClearingArithmetic(|a.counts|, c.b, a.p, |c.m|);
    hide Sum;
  }

  /** One more page, from p rows counted in q full pages. */
  lemma ClearingArithmetic(q: nat, b: nat, p: nat, n: nat)
    requires b >= 1 && (if q == 0 then p == 0 else (q - 1) * b < p <= q * b) && (p < n ==> p == q * b) && p <= n
    ensures p < n ==> var p' := if p + b < n then p + b else n;
      q * b < p' <= (q + 1) * b && (p' < n ==> p' == (q + 1) * b)
  {
    assert (q + 1) * b == q * b + b;
  }

  lemma {:induction false} StaysMatching<Row(!new)>(job: Job<Row>, r: Row, t: nat)
    requires Stable(job) && job.filter(r)
    ensures job.filter(Times(job, r, t))
  {
    if t > 0 {
      StaysMatching(job, r, t - 1);
      var u := job.upd(Times(job, r, t - 1));
    }
  }

  /** With a filter the update never clears, consecutive pages share exactly one row: a run that ends has
      counted n + q - 1 rows in q pages, and for n >= 2 there are ceil((n - 1) / (b - 1)) of them. */
  lemma {:induction false} StableCounts<Row(!new)>(job: Job<Row>, pks: seq<int>, rows0: seq<Row>, b: nat, k: nat)
    requires |pks| == |rows0| && Ordered(pks) && b >= 1 && Stable(job)
    requires Run(job, pks, rows0, b, k).done
    ensures var counts, n := Run(job, pks, rows0, b, k).counts, |Matches(job, rows0)|;
      var q := |counts|;
      if n == 0 then counts == [] else
      && q >= 1 && Sum(counts) == n + q - 1
      && n <= q * (b - 1) + 1
      && (q >= 2 ==> (q - 1) * (b - 1) + 1 < n)
  {
    var c := PlanFor(job, rows0, b);
    RunPages(job, pks, rows0, b, k);
    forall j: nat, t: nat | j < |c.m|
      ensures c.keep(j, t)
    {
      PlanKeeps(job, rows0, b, j, t);
      StaysMatching(job, rows0[c.m[j]], t);
    }
    EndsIsPlanEnds(job, rows0, b);
    TerminatesIff(job, pks, rows0, b);
    hide Stable, Increasing, Run, Ends;
    StablePages(c, k);
  }

  /** One count per row and one more for every row shared by two pages; every page but the last is full. */
  predicate OverlappingCounts(a: Progress, n: nat, b: nat)
    requires b >= 1
  {
    var q := |a.counts|;
    && (q > 0 <==> a.p > 0)
    && (q > 0 ==> Sum(a.counts) == a.p + q - 1 && a.p <= Span(q, b))
    && (q > 0 && a.p < n ==> a.p == Span(q, b))
    && (q >= 2 ==> Span(q - 1, b) < a.p)
  }

  /** The rows in q full pages of which each but the first begins with the last row of the one before. */
  function Span(q: nat, b: nat): int {
    q * (b - 1) + 1
  }

  lemma StartStable(c: Plan)
    requires Sound(c) && c.b >= 1
    ensures OverlappingCounts(Pages(c, 0), |c.m|, c.b)
  {
  }

  lemma {:induction false} StablePages(c: Plan, k: nat)
    requires Sound(c) && c.b >= 1 && PlanEnds(c) && forall j: nat, t: nat | j < |c.m| :: c.keep(j, t)
    ensures OverlappingCounts(Pages(c, k), |c.m|, c.b)
  {
    hide OverlappingCounts, Sound, Pages, NextPage, PlanEnds;
    if k == 0 {
      StartStable(c);
    } else {
      OnePage(c, k - 1);
      StablePages(c, k - 1);
      PagesReach(c, k - 1);
      if !Pages(c, k - 1).done {
        StableNext(c, Pages(c, k - 1));
      } else {
        DonePage(c, Pages(c, k - 1));
      }
    }
  }

  lemma StableNext(c: Plan, a: Progress)
    requires Sound(c) && c.b >= 1 && PlanEnds(c) && a.p <= |c.m| && !a.done
    requires forall j: nat, t: nat | j < |c.m| :: c.keep(j, t)
    requires a.p > 0 ==> c.m[a.p - 1] < c.size - 1
    requires OverlappingCounts(a, |c.m|, c.b)
    ensures OverlappingCounts(NextPage(c, a), |c.m|, c.b)
  {
    StablePage(c, a);
    hide PlanEnds, Sound, NextPage, PageSize, Carried, Span;
    if PageSize(c, a.p, a.h) > 0 {
      SumAppend(a.counts, PageSize(c, a.p, a.h));
      StableArithmetic(|a.counts|, c.b, a.p, NextPage(c, a).p, |c.m|);
    }
  }

  /** The next page, in numbers. */
  lemma StablePage(c: Plan, a: Progress)
    requires Sound(c) && c.b >= 1 && PlanEnds(c) && a.p <= |c.m| && !a.done
    requires forall j: nat, t: nat | j < |c.m| :: c.keep(j, t)
    requires a.p > 0 ==> c.m[a.p - 1] < c.size - 1
    ensures var n, b, p, a' := PageSize(c, a.p, a.h), c.b, a.p, NextPage(c, a);
      && (p > 0 ==> b >= 2 && p < |c.m|)
      && (n == 0 ==> a'.p == p && a'.counts == a.counts)
      && (n > 0 ==>
            && a'.p == (if p == 0 then if b < |c.m| then b else |c.m|
                        else if p + b - 1 < |c.m| then p + b - 1 else |c.m|)
            && a'.p > p && a'.counts == a.counts + [n] && n == a'.p - p + (if p == 0 then 0 else 1))
  {
    assert a.p > 0 ==> !PlanClears(c, a.p - 1);
    hide Increasing, Within;
  }

  lemma StableArithmetic(q: nat, b: nat, p: nat, p': nat, n: nat)
    requires b >= 1 && p <= n
    requires p' == if p == 0 then (if b < n then b else n) else if p + b - 1 < n then p + b - 1 else n
    requires q > 0 <==> p > 0
    requires q > 0 ==> p < n && b >= 2 && p == Span(q, b)
    ensures p' <= Span(q + 1, b) && (p' < n ==> p' == Span(q + 1, b)) && (q > 0 ==> Span(q, b) < p')
  {
    assert (q + 1) * (b - 1) == q * (b - 1) + (b - 1);
  }

  /** Some page that begins where no row has been carried ends at position e and carries its last row. */
  predicate Carries(c: Plan, e: nat)
    requires c.b >= 1
  {
    1 <= e <= |c.m| && (Multiple(c.b, e) || e == |c.m|) && c.keep(e - 1, 1) && c.m[e - 1] != c.size - 1
  }

  ghost predicate NoneCarries(c: Plan)
    requires c.b >= 1
  {
    forall e: nat :: !Carries(c, e)
  }

  /** Until a page carries a row, every row has been counted once and the pages are the slices of b rows. */
  ghost predicate CountedOnce(c: Plan, a: Progress)
    requires c.b >= 1
  {
    && a.p <= |c.m| && Sum(a.counts) >= a.p
    && (Sum(a.counts) > a.p ==> !NoneCarries(c))
    && (Sum(a.counts) == a.p ==>
          && (Multiple(c.b, a.p) || a.p == |c.m|) && (a.p > 0 ==> a.h == 1)
          && (forall e: nat | Carries(c, e) :: e >= a.p)
          && (a.done ==> NoneCarries(c)))
  }

  /** e is a multiple of b. */
  predicate Multiple(b: nat, e: nat)
    requires b >= 1
  {
    if e < b then e == 0 else Multiple(b, e - b)
  }

  lemma {:induction false} NoMultipleBetween(b: nat, p: nat, e: nat)
    requires b >= 1 && Multiple(b, p) && p < e < p + b
    ensures !Multiple(b, e)
  {
    if p >= b {
      NoMultipleBetween(b, p - b, e - b);
    }
  }

  lemma NotLastOfTable(c: Plan, p: nat)
    requires Sound(c) && 0 < p < |c.m|
    ensures c.m[p - 1] < c.size - 1
  {
    assert c.m[p - 1] < c.m[p] < c.size;
  }

  lemma CountedOnceNext(c: Plan, a: Progress)
    requires Sound(c) && c.b >= 1 && CountedOnce(c, a) && !a.done
    requires a.p > 0 ==> c.m[a.p - 1] < c.size - 1
    ensures CountedOnce(c, NextPage(c, a))
  {
    SumAppend(a.counts, PageSize(c, a.p, a.h));
    if Sum(a.counts) == a.p {
      if Carried(c, a.p, a.h) == 1 {
        assert Carries(c, a.p);
      } else {
        FreshPage(c, a);
      }
    }
    hide Increasing, Carries;
  }

  /** A page that carries nothing over. */
  lemma FreshPage(c: Plan, a: Progress)
    requires Sound(c) && c.b >= 1 && CountedOnce(c, a) && !a.done && Sum(a.counts) == a.p
    requires Carried(c, a.p, a.h) == 0 && (a.p > 0 ==> c.m[a.p - 1] < c.size - 1)
    ensures var a' := NextPage(c, a);
      && (Multiple(c.b, a'.p) || a'.p == |c.m|) && (a'.p > 0 ==> a'.h == 1)
      && (forall e: nat | Carries(c, e) :: e >= a'.p)
      && (a'.done ==> NoneCarries(c))
  {
    var a' := NextPage(c, a);
    if 0 < a'.p < |c.m| {
      NotLastOfTable(c, a'.p);
    }
    hide Increasing, Within;
    forall e: nat | Carries(c, e)
      ensures e >= a'.p && !a'.done
    {
      assert e > a.p;
      if e < a'.p {
        NoMultipleBetween(c.b, a.p, e);
      }
    }
  }

  lemma StartCountedOnce(c: Plan)
    requires Sound(c) && c.b >= 1
    ensures CountedOnce(c, Pages(c, 0))
  {
    assert |c.m| > 0 ==> c.m[0] < c.size;
  }

  lemma {:induction false} PagesCountedOnce(c: Plan, k: nat)
    requires Sound(c) && c.b >= 1
    ensures CountedOnce(c, Pages(c, k))
  {
    hide CountedOnce, Sound, NextPage, Pages;
    if k == 0 {
      StartCountedOnce(c);
    } else {
      PagesCountedOnce(c, k - 1);
      PagesReach(c, k - 1);
      OnePage(c, k - 1);
      if !Pages(c, k - 1).done {
        CountedOnceNext(c, Pages(c, k - 1));
      } else {
        DonePage(c, Pages(c, k - 1));
      }
    }
  }

  lemma OnceCarriesNothing(c: Plan, k: nat)
    requires Sound(c)
    ensures var a := Pages(c, k); Once(c) && !a.done ==> Carried(c, a.p, a.h) == 0
  {
    if Once(c) && !Pages(c, k).done {
      PagesCountedOnce(c, k);
      PagesReach(c, k);
      hide Pages, Sound;
      var a := Pages(c, k);
      assert a.p > 0 ==> !Carries(c, a.p);
    }
  }

  lemma DonePage(c: Plan, a: Progress)
    requires Sound(c) && a.done && a.p <= |c.m|
    ensures NextPage(c, a) == a
  {
  }

  /** Of the matching rows in slices of b, no slice ends in a row that keeps matching, unless that row is
      the last one of the table. */
  ghost predicate SlicesEndClear<Row>(job: Job<Row>, rows: seq<Row>, b: nat)
    requires b >= 1
  {
    var m := Matches(job, rows);
    forall i | 0 <= i < |m| && (Multiple(b, i + 1) || i + 1 == |m|) ::
      m[i] < |rows| && (Keeps(job, rows[m[i]]) ==> m[i] == |rows| - 1)
  }

  lemma SlicesAreCarries<Row>(job: Job<Row>, rows: seq<Row>, b: nat)
    requires b >= 1
    ensures SlicesEndClear(job, rows, b) <==> NoneCarries(PlanFor(job, rows, b))
  {
    var c := PlanFor(job, rows, b);
    forall i: nat | i < |c.m|
      ensures c.m[i] < |rows| && (c.keep(i, 1) <==> Keeps(job, rows[c.m[i]]))
    {
      PlanKeeps(job, rows, b, i, 1);
      var r := rows[c.m[i]];
      assert Times(job, r, 1) == job.upd(Times(job, r, 0)) == job.upd(r);
    }
    if NoneCarries(c) {
      forall i | 0 <= i < |c.m| && (Multiple(b, i + 1) || i + 1 == |c.m|)
        ensures c.m[i] < |rows| && (Keeps(job, rows[c.m[i]]) ==> c.m[i] == |rows| - 1)
      {
        assert !Carries(c, i + 1);
      }
    }
  }

  // ---- The code: the generator object and its consumer ----

  /** An async generator over one table; Next is one resumption of it. The bounds query that runs before
      the first page is done on construction. */
  class BackfillGenerator<Row> {
    const job: Job<Row>
    const pks: seq<int>
    const batchSize: nat
    var rows: seq<Row>
    var cursor: int
    var batchNum: nat
    var done: bool
    ghost var counts: seq<nat>

    ghost predicate Valid()
      reads this
    {
      |pks| == |rows| && Ordered(pks) && batchNum == |counts|
    }

    ghost function View(): Gen<Row>
      reads this
    {
      Gen(rows, cursor, counts, done)
    }

    constructor (job: Job<Row>, pks: seq<int>, rows: seq<Row>, batchSize: nat)
      requires |pks| == |rows| && Ordered(pks)
      ensures Valid() && View() == Start(pks, rows)
      ensures this.job == job && this.pks == pks && this.batchSize == batchSize
    {
      this.job, this.pks, this.batchSize, this.rows := job, pks, batchSize, rows;
      cursor := if rows == [] then 0 else pks[0];
      batchNum, done, counts := 0, rows == [], [];
    }

    /** Resume until the next yield or the end. */
    method Next() returns (r: Option<(nat, nat)>)
      requires Valid()
      modifies this
      ensures Valid() && View() == old(Resume(job, pks, batchSize, View()))
      ensures r == if |counts| == |old(counts)| then None else Some((|counts|, counts[|counts| - 1]))
    {
      if done {
        return None;
      }
      var page := Take(MatchesFrom(job, pks, rows, cursor), batchSize);
      if page == [] {
        done := true;
        return None;
      }
      PageIs(job, pks, View(), batchSize, MatchesFrom(job, pks, rows, cursor));
      var last := page[|page| - 1];
      rows := UpdateRows(job, rows, page);
      batchNum := batchNum + 1;
      counts := counts + [|page|];
      r := Some((batchNum, |page|));
      done := pks[last] >= pks[|pks| - 1];
      cursor := pks[last];
    }
  }

  class BackfillProgress {
    const totalRows: nat
    var processed: nat
    var batches: nat

    constructor (totalRows: nat)
      ensures this.totalRows == totalRows && processed == 0 && batches == 0
    {
      this.totalRows := totalRows;
      processed, batches := 0, 0;
    }

    method Update(rowsInBatch: nat)
      modifies this
      ensures processed == old(processed) + rowsInBatch && batches == old(batches) + 1
    {
      processed := processed + rowsInBatch;
      batches := batches + 1;
    }
  }

  /** Drain the generator. It has to end, which TerminatesIff reduces to a test on the table. */
  method SafeBackfill<Row(!new)>(gen: BackfillGenerator<Row>) returns (progress: BackfillProgress, ghost k: nat)
    requires gen.Valid() && gen.View() == Start(gen.pks, gen.rows)
    requires Ends(gen.job, gen.rows, gen.batchSize)
    modifies gen
    ensures gen.Valid() && gen.done
    ensures gen.View() == Run(gen.job, gen.pks, old(gen.rows), gen.batchSize, k)
    ensures fresh(progress) && progress.totalRows == |Matches(gen.job, old(gen.rows))|
    ensures progress.processed == Sum(gen.counts) && progress.batches == |gen.counts|
    ensures gen.batchSize >= 1 ==>
      (progress.processed == progress.totalRows <==> SlicesEndClear(gen.job, old(gen.rows), gen.batchSize))
  {
    hide Resume, Run, Start, Sum, Ends, Matches, Ordered, SlicesEndClear;
    ghost var rows0 := gen.rows;
    ghost var end := EventuallyDone(gen.job, gen.pks, rows0, gen.batchSize);
    progress := new BackfillProgress(|Matches(gen.job, gen.rows)|);
    k := 0;
    RunNext(gen.job, gen.pks, rows0, gen.batchSize, 0);
    var batch := gen.Next();
    while batch.Some?
      invariant gen.Valid() && fresh(progress) && progress.totalRows == |Matches(gen.job, rows0)|
      invariant gen.View() == Run(gen.job, gen.pks, rows0, gen.batchSize, k + 1)
      invariant batch.None? ==> gen.done && progress.processed == Sum(gen.counts) && progress.batches == |gen.counts|
      invariant batch.Some? ==>
        && progress.processed + batch.value.1 == Sum(gen.counts) && progress.batches + 1 == |gen.counts|
        && !Run(gen.job, gen.pks, rows0, gen.batchSize, k).done
      decreases end - k
    {
      NotPastEnd(gen.job, gen.pks, rows0, gen.batchSize, k, end);
      progress.Update(batch.value.1);
      k := k + 1;
      RunNext(gen.job, gen.pks, rows0, gen.batchSize, k);
      batch := gen.Next();
    }
    k := k + 1;
    if gen.batchSize >= 1 {
      ProcessedIsTotalIff(gen.job, gen.pks, rows0, gen.batchSize, k);
    }
  }

  /** A resumption either returns or adds one count. */
  lemma RunNext<Row>(job: Job<Row>, pks: seq<int>, rows0: seq<Row>, b: nat, k: nat)
    requires |pks| == |rows0|
    ensures var g, g' := Run(job, pks, rows0, b, k), Run(job, pks, rows0, b, k + 1);
      && g' == Resume(job, pks, b, g)
      && (k == 0 ==> g == Start(pks, rows0) && Sum(g.counts) == |g.counts| == 0)
      && if |g'.counts| == |g.counts| then g'.done && g'.counts == g.counts else
         && !g.done && |g'.counts| == |g.counts| + 1
         && Sum(g'.counts) == Sum(g.counts) + g'.counts[|g.counts|]
  {
    var g := Run(job, pks, rows0, b, k);
    SumAppend(g.counts, |Take(MatchesFrom(job, pks, g.rows, g.cursor), b)|);
  }

  lemma EventuallyDone<Row(!new)>(job: Job<Row>, pks: seq<int>, rows0: seq<Row>, b: nat) returns (end: nat)
    requires |pks| == |rows0| && Ordered(pks) && Ends(job, rows0, b)
    ensures Run(job, pks, rows0, b, end).done
  {
    TerminatesIff(job, pks, rows0, b);
    end :| Run(job, pks, rows0, b, end).done;
  }

  lemma {:induction false} NotPastEnd<Row>(job: Job<Row>, pks: seq<int>, rows0: seq<Row>, b: nat, k: nat, end: nat)
    requires |pks| == |rows0| && !Run(job, pks, rows0, b, k).done && Run(job, pks, rows0, b, end).done
    ensures k < end
    decreases k
  {
    if k > 0 && end <= k {
      NotPastEnd(job, pks, rows0, b, k - 1, end);
    }
  }

  /** When safe_backfill ends with `processed` equal to `total_rows`, for every job, table and page size:
      exactly when no slice of b matching rows ends in one that is looked at again. */
  lemma {:induction false} ProcessedIsTotalIff<Row(!new)>(job: Job<Row>, pks: seq<int>, rows0: seq<Row>, b: nat, k: nat)
    requires |pks| == |rows0| && Ordered(pks) && b >= 1 && Run(job, pks, rows0, b, k).done
    ensures Sum(Run(job, pks, rows0, b, k).counts) >= |Matches(job, rows0)|
    ensures Sum(Run(job, pks, rows0, b, k).counts) == |Matches(job, rows0)| <==> SlicesEndClear(job, rows0, b)
  {
    var c := PlanFor(job, rows0, b);
    RunPages(job, pks, rows0, b, k);
    PagesCountedOnce(c, k);
    SlicesAreCarries(job, rows0, b);
    hide NoneCarries, SlicesEndClear, Run, Sum, Ordered, Sound;
  }

  /** A job is counted exactly on every table, with every page size, exactly when its update always clears
      the filter. */
  lemma CountsExactIff<Row(!new)>(job: Job<Row>)
    ensures SelfClearing(job) <==>
      forall pks: seq<int>, rows: seq<Row>, b: nat, k: nat
        | |pks| == |rows| && Ordered(pks) && b >= 1 && Run(job, pks, rows, b, k).done ::
        Sum(Run(job, pks, rows, b, k).counts) == |Matches(job, rows)|
  {
    if SelfClearing(job) {
      forall pks: seq<int>, rows: seq<Row>, b: nat, k: nat
        | |pks| == |rows| && Ordered(pks) && b >= 1 && Run(job, pks, rows, b, k).done
        ensures Sum(Run(job, pks, rows, b, k).counts) == |Matches(job, rows)|
      {
        SelfClearingCounts(job, pks, rows, b, k);
      }
    } else {
      var r :| job.filter(r) && job.filter(job.upd(r));
      SharedRowUpdatedTwice(job, r);
      SharedRowCountedTwice(job, r);
      assert |[0, 1, 2]| == |[r, r, r]| && Ordered([0, 1, 2]);
    }
  }

  lemma SharedRowCountedTwice<Row(!new)>(job: Job<Row>, r: Row)
    requires Keeps(job, r)
    ensures Sum(Run(job, [0, 1, 2], [r, r, r], 2, 2).counts) != |Matches(job, [r, r, r])|
  {
    var rows, m := [r, r, r], Matches(job, [r, r, r]);
    SharedRowUpdatedTwice(job, r);
    MatchesSpec(job, rows);
    IncreasingUnique(m, [0, 1, 2]);
    ProcessedIsTotalIff(job, [0, 1, 2], rows, 2, 2);
    assert Multiple(2, 2) && Keeps(job, rows[m[1]]);
  }

  /** With a filter that is never cleared that means one page. */
  lemma {:induction false} OnePageIsTotalIff<Row(!new)>(job: Job<Row>, pks: seq<int>, rows0: seq<Row>, b: nat, k: nat)
    requires |pks| == |rows0| && Ordered(pks) && b >= 1 && Stable(job) && Run(job, pks, rows0, b, k).done
    ensures Sum(Run(job, pks, rows0, b, k).counts) == |Matches(job, rows0)| <==> |Matches(job, rows0)| <= b
  {
    StableCounts(job, pks, rows0, b, k);
    var n, q := |Matches(job, rows0)|, |Run(job, pks, rows0, b, k).counts|;
    if n > 0 {
      OnePageIff(n, q, b);
    }
  }

  lemma OnePageIff(n: nat, q: nat, b: nat)
    requires b >= 1 && q >= 1 && n <= Span(q, b)
    requires q >= 2 ==> Span(q - 1, b) < n
    ensures q == 1 <==> n <= b
  {
    if q >= 2 {
      SpanAtLeast(q - 1, b);
    } else {
      assert Span(1, b) == b;
    }
  }

  lemma {:induction false} SpanAtLeast(q: nat, b: nat)
    requires b >= 1 && q >= 1
    ensures Span(q, b) >= b
  {
    if q > 1 {
      SpanAtLeast(q - 1, b);
      assert q * (b - 1) == (q - 1) * (b - 1) + (b - 1);
    }
  }
}
