/** The in-process login throttle of app/core/throttle.py: a fixed window per username, and the
    sliding-window bound that follows from it. */
module LoginThrottle {
  import opened Options

  /** Attempts counted in the window that began at startedAt. */
  datatype Window = Window(count: int, startedAt: real)

  /** LOGIN_MAX_ATTEMPTS and LOGIN_LOCKOUT_SECONDS. */
  datatype Limits = Limits(maxAttempts: int, lockout: real)

  /** The window after an attempt: the running one, or a new one when it is more than `lockout` old. */
  function Hit(c: Limits, w: Option<Window>, now: real): Window {
    if w.None? || now - w.value.startedAt > c.lockout then Window(1, now)
    else w.value.(count := w.value.count + 1)
  }

  // ---- One username ----

  /** The window after the first k attempts. */
  function WindowAfter(c: Limits, init: Option<Window>, times: seq<real>, k: nat): Option<Window>
    requires k <= |times|
  {
    if k == 0 then init else Some(Hit(c, WindowAfter(c, init, times, k - 1), times[k - 1]))
  }

  /** The window that attempt k falls in. */
  function WindowOf(c: Limits, init: Option<Window>, times: seq<real>, k: nat): Window
    requires k < |times|
  {
    Hit(c, WindowAfter(c, init, times, k), times[k])
  }

  predicate Admitted(c: Limits, init: Option<Window>, times: seq<real>, k: nat)
    requires k < |times|
  {
    WindowOf(c, init, times, k).count <= c.maxAttempts
  }

  /** How many of the attempts i, ..., j - 1 are admitted. */
  function AdmittedBetween(c: Limits, init: Option<Window>, times: seq<real>, i: nat, j: nat): nat
    requires i <= j <= |times|
    decreases j - i
  {
    if i == j then 0 else (if Admitted(c, init, times, i) then 1 else 0) + AdmittedBetween(c, init, times, i + 1, j)
  }

  predicate Sorted(times: seq<real>) {
    forall i, j | 0 <= i < j < |times| :: times[i] <= times[j]
  }

  /** A window that may stand in the table: it counts something, and did not begin in the future. */
  predicate Plausible(init: Option<Window>, times: seq<real>) {
    init.Some? && times != [] ==> init.value.count >= 1 && init.value.startedAt <= times[0]
  }

  /** Attempts i, ..., j - 1 fall in one window. */
  ghost predicate OneWindow(c: Limits, init: Option<Window>, times: seq<real>, i: nat, j: nat)
    requires i <= j <= |times|
  {
    forall k: nat | i < k < j ::
      var before := WindowOf(c, init, times, k - 1);
      WindowOf(c, init, times, k) == Window(before.count + 1, before.startedAt)
  }

  function AtLeastZero(n: int): nat {
    if n < 0 then 0 else n
  }

  lemma {:induction false} CountsFromOne(c: Limits, init: Option<Window>, times: seq<real>, k: nat)
    requires k < |times| && Plausible(init, times)
    ensures WindowOf(c, init, times, k).count >= 1
  {
    if k > 0 {
      CountsFromOne(c, init, times, k - 1);
    }
  }

  lemma {:induction false} OneWindowFromCount(c: Limits, init: Option<Window>, times: seq<real>, i: nat, j: nat)
    requires i < j <= |times| && OneWindow(c, init, times, i, j)
    ensures AdmittedBetween(c, init, times, i, j) <= AtLeastZero(c.maxAttempts + 1 - WindowOf(c, init, times, i).count)
    decreases j - i
  {
    if i + 1 < j {
      OneWindowFromCount(c, init, times, i + 1, j);
      assert WindowOf(c, init, times, i + 1).count == WindowOf(c, init, times, i).count + 1;
      hide WindowOf;
    }
  }

  /** Each window admits at most LOGIN_MAX_ATTEMPTS attempts. */
  lemma OneWindowBound(c: Limits, init: Option<Window>, times: seq<real>, i: nat, j: nat)
    requires i <= j <= |times| && OneWindow(c, init, times, i, j) && Plausible(init, times)
    ensures AdmittedBetween(c, init, times, i, j) <= AtLeastZero(c.maxAttempts)
  {
    if i < j {
      OneWindowFromCount(c, init, times, i, j);
      CountsFromOne(c, init, times, i);
    }
  }

  /** Where the window of attempt i ends: at j, or at the first attempt that is more than `lockout` after
      its beginning and starts a new one. */
  lemma {:induction false} WindowEnd(c: Limits, init: Option<Window>, times: seq<real>, i: nat, j: nat) returns (e: nat)
    requires i < j <= |times|
    ensures i < e <= j && OneWindow(c, init, times, i, e)
    ensures e < j ==> times[e] - WindowOf(c, init, times, i).startedAt > c.lockout
                      && WindowOf(c, init, times, e) == Window(1, times[e])
    ensures forall k | i <= k < e :: WindowOf(c, init, times, k).startedAt == WindowOf(c, init, times, i).startedAt
    decreases j - i
  {
    e := i + 1;
    if e < j && times[e] - WindowOf(c, init, times, i).startedAt <= c.lockout {
      var e' := WindowEnd(c, init, times, e, j);
      NextInWindow(c, init, times, i);
      hide WindowOf;
      e := e';
    }
  }

  lemma NextInWindow(c: Limits, init: Option<Window>, times: seq<real>, i: nat)
    requires i + 1 < |times| && times[i + 1] - WindowOf(c, init, times, i).startedAt <= c.lockout
    ensures WindowOf(c, init, times, i + 1)
         == Window(WindowOf(c, init, times, i).count + 1, WindowOf(c, init, times, i).startedAt)
  {
  }

  lemma {:induction false} AdmittedSplit(c: Limits, init: Option<Window>, times: seq<real>, i: nat, m: nat, j: nat)
    requires i <= m <= j <= |times|
    ensures AdmittedBetween(c, init, times, i, j)
         == AdmittedBetween(c, init, times, i, m) + AdmittedBetween(c, init, times, m, j)
    decreases m - i
  {
    if i < m {
      AdmittedSplit(c, init, times, i + 1, m, j);
    }
  }

  /** If all of LOGIN_MAX_ATTEMPTS attempts are admitted in one window, the first of them began it. */
  lemma FirstBeganWindow(c: Limits, init: Option<Window>, times: seq<real>, i: nat, j: nat)
    requires i < j <= |times| && OneWindow(c, init, times, i, j) && Plausible(init, times) && c.maxAttempts >= 1
    ensures AdmittedBetween(c, init, times, i, j) <= c.maxAttempts - 1 ||
      WindowOf(c, init, times, i).startedAt == times[i]
  {
    OneWindowFromCount(c, init, times, i, j);
    CountsFromOne(c, init, times, i);
    if WindowOf(c, init, times, i).count == 1 {
      BeganByOne(c, init, times, i);
    }
  }

  lemma BeganByOne(c: Limits, init: Option<Window>, times: seq<real>, i: nat)
    requires i < |times| && Plausible(init, times) && WindowOf(c, init, times, i).count == 1
    ensures WindowOf(c, init, times, i).startedAt == times[i]
  {
    if i > 0 {
      CountsFromOne(c, init, times, i - 1);
    }
  }

  /** What a sliding window can admit. */
  function SlidingLimit(c: Limits): nat {
    if c.maxAttempts >= 1 then 2 * c.maxAttempts - 1 else 0
  }

  /** The sliding-window bound: any attempts that lie within LOGIN_LOCKOUT_SECONDS of each other, wherever
      that interval falls, contain at most 2 * LOGIN_MAX_ATTEMPTS - 1 admitted ones. They fall into at most
      two windows, and the attempt that began the first is too old if the second has begun. */
  lemma SlidingWindowBound(c: Limits, init: Option<Window>, times: seq<real>, i: nat, j: nat)
    requires Sorted(times) && Plausible(init, times) && i <= j <= |times|
    requires i < j ==> times[j - 1] - times[i] <= c.lockout
    ensures AdmittedBetween(c, init, times, i, j) <= SlidingLimit(c)
  {
    if i < j {
      var e := WindowEnd(c, init, times, i, j);
      OneWindowBound(c, init, times, i, e);
      AdmittedSplit(c, init, times, i, e, j);
      if e < j {
        var e' := WindowEnd(c, init, times, e, j);
        assert e' == j;
        OneWindowBound(c, init, times, e, j);
        if c.maxAttempts >= 1 {
          FirstBeganWindow(c, init, times, i, e);
        }
      }
    }
  }

  /** One attempt at 0, the rest of its window at `lockout`, and a window of them at twice that. */
  function WorstTimes(c: Limits): seq<real>
    requires c.maxAttempts >= 1
  {
    seq(2 * c.maxAttempts, i => if i == 0 then 0.0 else if i < c.maxAttempts then c.lockout else 2.0 * c.lockout)
  }

  lemma {:induction false} WorstWindows(c: Limits, k: nat)
    requires c.maxAttempts >= 1 && c.lockout > 0.0 && k < 2 * c.maxAttempts
    ensures WindowOf(c, None, WorstTimes(c), k)
         == if k < c.maxAttempts then Window(k + 1, 0.0) else Window(k - c.maxAttempts + 1, 2.0 * c.lockout)
  {
    if k > 0 {
      WorstWindows(c, k - 1);
    }
  }

  lemma {:induction false} WorstAdmitted(c: Limits, i: nat)
    requires c.maxAttempts >= 1 && c.lockout > 0.0 && i <= 2 * c.maxAttempts
    ensures AdmittedBetween(c, None, WorstTimes(c), i, 2 * c.maxAttempts) == 2 * c.maxAttempts - i
    decreases 2 * c.maxAttempts - i
  {
    if i < 2 * c.maxAttempts {
      WorstWindows(c, i);
      WorstAdmitted(c, i + 1);
    }
  }

  /** The bound is attained, from an empty table, by all of these attempts but the first. */
  lemma SlidingLimitAttained(c: Limits)
    requires c.maxAttempts >= 1 && c.lockout > 0.0
    ensures Sorted(WorstTimes(c)) && |WorstTimes(c)| == 2 * c.maxAttempts
    ensures WorstTimes(c)[2 * c.maxAttempts - 1] - WorstTimes(c)[1] <= c.lockout
    ensures AdmittedBetween(c, None, WorstTimes(c), 1, 2 * c.maxAttempts) == SlidingLimit(c)
  {
    WorstAdmitted(c, 1);
  }

  /** Blocked attempts do not prolong a lockout: whatever is tried while the window lasts, the window keeps
      its beginning, and the first attempt more than `lockout` later starts afresh. */
  lemma {:induction false} LockoutEnds(c: Limits, w: Window, times: seq<real>, k: nat, now: real)
    requires k <= |times| && forall i | 0 <= i < |times| :: times[i] - w.startedAt <= c.lockout
    requires now - w.startedAt > c.lockout
    ensures WindowAfter(c, Some(w), times, k) == Some(Window(w.count + k, w.startedAt))
    ensures Hit(c, WindowAfter(c, Some(w), times, k), now) == Window(1, now)
  {
    if k > 0 {
      LockoutEnds(c, w, times, k - 1, now);
    }
  }

  // ---- The table of all usernames ----

  datatype Event = Attempt(user: string, at: real) | Reset(user: string)

  function Get(attempts: map<string, Window>, user: string): Option<Window> {
    if user in attempts then Some(attempts[user]) else None
  }

  function Apply(c: Limits, attempts: map<string, Window>, e: Event): map<string, Window> {
    match e
    case Attempt(u, at) => attempts[u := Hit(c, Get(attempts, u), at)]
    case Reset(u) => attempts - {u}
  }

  function ApplyAll(c: Limits, attempts: map<string, Window>, es: seq<Event>): map<string, Window> {
    if es == [] then attempts else Apply(c, ApplyAll(c, attempts, es[..|es| - 1]), es[|es| - 1])
  }

  /** The times at which this user tried since they were last reset. */
  function TimesOf(es: seq<Event>, user: string): seq<real> {
    if es == [] then [] else
    var e, before := es[|es| - 1], TimesOf(es[..|es| - 1], user);
    if e.user != user then before else if e.Attempt? then before + [e.at] else []
  }

  predicate WasReset(es: seq<Event>, user: string) {
    Reset(user) in es
  }

  lemma {:induction false} WindowAfterPrefix(c: Limits, init: Option<Window>, times: seq<real>, t: real, k: nat)
    requires k <= |times|
    ensures WindowAfter(c, init, times + [t], k) == WindowAfter(c, init, times, k)
  {
    if k > 0 {
      WindowAfterPrefix(c, init, times, t, k - 1);
    }
  }

  /** Users do not disturb each other, and a reset starts afresh: the table's entry for a user is what their
      own attempts since their last reset would have made, from nothing if there was one, whoever else tries
      or is reset in between. */
  lemma {:induction false} UsersAreIndependent(c: Limits, attempts: map<string, Window>, es: seq<Event>, user: string)
    ensures var init := if WasReset(es, user) then None else Get(attempts, user);
      Get(ApplyAll(c, attempts, es), user) == WindowAfter(c, init, TimesOf(es, user), |TimesOf(es, user)|)
  {
    if es != [] {
      var n := |es| - 1;
      assert es == es[..n] + [es[n]];
      UsersAreIndependent(c, attempts, es[..n], user);
      var before := TimesOf(es[..n], user);
      var init := if WasReset(es[..n], user) then None else Get(attempts, user);
      if es[n].Attempt? && es[n].user == user {
        assert TimesOf(es, user) == before + [es[n].at];
        WindowAfterPrefix(c, init, before, es[n].at, |before|);
      }
    }
  }

  // ---- The code ----

  class Throttle {
    const limits: Limits
    var attempts: map<string, Window>

    method CheckLogin(user: string, now: real) returns (admitted: bool)
      modifies this
      ensures attempts == old(Apply(limits, attempts, Attempt(user, now)))
      ensures admitted <==> attempts[user].count <= limits.maxAttempts
    {
      var count, startedAt := 0, now;
      if user in attempts {
        count, startedAt := attempts[user].count, attempts[user].startedAt;
      }
      if now - startedAt > limits.lockout {
        count, startedAt := 0, now;
      }
      count := count + 1;
      attempts := attempts[user := Window(count, startedAt)];
      admitted := count <= limits.maxAttempts;
    }

    method ResetLogin(user: string)
      modifies this
      ensures attempts == old(Apply(limits, attempts, Reset(user)))
    {
      attempts := attempts - {user};
    }
  }
}
