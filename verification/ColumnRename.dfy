/** The zero-downtime column rename of expand_contract_checklist, as a rolling deployment: requests of
    several code versions interleave with the six steps of the checklist and with each other. */
module ColumnRename {
  import opened Options
  import Backfill

  /** V1 uses the old column only; V2 writes both and reads the old one; V3 writes both and reads the new
      one; V4 uses the new column only. */
  datatype Version = V1 | V2 | V3 | V4

  /** Column values are nullable. */
  type Value = Option<string>

  datatype Row = Row(oldCol: Value, newCol: Value)

  /** A batched backfill under way: where its next page begins, and the largest key when it started. */
  datatype Scan = Scan(cursor: int, maxPk: int)

  /** `step` checklist steps have begun; `live` versions serve requests. `latest` is each row's last written
      value, whoever wrote it. */
  datatype State = State(step: nat, backfilled: bool, live: set<Version>, rows: map<int, Row>,
                         scan: Option<Scan>, latest: map<int, Value>)

  /** Step 2 is either the checklist's one UPDATE, or a batched backfill: the bounds query, pages that end
      at the row `last`, whatever their size, and an empty page. */
  datatype Event =
    | AddColumn
    | Fill
    | StartScan(minPk: int, maxPk: int)
    | Page(last: int)
    | EmptyPage
    | Deploy
    | Retire
    | DropColumn
    | Write(v: Version, pk: int, value: Value)

  // ---- The checklist ----

  /** The version that checklist step 3, 4 or 5 deploys, and the one it replaces. */
  function Deployed(step: nat): Version
    requires 3 <= step <= 5
  {
    if step == 3 then V2 else if step == 4 then V3 else V4
  }

  function Replaced(step: nat): Version
    requires 3 <= step <= 5
  {
    if step == 3 then V1 else if step == 4 then V2 else V3
  }

  predicate IsNull(s: State, pk: int) {
    pk in s.rows && s.rows[pk].newCol.None?
  }

  /** minPk and maxPk are the bounds of the table's keys, or the table is empty. */
  predicate Bounds(rows: map<int, Row>, minPk: int, maxPk: int) {
    rows != map[] ==> minPk in rows && maxPk in rows && forall pk | pk in rows :: minPk <= pk <= maxPk
  }

  /** Steps come in order, and each waits for the one before: a new version is deployed only after the
      backfill, and only when the last one serves alone. */
  predicate Enabled(s: State, e: Event) {
    match e
    case AddColumn => s.step == 0
    case Fill => (s.step == 1 || s.step == 2) && !s.backfilled
    case StartScan(minPk, maxPk) => s.step == 1 && s.scan.None? && Bounds(s.rows, minPk, maxPk)
    case Page(last) => s.step == 2 && !s.backfilled && s.scan.Some? && s.scan.value.cursor <= last && IsNull(s, last)
    case EmptyPage =>
      s.step == 2 && !s.backfilled && s.scan.Some? && forall pk | s.scan.value.cursor <= pk && pk in s.rows ::
        !IsNull(s, pk)
    case Deploy => s.backfilled && 2 <= s.step <= 4 && |s.live| == 1
    case Retire => 3 <= s.step <= 5 && Replaced(s.step) in s.live
    case DropColumn => s.step == 5 && s.live == {V4}
    case Write(v, pk, value) => v in s.live
  }

  function Written(s: State, v: Version, pk: int, value: Value): Row {
    var row := if pk in s.rows then s.rows[pk] else Row(None, None);
    match v
    case V1 => row.(oldCol := value)
    case V2 => Row(value, value)
    case V3 => Row(value, value)
    case V4 => row.(newCol := value)
  }

  /** `SET new = old`, of the UPDATE whose filter is `new IS NULL`. */
  function FillRow(row: Row): Row {
    row.(newCol := row.oldCol)
  }

  /** The UPDATE of this event reaches the row: it is in the table, it has NULL in the new column, and in a
      batched backfill it is on the page. */
  predicate Reaches(s: State, e: Event, pk: int) {
    IsNull(s, pk) && (e.Fill? || (e.Page? && s.scan.Some? && s.scan.value.cursor <= pk <= e.last))
  }

  function FillRows(s: State, e: Event): map<int, Row> {
    map pk | pk in s.rows :: if Reaches(s, e, pk) then FillRow(s.rows[pk]) else s.rows[pk]
  }

  function Step(s: State, e: Event): State {
    match e
    case AddColumn => s.(step := 1)
    case Fill => s.(step := 2, backfilled := true, rows := FillRows(s, e))
    case StartScan(minPk, maxPk) => s.(step := 2, backfilled := s.rows == map[], scan := Some(Scan(minPk, maxPk)))
    case Page(last) =>
      if s.scan.None? then s else
      s.(rows := FillRows(s, e), backfilled := last >= s.scan.value.maxPk, scan := Some(Scan(last, s.scan.value.maxPk)))
    case EmptyPage => s.(backfilled := true)
    case Deploy => s.(step := s.step + 1, live := s.live + {Deployed(if 2 <= s.step <= 4 then s.step + 1 else 3)})
    case Retire => s.(live := s.live - {Replaced(if 3 <= s.step <= 5 then s.step else 3)})
    case DropColumn => s.(step := 6)
    case Write(v, pk, value) =>
      s.(rows := s.rows[pk := Written(s, v, pk, value)], latest := s.latest[pk := value])
  }

  function Read(s: State, v: Version, pk: int): Value
    requires pk in s.rows
  {
    if v == V1 || v == V2 then s.rows[pk].oldCol else s.rows[pk].newCol
  }

  /** The columns a version's statements name. */
  function Uses(v: Version): set<string> {
    match v
    case V1 => {"old"}
    case V2 => {"old", "new"}
    case V3 => {"old", "new"}
    case V4 => {"new"}
  }

  /** A version's writes put the value into exactly the columns it uses, and it reads one of them. */
  lemma VersionsTouchWhatTheyUse(s: State, v: Version, pk: int, value: Value)
    requires pk in s.rows
    ensures var row := Written(s, v, pk, value);
      && row.oldCol == (if "old" in Uses(v) then value else s.rows[pk].oldCol)
      && row.newCol == (if "new" in Uses(v) then value else s.rows[pk].newCol)
    ensures forall t: State | pk in t.rows && ("old" in Uses(v) ==> t.rows[pk].oldCol == s.rows[pk].oldCol)
                              && ("new" in Uses(v) ==> t.rows[pk].newCol == s.rows[pk].newCol) ::
      Read(t, v, pk) == Read(s, v, pk)
  {
  }

  function Columns(s: State): set<string> {
    (if s.step >= 1 then {"new"} else {}) + (if s.step < 6 then {"old"} else {})
  }

  // ---- Runs ----

  function Initial(table: map<int, Value>): State {
    State(0, false, {V1}, map pk | pk in table :: Row(table[pk], None), None, table)
  }

  /** A V1 write that the backfill need not carry over: one after it; one to a row it has filled; and an
      insert behind its cursor or above the largest key it knows of. */
  predicate Late(s: State, e: Event) {
    e.Write? && e.v == V1 && (s.backfilled || (s.scan.Some? && Missed(s, s.scan.value, e.pk)))
  }

  predicate Missed(s: State, scan: Scan, pk: int) {
    pk < scan.cursor || pk > scan.maxPk || (pk in s.rows && s.rows[pk].newCol.Some?)
  }

  predicate ValidRun(s: State, es: seq<Event>)
    decreases |es|
  {
    es == [] || (Enabled(s, es[0]) && ValidRun(Step(s, es[0]), es[1..]))
  }

  predicate CleanRun(s: State, es: seq<Event>)
    decreases |es|
  {
    es == [] || (Enabled(s, es[0]) && !Late(s, es[0]) && CleanRun(Step(s, es[0]), es[1..]))
  }

  function After(s: State, es: seq<Event>): State
    decreases |es|
  {
    if es == [] then s else After(Step(s, es[0]), es[1..])
  }

  // ---- Invariants ----

  /** Only neighbouring versions are ever live together. */
  predicate LiveAtStep(s: State) {
    && s.step <= 6
    && (s.step >= 3 ==> s.backfilled) && (s.backfilled ==> s.step >= 2)
    && (s.step <= 2 ==> s.live == {V1})
    && (3 <= s.step <= 5 ==>
          s.live == {Deployed(s.step)} || s.live == {Replaced(s.step), Deployed(s.step)})
    && (s.step == 6 ==> s.live == {V4})
  }

  /** The row's new column is as far as the backfill should have brought it. */
  predicate Carried(s: State, pk: int)
    requires pk in s.rows && pk in s.latest
  {
    var filled := s.rows[pk].newCol;
    if s.backfilled then filled == s.latest[pk]
    else if s.scan.None? then filled == None
    else pk <= s.scan.value.maxPk && (filled == s.latest[pk] || (filled == None && pk >= s.scan.value.cursor))
  }

  ghost predicate Clean(s: State) {
    && LiveAtStep(s)
    && s.rows.Keys == s.latest.Keys && (s.step <= 1 ==> s.scan.None?) && (s.step == 2 && !s.backfilled ==> s.scan.Some?)
    && (s.step <= 4 ==> forall pk | pk in s.rows :: s.rows[pk].oldCol == s.latest[pk])
    && (forall pk | pk in s.rows :: Carried(s, pk))
  }

  lemma StepKeepsLive(s: State, e: Event)
    requires LiveAtStep(s) && Enabled(s, e)
    ensures LiveAtStep(Step(s, e))
  {
    if 3 <= s.step <= 5 {
      assert |{Replaced(s.step), Deployed(s.step)}| == 2;
    }
  }

  lemma StepKeepsClean(s: State, e: Event)
    requires Clean(s) && Enabled(s, e) && !Late(s, e)
    ensures Clean(Step(s, e))
  {
    StepKeepsLive(s, e);
  }

  lemma {:induction false} CleanAlways(s: State, es: seq<Event>)
    requires Clean(s) && CleanRun(s, es)
    ensures Clean(After(s, es))
    decreases |es|
  {
    if es != [] {
      StepKeepsClean(s, es[0]);
      CleanAlways(Step(s, es[0]), es[1..]);
    }
  }

  lemma {:induction false} LiveAlways(s: State, es: seq<Event>)
    requires LiveAtStep(s) && ValidRun(s, es)
    ensures LiveAtStep(After(s, es))
    decreases |es|
  {
    if es != [] {
      StepKeepsLive(s, es[0]);
      LiveAlways(Step(s, es[0]), es[1..]);
    }
  }

  // ---- The theorems ----

  /** In every interleaving, whatever is written when, no live version ever names a missing column: in
      particular step 6 drops a column that no live version uses. */
  lemma LiveVersionsHaveTheirColumns(table: map<int, Value>, es: seq<Event>)
    requires ValidRun(Initial(table), es)
    ensures forall v | v in After(Initial(table), es).live :: Uses(v) <= Columns(After(Initial(table), es))
  {
    LiveAlways(Initial(table), es);
  }

  /** The new column is there from step 1 on, and the old one until it is dropped. */
  lemma {:induction false} ColumnsAre(s: State, es: seq<Event>)
    requires LiveAtStep(s) && ValidRun(s, es)
    ensures "new" in Columns(After(s, es)) <==> "new" in Columns(s) || AddColumn in es
    ensures "old" in Columns(After(s, es)) <==> "old" in Columns(s) && DropColumn !in es
    decreases |es|
  {
    if es != [] {
      StepKeepsLive(s, es[0]);
      assert es == [es[0]] + es[1..];
      assert "new" in Columns(Step(s, es[0])) <==> "new" in Columns(s) || es[0] == AddColumn;
      assert "old" in Columns(Step(s, es[0])) <==> "old" in Columns(s) && es[0] != DropColumn;
      hide Step, LiveAtStep, Columns, Enabled;
      ColumnsAre(Step(s, es[0]), es[1..]);
    }
  }

  /** From every state a run can reach, the roll-out can be completed without a write: V4 alone is live and
      the old column is gone. */
  lemma {:induction false} CanComplete(s: State) returns (es: seq<Event>)
    requires LiveAtStep(s)
    ensures ValidRun(s, es) && After(s, es).live == {V4} && "old" !in Columns(After(s, es))
    ensures After(s, es).latest == s.latest
    decreases 12 - 2 * s.step - (if s.backfilled then 1 else 0) + |s.live|
  {
    if s.step == 6 {
      es := [];
    } else {
      var e := NextStep(s);
      StepKeepsLive(s, e);
      var rest := CanComplete(Step(s, e));
      AfterCons(s, e, rest);
      es := [e] + rest;
    }
  }

  lemma NextStep(s: State) returns (e: Event)
    requires LiveAtStep(s) && s.step < 6
    ensures Enabled(s, e) && !e.Write? && Step(s, e).latest == s.latest
    ensures var t := Step(s, e);
      2 * t.step + (if t.backfilled then 1 else 0) - |t.live| > 2 * s.step + (if s.backfilled then 1 else 0) - |s.live|
  {
    if s.step == 0 {
      e := AddColumn;
    } else if s.step <= 2 && !s.backfilled {
      e := Fill;
    } else if 3 <= s.step <= 5 && Replaced(s.step) in s.live {
      e := Retire;
      assert |{Replaced(s.step), Deployed(s.step)}| == 2;
      assert Step(s, e).live == {Deployed(s.step)};
    } else if s.step == 5 {
      e := DropColumn;
    } else {
      e := Deploy;
      assert |Step(s, e).live| <= |s.live| + 1;
    }
  }

  /** If no V1 write is late, every read by every live version, at every moment of every interleaving,
      returns the row's latest write. */
  lemma CleanReadsAreLatest(table: map<int, Value>, es: seq<Event>, v: Version, pk: int)
    requires CleanRun(Initial(table), es)
    requires v in After(Initial(table), es).live && pk in After(Initial(table), es).rows
    ensures pk in After(Initial(table), es).latest
    ensures Read(After(Initial(table), es), v, pk) == After(Initial(table), es).latest[pk]
  {
    CleanAlways(Initial(table), es);
  }

  // ---- What is read in an arbitrary run ----

  /** A write is on time if V2, V3 or V4 makes it, or if the backfill comes to the row after it, while no
      earlier write on time has given the row a value. This is the row's last on-time value after one
      more event, `v` being the one before. */
  function OnTimeStep(s: State, e: Event, pk: int, v: Value): Value {
    if e.Write? && e.pk == pk && e.v != V1 then e.value
    else if v == None && pk in s.latest && (e.Fill? || (e.Page? && OnPage(s, e.last, pk))) then s.latest[pk]
    else v
  }

  predicate OnPage(s: State, last: int, pk: int) {
    s.scan.Some? && s.scan.value.cursor <= pk <= last
  }

  function OnTime(s: State, es: seq<Event>, pk: int, v: Value): Value
    decreases |es|
  {
    if es == [] then v else OnTime(Step(s, es[0]), es[1..], pk, OnTimeStep(s, es[0], pk, v))
  }

  /** The old column is up to date while it is read, and the new one holds the last on-time value. */
  ghost predicate Tracks(s: State, pk: int, v: Value) {
    && LiveAtStep(s) && s.rows.Keys == s.latest.Keys
    && (s.step <= 4 && pk in s.rows ==> s.rows[pk].oldCol == s.latest[pk])
    && (if pk in s.rows then s.rows[pk].newCol == v else v == None)
  }

  lemma StepTracks(s: State, e: Event, pk: int, v: Value)
    requires Tracks(s, pk, v) && Enabled(s, e)
    ensures Tracks(Step(s, e), pk, OnTimeStep(s, e, pk, v))
  {
    StepKeepsLive(s, e);
  }

  lemma {:induction false} AlwaysTracks(s: State, es: seq<Event>, pk: int, v: Value)
    requires Tracks(s, pk, v) && ValidRun(s, es)
    ensures Tracks(After(s, es), pk, OnTime(s, es, pk, v))
    decreases |es|
  {
    if es != [] {
      StepTracks(s, es[0], pk, v);
      hide Tracks, Enabled, Step;
      AlwaysTracks(Step(s, es[0]), es[1..], pk, OnTimeStep(s, es[0], pk, v));
    }
  }

  /** In every run, clean or not, a live version reads the row's latest write exactly when it is V1 or V2,
      or the last write that was on time has the latest value: late writes are lost to V3 and V4 until a
      write by V2 or a later version, or an equal value, repairs the row. */
  lemma ReadsLatestIff(table: map<int, Value>, es: seq<Event>, v: Version, pk: int)
    requires ValidRun(Initial(table), es)
    requires v in After(Initial(table), es).live && pk in After(Initial(table), es).rows
    ensures var s := After(Initial(table), es);
      && pk in s.latest
      && (Read(s, v, pk) == s.latest[pk] <==> v in {V1, V2} || OnTime(Initial(table), es, pk, None) == s.latest[pk])
  {
    AlwaysTracks(Initial(table), es, pk, None);
  }

  // ---- One late write ----

  /** The roll-out from a state in which V1 serves after the backfill to one in which V3 serves. */
  function RollToV3(s: State): seq<Event> {
    if s.step == 2 then [Deploy, Retire, Deploy] else [Retire, Deploy]
  }

  /** The side condition is needed. Wherever a clean run has V1 serving after the backfill, a V1 write of
      `value` can be followed by the rest of the roll-out alone, and V3 then reads what the new column
      held before the write: the latest write exactly when the two are equal. */
  lemma LateWriteIsReadIff(table: map<int, Value>, es: seq<Event>, pk: int, value: Value)
    requires CleanRun(Initial(table), es)
    requires After(Initial(table), es).backfilled && V1 in After(Initial(table), es).live
    ensures var s := After(Initial(table), es);
      var es' := [Write(V1, pk, value)] + RollToV3(s);
      var s' := After(s, es');
      && ValidRun(s, es') && V3 in s'.live && pk in s'.rows && pk in s'.latest && s'.latest[pk] == value
      && Read(s', V3, pk) == (if pk in s.latest then s.latest[pk] else None)
      && (Read(s', V3, pk) == s'.latest[pk] <==> value == (if pk in s.latest then s.latest[pk] else None))
  {
    CleanAlways(Initial(table), es);
    hide After, ValidRun, CleanRun, Initial;
    var s := After(Initial(table), es);
    LateWriteFrom(s, pk, value);
    AfterCons(s, Write(V1, pk, value), RollToV3(s));
  }

  lemma LateWriteFrom(s: State, pk: int, value: Value)
    requires Clean(s) && s.backfilled && V1 in s.live
    ensures var s1 := Step(s, Write(V1, pk, value));
      && RollToV3(s1) == RollToV3(s) && Enabled(s, Write(V1, pk, value)) && ValidRun(s1, RollToV3(s))
      && var s' := After(s1, RollToV3(s));
         && V3 in s'.live && pk in s'.rows && pk in s'.latest && s'.latest[pk] == value
         && s'.rows[pk].newCol == (if pk in s.latest then s.latest[pk] else None)
  {
    hide After, ValidRun;
    var s1 := Step(s, Write(V1, pk, value));
    StepKeepsLive(s, Write(V1, pk, value));
    RollsToV3(s1);
  }

  lemma AfterCons(s: State, e: Event, es: seq<Event>)
    ensures After(s, [e] + es) == After(Step(s, e), es)
    ensures ValidRun(s, [e] + es) <==> Enabled(s, e) && ValidRun(Step(s, e), es)
  {
    assert ([e] + es)[1..] == es;
  }

  lemma RollsToV3(s: State)
    requires LiveAtStep(s) && s.backfilled && V1 in s.live
    ensures ValidRun(s, RollToV3(s))
    ensures var s' := After(s, RollToV3(s));
      V3 in s'.live && s'.rows == s.rows && s'.latest == s.latest
  {
    hide Clean;
    var s1 := if s.step == 2 then Step(s, Deploy) else s;
    var s2 := Step(s1, Retire);
    assert s2.live == {V2} && s2.step == 3;
    TwoSteps(s1, Retire, Deploy);
    if s.step == 2 {
      assert RollToV3(s) == [Deploy] + [Retire, Deploy];
      AfterCons(s, Deploy, [Retire, Deploy]);
    }
  }

  lemma TwoSteps(s: State, a: Event, b: Event)
    ensures After(s, [a, b]) == Step(Step(s, a), b)
    ensures ValidRun(s, [a, b]) <==> Enabled(s, a) && Enabled(Step(s, a), b)
  {
    AfterCons(s, a, [b]);
    AfterCons(Step(s, a), b, []);
    assert [a, b] == [a] + [b] && [b] == [b] + [];
  }

  // ---- When the two columns carry the same data ----

  /** The last value written to the row by a version that writes the old column: all but V4. */
  function OldValue(es: seq<Event>, pk: int, v: Value): Value
    decreases |es|
  {
    if es == [] then v else
    OldValue(es[1..], pk, if es[0].Write? && es[0].pk == pk && es[0].v != V4 then es[0].value else v)
  }

  predicate OldIs(s: State, pk: int, v: Value) {
    if pk in s.rows then s.rows[pk].oldCol == v else v == None
  }

  lemma {:induction false} AlwaysOldIs(s: State, es: seq<Event>, pk: int, v: Value)
    requires OldIs(s, pk, v)
    ensures OldIs(After(s, es), pk, OldValue(es, pk, v))
    decreases |es|
  {
    if es != [] {
      var e := es[0];
      var v' := if e.Write? && e.pk == pk && e.v != V4 then e.value else v;
      assert OldIs(Step(s, e), pk, v');
      hide Step, OldIs;
      AlwaysOldIs(Step(s, e), es[1..], pk, v');
    }
  }

  function InTable(table: map<int, Value>, pk: int): Value {
    if pk in table then table[pk] else None
  }

  /** In every run, at every step, a row's columns carry the same data exactly when the last write on time
      and the last write by a version before V4 have the same value; until step 4, exactly when the last
      write on time has the latest value. */
  lemma ColumnsAgreeIff(table: map<int, Value>, es: seq<Event>, pk: int)
    requires ValidRun(Initial(table), es) && pk in After(Initial(table), es).rows
    ensures var s, onTime := After(Initial(table), es), OnTime(Initial(table), es, pk, None);
      && (s.rows[pk].oldCol == s.rows[pk].newCol <==> OldValue(es, pk, InTable(table, pk)) == onTime)
      && (s.step <= 4 ==> pk in s.latest && (s.rows[pk].oldCol == s.rows[pk].newCol <==> onTime == s.latest[pk]))
  {
    AlwaysTracks(Initial(table), es, pk, None);
    AlwaysOldIs(Initial(table), es, pk, InTable(table, pk));
    hide OnTime, OldValue, After, ValidRun;
  }

  /** From the end of the backfill until V4 is deployed, the two columns carry the same data in clean runs. */
  lemma ColumnsAgreeUntilV4(table: map<int, Value>, es: seq<Event>, pk: int)
    requires CleanRun(Initial(table), es)
    requires After(Initial(table), es).backfilled && After(Initial(table), es).step <= 4
    requires pk in After(Initial(table), es).rows
    ensures After(Initial(table), es).rows[pk].oldCol == After(Initial(table), es).rows[pk].newCol
  {
    CleanAlways(Initial(table), es);
  }

  /** The roll-out of one row with the value "a", up to the given step: "b" is written by V1 after the
      backfill, or by V4 once it is deployed. */
  function Differing(step: nat): seq<Event> {
    var late := Write(V1, 0, Some("b"));
    if step == 3 then [AddColumn, Fill, late, Deploy]
    else if step == 4 then [AddColumn, Fill, late, Deploy, Retire, Deploy]
    else [AddColumn, Fill, Deploy, Retire, Deploy, Retire, Deploy, Write(V4, 0, Some("b"))]
  }

  lemma Follow(s: State, e: Event, t: State, es: seq<Event>)
    requires Enabled(s, e) && Step(s, e) == t
    ensures After(s, [e] + es) == After(t, es)
    ensures ValidRun(s, [e] + es) <==> ValidRun(t, es)
    ensures !Late(s, e) ==> (CleanRun(s, [e] + es) <==> CleanRun(t, es))
  {
    hide Enabled, Late, Step;
    assert ([e] + es)[1..] == es;
  }

  /** A table of one row during the roll-out. */
  function OneRow(step: nat, live: set<Version>, row: Row, latest: Value): State {
    State(step, true, live, map[0 := row], None, map[0 := latest])
  }

  lemma DeployStep(step: nat, row: Row, v: Value, es: seq<Event>)
    requires 3 <= step <= 5
    ensures var s := OneRow(step - 1, {Replaced(step)}, row, v);
      var t := OneRow(step, {Replaced(step), Deployed(step)}, row, v);
      && After(s, [Deploy] + es) == After(t, es)
      && (ValidRun(s, [Deploy] + es) <==> ValidRun(t, es)) && (CleanRun(s, [Deploy] + es) <==> CleanRun(t, es))
  {
    var t := OneRow(step, {Replaced(step), Deployed(step)}, row, v);
    Follow(OneRow(step - 1, {Replaced(step)}, row, v), Deploy, t, es);
    hide After, ValidRun, CleanRun;
  }

  lemma RetireStep(step: nat, row: Row, v: Value, es: seq<Event>)
    requires 3 <= step <= 4
    ensures var s := OneRow(step, {Replaced(step), Deployed(step)}, row, v);
      var t := OneRow(step, {Replaced(step + 1)}, row, v);
      && After(s, [Retire] + es) == After(t, es)
      && (ValidRun(s, [Retire] + es) <==> ValidRun(t, es)) && (CleanRun(s, [Retire] + es) <==> CleanRun(t, es))
  {
    var s := OneRow(step, {Replaced(step), Deployed(step)}, row, v);
    Follow(s, Retire, OneRow(step, {Replaced(step + 1)}, row, v), es);
    hide After, ValidRun, CleanRun;
  }

  /** Steps 1 and 2 on the table. */
  lemma ExpandSteps(v: Value, es: seq<Event>)
    ensures var s, t := Initial(map[0 := v]), OneRow(2, {V1}, Row(v, v), v);
      && After(s, [AddColumn] + ([Fill] + es)) == After(t, es)
      && (ValidRun(s, [AddColumn] + ([Fill] + es)) <==> ValidRun(t, es))
      && (CleanRun(s, [AddColumn] + ([Fill] + es)) <==> CleanRun(t, es))
  {
    var s := Initial(map[0 := v]);
    Follow(s, AddColumn, s.(step := 1), [Fill] + es);
    assert Step(s.(step := 1), Fill) == OneRow(2, {V1}, Row(v, v), v);
    Follow(s.(step := 1), Fill, OneRow(2, {V1}, Row(v, v), v), es);
    hide After, ValidRun, CleanRun;
  }

  lemma NoMore(s: State)
    ensures After(s, []) == s && ValidRun(s, []) && CleanRun(s, [])
  {
  }

  lemma LateWriteSteps(more: seq<Event>)
    ensures var es := [AddColumn] + ([Fill] + ([Write(V1, 0, Some("b"))] + ([Deploy] + more)));
      var s, t := Initial(map[0 := Some("a")]), OneRow(3, {V1, V2}, Row(Some("b"), Some("a")), Some("b"));
      After(s, es) == After(t, more) && (ValidRun(s, es) <==> ValidRun(t, more))
  {
    var a, b := Some("a"), Some("b");
    var late := Write(V1, 0, b);
    Follow(OneRow(2, {V1}, Row(a, a), a), late, OneRow(2, {V1}, Row(b, a), b), [Deploy] + more);
    hide After, ValidRun, CleanRun, Initial, Step, Enabled;
    ExpandSteps(a, [late] + ([Deploy] + more));
    DeployStep(3, Row(b, a), b, more);
  }

  lemma DifferAfterLateWrite()
    ensures var s0, row := Initial(map[0 := Some("a")]), Row(Some("b"), Some("a"));
      && ValidRun(s0, Differing(3)) && After(s0, Differing(3)) == OneRow(3, {V1, V2}, row, Some("b"))
      && ValidRun(s0, Differing(4)) && After(s0, Differing(4)) == OneRow(4, {V2, V3}, row, Some("b"))
  {
    var row, late, four := Row(Some("b"), Some("a")), Write(V1, 0, Some("b")), [Retire] + ([Deploy] + []);
    assert Differing(3) == [AddColumn] + ([Fill] + ([late] + ([Deploy] + [])));
    assert Differing(4) == [AddColumn] + ([Fill] + ([late] + ([Deploy] + four)));
    hide After, ValidRun, Differing, Initial;
    LateWriteSteps([]);
    LateWriteSteps(four);
    NoMore(OneRow(3, {V1, V2}, row, Some("b")));
    RetireStep(3, row, Some("b"), [Deploy] + []);
    DeployStep(4, row, Some("b"), []);
    NoMore(OneRow(4, {V2, V3}, row, Some("b")));
  }

  lemma DifferAfterV4Write()
    ensures var s0 := Initial(map[0 := Some("a")]);
      CleanRun(s0, Differing(5)) && ValidRun(s0, Differing(5))
      && After(s0, Differing(5)) == OneRow(5, {V3, V4}, Row(Some("a"), Some("b")), Some("b"))
  {
    var a, b := Some("a"), Some("b");
    var row, last := Row(a, a), [Write(V4, 0, b)] + [];
    assert Differing(5) == [AddColumn] + ([Fill] +
      ([Deploy] + ([Retire] + ([Deploy] + ([Retire] + ([Deploy] + last))))));
    var final := OneRow(5, {V3, V4}, Row(a, b), b);
    Follow(OneRow(5, {V3, V4}, row, a), Write(V4, 0, b), final, []);
    NoMore(final);
    hide After, ValidRun, CleanRun, Differing, Initial, Step, Enabled;
    ExpandSteps(a, [Deploy] + ([Retire] + ([Deploy] + ([Retire] + ([Deploy] + last)))));
    DeployStep(3, row, a, [Retire] + ([Deploy] + ([Retire] + ([Deploy] + last))));
    RetireStep(3, row, a, [Deploy] + ([Retire] + ([Deploy] + last)));
    DeployStep(4, row, a, [Retire] + ([Deploy] + last));
    RetireStep(4, row, a, [Deploy] + last);
    DeployStep(5, row, a, last);
  }

  /** In each of the steps 3 to 5 the columns can differ, in step 5 even in a clean run. */
  lemma ColumnsCanDiffer(step: nat)
    requires 3 <= step <= 5
    ensures var s0 := Initial(map[0 := Some("a")]);
      var s := After(s0, Differing(step));
      && ValidRun(s0, Differing(step)) && (step == 5 ==> CleanRun(s0, Differing(step)))
      && s.step == step && 0 in s.rows && s.rows[0].oldCol != s.rows[0].newCol
  {
    hide After, ValidRun, CleanRun, Differing, Initial;
    DifferAfterLateWrite();
    DifferAfterV4Write();
  }

  // ---- Step 2 run in batches ----

  /** The checklist's UPDATE as a job for the batched backfill. */
  const FILL := Backfill.Job((row: Row) => row.newCol.None?, (row: Row) => FillRow(row))

  lemma FillIsIdempotent()
    ensures Backfill.IdempotentOnKept(FILL)
  {
    forall row: Row
      ensures FILL.upd(FILL.upd(row)) == FILL.upd(row)
    {
    }
  }

  /** Run in batches on the freshly added column, step 2 ends exactly when pages hold two rows or no row
      but the last has NULL in the old column: a NULL is copied, and the row still matches the filter. */
  lemma FillTerminatesIff(pks: seq<int>, rows: seq<Row>, b: nat)
    requires |pks| == |rows| && Backfill.Ordered(pks) && forall i | 0 <= i < |rows| :: rows[i].newCol == None
    ensures (exists k: nat :: Backfill.Run(FILL, pks, rows, b, k).done)
       <==> b != 1 || forall i | 0 <= i < |rows| - 1 :: rows[i].oldCol != None
  {
    Backfill.TerminatesIff(FILL, pks, rows, b);
    forall i | 0 <= i < |rows|
      ensures FILL.filter(rows[i]) && (Backfill.Clears(FILL, rows[i]) <==> rows[i].oldCol != None)
    {
      FillClears(rows[i]);
    }
    if b != 1 {
      forall i | 0 <= i < |rows| && FILL.filter(rows[i]) && !Backfill.Clears(FILL, rows[i])
        ensures b == 0 || i == |rows| - 1 || exists j | i < j < |rows| :: FILL.filter(rows[j])
      {
        assert i < |rows| - 1 ==> FILL.filter(rows[i + 1]);
      }
    }
  }

  lemma FillClears(row: Row)
    requires row.newCol == None
    ensures Backfill.Clears(FILL, row) <==> row.oldCol != None
  {
    FillIsIdempotent();
    Backfill.IdempotentSettles(FILL);
    Backfill.ClearsAtOnce(FILL, row);
  }

  /** When it ends it has done what the checklist's single UPDATE does. */
  lemma FillIsTheUpdate(pks: seq<int>, rows: seq<Row>, b: nat, k: nat)
    requires |pks| == |rows| && Backfill.Ordered(pks) && b >= 1 && Backfill.Run(FILL, pks, rows, b, k).done
    ensures Backfill.Run(FILL, pks, rows, b, k).rows
         == seq(|rows|, i requires 0 <= i < |rows| => if rows[i].newCol == None then FillRow(rows[i]) else rows[i])
  {
    FillIsIdempotent();
    Backfill.FinishedIsSingleUpdate(FILL, pks, rows, b, k);
  }
}
