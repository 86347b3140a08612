/** Snapshots of the store now and at an earlier time. A snapshot maps (key, branch) to the value
    of the latest version. The earlier time is a text, and SQLite compares it with the stored text
    of each row. */
module TimeTravel {
  import opened Json
  import opened Moments
  import opened Ordering
  import opened Store

  type Snapshot = map<(string, string), Doc>

  /** `created_at <= ?` */
  predicate Shown(m: Moment, t: string) { !Less(t, Stored(m)) }

  function UpTo(rows: Table, t: string): Table {
    if rows == [] then []
    else UpTo(rows[..|rows| - 1], t) + if Shown(rows[|rows| - 1].createdAt, t) then [rows[|rows| - 1]] else []
  }

  function Pairs(rows: Table): set<(string, string)> {
    set r | r in rows :: (r.key, r.branch)
  }

  lemma PairsFound(rows: Table, key: string, branch: string)
    ensures Latest(rows, key, branch).Some? <==> (key, branch) in Pairs(rows)
  {
    LatestFound(rows, key, branch);
  }

  /** `snapshot`: every pair with its latest value. */
  function Current(rows: Table): (s: Snapshot)
    ensures s.Keys == Pairs(rows)
    ensures forall p :: p in s ==> Latest(rows, p.0, p.1).Some? && s[p] == Latest(rows, p.0, p.1).value.value
  {
    AllFound(rows);
    map p | p in Pairs(rows) :: Latest(rows, p.0, p.1).value.value
  }

  lemma AllFound(rows: Table)
    ensures forall p :: p in Pairs(rows) ==> Latest(rows, p.0, p.1).Some?
  {
    forall p | p in Pairs(rows) ensures Latest(rows, p.0, p.1).Some? { PairsFound(rows, p.0, p.1); }
  }

  /** `snapshot_asof`: the same among the rows whose stored text is at most `t`. */
  function AsOf(rows: Table, t: string): Snapshot {
    Current(UpTo(rows, t))
  }

  // ------------------------------------------------------------------ the query itself

  /** The WHERE clause of both queries; without a time, every row is visible. */
  predicate Visible(r: Row, t: Option<string>) { t.None? || Shown(r.createdAt, t.value) }

  predicate Selected(rows: Table, v: Row, t: Option<string>) {
    Visible(v, t) && forall w | w in rows && On(w, v.key, v.branch) && Visible(w, t) :: w.version <= v.version
  }

  function VisibleRows(rows: Table, t: Option<string>): Table {
    if t.None? then rows else UpTo(rows, t.value)
  }

  lemma {:induction false} UpToIsFilter(rows: Table, t: string)
    ensures forall r :: r in UpTo(rows, t) <==> r in rows && Shown(r.createdAt, t)
  {
    hide Shown;
    if rows != [] {
      UpToIsFilter(rows[..|rows| - 1], t);
      assert rows == rows[..|rows| - 1] + [rows[|rows| - 1]];
    }
  }

  /** What the visible rows are, as a set and by version. */
  ghost predicate Sees(rows: Table, seen: Table, t: Option<string>) {
    && (forall r :: r in seen <==> r in rows && Visible(r, t))
    && (forall r, s :: r in rows && s in rows && r.version == s.version && r.key == s.key && r.branch == s.branch ==> r == s)
  }

  lemma {:induction false} VisibleRowsSeen(rows: Table, hash: HashFunction, t: Option<string>)
    requires WellKept(rows, hash)
    ensures Sees(rows, VisibleRows(rows, t), t)
  {
    hide Shown;
    if t.Some? { UpToIsFilter(rows, t.value); }
    forall r, s | r in rows && s in rows && r.version == s.version && r.key == s.key && r.branch == s.branch
      ensures r == s
    {
      var i, j :| 0 <= i < |rows| && 0 <= j < |rows| && rows[i] == r && rows[j] == s;
      if i < j { VersionsAreUnique(rows, hash, i, j); } else if j < i { VersionsAreUnique(rows, hash, j, i); }
    }
  }

  /** The selected rows are the latest visible ones: a query returns one row per pair. */
  lemma SelectedIsLatest(rows: Table, seen: Table, t: Option<string>, r: Row)
    requires Sees(rows, seen, t) && r in rows
    ensures Selected(rows, r, t) <==> Latest(seen, r.key, r.branch) == Some(r)
  {
    hide Shown;
    LatestFound(seen, r.key, r.branch);
    if Selected(rows, r, t) {
      assert r in seen;
      var l := Latest(seen, r.key, r.branch).value;
      assert l in rows && l.version == r.version;
    }
  }

  lemma SelectedIsShown(rows: Table, seen: Table, t: Option<string>, r: Row)
    requires Sees(rows, seen, t) && r in rows && Selected(rows, r, t)
    ensures (r.key, r.branch) in Current(seen) && Current(seen)[(r.key, r.branch)] == r.value
  {
    hide Shown;
    SelectedIsLatest(rows, seen, t, r);
    PairsFound(seen, r.key, r.branch);
  }

  lemma ShownIsSelected(rows: Table, seen: Table, t: Option<string>, p: (string, string)) returns (j: nat)
    requires Sees(rows, seen, t) && p in Current(seen)
    ensures j < |rows| && Selected(rows, rows[j], t) && (rows[j].key, rows[j].branch) == p
  {
    hide Shown;
    LatestFound(seen, p.0, p.1);
    var l := Latest(seen, p.0, p.1).value;
    SelectedIsLatest(rows, seen, t, l);
    j :| 0 <= j < |rows| && rows[j] == l;
  }

  /** The body of both snapshot methods: run the query, collect its rows. */
  method Collect(rows: Table, ghost hash: HashFunction, t: Option<string>) returns (out: Snapshot)
    requires WellKept(rows, hash)
    ensures out == Current(VisibleRows(rows, t))
  {
    VisibleRowsSeen(rows, hash, t);
    out := CollectSelected(rows, VisibleRows(rows, t), t);
  }

  method CollectSelected(rows: Table, ghost seen: Table, t: Option<string>) returns (out: Snapshot)
    requires Sees(rows, seen, t)
    ensures out == Current(seen)
  {
    hide Current, Sees, Shown;
    out := map[];
    ghost var target := Current(seen);
    for i := 0 to |rows|
      invariant forall p :: p in out ==> p in target && out[p] == target[p]
      invariant forall j :: 0 <= j < i && Selected(rows, rows[j], t) ==> (rows[j].key, rows[j].branch) in out
    {
      if Selected(rows, rows[i], t) {
        SelectedIsShown(rows, seen, t, rows[i]);
        out := out[(rows[i].key, rows[i].branch) := rows[i].value];
      }
    }
    forall p | p in target ensures p in out {
      var j := ShownIsSelected(rows, seen, t, p);
    }
  }

  // ------------------------------------------------------------------ time travel

  ghost predicate Chronological(rows: Table) {
    forall i, j :: 0 <= i < j < |rows| ==> Instant(rows[i].createdAt) <= Instant(rows[j].createdAt)
  }

  ghost predicate AllShown(rows: Table, t: string) {
    forall i :: 0 <= i < |rows| ==> Shown(rows[i].createdAt, t)
  }

  /** Whatever the text, what is shown of a later moment is shown of an earlier one. */
  lemma ShownEarlier(a: Moment, b: Moment, t: string)
    requires Instant(a) <= Instant(b) && Shown(b, t)
    ensures Shown(a, t)
  {
    StoredOrder(b, a);
    LessTotal(Stored(a), Stored(b));
    if Less(t, Stored(a)) && Less(Stored(a), Stored(b)) { LessTransitive(t, Stored(a), Stored(b)); }
  }

  lemma {:induction false} UpToAll(rows: Table, t: string)
    requires AllShown(rows, t)
    ensures UpTo(rows, t) == rows
  {
    hide Shown;
    if rows != [] {
      UpToAll(rows[..|rows| - 1], t);
      assert rows == rows[..|rows| - 1] + [rows[|rows| - 1]];
    }
  }

  lemma ShownBefore(rows: Table, t: string, m: nat)
    requires Chronological(rows) && m < |rows| && Shown(rows[m].createdAt, t)
    ensures AllShown(rows[..m + 1], t)
  {
    forall i | 0 <= i <= m ensures Shown(rows[i].createdAt, t) {
      ShownEarlier(rows[i].createdAt, rows[m].createdAt, t);
    }
  }

  ghost predicate SplitsAt(rows: Table, t: string, n: nat) {
    n <= |rows| && UpTo(rows, t) == rows[..n] && forall i :: n <= i < |rows| ==> !Shown(rows[i].createdAt, t)
  }

  lemma SplitGrows(rows: Table, t: string, n: nat)
    requires rows != [] && SplitsAt(rows[..|rows| - 1], t, n) && !Shown(rows[|rows| - 1].createdAt, t)
    ensures SplitsAt(rows, t, n)
  {
    hide Shown;
    var front := rows[..|rows| - 1];
    assert front[..n] == rows[..n];
    assert forall i :: n <= i < |front| ==> front[i] == rows[i];
  }

  /** Any text cuts a chronological table in two: the rows it shows are a prefix. */
  lemma {:induction false} UpToIsPrefix(rows: Table, t: string)
    requires Chronological(rows)
    ensures SplitsAt(rows, t, |UpTo(rows, t)|)
  {
    hide Shown;
    if rows != [] {
      var m := |rows| - 1;
      if Shown(rows[m].createdAt, t) {
        ShownBefore(rows, t, m);
        assert rows[..m + 1] == rows;
        UpToAll(rows, t);
      } else {
        UpToIsPrefix(rows[..m], t);
        SplitGrows(rows, t, |UpTo(rows[..m], t)|);
      }
    }
  }

  /** Whatever text is asked, the snapshot as of it is the table as it once stood. */
  lemma {:induction false} AsOfIsAPastState(rows: Table, t: string)
    requires Chronological(rows)
    ensures var n := |UpTo(rows, t)|;
            n <= |rows| && AsOf(rows, t) == Current(rows[..n])
            && (n > 0 ==> Shown(rows[n - 1].createdAt, t)) && (n < |rows| ==> !Shown(rows[n].createdAt, t))
  {
    hide Shown;
    UpToIsPrefix(rows, t);
    UpToIsFilter(rows, t);
    var n := |UpTo(rows, t)|;
    if n > 0 { assert UpTo(rows, t)[n - 1] == rows[n - 1]; }
  }

  lemma {:induction false} RunConcat(rows: Table, hash: HashFunction, x: seq<Stamped>, y: seq<Stamped>)
    ensures Run(rows, hash, x + y) == Run(Run(rows, hash, x), hash, y)
  {
    if y == [] {
      assert x + y == x;
    } else {
      var n := |y| - 1;
      assert (x + y)[..|x + y| - 1] == x + y[..n];
      RunConcat(rows, hash, x, y[..n]);
    }
  }

  lemma AppendHidden(rows: Table, hash: HashFunction, op: Op, now: Moment, t: string)
    requires !Shown(now, t)
    ensures UpTo(Apply(rows, hash, op, now), t) == UpTo(rows, t)
  {
    hide Shown;
    var r := NewRow(rows, hash, op, now);
    if r.Some? { assert (rows + [r.value])[..|rows|] == rows; }
  }

  lemma {:induction false} LaterRowsAreFiltered(rows: Table, hash: HashFunction, ops: seq<Stamped>, t: string)
    requires forall i :: 0 <= i < |ops| ==> !Shown(ops[i].now, t)
    ensures UpTo(Run(rows, hash, ops), t) == UpTo(rows, t)
  {
    hide Shown, Apply;
    if ops != [] {
      var n := |ops| - 1;
      LaterRowsAreFiltered(rows, hash, ops[..n], t);
      AppendHidden(Run(rows, hash, ops[..n]), hash, ops[n].op, ops[n].now, t);
    }
  }

  /** No operation whose stamp sorts after `t` changes what the store shows for `t`. */
  lemma {:induction false} LaterWritesAreInvisible(rows: Table, hash: HashFunction, ops: seq<Stamped>, t: string)
    requires forall i :: 0 <= i < |ops| ==> !Shown(ops[i].now, t)
    ensures AsOf(Run(rows, hash, ops), t) == AsOf(rows, t)
  {
    LaterRowsAreFiltered(rows, hash, ops, t);
  }

  lemma {:induction false} EarlierWritesAreShown(rows: Table, hash: HashFunction, ops: seq<Stamped>, t: string)
    requires AllShown(rows, t)
    requires forall i :: 0 <= i < |ops| ==> Shown(ops[i].now, t)
    ensures AllShown(Run(rows, hash, ops), t)
  {
    hide Shown;
    if ops != [] {
      EarlierWritesAreShown(rows, hash, ops[..|ops| - 1], t);
    }
  }

  lemma {:induction false} ShownIsThePast(
      rows: Table, hash: HashFunction, earlier: seq<Stamped>, later: seq<Stamped>, t: string)
    requires AllShown(rows, t)
    requires forall i :: 0 <= i < |earlier| ==> Shown(earlier[i].now, t)
    requires forall i :: 0 <= i < |later| ==> !Shown(later[i].now, t)
    ensures UpTo(Run(rows, hash, earlier + later), t) == Run(rows, hash, earlier)
  {
    hide Shown;
    var past := Run(rows, hash, earlier);
    EarlierWritesAreShown(rows, hash, earlier, t);
    UpToAll(past, t);
    RunConcat(rows, hash, earlier, later);
    LaterRowsAreFiltered(past, hash, later, t);
  }

  ghost predicate ClockNeverGoesBack(ops: seq<Stamped>) {
    forall i, j :: 0 <= i < j < |ops| ==> Instant(ops[i].now) <= Instant(ops[j].now)
  }

  lemma StampsSplit(earlier: seq<Stamped>, later: seq<Stamped>, t: string)
    requires ClockNeverGoesBack(earlier) && ClockNeverGoesBack(later)
    requires earlier != [] ==> Shown(earlier[|earlier| - 1].now, t)
    requires later != [] ==> !Shown(later[0].now, t)
    ensures forall i :: 0 <= i < |earlier| ==> Shown(earlier[i].now, t)
    ensures forall i :: 0 <= i < |later| ==> !Shown(later[i].now, t)
  {
    hide Shown;
    forall i | 0 <= i < |earlier| ensures Shown(earlier[i].now, t) {
      ShownEarlier(earlier[i].now, earlier[|earlier| - 1].now, t);
    }
    forall i | 0 <= i < |later| ensures !Shown(later[i].now, t) {
      if Shown(later[i].now, t) { ShownEarlier(later[0].now, later[i].now, t); }
    }
  }

  /** Time travel, for any text: with a clock that never runs backwards, the snapshot as of `t` at
      the end of a run is the one a reader would have taken after the last operation whose stored
      stamp is at most `t`. */
  lemma {:induction false} TimeTravelIsFaithful(
      rows: Table, hash: HashFunction, earlier: seq<Stamped>, later: seq<Stamped>, t: string)
    requires AllShown(rows, t) && ClockNeverGoesBack(earlier) && ClockNeverGoesBack(later)
    requires earlier != [] ==> Shown(earlier[|earlier| - 1].now, t)
    requires later != [] ==> !Shown(later[0].now, t)
    ensures AsOf(Run(rows, hash, earlier + later), t) == Current(Run(rows, hash, earlier))
  {
    hide Run, Current, Shown;
    StampsSplit(earlier, later, t);
    ShownIsThePast(rows, hash, earlier, later, t);
  }

  // ------------------------------------------------------------------ what a text means

  /** Asked in the stored form, a moment shows exactly what was stamped at it or before. */
  lemma StoredFormShows(m: Moment, asked: Moment)
    ensures Shown(m, Stored(asked)) <==> Instant(m) <= Instant(asked)
  {
    StoredOrder(asked, m);
  }

  /** Asked with a T, whatever time follows, it shows everything stamped on the asked date: what the
      stored form of the end of that date shows. */
  lemma TFormShows(m: Moment, asked: Moment, rest: string)
    ensures Shown(m, WithT(asked, rest)) <==> DateNumber(m) <= DateNumber(asked)
    ensures Shown(m, WithT(asked, rest)) <==> Shown(m, Stored(EndOfDay(asked)))
  {
    SeparatorOrder(asked, rest, m);
    StoredFormShows(m, EndOfDay(asked));
    EndOfDayIsLast(asked, m);
  }

  /** The rows stamped at a moment or before. */
  function StampedBy(rows: Table, m: Moment): Table {
    if rows == [] then []
    else
      var r := rows[|rows| - 1];
      StampedBy(rows[..|rows| - 1], m) + if Instant(r.createdAt) <= Instant(m) then [r] else []
  }

  /** For all tables: the snapshot asked for in the stored form is the snapshot as of that moment. */
  lemma {:induction false} StoredFormIsTheMoment(rows: Table, asked: Moment)
    ensures UpTo(rows, Stored(asked)) == StampedBy(rows, asked)
    ensures AsOf(rows, Stored(asked)) == Current(StampedBy(rows, asked))
  {
    hide Shown, Instant, Current;
    if rows != [] {
      StoredFormIsTheMoment(rows[..|rows| - 1], asked);
      StoredFormShows(rows[|rows| - 1].createdAt, asked);
    }
  }

  /** For all tables: asked with a T it is the snapshot as of the end of the asked date. */
  lemma {:induction false} TFormIsTheEndOfItsDate(rows: Table, asked: Moment, rest: string)
    ensures UpTo(rows, WithT(asked, rest)) == StampedBy(rows, EndOfDay(asked))
    ensures AsOf(rows, WithT(asked, rest)) == Current(StampedBy(rows, EndOfDay(asked)))
  {
    hide Shown, Instant, Current;
    if rows != [] {
      TFormIsTheEndOfItsDate(rows[..|rows| - 1], asked, rest);
      TFormShows(rows[|rows| - 1].createdAt, asked, rest);
      StoredFormShows(rows[|rows| - 1].createdAt, EndOfDay(asked));
    }
  }

  /** For all tables: asked with a space and any rest, it shows the earlier dates, and of the asked
      date what sorts no later than that rest. */
  lemma SpaceFormShows(rows: Table, asked: Moment, rest: string, r: Row)
    ensures r in UpTo(rows, WithSpace(asked, rest)) <==>
            r in rows && (DateNumber(r.createdAt) < DateNumber(asked)
                          || (SameDate(r.createdAt, asked) && !Less(rest, TimeText(r.createdAt))))
  {
    UpToIsFilter(rows, WithSpace(asked, rest));
    SpaceOrder(asked, rest, r.createdAt);
  }

  /** The rows stamped before a moment. */
  function StampedBefore(rows: Table, m: Moment): Table {
    if rows == [] then []
    else
      var r := rows[|rows| - 1];
      StampedBefore(rows[..|rows| - 1], m) + if Instant(r.createdAt) < Instant(m) then [r] else []
  }

  /** For all tables: asked with a space, to the second and with no offset, it is the snapshot as of
      just before that second. */
  lemma {:induction false} ShortFormIsBeforeItsSecond(rows: Table, asked: Moment)
    ensures UpTo(rows, WithSpace(asked, ShortTime(asked))) == StampedBefore(rows, StartOfSecond(asked))
  {
    hide Instant, WithSpace, ShortTime;
    if rows != [] {
      ShortFormIsBeforeItsSecond(rows[..|rows| - 1], asked);
      ShortFormOrder(asked, rows[|rows| - 1].createdAt);
    }
  }

  ghost predicate QuietAfter(rows: Table, asked: Moment) {
    forall r :: r in rows && SameDate(r.createdAt, asked) ==> Instant(r.createdAt) <= Instant(asked)
  }

  lemma {:induction false} StampedByIsFilter(rows: Table, m: Moment)
    ensures forall r :: r in StampedBy(rows, m) <==> r in rows && Instant(r.createdAt) <= Instant(m)
  {
    hide Instant;
    if rows != [] {
      StampedByIsFilter(rows[..|rows| - 1], m);
      assert rows == rows[..|rows| - 1] + [rows[|rows| - 1]];
    }
  }

  lemma {:induction false} QuietMeansSame(rows: Table, asked: Moment)
    requires QuietAfter(rows, asked)
    ensures StampedBy(rows, EndOfDay(asked)) == StampedBy(rows, asked)
  {
    hide Instant, DateNumber;
    if rows != [] {
      var r := rows[|rows| - 1];
      assert r in rows && forall x :: x in rows[..|rows| - 1] ==> x in rows;
      QuietMeansSame(rows[..|rows| - 1], asked);
      EndOfDayIsLast(asked, r.createdAt);
      DateFirst(r.createdAt, asked);
    }
  }

  lemma DateFirst(a: Moment, b: Moment)
    ensures DateNumber(a) < DateNumber(b) ==> Instant(a) < Instant(b)
    ensures Instant(a) <= Instant(b) ==> DateNumber(a) <= DateNumber(b)
  {
    InstantOrder(a, b);
    InstantOrder(b, a);
  }

  /** The two forms show the same rows if and only if no row of the asked date was stamped after the
      asked time. */
  lemma FormsAgreeExactlyWhen(rows: Table, asked: Moment, rest: string)
    ensures UpTo(rows, WithT(asked, rest)) == UpTo(rows, Stored(asked)) <==> QuietAfter(rows, asked)
  {
    hide Instant, DateNumber, Shown;
    StoredFormIsTheMoment(rows, asked);
    TFormIsTheEndOfItsDate(rows, asked, rest);
    if QuietAfter(rows, asked) {
      QuietMeansSame(rows, asked);
    } else {
      var r :| r in rows && SameDate(r.createdAt, asked) && Instant(r.createdAt) > Instant(asked);
      EndOfDayIsLast(asked, r.createdAt);
      StampedByIsFilter(rows, asked);
      StampedByIsFilter(rows, EndOfDay(asked));
    }
  }

  lemma NewestIsLatest(rows: Table, hash: HashFunction, r: Row, t: string)
    requires WellKept(rows, hash) && RowKept(rows, r, hash)
    ensures Latest(UpTo(rows, t) + [r], r.key, r.branch) == Some(r)
  {
    hide Shown;
    var seen := UpTo(rows, t);
    assert (seen + [r])[..|seen|] == seen;
    LatestFound(seen, r.key, r.branch);
    UpToIsFilter(rows, t);
    if Latest(seen, r.key, r.branch).Some? {
      var l := Latest(seen, r.key, r.branch).value;
      var i :| 0 <= i < |rows| && rows[i] == l;
      VersionsBounded(rows, hash, i);
    }
  }

  lemma NewestIsShown(rows: Table, hash: HashFunction, r: Row, t: string)
    requires WellKept(rows, hash) && RowKept(rows, r, hash) && Shown(r.createdAt, t)
    ensures var s := AsOf(rows + [r], t); (r.key, r.branch) in s && s[(r.key, r.branch)] == r.value
  {
    hide Shown, RowKept, WellKept, Latest;
    assert (rows + [r])[..|rows|] == rows;
    assert UpTo(rows + [r], t) == UpTo(rows, t) + [r];
    NewestIsLatest(rows, hash, r, t);
    PairsFound(UpTo(rows, t) + [r], r.key, r.branch);
  }

  /** A write made later on the asked date is seen when the time is asked with a T, and is not when it
      is asked in the stored form. */
  lemma {:induction false} LaterWriteIsSeen(
      rows: Table, hash: HashFunction, key: string, branch: string, value: Doc, agent: string, reason: Reason,
      now: Moment, asked: Moment, rest: string)
    requires WellKept(rows, hash) && SameDate(now, asked) && Instant(asked) < Instant(now)
    ensures var after := Apply(rows, hash, Write(key, branch, value, agent, reason), now);
            (key, branch) in AsOf(after, WithT(asked, rest)) && AsOf(after, WithT(asked, rest))[(key, branch)] == value
            && AsOf(after, Stored(asked)) == AsOf(rows, Stored(asked))
  {
    hide Instant, DateNumber, Shown, AsOf, RowKept, WellKept, Latest, UpTo, Stored, WithT;
    var op := Write(key, branch, value, agent, reason);
    TFormShows(now, asked, rest);
    StoredFormShows(now, asked);
    LaterWriteHidden(rows, hash, op, now, Stored(asked));
    NewRowKept(rows, hash, op, now);
    NewestIsShown(rows, hash, NewRow(rows, hash, op, now).value, WithT(asked, rest));
  }

  lemma LaterWriteHidden(rows: Table, hash: HashFunction, op: Op, now: Moment, t: string)
    requires !Shown(now, t)
    ensures AsOf(Apply(rows, hash, op, now), t) == AsOf(rows, t)
  {
    hide Shown, Apply, UpTo;
    AppendHidden(rows, hash, op, now, t);
  }

  // ------------------------------------------------------------------ one such text

  const MORNING: Moment := Fields(2024, 5, 1, 9, 0, 0, 0)
  const NOON: Moment := Fields(2024, 5, 1, 12, 34, 56, 789)

  lemma DigitsStep(width: nat, n: nat)
    ensures Digits(width + 1, n) == Digits(width, n / 10) + [Digit(n % 10)]
  {
  }

  lemma MorningYear()
    ensures Digits(4, 2024) == "2024"
  {
    hide Digits;
    DigitsStep(3, 2024);
    DigitsStep(2, 202);
    DigitsStep(1, 20);
    DigitsStep(0, 2);
    assert Digits(0, 0) == "";
    assert "" + ['2'] + ['0'] + ['2'] + ['4'] == "2024";
  }

  lemma MorningMonth()
    ensures Digits(2, 5) == "05" && Digits(2, 1) == "01"
  {
    hide Digits;
    DigitsStep(1, 5);
    DigitsStep(1, 1);
    DigitsStep(0, 0);
    assert Digits(0, 0) == "";
    assert "" + ['0'] + ['5'] == "05" && "" + ['0'] + ['1'] == "01";
  }

  lemma MorningDate()
    ensures DateText(MORNING) == "2024-05-01"
  {
    hide Digits;
    MorningYear();
    MorningMonth();
    assert "2024" + ("-" + ("05" + ("-" + "01"))) == "2024-05-01";
  }

  lemma NoonTime()
    ensures Digits(2, 12) == "12" && Digits(2, 34) == "34" && Digits(2, 56) == "56"
  {
    hide Digits;
    DigitsStep(1, 12);
    DigitsStep(1, 34);
    DigitsStep(1, 56);
    DigitsStep(0, 1);
    DigitsStep(0, 3);
    DigitsStep(0, 5);
    assert Digits(0, 0) == "";
    assert "" + ['1'] + ['2'] == "12" && "" + ['3'] + ['4'] == "34" && "" + ['5'] + ['6'] == "56";
  }

  lemma NoonFraction()
    ensures Digits(6, 789) == "000789"
  {
    hide Digits;
    DigitsStep(5, 789);
    DigitsStep(4, 78);
    DigitsStep(3, 7);
    DigitsStep(2, 0);
    DigitsStep(1, 0);
    DigitsStep(0, 0);
    assert Digits(0, 0) == "";
    assert "" + ['0'] + ['0'] + ['0'] + ['7'] + ['8'] + ['9'] == "000789";
  }

  /** The text that is stored for that moment. */
  lemma NoonIsStored()
    ensures Stored(NOON) == "2024-05-01 12:34:56.000789+00:00"
  {
    hide Digits, DateText;
    MorningDate();
    assert DateText(NOON) == DateText(MORNING) by { SameDateText(NOON, MORNING); }
    NoonTime();
    NoonFraction();
    assert "12" + (":" + ("34" + (":" + ("56" + ("." + ("000789" + "+00:00")))))) == "12:34:56.000789+00:00";
    assert "2024-05-01" + (" " + "12:34:56.000789+00:00") == "2024-05-01 12:34:56.000789+00:00";
  }

  lemma SameDateText(a: Moment, b: Moment)
    requires a.year == b.year && a.month == b.month && a.day == b.day
    ensures DateText(a) == DateText(b)
  {
  }

  /** The snapshot as of nine in the morning shows what was written after noon. */
  lemma MorningShowsNoon(hash: HashFunction, value: Doc, agent: string, reason: Reason)
    ensures var after := Apply([], hash, Write("k", "main", value, agent, reason), NOON);
            ("k", "main") in AsOf(after, "2024-05-01T09:00:00+00:00")
            && AsOf(after, "2024-05-01T09:00:00+00:00")[("k", "main")] == value
  {
    hide AsOf, Apply, DateText;
    MorningDate();
    assert "2024-05-01" + ("T" + "09:00:00+00:00") == "2024-05-01T09:00:00+00:00";
    LaterWriteIsSeen([], hash, "k", "main", value, agent, reason, NOON, MORNING, "09:00:00+00:00");
  }
}
