/**
 * Revision progress: the per-(user, chapter) progress rows that each
 * finished quiz upserts, and the statistics aggregated over a user's rows.
 * Accuracies are mathematical reals; timestamps are plain numbers supplied
 * by the caller.
 */
module Revision {
  import opened Wrappers

  /** A progress row. */
  datatype ProgressRecord = ProgressRecord(
    userId: int, chapterId: int, accuracy: real, streak: int, lastPracticed: int)

  function Key(p: ProgressRecord): (int, int) {
    (p.userId, p.chapterId)
  }

  /** At most one row per (user, chapter). */
  ghost predicate Unique(rows: seq<ProgressRecord>) {
    forall i, j :: 0 <= i < j < |rows| ==> Key(rows[i]) != Key(rows[j])
  }

  /** The reported accuracy: `correct / total * 100`, or 0 for an empty quiz. */
  function Accuracy(correct: int, total: int): (a: real)
    ensures total > 0 ==> a * total as real == 100.0 * correct as real
    ensures total <= 0 ==> a == 0.0
  {
    if total > 0 then (correct as real / total as real) * 100.0 else 0.0
  }

  /** A score between 0 and the number of questions gives an accuracy between 0 and 100. */
  lemma AccuracyBounded(correct: int, total: int)
    requires 0 <= correct <= total
    ensures 0.0 <= Accuracy(correct, total) <= 100.0
  {
    if total > 0 {
      var a := Accuracy(correct, total);
      assert a * total as real <= 100.0 * total as real;
    }
  }

  /** The `.first()` row of the user and chapter. */
  function FindRow(rows: seq<ProgressRecord>, userId: int, chapterId: int): (r: Option<nat>)
    ensures r.Some? ==> r.value < |rows| && Key(rows[r.value]) == (userId, chapterId)
    ensures r.Some? ==> forall k :: 0 <= k < r.value ==> Key(rows[k]) != (userId, chapterId)
    ensures r.None? ==> forall k :: 0 <= k < |rows| ==> Key(rows[k]) != (userId, chapterId)
  {
    if rows == [] then None
    else if Key(rows[0]) == (userId, chapterId) then Some(0)
    else match FindRow(rows[1..], userId, chapterId)
      case None => None
      case Some(k) => Some(k + 1)
  }

  /** The table after `update_progress`: a new row with streak 1, or the found row advanced. */
  function Update(rows: seq<ProgressRecord>, userId: int, chapterId: int, correct: int, total: int, now: int)
    : (t: seq<ProgressRecord>)
    ensures |t| == |rows| + (if FindRow(rows, userId, chapterId).None? then 1 else 0)
    ensures forall k :: 0 <= k < |rows| && Key(rows[k]) != (userId, chapterId) ==> t[k] == rows[k]
    ensures FindRow(t, userId, chapterId).Some?
  {
    var accuracy := Accuracy(correct, total);
    match FindRow(rows, userId, chapterId)
    case None =>
      var t := rows + [ProgressRecord(userId, chapterId, accuracy, 1, now)];
      assert Key(t[|rows|]) == (userId, chapterId);
      t
    case Some(i) =>
      var p := rows[i];
      var t := rows[i := p.(accuracy := (p.accuracy + accuracy) / 2.0, streak := p.streak + 1, lastPracticed := now)];
      assert Key(t[i]) == (userId, chapterId);
      t
  }

  /** The first report for a pair adds one row: streak 1 and the reported accuracy; every other row stays. */
  lemma FirstReport(rows: seq<ProgressRecord>, userId: int, chapterId: int, correct: int, total: int, now: int)
    requires FindRow(rows, userId, chapterId).None?
    ensures var t := Update(rows, userId, chapterId, correct, total, now);
      |t| == |rows| + 1 && t[..|rows|] == rows
      && t[|rows|] == ProgressRecord(userId, chapterId, Accuracy(correct, total), 1, now)
  {
    var t := Update(rows, userId, chapterId, correct, total, now);
    assert t[..|rows|] == rows;
  }

  /**
   * A later report changes only that pair's row: its streak goes up by
   * exactly one and its accuracy becomes the mean of the old and the new.
   */
  lemma LaterReport(rows: seq<ProgressRecord>, userId: int, chapterId: int, correct: int, total: int, now: int)
    requires FindRow(rows, userId, chapterId).Some?
    ensures var i, t := FindRow(rows, userId, chapterId).value, Update(rows, userId, chapterId, correct, total, now);
      |t| == |rows| && Key(t[i]) == Key(rows[i])
      && t[i].streak == rows[i].streak + 1
      && t[i].accuracy == (rows[i].accuracy + Accuracy(correct, total)) / 2.0
      && t[i].lastPracticed == now
      && forall k :: 0 <= k < |rows| && k != i ==> t[k] == rows[k]
  {
  }

  /** An update never creates a second row for a pair. */
  lemma UpdateKeepsUnique(rows: seq<ProgressRecord>, userId: int, chapterId: int, correct: int, total: int, now: int)
    requires Unique(rows)
    ensures Unique(Update(rows, userId, chapterId, correct, total, now))
  {
    var t := Update(rows, userId, chapterId, correct, total, now);
    if FindRow(rows, userId, chapterId).None? {
      forall i, j | 0 <= i < j < |t|
        ensures Key(t[i]) != Key(t[j])
      {
        if j == |rows| {
          assert t[i] == rows[i];
        } else {
          assert t[i] == rows[i] && t[j] == rows[j];
        }
      }
    } else {
      var x := FindRow(rows, userId, chapterId).value;
      forall i, j | 0 <= i < j < |t|
        ensures Key(t[i]) != Key(t[j])
      {
        assert Key(t[i]) == Key(rows[i]) && Key(t[j]) == Key(rows[j]);
      }
    }
  }

  /** With reported scores in range, every stored accuracy stays between 0 and 100. */
  ghost predicate AccuraciesInRange(rows: seq<ProgressRecord>) {
    forall k :: 0 <= k < |rows| ==> 0.0 <= rows[k].accuracy <= 100.0
  }

  lemma UpdateKeepsAccuracyInRange(
    rows: seq<ProgressRecord>, userId: int, chapterId: int, correct: int, total: int, now: int)
    requires AccuraciesInRange(rows) && 0 <= correct <= total
    ensures AccuraciesInRange(Update(rows, userId, chapterId, correct, total, now))
  {
    AccuracyBounded(correct, total);
  }

  // ---------------------------------------------------------------------
  // Statistics
  // ---------------------------------------------------------------------

  /** The rows of one user, in table order. */
  function UserRows(rows: seq<ProgressRecord>, userId: int): (r: seq<ProgressRecord>)
    ensures |r| <= |rows|
    ensures forall k :: 0 <= k < |r| ==> r[k].userId == userId
  {
    if rows == [] then []
    else (if rows[0].userId == userId then [rows[0]] else []) + UserRows(rows[1..], userId)
  }

  /** The user's rows are exactly the rows of the table that belong to the user. */
  lemma {:induction false} UserRowsMembers(rows: seq<ProgressRecord>, userId: int)
    ensures forall q :: q in UserRows(rows, userId) <==> q in rows && q.userId == userId
    decreases |rows|
  {
    if rows != [] {
      UserRowsMembers(rows[1..], userId);
      assert rows == [rows[0]] + rows[1..];
    }
  }

  function SumAccuracy(rows: seq<ProgressRecord>): real {
    if rows == [] then 0.0 else rows[0].accuracy + SumAccuracy(rows[1..])
  }

  function SumStreak(rows: seq<ProgressRecord>): int {
    if rows == [] then 0 else rows[0].streak + SumStreak(rows[1..])
  }

  /** `max(p.streak for p in rows)`. */
  function MaxStreak(rows: seq<ProgressRecord>): (m: int)
    requires rows != []
    ensures forall k :: 0 <= k < |rows| ==> rows[k].streak <= m
    ensures exists k :: 0 <= k < |rows| && rows[k].streak == m
  {
    if |rows| == 1 then rows[0].streak
    else
      var rest := MaxStreak(rows[1..]);
      assert forall k :: 1 <= k < |rows| ==> rows[k] == rows[1..][k - 1];
      if rows[0].streak >= rest then rows[0].streak else rest
  }

  /** Python's `int(x)`: truncation toward zero. */
  function Trunc(x: real): (n: int)
    ensures x >= 0.0 ==> n as real <= x < n as real + 1.0
    ensures x < 0.0 ==> n as real - 1.0 < x <= n as real
  {
    if x >= 0.0 then x.Floor else -((-x).Floor)
  }

  datatype ProgressStats = ProgressStats(accuracy: int, completedChapters: nat, totalQuizzes: int, streak: int)

  /** `get_progress_stats` over a user's rows. */
  function Stats(userRows: seq<ProgressRecord>): (s: ProgressStats)
    ensures userRows == [] ==> s == ProgressStats(0, 0, 0, 0)
    ensures userRows != [] ==>
      s.completedChapters == |userRows| && s.totalQuizzes == SumStreak(userRows)
      && s.streak == MaxStreak(userRows) && s.accuracy == Trunc(SumAccuracy(userRows) / |userRows| as real)
  {
    if userRows == [] then ProgressStats(0, 0, 0, 0)
    else
      var n := |userRows|;
      ProgressStats(Trunc(SumAccuracy(userRows) / n as real), n, SumStreak(userRows), MaxStreak(userRows))
  }

  lemma {:induction false} SumAccuracyBounded(rows: seq<ProgressRecord>)
    requires AccuraciesInRange(rows)
    ensures 0.0 <= SumAccuracy(rows) <= 100.0 * |rows| as real
  {
    if rows != [] {
      SumAccuracyBounded(rows[1..]);
    }
  }

  /** With accuracies in range, the reported accuracy is between 0 and 100. */
  lemma StatsAccuracyBounded(userRows: seq<ProgressRecord>)
    requires AccuraciesInRange(userRows)
    ensures 0 <= Stats(userRows).accuracy <= 100
  {
    if userRows != [] {
      SumAccuracyBounded(userRows);
      var n := |userRows| as real;
      var mean := SumAccuracy(userRows) / n;
      assert mean * n == SumAccuracy(userRows);
      assert 0.0 <= mean <= 100.0;
    }
  }

  lemma {:induction false} SumStreakAtLeastCount(rows: seq<ProgressRecord>)
    requires forall k :: 0 <= k < |rows| ==> rows[k].streak >= 1
    ensures SumStreak(rows) >= |rows|
  {
    if rows != [] {
      SumStreakAtLeastCount(rows[1..]);
    }
  }

  /** Every row has been practised at least once, so the quiz total is at least the chapter count. */
  lemma QuizzesAtLeastChapters(userRows: seq<ProgressRecord>)
    requires forall k :: 0 <= k < |userRows| ==> userRows[k].streak >= 1
    ensures Stats(userRows).totalQuizzes >= Stats(userRows).completedChapters
  {
    SumStreakAtLeastCount(userRows);
  }

  /** Replacing a row of the user replaces one position of the user's rows. */
  lemma {:induction false} UserRowsReplace(rows: seq<ProgressRecord>, i: nat, p: ProgressRecord, userId: int)
    returns (j: nat)
    requires i < |rows| && rows[i].userId == userId && p.userId == userId
    ensures j < |UserRows(rows, userId)| && UserRows(rows, userId)[j] == rows[i]
    ensures UserRows(rows[i := p], userId) == UserRows(rows, userId)[j := p]
    decreases |rows|
  {
    var t := rows[i := p];
    var tail := UserRows(rows[1..], userId);
    if i == 0 {
      assert UserRows(t, userId) == [p] + tail by {
        assert t[1..] == rows[1..];
      }
      assert UserRows(rows, userId) == [rows[0]] + tail;
      assert ([rows[0]] + tail)[0 := p] == [p] + tail;
      j := 0;
    } else {
      assert t[1..] == rows[1..][i - 1 := p];
      var j' := UserRowsReplace(rows[1..], i - 1, p, userId);
      if rows[0].userId == userId {
        assert UserRows(t, userId) == [rows[0]] + tail[j' := p];
        assert UserRows(rows, userId) == [rows[0]] + tail;
        assert [rows[0]] + tail[j' := p] == ([rows[0]] + tail)[j' + 1 := p];
        j := j' + 1;
      } else {
        assert UserRows(t, userId) == tail[j' := p];
        assert UserRows(rows, userId) == tail;
        j := j';
      }
    }
  }

  lemma {:induction false} SumStreakReplace(us: seq<ProgressRecord>, j: nat, p: ProgressRecord)
    requires j < |us|
    ensures SumStreak(us[j := p]) == SumStreak(us) - us[j].streak + p.streak
    decreases j
  {
    if j == 0 {
      assert us[j := p][1..] == us[1..];
    } else {
      assert us[j := p][1..] == us[1..][j - 1 := p];
      SumStreakReplace(us[1..], j - 1, p);
    }
  }

  /** Raising one streak never lowers the largest. */
  lemma MaxStreakRaise(us: seq<ProgressRecord>, j: nat, p: ProgressRecord)
    requires j < |us| && p.streak >= us[j].streak
    ensures MaxStreak(us[j := p]) >= MaxStreak(us)
  {
    var k :| 0 <= k < |us| && us[k].streak == MaxStreak(us);
    assert us[j := p][k].streak >= us[k].streak;
  }

  /** Replacing one of the user's rows by one with a streak one higher. */
  lemma UserRowsBump(rows: seq<ProgressRecord>, i: nat, p: ProgressRecord, userId: int)
    requires i < |rows| && rows[i].userId == userId && p.userId == userId && p.streak == rows[i].streak + 1
    ensures |UserRows(rows[i := p], userId)| == |UserRows(rows, userId)|
    ensures SumStreak(UserRows(rows[i := p], userId)) == SumStreak(UserRows(rows, userId)) + 1
    ensures UserRows(rows, userId) != [] && UserRows(rows[i := p], userId) != []
    ensures MaxStreak(UserRows(rows[i := p], userId)) >= MaxStreak(UserRows(rows, userId))
  {
    var us := UserRows(rows, userId);
    var j := UserRowsReplace(rows, i, p, userId);
    SumStreakReplace(us, j, p);
    MaxStreakRaise(us, j, p);
  }

  lemma {:induction false} UserRowsAppend(rows: seq<ProgressRecord>, p: ProgressRecord, userId: int)
    ensures UserRows(rows + [p], userId) == UserRows(rows, userId) + (if p.userId == userId then [p] else [])
    decreases |rows|
  {
    if rows == [] {
      assert [] + [p] == [p];
    } else {
      assert (rows + [p])[1..] == rows[1..] + [p];
      UserRowsAppend(rows[1..], p, userId);
    }
  }

  lemma {:induction false} SumStreakAppend(rows: seq<ProgressRecord>, p: ProgressRecord)
    ensures SumStreak(rows + [p]) == SumStreak(rows) + p.streak
    decreases |rows|
  {
    if rows == [] {
      assert [] + [p] == [p];
    } else {
      assert (rows + [p])[1..] == rows[1..] + [p];
      SumStreakAppend(rows[1..], p);
    }
  }

  /** Rows of other users only: replacing or appending a row of `userId` leaves them as they were. */
  lemma {:induction false} OtherUserRows(rows: seq<ProgressRecord>, i: nat, p: ProgressRecord, userId: int, other: int)
    requires i < |rows| && rows[i].userId == userId && p.userId == userId && other != userId
    ensures UserRows(rows[i := p], other) == UserRows(rows, other)
    decreases |rows|
  {
    if i == 0 {
      assert rows[i := p][1..] == rows[1..];
    } else {
      assert rows[i := p][1..] == rows[1..][i - 1 := p];
      OtherUserRows(rows[1..], i - 1, p, userId, other);
    }
  }

  /**
   * Each report raises the user's quiz total by exactly one, adds a
   * completed chapter exactly when it is the first report for that chapter,
   * never lowers the best streak, and leaves every other user's statistics
   * as they were.
   */
  lemma ReportEffectOnStats(rows: seq<ProgressRecord>, userId: int, chapterId: int, correct: int, total: int, now: int, other: int)
    ensures var before, after := Stats(UserRows(rows, userId)),
                                 Stats(UserRows(Update(rows, userId, chapterId, correct, total, now), userId));
      after.totalQuizzes == before.totalQuizzes + 1
      && after.completedChapters == before.completedChapters + (if FindRow(rows, userId, chapterId).None? then 1 else 0)
      && after.streak >= before.streak
    ensures other != userId ==>
      UserRows(Update(rows, userId, chapterId, correct, total, now), other) == UserRows(rows, other)
  {
    var t := Update(rows, userId, chapterId, correct, total, now);
    var p := ProgressRecord(userId, chapterId, Accuracy(correct, total), 1, now);
    match FindRow(rows, userId, chapterId)
    case None =>
      UserRowsAppend(rows, p, userId);
      UserRowsAppend(rows, p, other);
      var u := UserRows(rows, userId);
      SumStreakAppend(u, p);
      assert UserRows(t, userId) == u + [p];
      if u != [] {
        var k :| 0 <= k < |u| && u[k].streak == MaxStreak(u);
        assert (u + [p])[k] == u[k];
      }
    case Some(i) =>
      var q := rows[i].(accuracy := (rows[i].accuracy + Accuracy(correct, total)) / 2.0,
                        streak := rows[i].streak + 1, lastPracticed := now);
      assert t == rows[i := q];
      UserRowsBump(rows, i, q, userId);
      if other != userId {
        OtherUserRows(rows, i, q, userId, other);
      }
  }

  // ---------------------------------------------------------------------
  // The endpoint over the table
  // ---------------------------------------------------------------------

  /** The progress table. */
  class ProgressTable {
    var rows: seq<ProgressRecord>

    ghost predicate Valid()
      reads this
    {
      Unique(rows)
    }

    constructor ()
      ensures Valid() && rows == []
    {
      rows := [];
    }

    /** `update_progress`: the upserted row is returned. */
    method UpdateProgress(userId: int, chapterId: int, correct: int, total: int, now: int) returns (p: ProgressRecord)
      requires Valid()
      modifies this
      ensures Valid()
      ensures rows == Update(old(rows), userId, chapterId, correct, total, now)
      ensures Key(p) == (userId, chapterId) && p in rows
    {
      UpdateKeepsUnique(rows, userId, chapterId, correct, total, now);
      var found := FindRow(rows, userId, chapterId);
      var accuracy := Accuracy(correct, total);
      if found.None? {
        p := ProgressRecord(userId, chapterId, accuracy, 1, now);
        rows := rows + [p];
      } else {
        var i := found.value;
        p := rows[i];
        p := p.(accuracy := (p.accuracy + accuracy) / 2.0);
        p := p.(streak := p.streak + 1);
        p := p.(lastPracticed := now);
        rows := rows[i := p];
        assert rows[i] == p;
      }
    }

    /** `get_progress_stats` for one user. */
    function ProgressStatsOf(userId: int): ProgressStats
      reads this
    {
      Stats(UserRows(rows, userId))
    }
  }
}
