/** The local leaderboard of src/main.js: what `saveLB` keeps, what a submission adds,
    which rows `renderLB` shows and in what order, and `escapeHtml`. */
module Leaderboard {
  import opened Text

  /** One stored row; `at` is `Date.now()` and `weekKey` the opaque week key. */
  datatype Row = Row(name: String, score: int, at: int, weekKey: String)

  const KeptRows: nat := 50
  const ShownRows: nat := 20

  /** `rows.slice(0, n)`. */
  function Take<T>(s: seq<T>, n: nat): (r: seq<T>)
    ensures |r| == if |s| <= n then |s| else n
    ensures s[..|r|] == r
  {
    if |s| <= n then s else s[..n]
  }

  /** `saveLB`: only the first 50 rows are written back. */
  function SaveLB(rows: seq<Row>): (r: seq<Row>)
    ensures |r| <= KeptRows
    ensures |rows| <= KeptRows ==> r == rows
    ensures |rows| > KeptRows ==> r == rows[..KeptRows]
  {
    Take(rows, KeptRows)
  }

  /** The submit button: nothing happens while `lastRunScore` is 0 (falsy); otherwise a
      row with the floored score is appended and the list saved. */
  function Submit(rows: seq<Row>, lastRunScore: real, name: String, at: int, week: String): (r: seq<Row>)
    ensures lastRunScore == 0.0 ==> r == rows
    ensures lastRunScore != 0.0 && |rows| < KeptRows
            ==> r == rows + [Row(name, lastRunScore.Floor, at, week)]
  {
    if lastRunScore == 0.0 then rows
    else SaveLB(rows + [Row(name, lastRunScore.Floor, at, week)])
  }

  /** Retention keeps the oldest rows: once 50 rows are stored, a submission changes
      nothing, however high its score. */
  lemma SubmitDroppedWhenFull(rows: seq<Row>, lastRunScore: real, name: String, at: int, week: String)
    requires |rows| == KeptRows
    ensures Submit(rows, lastRunScore, name, at, week) == rows
    ensures Row(name, lastRunScore.Floor, at, week) !in rows
            ==> Row(name, lastRunScore.Floor, at, week) !in Submit(rows, lastRunScore, name, at, week)
  {
    var row := Row(name, lastRunScore.Floor, at, week);
    assert (rows + [row])[..KeptRows] == rows;
  }

  /** The two tabs of the leaderboard. */
  datatype Tab = Week | AllTime

  /** `rows.filter(r => lbTab === "week" ? r.weekKey === wk : true)`. */
  function ForTab(rows: seq<Row>, tab: Tab, week: String): (r: seq<Row>)
    ensures |r| <= |rows|
    ensures forall x :: x in r <==> x in rows && (tab == Week ==> x.weekKey == week)
    ensures multiset(r) <= multiset(rows)
    ensures tab == AllTime ==> r == rows
    decreases |rows|
  {
    if |rows| == 0 then []
    else
      var rest := ForTab(rows[1..], tab, week);
      assert rows == [rows[0]] + rows[1..];
      if tab == AllTime || rows[0].weekKey == week then [rows[0]] + rest else rest
  }

  /** The filter keeps counts: a row that passes it occurs as often as in `rows`, any
      other row not at all. */
  lemma {:induction false} ForTabCounts(rows: seq<Row>, tab: Tab, week: String, x: Row)
    ensures multiset(ForTab(rows, tab, week))[x]
            == if tab == AllTime || x.weekKey == week then multiset(rows)[x] else 0
    decreases |rows|
  {
    if |rows| > 0 {
      var h, t := rows[0], rows[1..];
      ForTabCounts(t, tab, week, x);
      MultisetCons(rows);
      var rest := ForTab(t, tab, week);
      if tab == AllTime || h.weekKey == week {
        assert ForTab(rows, tab, week) == [h] + rest;
        assert multiset(ForTab(rows, tab, week)) == multiset{h} + multiset(rest);
      } else {
        assert ForTab(rows, tab, week) == rest;
      }
    }
  }

  lemma MultisetCons(s: seq<Row>)
    requires |s| > 0
    ensures multiset(s) == multiset{s[0]} + multiset(s[1..])
  {
    assert s == [s[0]] + s[1..];
  }

  /** The filter keeps the order: the rows shown for a concatenation are the rows shown
      for each part, in order. */
  lemma {:induction false} ForTabAppend(a: seq<Row>, b: seq<Row>, tab: Tab, week: String)
    ensures ForTab(a + b, tab, week) == ForTab(a, tab, week) + ForTab(b, tab, week)
    decreases |a|
  {
    if |a| > 0 {
      assert (a + b)[1..] == a[1..] + b;
      ForTabAppend(a[1..], b, tab, week);
    } else {
      assert a + b == b;
    }
  }

  predicate SortedByScore(s: seq<Row>) {
    forall i, j :: 0 <= i < j < |s| ==> s[i].score >= s[j].score
  }

  /** The rows of `s` with score `v`, in order: stability of a sort means these
      subsequences are not reordered. */
  function WithScore(s: seq<Row>, v: int): seq<Row>
    decreases |s|
  {
    if |s| == 0 then [] else Keep(s[0], v) + WithScore(s[1..], v)
  }

  /** `[x]` when `x` scores `v`, else nothing. */
  function Keep(x: Row, v: int): seq<Row> {
    if x.score == v then [x] else []
  }

  /** Places `x` after every row scoring at least as much. */
  function Insert(x: Row, s: seq<Row>): (r: seq<Row>)
    ensures multiset(r) == multiset(s) + multiset{x}
    ensures |r| == |s| + 1
    decreases |s|
  {
    if |s| == 0 then [x]
    else if s[0].score >= x.score then
      assert s == [s[0]] + s[1..];
      [s[0]] + Insert(x, s[1..])
    else [x] + s
  }

  lemma SortedTail(s: seq<Row>)
    requires SortedByScore(s) && |s| > 0
    ensures SortedByScore(s[1..])
    ensures forall i :: 0 <= i < |s[1..]| ==> s[1..][i].score <= s[0].score
  {
    var t := s[1..];
    forall i, j | 0 <= i < j < |t| ensures t[i].score >= t[j].score {
      assert t[i] == s[i + 1] && t[j] == s[j + 1];
    }
    forall i | 0 <= i < |t| ensures t[i].score <= s[0].score {
      assert t[i] == s[i + 1];
    }
  }

  /** A bound on every row of `s` and on `x` bounds every row after the insertion. */
  lemma {:induction false} InsertBounded(x: Row, s: seq<Row>, b: int)
    requires x.score <= b && forall i :: 0 <= i < |s| ==> s[i].score <= b
    ensures forall i :: 0 <= i < |Insert(x, s)| ==> Insert(x, s)[i].score <= b
    decreases |s|
  {
    if |s| > 0 && s[0].score >= x.score {
      var t := s[1..];
      assert forall i :: 0 <= i < |t| ==> t[i] == s[i + 1];
      InsertBounded(x, t, b);
      var r := Insert(x, s);
      assert forall i :: 1 <= i < |r| ==> r[i] == Insert(x, t)[i - 1];
    }
  }

  /** Inserting into a sorted list keeps it sorted. */
  lemma {:induction false} InsertSorted(x: Row, s: seq<Row>)
    requires SortedByScore(s)
    ensures SortedByScore(Insert(x, s))
    decreases |s|
  {
    if |s| > 0 {
      var t := s[1..];
      SortedTail(s);
      var r := Insert(x, s);
      if s[0].score >= x.score {
        InsertSorted(x, t);
        InsertBounded(x, t, s[0].score);
        var it := Insert(x, t);
        assert r == [s[0]] + it;
        forall i, j | 0 <= i < j < |r| ensures r[i].score >= r[j].score {
          assert r[j] == it[j - 1];
          if i > 0 {
            assert r[i] == it[i - 1];
          }
        }
      } else {
        assert r == [x] + s;
        forall i, j | 0 <= i < j < |r| ensures r[i].score >= r[j].score {
          assert r[j] == s[j - 1];
          if i > 0 {
            assert r[i] == s[i - 1];
          } else {
            assert s[0].score >= s[j - 1].score;
          }
        }
      }
    }
  }

  /** The inserted row comes after every row of its score already there. */
  lemma {:induction false} InsertStable(x: Row, s: seq<Row>, v: int)
    requires SortedByScore(s)
    ensures WithScore(Insert(x, s), v) == WithScore(s, v) + Keep(x, v)
    decreases |s|
  {
    if |s| == 0 {
      var r := Insert(x, s);
      assert r == [x] && r[1..] == [];
      assert WithScore(r, v) == Keep(x, v) + WithScore([], v);
    } else if s[0].score >= x.score {
      SortedTail(s);
      InsertStable(x, s[1..], v);
      InsertBehind(x, s, v);
    } else {
      if x.score == v {
        NoneAbove(s, v);
      }
      InsertInFront(x, s, v);
    }
  }

  /** The step of `InsertStable` when the head stays in front. */
  lemma InsertBehind(x: Row, s: seq<Row>, v: int)
    requires |s| > 0 && s[0].score >= x.score
    requires WithScore(Insert(x, s[1..]), v) == WithScore(s[1..], v) + Keep(x, v)
    ensures WithScore(Insert(x, s), v) == WithScore(s, v) + Keep(x, v)
  {
    var h, t := s[0], s[1..];
    assert Insert(x, s) == [h] + Insert(x, t);
    assert WithScore(s, v) == Keep(h, v) + WithScore(t, v);
    WithScoreCons(h, Insert(x, t), v);
    ConcatAssoc(Keep(h, v), WithScore(t, v), Keep(x, v));
  }

  lemma ConcatAssoc(a: seq<Row>, b: seq<Row>, c: seq<Row>)
    ensures a + (b + c) == (a + b) + c
  {
  }

  lemma WithScoreCons(h: Row, t: seq<Row>, v: int)
    ensures WithScore([h] + t, v) == Keep(h, v) + WithScore(t, v)
  {
    assert ([h] + t)[0] == h && ([h] + t)[1..] == t;
  }

  /** The step of `InsertStable` when the new row goes first: no row of its score is there. */
  lemma InsertInFront(x: Row, s: seq<Row>, v: int)
    requires |s| > 0 && s[0].score < x.score
    requires x.score == v ==> WithScore(s, v) == []
    ensures WithScore(Insert(x, s), v) == WithScore(s, v) + Keep(x, v)
  {
    var r := Insert(x, s);
    assert r[0] == x && r[1..] == s;
    assert WithScore(r, v) == Keep(x, v) + WithScore(s, v);
  }

  /** In a list sorted by score whose head is below `v`, no row scores `v`. */
  lemma {:induction false} NoneAbove(s: seq<Row>, v: int)
    requires SortedByScore(s) && (|s| > 0 ==> s[0].score < v)
    ensures WithScore(s, v) == []
    decreases |s|
  {
    if |s| > 0 {
      SortedTail(s);
      if |s| > 1 {
        assert s[1..][0] == s[1];
      }
      NoneAbove(s[1..], v);
      assert Keep(s[0], v) == [];
    }
  }

  /** `.sort((a, b) => b.score - a.score)`: a stable sort by descending score. */
  function SortByScore(rows: seq<Row>): (r: seq<Row>)
    ensures multiset(r) == multiset(rows)
    ensures |r| == |rows|
    decreases |rows|
  {
    if |rows| == 0 then []
    else
      var k := |rows| - 1;
      assert rows == rows[..k] + [rows[k]];
      Insert(rows[k], SortByScore(rows[..k]))
  }

  /** The sort orders by descending score. */
  lemma {:induction false} SortByScoreSorted(rows: seq<Row>)
    ensures SortedByScore(SortByScore(rows))
    decreases |rows|
  {
    if |rows| > 0 {
      var k := |rows| - 1;
      SortByScoreSorted(rows[..k]);
      InsertSorted(rows[k], SortByScore(rows[..k]));
      assert SortByScore(rows) == Insert(rows[k], SortByScore(rows[..k]));
    }
  }

  /** The sort is stable: the rows that share a score keep their original order. */
  lemma {:induction false} SortByScoreStable(rows: seq<Row>, v: int)
    ensures WithScore(SortByScore(rows), v) == WithScore(rows, v)
    decreases |rows|
  {
    if |rows| > 0 {
      var k := |rows| - 1;
      var x := rows[k];
      var pre := rows[..k];
      assert rows == pre + [x];
      assert WithScore([x], v) == Keep(x, v) by {
        assert [x][1..] == [];
      }
      WithScoreAppend(pre, [x], v);
      var sp := SortByScore(pre);
      assert SortByScore(rows) == Insert(x, sp);
      SortByScoreStable(pre, v);
      SortByScoreSorted(pre);
      InsertStable(x, sp, v);
    }
  }

  lemma {:induction false} WithScoreAppend(a: seq<Row>, b: seq<Row>, v: int)
    ensures WithScore(a + b, v) == WithScore(a, v) + WithScore(b, v)
    decreases |a|
  {
    if |a| > 0 {
      assert (a + b)[1..] == a[1..] + b;
      WithScoreAppend(a[1..], b, v);
    } else {
      assert a + b == b;
    }
  }

  /** The rows `renderLB` shows, top first. */
  function Shown(rows: seq<Row>, tab: Tab, week: String): seq<Row> {
    Take(SortByScore(ForTab(rows, tab, week)), ShownRows)
  }

  lemma MultisetSplit(s: seq<Row>, n: nat)
    requires n <= |s|
    ensures multiset(s) == multiset(s[..n]) + multiset(s[n..])
  {
    assert s == s[..n] + s[n..];
  }

  /** What a sorted list leaves out past its first `n` rows scores no more than its n-th. */
  lemma SortedPrefixTop(s: seq<Row>, n: nat)
    requires SortedByScore(s) && 0 < n <= |s|
    ensures forall x :: x in multiset(s) - multiset(s[..n]) ==> x.score <= s[n - 1].score
  {
    MultisetSplit(s, n);
    forall x | x in multiset(s) - multiset(s[..n]) ensures x.score <= s[n - 1].score {
      assert x in multiset(s[n..]);
      var k :| 0 <= k < |s[n..]| && s[n..][k] == x;
      assert s[n + k] == x;
    }
  }

  /** The board shows at most 20 rows of the chosen tab, in descending score order. */
  lemma ShownIsTop(rows: seq<Row>, tab: Tab, week: String)
    ensures var r := Shown(rows, tab, week);
            |r| <= ShownRows && SortedByScore(r)
            && multiset(r) <= multiset(ForTab(rows, tab, week))
            && (forall x :: x in r ==> x in rows && (tab == Week ==> x.weekKey == week))
  {
    var f := ForTab(rows, tab, week);
    var s := SortByScore(f);
    var r := Take(s, ShownRows);
    assert SortedByScore(r) by {
      SortByScoreSorted(f);
      forall i, j | 0 <= i < j < |r| ensures r[i].score >= r[j].score {
        assert r[i] == s[i] && r[j] == s[j];
      }
    }
    assert multiset(r) <= multiset(f) by {
      MultisetSplit(s, |r|);
    }
    forall x: Row | x in r ensures x in rows && (tab == Week ==> x.weekKey == week) {
      assert x in multiset(r);
      assert x in multiset(f);
    }
  }

  /** A full board leaves off no row of the chosen tab that outscores its last row. */
  lemma ShownLeavesLower(rows: seq<Row>, tab: Tab, week: String)
    ensures var r := Shown(rows, tab, week);
            |r| == ShownRows ==>
              forall x :: x in multiset(ForTab(rows, tab, week)) - multiset(r) ==> x.score <= r[|r| - 1].score
  {
    var f := ForTab(rows, tab, week);
    var s := SortByScore(f);
    var r := Take(s, ShownRows);
    if |r| == ShownRows {
      SortByScoreSorted(f);
      SortedPrefixTop(s, |r|);
    }
  }

  /** The replacement `escapeHtml` makes for one character. */
  function EscapeChar(c: char): String {
    match c
    case '&' => "&amp;"
    case '<' => "&lt;"
    case '>' => "&gt;"
    case '"' => "&quot;"
    case '\'' => "&#039;"
    case _ => [c]
  }

  predicate IsSpecial(c: char) { c == '&' || c == '<' || c == '>' || c == '"' || c == '\'' }

  /** `escapeHtml(s)`: the result contains none of `<>"'`. */
  function EscapeHtml(s: String): (r: String)
    ensures forall i :: 0 <= i < |r| ==> r[i] != '<' && r[i] != '>' && r[i] != '"' && r[i] != '\''
    ensures |r| >= |s|
    decreases |s|
  {
    if |s| == 0 then [] else EscapeChar(s[0]) + EscapeHtml(s[1..])
  }

  /** The entity `s` starts with, as the character it stands for and its length (0 for
      none), for the five entities `escapeHtml` produces. */
  function EntityAt(s: String): (r: (char, nat))
    ensures r.1 <= |s|
  {
    if |s| >= 4 && s[0] == '&' && s[2] == 't' && s[3] == ';' && (s[1] == 'l' || s[1] == 'g') then
      (if s[1] == 'l' then '<' else '>', 4)
    else if |s| >= 5 && s[0] == '&' && s[1] == 'a' && s[2] == 'm' && s[3] == 'p' && s[4] == ';' then ('&', 5)
    else if |s| >= 6 && s[0] == '&' && s[1] == 'q' && s[2] == 'u' && s[3] == 'o' && s[4] == 't' && s[5] == ';' then ('"', 6)
    else if |s| >= 6 && s[0] == '&' && s[1] == '#' && s[2] == '0' && s[3] == '3' && s[4] == '9' && s[5] == ';' then ('\'', 6)
    else (' ', 0)
  }

  /** An HTML decoder for those five entities. */
  function UnescapeHtml(s: String): String
    decreases |s|
  {
    if |s| == 0 then []
    else
      var (c, n) := EntityAt(s);
      if n > 0 then [c] + UnescapeHtml(s[n..]) else [s[0]] + UnescapeHtml(s[1..])
  }

  lemma UnescapeChar(c: char, t: String)
    ensures UnescapeHtml(EscapeChar(c) + t) == [c] + UnescapeHtml(t)
  {
    var e := EscapeChar(c) + t;
    if c == '&' {
      assert e[0] == '&' && e[1] == 'a' && e[2] == 'm' && e[3] == 'p' && e[4] == ';' && e[5..] == t;
      assert EntityAt(e) == ('&', 5);
    } else if c == '<' {
      assert e[0] == '&' && e[1] == 'l' && e[2] == 't' && e[3] == ';' && e[4..] == t;
      assert EntityAt(e) == ('<', 4);
    } else if c == '>' {
      assert e[0] == '&' && e[1] == 'g' && e[2] == 't' && e[3] == ';' && e[4..] == t;
      assert EntityAt(e) == ('>', 4);
    } else if c == '"' {
      assert e[0] == '&' && e[1] == 'q' && e[2] == 'u' && e[3] == 'o' && e[4] == 't' && e[5] == ';' && e[6..] == t;
      assert EntityAt(e) == ('"', 6);
    } else if c == '\'' {
      assert e[0] == '&' && e[1] == '#' && e[2] == '0' && e[3] == '3' && e[4] == '9' && e[5] == ';' && e[6..] == t;
      assert EntityAt(e) == ('\'', 6);
    } else {
      assert e[0] == c && e[1..] == t;
      assert EntityAt(e).1 == 0;
    }
  }

  /** Decoding the escaped text gives the text back, so escaping loses nothing. */
  lemma {:induction false} EscapeRoundTrip(s: String)
    ensures UnescapeHtml(EscapeHtml(s)) == s
    decreases |s|
  {
    if |s| > 0 {
      UnescapeChar(s[0], EscapeHtml(s[1..]));
      EscapeRoundTrip(s[1..]);
      assert s == [s[0]] + s[1..];
    }
  }

  /** Text without the five special characters is left as it is. */
  lemma {:induction false} EscapePlain(s: String)
    requires forall i :: 0 <= i < |s| ==> !IsSpecial(s[i])
    ensures EscapeHtml(s) == s
    decreases |s|
  {
    if |s| > 0 {
      EscapePlain(s[1..]);
      assert s == [s[0]] + s[1..];
    }
  }
}
