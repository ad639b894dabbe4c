/** The high-score store: the list of score entries kept under one key,
    sorted by descending score and capped at 100 entries on every save, plus
    the two filters the admin page applies to it. */
module Scores {
  import opened Common

  /** One recorded result. `date` is the ISO-8601 time of saving, supplied by the caller. */
  datatype ScoreEntry = ScoreEntry(userId: string, name: string, score: int, category: string, date: string)

  const MaxEntries := 100
  /** The name stored when the player's name is empty. */
  const AnonymousName := "Anonymous"

  /** Descending by score. */
  predicate SortedDesc(s: seq<ScoreEntry>) {
    forall i, j :: 0 <= i < j < |s| ==> s[i].score >= s[j].score
  }

  /** One step of a stable insertion sort: `e`, which came last, is placed
      after every entry of `t` whose score is at least its own. */
  function InsertLast(t: seq<ScoreEntry>, e: ScoreEntry): (r: seq<ScoreEntry>)
    ensures |r| == |t| + 1
  {
    if t == [] || t[|t| - 1].score >= e.score then t + [e]
    else InsertLast(t[..|t| - 1], e) + [t[|t| - 1]]
  }

  lemma {:induction false} InsertLastPermutes(t: seq<ScoreEntry>, e: ScoreEntry)
    ensures multiset(InsertLast(t, e)) == multiset(t) + multiset{e}
  {
    if t != [] && t[|t| - 1].score < e.score {
      assert t == t[..|t| - 1] + [t[|t| - 1]];
      InsertLastPermutes(t[..|t| - 1], e);
    }
  }

  /** scores.sort((a, b) => b.score - a.score); Array.prototype.sort is stable. */
  function SortDesc(s: seq<ScoreEntry>): (r: seq<ScoreEntry>)
    ensures |r| == |s|
  {
    if s == [] then []
    else InsertLast(SortDesc(s[..|s| - 1]), s[|s| - 1])
  }

  /** The sort only rearranges its input. */
  lemma {:induction false} SortDescPermutes(s: seq<ScoreEntry>)
    ensures multiset(SortDesc(s)) == multiset(s)
  {
    if s != [] {
      assert s == s[..|s| - 1] + [s[|s| - 1]];
      SortDescPermutes(s[..|s| - 1]);
      InsertLastPermutes(SortDesc(s[..|s| - 1]), s[|s| - 1]);
    }
  }

  lemma {:induction false} InsertLastSorted(t: seq<ScoreEntry>, e: ScoreEntry)
    requires SortedDesc(t)
    ensures SortedDesc(InsertLast(t, e))
  {
    if t != [] && t[|t| - 1].score < e.score {
      var t' := t[..|t| - 1];
      var last := t[|t| - 1];
      InsertLastSorted(t', e);
      InsertLastPermutes(t', e);
      var u := InsertLast(t', e);
      var r := u + [last];
      forall x | x in u ensures x.score >= last.score {
        assert x in multiset(u);
        if x != e {
          assert x in multiset(t');
          var k :| 0 <= k < |t'| && t'[k] == x;
          assert t[k] == x;
        }
      }
      forall i, j | 0 <= i < j < |r| ensures r[i].score >= r[j].score {
        if j < |u| {
          assert r[i] == u[i] && r[j] == u[j];
        } else {
          assert r[i] == u[i] && u[i] in u;
        }
      }
    }
  }

  /** The sort orders its input by descending score. */
  lemma {:induction false} SortDescSorted(s: seq<ScoreEntry>)
    ensures SortedDesc(SortDesc(s))
  {
    if s != [] {
      SortDescSorted(s[..|s| - 1]);
      InsertLastSorted(SortDesc(s[..|s| - 1]), s[|s| - 1]);
    }
  }

  /** The test "has score v", used to state stability. */
  function HasScore(v: int): ScoreEntry -> bool {
    (e: ScoreEntry) => e.score == v
  }

  lemma {:induction false} InsertLastStable(t: seq<ScoreEntry>, e: ScoreEntry, v: int)
    ensures Filter(InsertLast(t, e), HasScore(v)) == Filter(t, HasScore(v)) + Filter([e], HasScore(v))
  {
    if t == [] || t[|t| - 1].score >= e.score {
      FilterConcat(t, [e], HasScore(v));
    } else {
      var p := HasScore(v);
      var t' := t[..|t| - 1];
      var last := t[|t| - 1];
      assert t == t' + [last];
      assert InsertLast(t, e) == InsertLast(t', e) + [last];
      InsertLastStable(t', e, v);
      FilterConcat(InsertLast(t', e), [last], p);
      FilterConcat(t', [last], p);
      var fe, fl := Filter([e], p), Filter([last], p);
      assert fe == (if p(e) then [e] else []) && fl == (if p(last) then [last] else []);
      SwapEmpty(Filter(t', p), fe, fl);
    }
  }

  /** Two pieces of which one is empty can be appended in either order. */
  lemma SwapEmpty(a: seq<ScoreEntry>, b: seq<ScoreEntry>, c: seq<ScoreEntry>)
    requires b == [] || c == []
    ensures (a + b) + c == (a + c) + b
  {
    if b == [] {
      assert (a + b) + c == a + c && (a + c) + b == a + c;
    } else {
      assert (a + b) + c == a + b && (a + c) + b == a + b;
    }
  }

  /** Stability: entries with equal scores keep their relative order. */
  lemma {:induction false} SortDescStable(s: seq<ScoreEntry>, v: int)
    ensures Filter(SortDesc(s), HasScore(v)) == Filter(s, HasScore(v))
  {
    if s != [] {
      var s' := s[..|s| - 1];
      assert s == s' + [s[|s| - 1]];
      SortDescStable(s', v);
      InsertLastStable(SortDesc(s'), s[|s| - 1], v);
      FilterConcat(s', [s[|s| - 1]], HasScore(v));
    }
  }

  /** The entry saveHighScore pushes: an empty name is stored as "Anonymous". */
  function NewEntry(userId: string, name: string, score: int, category: string, date: string): (e: ScoreEntry)
    ensures e.userId == userId && e.score == score && e.category == category && e.date == date
    ensures e.name == (if name == "" then AnonymousName else name)
  {
    ScoreEntry(userId, if name == "" then AnonymousName else name, score, category, date)
  }

  /** The first n entries (slice(0, n)). */
  function Take(s: seq<ScoreEntry>, n: nat): (r: seq<ScoreEntry>)
    ensures |r| == if |s| <= n then |s| else n
    ensures r == s[..|r|]
  {
    if |s| <= n then s else s[..n]
  }

  /** The stored list after saveHighScore: unchanged for a missing user or
      category, else the new entry pushed, the list sorted and cut to 100. */
  function Saved(entries: seq<ScoreEntry>, userId: string, name: string, score: int, category: string, date: string): (r: seq<ScoreEntry>)
    ensures userId == "" || category == "" ==> r == entries
    ensures userId != "" && category != "" ==>
              |r| == if |entries| < MaxEntries then |entries| + 1 else MaxEntries
  {
    if userId == "" || category == "" then entries
    else Take(SortDesc(entries + [NewEntry(userId, name, score, category, date)]), MaxEntries)
  }

  /** What a save guarantees: invalid input is ignored; otherwise the list is
      sorted, holds at most 100 entries drawn from the old list and the new
      entry, and loses nothing while under capacity. */
  lemma SavedProperties(entries: seq<ScoreEntry>, userId: string, name: string, score: int, category: string, date: string)
    ensures userId == "" || category == "" ==> Saved(entries, userId, name, score, category, date) == entries
    ensures userId != "" && category != "" ==>
              var r := Saved(entries, userId, name, score, category, date);
              var e := NewEntry(userId, name, score, category, date);
              && SortedDesc(r) && |r| <= MaxEntries
              && multiset(r) <= multiset(entries) + multiset{e}
              && (|entries| < MaxEntries ==> multiset(r) == multiset(entries) + multiset{e})
  {
    if userId != "" && category != "" {
      var e := NewEntry(userId, name, score, category, date);
      var sorted := SortDesc(entries + [e]);
      SortDescSorted(entries + [e]);
      SortDescPermutes(entries + [e]);
      var r := Take(sorted, MaxEntries);
      assert SortedDesc(r) by {
        forall i, j | 0 <= i < j < |r| ensures r[i].score >= r[j].score {
          assert r[i] == sorted[i] && r[j] == sorted[j];
        }
      }
      assert multiset(r) <= multiset(sorted) by {
        assert sorted == r + sorted[|r|..];
      }
    }
  }

  lemma AllAtLeast(t: seq<ScoreEntry>, v: int)
    requires SortedDesc(t) && t != [] && t[|t| - 1].score >= v
    ensures Filter(t, AtLeast(v)) == t
  {
    forall x | x in t ensures AtLeast(v)(x) {
      var k :| 0 <= k < |t| && t[k] == x;
    }
    FilterKeepsAll(t, AtLeast(v));
  }

  lemma DropLastBelow(t: seq<ScoreEntry>, v: int)
    requires t != [] && t[|t| - 1].score < v
    ensures Filter(t, AtLeast(v)) == Filter(t[..|t| - 1], AtLeast(v))
  {
    assert t == t[..|t| - 1] + [t[|t| - 1]];
    FilterConcat(t[..|t| - 1], [t[|t| - 1]], AtLeast(v));
  }

  /** Where insertion puts `e` in a sorted list: right after the m entries
      that score at least as much as it. */
  lemma {:induction false} InsertLastPosition(t: seq<ScoreEntry>, e: ScoreEntry)
    requires SortedDesc(t)
    ensures var m := |Filter(t, AtLeast(e.score))|;
            m <= |t| && InsertLast(t, e) == t[..m] + [e] + t[m..]
  {
    if t == [] {
    } else if t[|t| - 1].score >= e.score {
      AllAtLeast(t, e.score);
      assert t[..|t|] == t && t[|t|..] == [];
    } else {
      var t', last := t[..|t| - 1], t[|t| - 1];
      assert SortedDesc(t');
      assert InsertLast(t, e) == InsertLast(t', e) + [last];
      InsertLastPosition(t', e);
      DropLastBelow(t, e.score);
      assert t == t' + [last];
      SplitAppend(t', last, e, |Filter(t', AtLeast(e.score))|);
    }
  }

  /** Appending after a split is splitting the extended list at the same point. */
  lemma SplitAppend(u: seq<ScoreEntry>, last: ScoreEntry, e: ScoreEntry, m: nat)
    requires m <= |u|
    ensures (u[..m] + [e] + u[m..]) + [last] == (u + [last])[..m] + [e] + (u + [last])[m..]
  {
    assert (u + [last])[..m] == u[..m];
    assert (u + [last])[m..] == u[m..] + [last];
  }

  /** Where a save puts the new entry: after the k stored entries that score
      at least as much (k counted in the old list). When k < 100 it is kept at
      rank k; otherwise it is dropped and the list is the best 100 old entries. */
  lemma SaveRank(entries: seq<ScoreEntry>, userId: string, name: string, score: int, category: string, date: string)
    requires userId != "" && category != ""
    ensures var r := Saved(entries, userId, name, score, category, date);
            var k := |Filter(entries, AtLeast(score))|;
            && (k < MaxEntries ==> k < |r| && r[k] == NewEntry(userId, name, score, category, date))
            && (k >= MaxEntries ==> r == Take(SortDesc(entries), MaxEntries))
  {
    var e := NewEntry(userId, name, score, category, date);
    var p := AtLeast(score);
    var t := SortDesc(entries);
    assert (entries + [e])[..|entries|] == entries;
    assert SortDesc(entries + [e]) == InsertLast(t, e);
    SortDescSorted(entries);
    SortDescPermutes(entries);
    InsertLastPosition(t, e);
    FilterPermutation(t, entries, p);
    var m := |Filter(t, p)|;
    var u := t[..m] + [e] + t[m..];
    assert Saved(entries, userId, name, score, category, date) == Take(u, MaxEntries);
    if m < MaxEntries {
      assert u[m] == e;
    } else {
      assert u[..MaxEntries] == t[..MaxEntries];
    }
  }

  /** The test "scores at least v". */
  function AtLeast(v: int): ScoreEntry -> bool {
    (e: ScoreEntry) => e.score >= v
  }

  /** An entry has both a user and a category (the cleanUpInvalidScores test). */
  predicate IsValidEntry(e: ScoreEntry): (b: bool)
    ensures b <==> Saved([], e.userId, e.name, e.score, e.category, e.date) != []
  {
    e.userId != "" && e.category != ""
  }

  /** The remove-score test: keep every entry that is not this user's score in this category. */
  function NotScoreOf(userId: string, category: string): (p: ScoreEntry -> bool)
    ensures forall e: ScoreEntry :: e.userId != userId || e.category != category ==> p(e)
    ensures userId != "" && category != "" ==> forall e: ScoreEntry :: !p(e) ==> IsValidEntry(e)
  {
    (e: ScoreEntry) => !(e.userId == userId && e.category == category)
  }

  lemma TailSorted(s: seq<ScoreEntry>)
    requires SortedDesc(s) && s != []
    ensures SortedDesc(s[1..])
  {
    forall i, j | 0 <= i < j < |s[1..]| ensures s[1..][i].score >= s[1..][j].score {
      assert s[1..][i] == s[i + 1] && s[1..][j] == s[j + 1];
    }
  }

  lemma ConsSorted(x: ScoreEntry, t: seq<ScoreEntry>)
    requires SortedDesc(t) && forall y :: y in t ==> y.score <= x.score
    ensures SortedDesc([x] + t)
  {
    var r := [x] + t;
    forall i, j | 0 <= i < j < |r| ensures r[i].score >= r[j].score {
      assert r[j] == t[j - 1] && t[j - 1] in t;
      if i > 0 {
        assert r[i] == t[i - 1];
      }
    }
  }

  /** Filtering a sorted list keeps it sorted. */
  lemma {:induction false} FilterSorted(s: seq<ScoreEntry>, p: ScoreEntry -> bool)
    requires SortedDesc(s)
    ensures SortedDesc(Filter(s, p))
  {
    if s != [] {
      TailSorted(s);
      FilterSorted(s[1..], p);
      var t := Filter(s[1..], p);
      if p(s[0]) {
        forall x | x in t ensures x.score <= s[0].score {
          var k :| 0 <= k < |s[1..]| && s[1..][k] == x;
          assert s[k + 1] == x;
        }
        ConsSorted(s[0], t);
      }
    }
  }

  /** The stored list of score entries (the document loadHighScores parses). */
  class ScoreStore {
    var entries: seq<ScoreEntry>

    constructor (stored: seq<ScoreEntry>)
      ensures entries == stored
    {
      entries := stored;
    }

    /** saveHighScore: push, stable descending sort, keep the first 100. */
    method SaveHighScore(userId: string, name: string, score: int, category: string, date: string)
      modifies this
      ensures entries == Saved(old(entries), userId, name, score, category, date)
      ensures userId != "" && category != "" ==> SortedDesc(entries) && |entries| <= MaxEntries
    {
      SavedProperties(entries, userId, name, score, category, date);
      if userId == "" || category == "" {
        return;
      }
      var all := entries + [NewEntry(userId, name, score, category, date)];
      all := SortDesc(all);
      entries := if |all| <= MaxEntries then all else all[..MaxEntries];
    }

    /** cleanUpInvalidScores: drop entries without a user or a category; the
        list is written back only when something was dropped. */
    method CleanUpInvalidScores()
      modifies this
      ensures entries == Filter(old(entries), IsValidEntry)
      ensures SortedDesc(old(entries)) ==> SortedDesc(entries)
    {
      var valid := Filter(entries, IsValidEntry);
      if SortedDesc(entries) {
        FilterSorted(entries, IsValidEntry);
      }
      FilterKeepsAll(entries, IsValidEntry);
      if |entries| != |valid| {
        entries := valid;
      }
    }

    /** The admin's remove-score action on the store: every entry of this user
        in this category goes, after a refusal when either is missing. */
    method RemoveScore(userId: string, category: string)
      modifies this
      ensures userId == "" || category == "" ==> entries == old(entries)
      ensures userId != "" && category != "" ==> entries == Filter(old(entries), NotScoreOf(userId, category))
      ensures SortedDesc(old(entries)) ==> SortedDesc(entries)
    {
      if SortedDesc(entries) {
        FilterSorted(entries, NotScoreOf(userId, category));
      }
      if userId == "" || category == "" {
        return;
      }
      entries := Filter(entries, NotScoreOf(userId, category));
    }
  }

  /** After removal no entry of that user in that category remains, and every other entry keeps its count. */
  lemma RemoveScoreExact(entries: seq<ScoreEntry>, userId: string, category: string, x: ScoreEntry)
    ensures var r := Filter(entries, NotScoreOf(userId, category));
            multiset(r)[x] == if x.userId == userId && x.category == category then 0 else multiset(entries)[x]
  {
    FilterCount(entries, NotScoreOf(userId, category), x);
  }

  /** After clean-up every entry is valid, and every valid entry keeps its count. */
  lemma CleanUpExact(entries: seq<ScoreEntry>, x: ScoreEntry)
    ensures var r := Filter(entries, IsValidEntry);
            (forall y :: y in r ==> IsValidEntry(y)) &&
            multiset(r)[x] == if IsValidEntry(x) then multiset(entries)[x] else 0
  {
    FilterCount(entries, IsValidEntry, x);
  }
}
