/** The help table: one row a keyword, in order, and a query answered by the first row it is a
    prefix of. */
module HelpIndex {
  import opened Options
  import Keywords

  datatype Entry = Entry(keywords: seq<string>, body: string)

  datatype Row = Row(keyword: string, entry: Entry)

  function Folded(s: string): (r: string)
    ensures |r| == |s| && forall i | 0 <= i < |s| :: r[i] == Keywords.Lower(s[i])
  {
    seq(|s|, i requires 0 <= i < |s| => Keywords.Lower(s[i]))
  }

  /** The order of strings, byte by byte. */
  predicate NotAfter(s: string, t: string) {
    s == "" || (t != "" && (s[0] < t[0] || (s[0] == t[0] && NotAfter(s[1..], t[1..]))))
  }

  predicate Prefix(p: string, s: string) {
    |p| <= |s| && s[..|p|] == p
  }

  /** The query is, but for case, how the row's keyword begins. */
  predicate Answers(row: Row, query: string) {
    Prefix(Folded(query), Folded(row.keyword))
  }

  // ----- the order --------------------------------------------------------

  lemma {:induction false} NotAfterSame(s: string)
    ensures NotAfter(s, s)
  {
    if s != "" {
      NotAfterSame(s[1..]);
    }
  }

  lemma {:induction false} NotAfterEither(s: string, t: string)
    ensures NotAfter(s, t) || NotAfter(t, s)
  {
    if s != "" && t != "" {
      NotAfterEither(s[1..], t[1..]);
    }
  }

  lemma {:induction false} NotAfterThrough(s: string, t: string, u: string)
    requires NotAfter(s, t) && NotAfter(t, u)
    ensures NotAfter(s, u)
  {
    if s != "" && s[0] == t[0] == u[0] {
      NotAfterThrough(s[1..], t[1..], u[1..]);
    }
  }

  lemma {:induction false} PrefixFirst(p: string, s: string)
    requires Prefix(p, s)
    ensures NotAfter(p, s)
  {
    if p != "" {
      assert s[..|p|][0] == s[0];
      assert s[1..][..|p| - 1] == p[1..] by { assert s[..|p|][1..] == s[1..][..|p| - 1]; }
      PrefixFirst(p[1..], s[1..]);
    }
  }

  /** The strings that begin alike lie together: whatever is between p and one of them is one. */
  lemma {:induction false} PrefixBlock(p: string, s: string, t: string)
    requires NotAfter(p, s) && NotAfter(s, t) && Prefix(p, t)
    ensures Prefix(p, s)
  {
    if p != "" {
      assert t[..|p|][0] == t[0];
      assert t[1..][..|p| - 1] == p[1..] by { assert t[..|p|][1..] == t[1..][..|p| - 1]; }
      PrefixBlock(p[1..], s[1..], t[1..]);
      assert s[..|p|] == [s[0]] + s[1..][..|p| - 1] && p == [p[0]] + p[1..];
    }
  }

  // ----- the index --------------------------------------------------------

  ghost predicate InOrder(rows: seq<Row>) {
    forall i, j | 0 <= i < j < |rows| :: NotAfter(Folded(rows[i].keyword), Folded(rows[j].keyword))
  }

  function RowsOf(e: Entry): (rows: seq<Row>)
    ensures |rows| == |e.keywords| && forall k | 0 <= k < |rows| :: rows[k] == Row(e.keywords[k], e)
  {
    seq(|e.keywords|, k requires 0 <= k < |e.keywords| => Row(e.keywords[k], e))
  }

  function Flattened(entries: seq<Entry>): seq<Row> {
    if entries == [] then [] else Flattened(entries[..|entries| - 1]) + RowsOf(entries[|entries| - 1])
  }

  lemma {:induction false} FlattenedHas(entries: seq<Entry>, row: Row)
    ensures row in Flattened(entries) <==> row.entry in entries && row.keyword in row.entry.keywords
  {
    if entries != [] {
      var front, e := entries[..|entries| - 1], entries[|entries| - 1];
      FlattenedHas(front, row);
      assert entries == front + [e];
      if row.entry == e && row.keyword in e.keywords {
        var k :| 0 <= k < |e.keywords| && e.keywords[k] == row.keyword;
        assert RowsOf(e)[k] == row;
      }
    }
  }

  /** The rows of these entries, in order; rows of one keyword may come in any order. */
  ghost predicate IndexOf(rows: seq<Row>, entries: seq<Entry>) {
    InOrder(rows) && multiset(rows) == multiset(Flattened(entries))
  }

  /** Puts a row where it belongs. */
  method InsertRow(rows: seq<Row>, row: Row) returns (r: seq<Row>)
    requires InOrder(rows)
    ensures InOrder(r) && multiset(r) == multiset(rows) + multiset{row}
  {
    var i := |rows|;
    while i > 0 && !NotAfter(Folded(rows[i - 1].keyword), Folded(row.keyword))
      invariant 0 <= i <= |rows|
      invariant forall j | i <= j < |rows| :: NotAfter(Folded(row.keyword), Folded(rows[j].keyword))
    {
      NotAfterEither(Folded(rows[i - 1].keyword), Folded(row.keyword));
      i := i - 1;
    }
    Inserted(rows, row, i);
    r := rows[..i] + [row] + rows[i..];
  }

  lemma Inserted(rows: seq<Row>, row: Row, i: nat)
    requires InOrder(rows) && i <= |rows|
    requires i > 0 ==> NotAfter(Folded(rows[i - 1].keyword), Folded(row.keyword))
    requires forall j | i <= j < |rows| :: NotAfter(Folded(row.keyword), Folded(rows[j].keyword))
    ensures InOrder(rows[..i] + [row] + rows[i..])
    ensures multiset(rows[..i] + [row] + rows[i..]) == multiset(rows) + multiset{row}
  {
    hide NotAfter, Folded;
    assert rows == rows[..i] + rows[i..];
    forall j | 0 <= j < i ensures NotAfter(Folded(rows[j].keyword), Folded(row.keyword)) {
      if j < i - 1 {
        NotAfterThrough(Folded(rows[j].keyword), Folded(rows[i - 1].keyword), Folded(row.keyword));
      }
    }
    Spliced(rows, row, i);
  }

  /** A row that comes between what is before it and what is after it. */
  lemma Spliced(rows: seq<Row>, row: Row, i: nat)
    requires InOrder(rows) && i <= |rows|
    requires forall j | 0 <= j < i :: NotAfter(Folded(rows[j].keyword), Folded(row.keyword))
    requires forall j | i <= j < |rows| :: NotAfter(Folded(row.keyword), Folded(rows[j].keyword))
    ensures InOrder(rows[..i] + [row] + rows[i..])
  {
    hide NotAfter, Folded;
    var r := rows[..i] + [row] + rows[i..];
    assert forall j | 0 <= j < |r| :: r[j] == if j < i then rows[j] else if j == i then row else rows[j - 1];
  }

  lemma NoRows()
    ensures InOrder([]) && Flattened([]) == []
  {
  }

  lemma FlattenedOn(entries: seq<Entry>, i: nat)
    requires i < |entries|
    ensures Flattened(entries[..i + 1]) == Flattened(entries[..i]) + RowsOf(entries[i])
  {
    assert entries[..i + 1][..i] == entries[..i];
  }

  /** NewHelpIndex. */
  method NewHelpIndex(entries: seq<Entry>) returns (rows: seq<Row>)
    ensures IndexOf(rows, entries)
  {
    hide InOrder, Flattened;
    NoRows();
    rows := [];
    for i := 0 to |entries|
      invariant InOrder(rows) && multiset(rows) == multiset(Flattened(entries[..i]))
    {
      FlattenedOn(entries, i);
      var more := RowsOf(entries[i]);
      for k := 0 to |more|
        invariant InOrder(rows) && multiset(rows) == multiset(Flattened(entries[..i])) + multiset(more[..k])
      {
        assert more[..k + 1] == more[..k] + [more[k]];
        rows := InsertRow(rows, more[k]);
      }
      assert more[..|more|] == more;
    }
    assert entries[..|entries|] == entries;
  }

  /** Lookup: found exactly when some row answers, and then the first that does, whose keyword no
      other that answers comes before. */
  method Lookup(rows: seq<Row>, query: string) returns (found: Option<Entry>)
    requires InOrder(rows)
    ensures found.Some? <==> query != "" && exists i :: 0 <= i < |rows| && Answers(rows[i], query)
    ensures found.Some? ==> exists i :: 0 <= i < |rows| && IsFirst(rows, query, i) && found.value == rows[i].entry
  {
    if query == "" || |rows| == 0 {
      return None;
    }
    var lower := Folded(query);
    var i, j := 0, |rows|;
    while i < j
      invariant 0 <= i <= j <= |rows|
      invariant forall k | 0 <= k < i :: !NotAfter(lower, Folded(rows[k].keyword))
      invariant forall k | j <= k < |rows| :: NotAfter(lower, Folded(rows[k].keyword))
    {
      var h := (i + j) / 2;
      if NotAfter(lower, Folded(rows[h].keyword)) {
        forall k | h < k < |rows| ensures NotAfter(lower, Folded(rows[k].keyword)) {
          NotAfterThrough(lower, Folded(rows[h].keyword), Folded(rows[k].keyword));
        }
        j := h;
      } else {
        forall k | 0 <= k < h ensures !NotAfter(lower, Folded(rows[k].keyword)) {
          if NotAfter(lower, Folded(rows[k].keyword)) {
            NotAfterThrough(lower, Folded(rows[k].keyword), Folded(rows[h].keyword));
          }
        }
        i := h + 1;
      }
    }
    FirstAnswers(rows, query, i);
    if i >= |rows| || !Prefix(lower, Folded(rows[i].keyword)) {
      return None;
    }
    return Some(rows[i].entry);
  }

  /** The row at i answers, none before it does, and no keyword that answers comes before its. */
  ghost predicate IsFirst(rows: seq<Row>, query: string, i: nat) {
    && i < |rows| && Answers(rows[i], query)
    && (forall k | 0 <= k < i :: !Answers(rows[k], query))
    && forall k | 0 <= k < |rows| && Answers(rows[k], query) :: NotAfter(Folded(rows[i].keyword), Folded(rows[k].keyword))
  }

  /** If any row answers, the first that is not before the query does. */
  lemma FirstAnswers(rows: seq<Row>, query: string, i: nat)
    requires InOrder(rows) && i <= |rows|
    requires forall k | 0 <= k < i :: !NotAfter(Folded(query), Folded(rows[k].keyword))
    requires forall k | i <= k < |rows| :: NotAfter(Folded(query), Folded(rows[k].keyword))
    ensures (exists k :: 0 <= k < |rows| && Answers(rows[k], query)) <==> i < |rows| && Answers(rows[i], query)
    ensures i < |rows| && Answers(rows[i], query) ==> IsFirst(rows, query, i)
  {
    forall k | 0 <= k < |rows| && Answers(rows[k], query)
      ensures i <= k && Answers(rows[i], query) && NotAfter(Folded(rows[i].keyword), Folded(rows[k].keyword))
    {
      PrefixFirst(Folded(query), Folded(rows[k].keyword));
      NotAfterSame(Folded(rows[k].keyword));
      PrefixBlock(Folded(query), Folded(rows[i].keyword), Folded(rows[k].keyword));
    }
  }

  /** Asking the index of some entries: there is an answer exactly when a keyword of one of them
      begins with the query, and it is an entry with the least such keyword. */
  method Ask(entries: seq<Entry>, query: string) returns (found: Option<Entry>)
    ensures found.Some? <==> query != "" && exists e, k :: e in entries && k in e.keywords && Answers(Row(k, e), query)
    ensures found.Some? ==>
              && found.value in entries
              && exists k :: k in found.value.keywords && Answers(Row(k, found.value), query) && Least(entries, query, k)
  {
    var rows := NewHelpIndex(entries);
    found := Lookup(rows, query);
    forall row: Row ensures row in rows <==> row.entry in entries && row.keyword in row.entry.keywords {
      FlattenedHas(entries, row);
      assert row in rows <==> row in multiset(rows);
      assert row in Flattened(entries) <==> row in multiset(Flattened(entries));
    }
    if found.Some? {
      ghost var i :| 0 <= i < |rows| && IsFirst(rows, query, i) && found.value == rows[i].entry;
      assert rows[i] in rows;
      forall e, k | e in entries && k in e.keywords && Answers(Row(k, e), query)
        ensures NotAfter(Folded(rows[i].keyword), Folded(k))
      {
        assert Row(k, e) in rows;
      }
      assert Least(entries, query, rows[i].keyword);
      assert Answers(Row(rows[i].keyword, rows[i].entry), query);
    } else {
      forall e, k | e in entries && k in e.keywords && query != "" ensures !Answers(Row(k, e), query) {
        assert Row(k, e) in rows;
      }
    }
  }

  /** No keyword that begins with the query comes before this one. */
  ghost predicate Least(entries: seq<Entry>, query: string, least: string) {
    forall e, k | e in entries && k in e.keywords && Answers(Row(k, e), query) :: NotAfter(Folded(least), Folded(k))
  }

  /** A query finds a keyword that begins with it in any case of the letters, and no other. */
  lemma AnswersInAnyCase(row: Row, query: string)
    ensures Answers(row, query) <==>
            |query| <= |row.keyword| && forall i | 0 <= i < |query| :: Keywords.Twin(query[i], row.keyword[i])
  {
    var p, s := Folded(query), Folded(row.keyword);
    if |query| <= |row.keyword| {
      forall i | 0 <= i < |query| ensures p[i] == s[i] <==> Keywords.Twin(query[i], row.keyword[i]) {
        Keywords.LowerIs(query[i], row.keyword[i]);
      }
      assert forall i | 0 <= i < |p| :: s[..|p|][i] == s[i];
    }
  }

  /** The order is that of the first byte in which two strings differ, the shorter first when there is none. */
  lemma {:induction false} NotAfterIs(s: string, t: string, k: nat)
    requires k <= |s| && k <= |t| && s[..k] == t[..k]
    ensures k == |s| ==> NotAfter(s, t)
    ensures k < |s| && k == |t| ==> !NotAfter(s, t)
    ensures k < |s| && k < |t| && s[k] != t[k] ==> (NotAfter(s, t) <==> s[k] < t[k])
  {
    if k > 0 {
      assert s[0] == s[..k][0] == t[..k][0] == t[0];
      assert s[1..][..k - 1] == s[..k][1..] && t[1..][..k - 1] == t[..k][1..];
      NotAfterIs(s[1..], t[1..], k - 1);
    }
  }
}
