// The waitlist's export: the submissions of each email grouped under the earliest, whatever order they were listed in.
module Waitlist {
  import opened Numbers

  // An email, trimmed and lower-cased.
  type Address = nat

  // `texts` are the form's fields other than the email, as text.
  datatype Submission = Submission(id: nat, at: int, email: Option<Address>, texts: seq<string>)

  datatype GroupKey = ByEmail(email: Address) | ById(id: nat)

  datatype Row = Row(entry: Submission, updates: seq<Submission>)

  const FIELDS: nat := 12

  function Key(s: Submission): GroupKey {
    match s.email
    case Some(e) => ByEmail(e)
    case None => ById(s.id)
  }

  // A field that is missing reads as empty.
  function Text(s: Submission, field: nat): string {
    if field < |s.texts| then s.texts[field] else ""
  }

  function ChangedFields(a: Submission, b: Submission, n: nat := FIELDS): seq<nat> {
    if n == 0 then []
    else ChangedFields(a, b, n - 1) + if Text(a, n - 1) != Text(b, n - 1) then [n - 1] else []
  }

  predicate SameContent(a: Submission, b: Submission) {
    forall field: nat :: field < FIELDS ==> Text(a, field) == Text(b, field)
  }

  // The fields that changed are listed exactly, so none did when the content is the same.
  lemma {:induction false} ChangedFieldsListed(a: Submission, b: Submission, n: nat, field: nat)
    ensures field in ChangedFields(a, b, n) <==> field < n && Text(a, field) != Text(b, field)
  {
    if n > 0 {
      ChangedFieldsListed(a, b, n - 1, field);
    }
  }

  predicate NothingChanged(a: Submission, b: Submission) {
    ChangedFields(a, b) == []
  }

  lemma NothingChangedExactly(a: Submission, b: Submission)
    ensures NothingChanged(a, b) <==> SameContent(a, b)
  {
    if SameContent(a, b) && ChangedFields(a, b) != [] {
      ChangedFieldsListed(a, b, FIELDS, ChangedFields(a, b)[0]);
    }
    forall field: nat | field < FIELDS && ChangedFields(a, b) == [] ensures Text(a, field) == Text(b, field) {
      ChangedFieldsListed(a, b, FIELDS, field);
    }
  }

  // ---------- sorting ----------

  // A stable sort by time: later in the list comes after its equals.
  function Inserted(sorted: seq<Submission>, s: Submission): seq<Submission> {
    if sorted == [] || sorted[|sorted| - 1].at <= s.at then sorted + [s]
    else Inserted(sorted[..|sorted| - 1], s) + [sorted[|sorted| - 1]]
  }

  function Sorted(rows: seq<Submission>): seq<Submission> {
    if rows == [] then [] else Inserted(Sorted(rows[..|rows| - 1]), rows[|rows| - 1])
  }

  predicate Ascending(rows: seq<Submission>) {
    forall i, j :: 0 <= i < j < |rows| ==> rows[i].at <= rows[j].at
  }

  lemma {:induction false} InsertedHolds(sorted: seq<Submission>, s: Submission)
    ensures |Inserted(sorted, s)| == |sorted| + 1
    ensures forall x :: x in Inserted(sorted, s) <==> x in sorted || x == s
  {
    if sorted != [] && sorted[|sorted| - 1].at > s.at {
      InsertedHolds(sorted[..|sorted| - 1], s);
      assert sorted == sorted[..|sorted| - 1] + [sorted[|sorted| - 1]];
    }
  }

  lemma {:induction false} InsertedAscends(sorted: seq<Submission>, s: Submission)
    requires Ascending(sorted)
    ensures Ascending(Inserted(sorted, s))
  {
    if sorted != [] && sorted[|sorted| - 1].at > s.at {
      var rest, last := sorted[..|sorted| - 1], sorted[|sorted| - 1];
      InsertedAscends(rest, s);
      InsertedHolds(rest, s);
      var inserted := Inserted(rest, s);
      hide Inserted;
      forall i | 0 <= i < |inserted| ensures inserted[i].at <= last.at {
        assert inserted[i] in inserted;
      }
    }
  }

  // Sorting orders the submissions by time and loses none.
  lemma {:induction false} SortedAscends(rows: seq<Submission>)
    ensures Ascending(Sorted(rows))
    ensures |Sorted(rows)| == |rows| && forall x :: x in Sorted(rows) <==> x in rows
  {
    if rows != [] {
      var rest, last := rows[..|rows| - 1], rows[|rows| - 1];
      SortedAscends(rest);
      InsertedAscends(Sorted(rest), last);
      InsertedHolds(Sorted(rest), last);
      assert rows == rest + [last];
    }
  }

  // ---------- grouping ----------

  function Kept(row: Row): seq<Submission> {
    [row.entry] + row.updates
  }

  predicate Seen(row: Row, s: Submission) {
    exists i :: 0 <= i < |Kept(row)| && NothingChanged(Kept(row)[i], s)
  }

  // Where the group of a key is, or the number of groups if there is none yet.
  function GroupOf(groups: seq<Row>, key: GroupKey): (i: nat)
    ensures i <= |groups|
    ensures i < |groups| ==> Key(groups[i].entry) == key
    ensures forall j :: 0 <= j < i ==> Key(groups[j].entry) != key
  {
    if groups == [] then 0
    else if Key(groups[0].entry) == key then 0
    else 1 + GroupOf(groups[1..], key)
  }

  function Added(groups: seq<Row>, s: Submission): seq<Row> {
    var i := GroupOf(groups, Key(s));
    if i == |groups| then groups + [Row(s, [])]
    else if Seen(groups[i], s) then groups
    else groups[i := Row(groups[i].entry, groups[i].updates + [s])]
  }

  function Grouped(rows: seq<Submission>): seq<Row> {
    if rows == [] then [] else Added(Grouped(rows[..|rows| - 1]), rows[|rows| - 1])
  }

  // Whether a group's canonical row or any of its updates already says what `s` says.
  method SeenBefore(row: Row, s: Submission) returns (seen: bool)
    ensures seen == Seen(row, s)
  {
    hide NothingChanged;
    var kept, j := Kept(row), 0;
    while j < |kept|
      invariant 0 <= j <= |kept| && forall m :: 0 <= m < j ==> !NothingChanged(kept[m], s)
    {
      if NothingChanged(kept[j], s) {
        return true;
      }
      j := j + 1;
    }
    seen := false;
  }

  // `groupByEmail`.
  method GroupByEmail(rows: seq<Submission>) returns (groups: seq<Row>)
    ensures groups == Grouped(Sorted(rows))
  {
    var sorted, n := Sorted(rows), 0;
    hide Sorted, Key, Seen;
    groups := [];
    while n < |sorted|
      invariant 0 <= n <= |sorted| && groups == Grouped(sorted[..n])
    {
      assert sorted[..n + 1][..n] == sorted[..n];
      var i := GroupOf(groups, Key(sorted[n]));
      if i == |groups| {
        groups := groups + [Row(sorted[n], [])];
      } else {
        var seen := SeenBefore(groups[i], sorted[n]);
        if !seen {
          groups := groups[i := Row(groups[i].entry, groups[i].updates + [sorted[n]])];
        }
      }
      n := n + 1;
    }
    assert sorted[..n] == sorted;
  }

  // ---------- what the export says ----------

  predicate Alike(a: Submission, b: Submission) {
    Key(a) == Key(b) && SameContent(a, b)
  }

  // A submission that says something no earlier one with its key said.
  ghost predicate IsNews(rows: seq<Submission>, n: nat)
    requires n < |rows|
  {
    forall m :: 0 <= m < n ==> !Alike(rows[m], rows[n])
  }

  ghost predicate FirstIn(rows: seq<Submission>, s: Submission) {
    exists n :: 0 <= n < |rows| && rows[n] == s && IsNews(rows, n)
  }

  ghost predicate HeldIn(groups: seq<Row>, s: Submission) {
    exists i :: 0 <= i < |groups| && s in Kept(groups[i])
  }

  // One group a key, each of submissions with that key, no two of them alike.
  ghost predicate Tidy(groups: seq<Row>) {
    && (forall i, j :: 0 <= i < j < |groups| ==> Key(groups[i].entry) != Key(groups[j].entry))
    && (forall i, s :: 0 <= i < |groups| && s in groups[i].updates ==> Key(s) == Key(groups[i].entry))
  }

  // Something alike is held already.
  ghost predicate Told(groups: seq<Row>, s: Submission) {
    exists t :: HeldIn(groups, t) && Alike(t, s)
  }

  lemma SeenIsTold(groups: seq<Row>, i: nat, s: Submission)
    requires Tidy(groups) && i < |groups| && Key(groups[i].entry) == Key(s) && Seen(groups[i], s)
    ensures Told(groups, s)
  {
    hide NothingChanged, SameContent, Key;
    var m :| 0 <= m < |Kept(groups[i])| && NothingChanged(Kept(groups[i])[m], s);
    NothingChangedExactly(Kept(groups[i])[m], s);
    HeldHasKey(groups, i, m);
    assert HeldIn(groups, Kept(groups[i])[m]) && Alike(Kept(groups[i])[m], s);
  }

  lemma ToldIsSeen(groups: seq<Row>, i: nat, s: Submission)
    requires Tidy(groups) && Told(groups, s)
    requires i <= |groups| && forall j :: 0 <= j < i ==> Key(groups[j].entry) != Key(s)
    requires i < |groups| ==> Key(groups[i].entry) == Key(s)
    ensures i < |groups| && Seen(groups[i], s)
  {
    hide NothingChanged, SameContent, Key;
    var t :| HeldIn(groups, t) && Alike(t, s);
    var j :| 0 <= j < |groups| && t in Kept(groups[j]);
    var m :| 0 <= m < |Kept(groups[j])| && Kept(groups[j])[m] == t;
    HeldHasKey(groups, j, m);
    NothingChangedExactly(t, s);
    assert NothingChanged(Kept(groups[j])[m], s);
  }

  lemma SeenExactly(groups: seq<Row>, s: Submission)
    requires Tidy(groups)
    ensures var i := GroupOf(groups, Key(s)); i < |groups| && Seen(groups[i], s) <==> Told(groups, s)
  {
    var i := GroupOf(groups, Key(s));
    hide Tidy, Seen, Key;
    if i < |groups| && Seen(groups[i], s) {
      SeenIsTold(groups, i, s);
    }
    if Told(groups, s) {
      ToldIsSeen(groups, i, s);
    }
  }

  lemma HeldHasKey(groups: seq<Row>, i: nat, m: nat)
    requires Tidy(groups) && i < |groups| && m < |Kept(groups[i])|
    ensures Key(Kept(groups[i])[m]) == Key(groups[i].entry)
  {
  }

  lemma AddedIsTidy(groups: seq<Row>, s: Submission)
    requires Tidy(groups)
    ensures Tidy(Added(groups, s))
  {
  }

  // A submission is added unless something alike is held, and nothing held is lost.
  lemma AddedHolds(groups: seq<Row>, s: Submission, t: Submission)
    requires Tidy(groups)
    ensures Told(groups, s) ==> Added(groups, s) == groups
    ensures HeldIn(Added(groups, s), t) <==> HeldIn(groups, t) || (!Told(groups, s) && t == s)
  {
    SeenExactly(groups, s);
    hide Told, Seen, Key;
    var i, after := GroupOf(groups, Key(s)), Added(groups, s);
    if HeldIn(groups, t) {
      var j :| 0 <= j < |groups| && t in Kept(groups[j]);
      assert t in Kept(after[j]);
    }
    if !Told(groups, s) {
      assert s in Kept(after[i]);
    }
  }

  // Of the submissions alike to one, the first is news.
  lemma {:induction false} FirstAlike(rows: seq<Submission>, s: Submission, n: nat) returns (m: nat)
    requires n < |rows| && Alike(rows[n], s)
    ensures m <= n && Alike(rows[m], s) && IsNews(rows, m)
  {
    m := n;
    if !IsNews(rows, n) {
      var k :| 0 <= k < n && Alike(rows[k], rows[n]);
      m := FirstAlike(rows, s, k);
    }
  }

  lemma FirstInGrows(before: seq<Submission>, s: Submission, t: Submission)
    ensures FirstIn(before + [s], t) <==>
      FirstIn(before, t) || (t == s && forall n :: 0 <= n < |before| ==> !Alike(before[n], s))
  {
    var rows := before + [s];
    hide Alike;
    assert forall n :: 0 <= n < |before| ==> rows[n] == before[n] && (IsNews(rows, n) <==> IsNews(before, n));
    assert IsNews(rows, |before|) <==> forall n :: 0 <= n < |before| ==> !Alike(before[n], s);
    assert FirstIn(before, t) ==> FirstIn(rows, t);
    assert rows[|before|] == s;
  }

  // The export holds exactly the submissions that say something no earlier one with their email said.
  lemma {:induction false} HoldsExactlyTheNews(rows: seq<Submission>, t: Submission)
    ensures Tidy(Grouped(rows))
    ensures HeldIn(Grouped(rows), t) <==> FirstIn(rows, t)
    decreases |rows|, 0
  {
    if rows != [] {
      var before, s := rows[..|rows| - 1], rows[|rows| - 1];
      HoldsExactlyTheNews(before, t);
      AddedIsTidy(Grouped(before), s);
      AddedHolds(Grouped(before), s, t);
      ToldExactly(before, s);
      assert rows == before + [s];
      hide Added, HeldIn, FirstIn, Told, Alike, Tidy;
      FirstInGrows(before, s, t);
    }
  }

  // Something alike is held exactly when something alike was submitted.
  lemma {:induction false} ToldExactly(rows: seq<Submission>, s: Submission)
    ensures Told(Grouped(rows), s) <==> exists n :: 0 <= n < |rows| && Alike(rows[n], s)
    decreases |rows|, 1
  {
    if t :| HeldIn(Grouped(rows), t) && Alike(t, s) {
      HoldsExactlyTheNews(rows, t);
    }
    if n :| 0 <= n < |rows| && Alike(rows[n], s) {
      var m := FirstAlike(rows, s, n);
      HoldsExactlyTheNews(rows, rows[m]);
    }
  }

  // Rows come oldest first, and so does what each holds: its entry is the earliest submission with its key.
  ghost predicate OldestFirst(groups: seq<Row>) {
    && (forall i, j :: 0 <= i < j < |groups| ==> groups[i].entry.at <= groups[j].entry.at)
    && (forall i :: 0 <= i < |groups| ==> Ascending(Kept(groups[i])))
  }

  lemma {:induction false} GroupsOldestFirst(rows: seq<Submission>)
    requires Ascending(rows)
    ensures OldestFirst(Grouped(rows))
  {
    if rows != [] {
      var before, s := rows[..|rows| - 1], rows[|rows| - 1];
      GroupsOldestFirst(before);
      forall t | HeldIn(Grouped(before), t) ensures t.at <= s.at {
        HoldsExactlyTheNews(before, t);
      }
      AddedInOrder(Grouped(before), s);
    }
  }

  lemma AddedInOrder(groups: seq<Row>, s: Submission)
    requires OldestFirst(groups)
    requires forall t :: HeldIn(groups, t) ==> t.at <= s.at
    ensures OldestFirst(Added(groups, s))
  {
    hide Seen, Key;
    var n, after := GroupOf(groups, Key(s)), Added(groups, s);
    if n == |groups| {
      forall i | 0 <= i < n ensures groups[i].entry.at <= s.at {
        assert Kept(groups[i])[0] == groups[i].entry;
        assert HeldIn(groups, groups[i].entry);
      }
    } else if !Seen(groups[n], s) {
      forall m | 0 <= m < |Kept(groups[n])| ensures Kept(groups[n])[m].at <= s.at {
        assert HeldIn(groups, Kept(groups[n])[m]);
      }
      KeptInOrder(groups[n], s);
      hide Kept, Ascending, HeldIn;
    }
  }

  lemma KeptInOrder(row: Row, s: Submission)
    requires Ascending(Kept(row)) && forall m :: 0 <= m < |Kept(row)| ==> Kept(row)[m].at <= s.at
    ensures Ascending(Kept(Row(row.entry, row.updates + [s])))
  {
    assert Kept(Row(row.entry, row.updates + [s])) == Kept(row) + [s];
  }

  // ---------- whose row, and what is in it ----------

  // Two submissions of one person: with one email, or one and the same submission without any.
  predicate SamePerson(a: Submission, b: Submission) {
    (a.email.Some? && a.email == b.email) || (a.email.None? && b.email.None? && a.id == b.id)
  }

  // The same in all twelve fields of the form, a missing one being empty.
  predicate SameAnswers(a: Submission, b: Submission) {
    forall field: nat :: field < 12 ==>
      (if field < |a.texts| then a.texts[field] else "") == (if field < |b.texts| then b.texts[field] else "")
  }

  predicate InRow(row: Row, s: Submission) {
    s == row.entry || s in row.updates
  }

  lemma AlikeExactly(a: Submission, b: Submission)
    ensures Key(a) == Key(b) <==> SamePerson(a, b)
    ensures SameContent(a, b) <==> SameAnswers(a, b)
    ensures Alike(a, b) <==> SamePerson(a, b) && SameAnswers(a, b)
  {
    assert forall field: nat :: field < 12 ==> (Text(a, field) == if field < |a.texts| then a.texts[field] else "");
    if SameAnswers(a, b) {
      forall field: nat | field < FIELDS ensures Text(a, field) == Text(b, field) {
      }
    }
    if SameContent(a, b) {
      forall field: nat | field < 12 ensures
        (if field < |a.texts| then a.texts[field] else "") == (if field < |b.texts| then b.texts[field] else "")
      {
        assert Text(a, field) == Text(b, field);
      }
    }
  }

  // Two submissions in the groups are in one row exactly if they are one person's.
  ghost predicate RowsArePeople(groups: seq<Row>) {
    forall i, j, s, t :: 0 <= i < |groups| && 0 <= j < |groups| && InRow(groups[i], s) && InRow(groups[j], t) ==>
      (i == j <==> SamePerson(s, t))
  }

  // This row is this person's: it starts with their earliest submission, and says what this one says.
  ghost predicate IsRowOf(row: Row, rows: seq<Submission>, s: Submission) {
    && SamePerson(row.entry, s) && row.entry in rows
    && (forall t :: t in rows && SamePerson(t, s) ==> row.entry.at <= t.at)
    && Says(row, s)
  }

  ghost predicate Says(row: Row, s: Submission) {
    exists t :: InRow(row, t) && SamePerson(t, s) && SameAnswers(t, s)
  }

  ghost predicate HasRow(groups: seq<Row>, rows: seq<Submission>, s: Submission) {
    exists i :: 0 <= i < |groups| && IsRowOf(groups[i], rows, s)
  }

  // Nothing is listed twice over, and everything listed was submitted.
  ghost predicate NothingTwice(groups: seq<Row>, rows: seq<Submission>) {
    forall i :: 0 <= i < |groups| ==>
      && (forall s :: InRow(groups[i], s) ==> s in rows)
      && (forall m :: 0 <= m < |groups[i].updates| ==> !SameAnswers(groups[i].entry, groups[i].updates[m]))
      && (forall m, n :: 0 <= m < n < |groups[i].updates| ==>
            !SameAnswers(groups[i].updates[m], groups[i].updates[n]))
  }

  lemma TidyRowsArePeople(groups: seq<Row>)
    requires Tidy(groups)
    ensures RowsArePeople(groups)
  {
    hide Key;
    forall i, j, s, t | 0 <= i < |groups| && 0 <= j < |groups| && InRow(groups[i], s) && InRow(groups[j], t)
      ensures i == j <==> SamePerson(s, t)
    {
      AlikeExactly(s, t);
      assert Key(s) == Key(groups[i].entry) && Key(t) == Key(groups[j].entry);
    }
  }

  // Within a row no two submissions say the same.
  ghost predicate RowsDiffer(groups: seq<Row>) {
    forall i, m, n :: 0 <= i < |groups| && 0 <= m < n < |Kept(groups[i])| ==>
      !NothingChanged(Kept(groups[i])[m], Kept(groups[i])[n])
  }

  lemma {:induction false} GroupedRowsDiffer(rows: seq<Submission>)
    ensures RowsDiffer(Grouped(rows))
  {
    if rows != [] {
      var before, s := rows[..|rows| - 1], rows[|rows| - 1];
      GroupedRowsDiffer(before);
      hide NothingChanged, Key;
      AddedDiffer(Grouped(before), s);
    }
  }

  lemma AddedDiffer(groups: seq<Row>, s: Submission)
    requires RowsDiffer(groups)
    ensures RowsDiffer(Added(groups, s))
  {
    hide NothingChanged, Key;
    var n, after := GroupOf(groups, Key(s)), Added(groups, s);
    if n < |groups| && !Seen(groups[n], s) {
      assert Kept(after[n]) == Kept(groups[n]) + [s];
    }
  }

  lemma RowOf(rows: seq<Submission>, s: Submission)
    requires Ascending(rows) && s in rows
    ensures HasRow(Grouped(rows), rows, s)
  {
    var groups := Grouped(rows);
    var i, t := WhereTold(rows, s);
    HoldsExactlyTheNews(rows, groups[i].entry);
    TidyRowsArePeople(groups);
    AlikeExactly(t, s);
    hide Grouped, Key, SameContent, SameAnswers, Tidy, Alike, FirstIn;
    InOneRow(groups, i, t);
    assert groups[i].entry in Kept(groups[i]) && HeldIn(groups, groups[i].entry);
    assert FirstIn(rows, groups[i].entry);
    FirstInIsIn(rows, groups[i].entry);
    SamePersonBoth(groups[i].entry, t, s);
    forall u | u in rows && SamePerson(u, s) ensures groups[i].entry.at <= u.at {
      SamePersonBoth(groups[i].entry, s, u);
      EntryIsEarliest(rows, i, u);
    }
    assert Says(groups[i], s);
    assert IsRowOf(groups[i], rows, s);
  }

  lemma FirstInIsIn(rows: seq<Submission>, s: Submission)
    requires FirstIn(rows, s)
    ensures s in rows
  {
  }

  lemma WhereTold(rows: seq<Submission>, s: Submission) returns (i: nat, t: Submission)
    requires s in rows
    ensures i < |Grouped(rows)| && t in Kept(Grouped(rows)[i]) && InRow(Grouped(rows)[i], t) && Alike(t, s)
  {
    var n :| 0 <= n < |rows| && rows[n] == s;
    AlikeExactly(s, s);
    ToldExactly(rows, s);
    hide Alike, Grouped;
    t :| HeldIn(Grouped(rows), t) && Alike(t, s);
    i :| 0 <= i < |Grouped(rows)| && t in Kept(Grouped(rows)[i]);
  }

  lemma InOneRow(groups: seq<Row>, i: nat, t: Submission)
    requires RowsArePeople(groups) && i < |groups| && InRow(groups[i], t)
    ensures SamePerson(groups[i].entry, t) && SamePerson(t, groups[i].entry)
  {
    assert InRow(groups[i], groups[i].entry);
  }

  lemma EntryIsEarliest(rows: seq<Submission>, i: nat, u: Submission)
    requires Ascending(rows) && u in rows && i < |Grouped(rows)| && SamePerson(Grouped(rows)[i].entry, u)
    ensures Grouped(rows)[i].entry.at <= u.at
  {
    var groups := Grouped(rows);
    var m, j := FirstSaid(rows, u);
    HoldsExactlyTheNews(rows, u);
    TidyRowsArePeople(groups);
    GroupsOldestFirst(rows);
    hide Grouped, Tidy, RowsArePeople;
    OneOwner(groups, i, j, rows[m], u);
    HeadIsOldest(groups, i, rows[m]);
  }

  lemma FirstSaid(rows: seq<Submission>, u: Submission) returns (m: nat, j: nat)
    requires Ascending(rows) && u in rows
    ensures m < |rows| && rows[m].at <= u.at && SamePerson(rows[m], u)
    ensures j < |Grouped(rows)| && rows[m] in Kept(Grouped(rows)[j])
  {
    var n :| 0 <= n < |rows| && rows[n] == u;
    AlikeExactly(u, u);
    m := FirstAlike(rows, u, n);
    AlikeExactly(rows[m], u);
    HoldsExactlyTheNews(rows, rows[m]);
    hide Alike, Grouped;
    j :| 0 <= j < |Grouped(rows)| && rows[m] in Kept(Grouped(rows)[j]);
  }

  lemma OneOwner(groups: seq<Row>, i: nat, j: nat, s: Submission, u: Submission)
    requires RowsArePeople(groups) && i < |groups| && j < |groups| && s in Kept(groups[j])
    requires SamePerson(groups[i].entry, u) && SamePerson(s, u)
    ensures i == j
  {
    assert InRow(groups[j], s) && InRow(groups[i], groups[i].entry);
    SamePersonBoth(groups[i].entry, u, s);
    SamePersonBoth(s, u, s);
  }

  lemma HeadIsOldest(groups: seq<Row>, i: nat, s: Submission)
    requires OldestFirst(groups) && i < |groups| && s in Kept(groups[i])
    ensures groups[i].entry.at <= s.at
  {
    assert Kept(groups[i])[0] == groups[i].entry;
  }

  lemma ListedOnce(rows: seq<Submission>)
    ensures NothingTwice(Grouped(rows), rows)
  {
    var groups := Grouped(rows);
    GroupedRowsDiffer(rows);
    forall i, s | 0 <= i < |groups| && InRow(groups[i], s) ensures s in rows {
      HoldsExactlyTheNews(rows, s);
      assert s in Kept(groups[i]);
    }
    forall i, m, n | 0 <= i < |groups| && 0 <= m < n < |Kept(groups[i])|
      ensures !SameAnswers(Kept(groups[i])[m], Kept(groups[i])[n])
    {
      NothingChangedExactly(Kept(groups[i])[m], Kept(groups[i])[n]);
      AlikeExactly(Kept(groups[i])[m], Kept(groups[i])[n]);
    }
    hide SameAnswers, Grouped;
    forall i, m | 0 <= i < |groups| && 0 <= m < |groups[i].updates|
      ensures groups[i].updates[m] == Kept(groups[i])[m + 1] && groups[i].entry == Kept(groups[i])[0]
    {
    }
  }

  // What `groupByEmail` makes of any list: each person has exactly one row, headed by their earliest submission; it
  // holds only submissions of theirs, no two that say the same, and whatever they submitted is said there.
  lemma OneRowEach(rows: seq<Submission>)
    ensures
      var groups := Grouped(Sorted(rows));
      && RowsArePeople(groups) && NothingTwice(groups, rows)
      && forall s :: s in rows ==> HasRow(groups, rows, s)
  {
    var sorted := Sorted(rows);
    SortedAscends(rows);
    HoldsExactlyTheNews(sorted, Submission(0, 0, None, []));
    TidyRowsArePeople(Grouped(sorted));
    ListedOnce(sorted);
    forall s | s in rows ensures HasRow(Grouped(sorted), rows, s) {
      RowOf(sorted, s);
    }
  }

  lemma SamePersonBoth(a: Submission, b: Submission, c: Submission)
    ensures SamePerson(a, b) && SamePerson(b, c) ==> SamePerson(a, c)
    ensures SamePerson(a, b) ==> SamePerson(b, a)
  {
  }

  // Whoever submitted something has a row of their own that says it.
  ghost predicate Shown(groups: seq<Row>, s: Submission) {
    exists i :: 0 <= i < |groups| && Says(groups[i], s)
  }

  lemma SubmittedIsShown(rows: seq<Submission>, s: Submission)
    requires s in rows
    ensures Shown(Grouped(Sorted(rows)), s)
  {
    OneRowEach(rows);
    hide Grouped, Sorted, RowsArePeople, NothingTwice, Says, SamePerson;
    assert HasRow(Grouped(Sorted(rows)), rows, s);
  }

  // Submissions of one time stay in the order they were listed in.
  function AtTime(rows: seq<Submission>, at: int): seq<Submission> {
    if rows == [] then []
    else
      var last := rows[|rows| - 1];
      AtTime(rows[..|rows| - 1], at) + if last.at == at then [last] else []
  }

  lemma {:induction false} SortIsStable(rows: seq<Submission>, at: int)
    ensures AtTime(Sorted(rows), at) == AtTime(rows, at)
  {
    if rows != [] {
      SortIsStable(rows[..|rows| - 1], at);
      InsertedIsStable(Sorted(rows[..|rows| - 1]), rows[|rows| - 1], at);
    }
  }

  lemma {:induction false} InsertedIsStable(sorted: seq<Submission>, s: Submission, at: int)
    ensures AtTime(Inserted(sorted, s), at) == AtTime(sorted, at) + if s.at == at then [s] else []
  {
    if sorted == [] || sorted[|sorted| - 1].at <= s.at {
      assert (sorted + [s])[..|sorted|] == sorted;
    } else {
      var last := sorted[|sorted| - 1];
      InsertedIsStable(sorted[..|sorted| - 1], s, at);
      var front := Inserted(sorted[..|sorted| - 1], s);
      assert (front + [last])[..|front|] == front;
    }
  }

  // ---------- the order of the list does not matter ----------

  function WithoutRepeats(rows: seq<Submission>): seq<Submission> {
    if rows == [] then []
    else
      var before, s := WithoutRepeats(rows[..|rows| - 1]), rows[|rows| - 1];
      if s in rows[..|rows| - 1] then before else before + [s]
  }

  lemma {:induction false} WithoutRepeatsHolds(rows: seq<Submission>)
    ensures forall x :: x in WithoutRepeats(rows) <==> x in rows
  {
    if rows != [] {
      WithoutRepeatsHolds(rows[..|rows| - 1]);
      assert rows == rows[..|rows| - 1] + [rows[|rows| - 1]];
    }
  }

  // Storing a submission twice changes nothing.
  lemma {:induction false} RepeatsDoNotShow(rows: seq<Submission>)
    ensures Grouped(WithoutRepeats(rows)) == Grouped(rows)
  {
    if rows != [] {
      var before, s := rows[..|rows| - 1], rows[|rows| - 1];
      RepeatsDoNotShow(before);
      if s in before {
        var n :| 0 <= n < |before| && before[n] == s;
        assert Alike(before[n], s);
        ToldExactly(before, s);
        HoldsExactlyTheNews(before, s);
        AddedHolds(Grouped(before), s, s);
      } else {
        var kept := WithoutRepeats(before) + [s];
        assert kept[..|kept| - 1] == WithoutRepeats(before);
      }
    }
  }

  predicate StrictlyAscending(rows: seq<Submission>) {
    forall i, j :: 0 <= i < j < |rows| ==> rows[i].at < rows[j].at
  }

  // No two different submissions carry the same time.
  ghost predicate TimesDiffer(rows: seq<Submission>) {
    forall a, b :: a in rows && b in rows && a.at == b.at ==> a == b
  }

  lemma {:induction false} WithoutRepeatsAscends(rows: seq<Submission>)
    requires Ascending(rows) && TimesDiffer(rows)
    ensures StrictlyAscending(WithoutRepeats(rows))
  {
    if rows != [] {
      var before, s := rows[..|rows| - 1], rows[|rows| - 1];
      WithoutRepeatsAscends(before);
      WithoutRepeatsHolds(before);
      var kept := WithoutRepeats(before);
      hide WithoutRepeats;
      forall i | 0 <= i < |kept| && s !in before ensures kept[i].at < s.at {
        assert kept[i] in before && kept[i] in rows && s in rows;
      }
    }
  }

  lemma LastIsLatest(rows: seq<Submission>, x: Submission)
    requires StrictlyAscending(rows) && x in rows
    ensures x in rows[..|rows| - 1] <==> x != rows[|rows| - 1]
    ensures x.at <= rows[|rows| - 1].at
  {
  }

  // A set of submissions has one order by time.
  lemma {:induction false} OneOrder(a: seq<Submission>, b: seq<Submission>)
    requires StrictlyAscending(a) && StrictlyAscending(b) && forall x :: x in a <==> x in b
    ensures a == b
  {
    if a == [] {
      assert forall i :: 0 <= i < |b| ==> b[i] in b;
    } else {
      var x := a[|a| - 1];
      assert x in b;
      var y := b[|b| - 1];
      LastIsLatest(a, y);
      LastIsLatest(b, x);
      assert x == y;
      var a', b' := a[..|a| - 1], b[..|b| - 1];
      assert a == a' + [x] && b == b' + [x];
      forall z | z in a ensures z in a' <==> z in b' {
        LastIsLatest(a, z);
        LastIsLatest(b, z);
      }
      forall z ensures z in a' <==> z in b' {
        assert z in a' ==> z in a;
        assert z in b' ==> z in b;
      }
      OneOrder(a', b');
    }
  }

  // Two lists of the same submissions, in any order and with any repeats, are exported alike.
  lemma ExportIgnoresOrder(a: seq<Submission>, b: seq<Submission>)
    requires TimesDiffer(a) && forall x :: x in a <==> x in b
    ensures Grouped(Sorted(a)) == Grouped(Sorted(b))
  {
    SortedAscends(a);
    SortedAscends(b);
    WithoutRepeatsAscends(Sorted(a));
    WithoutRepeatsAscends(Sorted(b));
    WithoutRepeatsHolds(Sorted(a));
    WithoutRepeatsHolds(Sorted(b));
    OneOrder(WithoutRepeats(Sorted(a)), WithoutRepeats(Sorted(b)));
    RepeatsDoNotShow(Sorted(a));
    RepeatsDoNotShow(Sorted(b));
  }

  // Of two submissions the order shows exactly when they carry one time.
  lemma OrderShowsExactly(a: Submission, b: Submission)
    ensures Grouped(Sorted([a, b])) == Grouped(Sorted([b, a])) <==> a.at != b.at || a == b
  {
    if a.at != b.at || a == b {
      ExportIgnoresOrder([a, b], [b, a]);
    } else {
      TiedStayInOrder(a, b);
      TiedStayInOrder(b, a);
    }
  }

  lemma TiedStayInOrder(a: Submission, b: Submission)
    requires a.at == b.at
    ensures Grouped(Sorted([a, b])) != [] && Grouped(Sorted([a, b]))[0].entry == a
  {
    assert [a, b][..1] == [a] && [a][..0] == [];
    assert Sorted([a]) == [a];
    assert Sorted([a, b]) == [a, b];
    assert Grouped([a]) == [Row(a, [])];
  }
}
