/**
When the reason table depends on nothing but what was recorded.

A row's example is the least of the explanations its identities were first recorded with, so the order
of the records reaches the table through nothing but the first explanation of each identity.
*/
module ReasonOrder {
  import opened Wrappers
  import opened Diagnostics
  import opened ReasonTally

  // ---- Counts and identities ----

  // Taking one diagnostic out takes its occurrences out.
  lemma {:induction false} OccurrencesWithout(recorded: seq<Diagnostic>, key: Key, ids: set<Identity>, at: nat)
    requires at < |recorded|
    ensures Occurrences(recorded, key, ids)
            == Occurrences(recorded[..at] + recorded[at + 1..], key, ids)
               + if KeyOf(recorded[at].identity) == key && recorded[at].identity in ids then recorded[at].occurrences else 0
  {
    var n := |recorded| - 1;
    var rest := recorded[..at] + recorded[at + 1..];
    if at == n {
      assert rest == recorded[..n];
    } else {
      OccurrencesWithout(recorded[..n], key, ids, at);
      assert rest[..|rest| - 1] == recorded[..n][..at] + recorded[..n][at + 1..];
    }
  }

  lemma {:induction false} OccurrencesIgnoreOrder(a: seq<Diagnostic>, b: seq<Diagnostic>, key: Key, ids: set<Identity>)
    requires multiset(a) == multiset(b)
    ensures Occurrences(a, key, ids) == Occurrences(b, key, ids)
    decreases |a|
  {
    if a == [] {
      assert |multiset(b)| == |b|;
    } else {
      var n := |a| - 1;
      assert a == a[..n] + [a[n]];
      assert a[n] in multiset(b);
      var at :| 0 <= at < |b| && b[at] == a[n];
      assert b == b[..at] + [b[at]] + b[at + 1..];
      OccurrencesWithout(b, key, ids, at);
      assert multiset(b) == multiset(b[..at] + b[at + 1..]) + multiset{b[at]};
      assert multiset(a) == multiset(a[..n]) + multiset{a[n]};
      assert multiset(a[..n]) == multiset(a) - multiset{a[n]};
      OccurrencesIgnoreOrder(a[..n], b[..at] + b[at + 1..], key, ids);
    }
  }

  lemma SameIdentities(a: seq<Diagnostic>, b: seq<Diagnostic>)
    requires multiset(a) == multiset(b)
    ensures Identities(a) == Identities(b)
  {
    forall id ensures id in Identities(a) <==> id in Identities(b) {
      IdentitiesAreRecorded(a, id);
      IdentitiesAreRecorded(b, id);
    }
  }

  lemma RestIsShared(a: seq<Reason>, b: seq<Reason>)
    requires a != [] && b != [] && a[0] == b[0] && Ordered(a)
    requires forall r :: r in a ==> r in b
    ensures forall r :: r in a[1..] ==> r in b[1..]
  {
    forall r | r in a[1..] ensures r in b[1..] {
      var i :| 0 <= i < |a[1..]| && a[1..][i] == r;
      assert RowBefore(a[0], a[i + 1]);
      assert r in b;
      var j :| 0 <= j < |b| && b[j] == r;
      assert j > 0 && b[1..][j - 1] == r;
    }
  }

  lemma HoldsARow(rows: seq<Reason>)
    ensures rows != [] ==> exists r :: r in rows
  {
    if rows != [] { assert rows[0] in rows; }
  }

  lemma {:induction false} OrderedIsUnique(a: seq<Reason>, b: seq<Reason>)
    requires Ordered(a) && Ordered(b)
    requires forall r :: r in a <==> r in b
    ensures a == b
  {
    if a == [] || b == [] {
      HoldsARow(a);
      HoldsARow(b);
    } else {
      assert a[0] in b && b[0] in a;
      assert a[0] == b[0];
      RestIsShared(a, b);
      RestIsShared(b, a);
      OrderedIsUnique(a[1..], b[1..]);
    }
  }

  // ---- Every recording has a report ----

  lemma {:induction false} LeastExists(recorded: seq<Diagnostic>, key: Key, ids: set<Identity>) returns (example: string)
    requires exists id :: id in ids && KeyOf(id) == key
    ensures IsLeast(example, recorded, key, ids)
    decreases |ids|
  {
    var id :| id in ids && KeyOf(id) == key;
    var others := ids - {id};
    assert ids == others + {id};
    if exists other :: other in others && KeyOf(other) == key {
      var least := LeastExists(recorded, key, others);
      LeastExtends(least, recorded, key, others, id);
      example := Least(least, FirstExample(recorded, id));
    } else {
      example := FirstExample(recorded, id);
      BeforeIsTotal(example, example);
    }
  }

  ghost predicate RowsOf(rows: seq<Reason>, recorded: seq<Diagnostic>, keys: set<Key>) {
    && Ordered(rows)
    && (forall r {:trigger Accounts(r, recorded)} :: r in rows ==> RowKey(r) in keys && Accounts(r, recorded))
    && (forall key :: key in keys ==> exists r :: r in rows && RowKey(r) == key)
  }

  lemma {:induction false} RowsExist(recorded: seq<Diagnostic>, keys: set<Key>) returns (rows: seq<Reason>)
    requires forall key :: key in keys ==> exists id :: id in Identities(recorded) && KeyOf(id) == key
    ensures RowsOf(rows, recorded, keys)
    decreases |keys|
  {
    rows := [];
    if keys != {} {
      var key :| key in keys;
      var others := RowsExist(recorded, keys - {key});
      var example := LeastExists(recorded, key, Identities(recorded));
      var row := Reason(key.severity, key.code, Saturated(Occurrences(recorded, key, Identities(recorded))), example);
      assert RowKey(row) == key && Accounts(row, recorded);
      RowAdds(row, others, recorded, keys - {key});
      rows := InsertRow(row, others);
      assert keys - {key} + {key} == keys;
    }
  }

  lemma RowAdds(row: Reason, rows: seq<Reason>, recorded: seq<Diagnostic>, keys: set<Key>)
    requires RowsOf(rows, recorded, keys) && RowKey(row) !in keys && Accounts(row, recorded)
    ensures RowsOf(InsertRow(row, rows), recorded, keys + {RowKey(row)})
  {
    forall r | r in rows ensures RowKey(r) != RowKey(row) {
      assert Accounts(r, recorded);
    }
    InsertRowOrders(row, rows);
    InsertRowHolds(row, rows);
    var more := InsertRow(row, rows);
    forall r | r in more ensures RowKey(r) in keys + {RowKey(row)} && Accounts(r, recorded) {
      assert r == row || Accounts(r, recorded);
    }
    forall key | key in keys + {RowKey(row)} ensures exists r :: r in more && RowKey(r) == key {
      if key != RowKey(row) {
        var r :| r in rows && RowKey(r) == key;
        assert r in more;
      }
    }
  }

  lemma ReportExists(recorded: seq<Diagnostic>) returns (rows: seq<Reason>)
    ensures IsReport(rows, recorded)
  {
    var keys := set id | id in Identities(recorded) :: KeyOf(id);
    rows := RowsExist(recorded, keys);
    forall i | 0 <= i < |rows| ensures Accounts(rows[i], recorded) {
      assert rows[i] in rows;
    }
    forall id | id in Identities(recorded) ensures exists i :: 0 <= i < |rows| && RowKey(rows[i]) == KeyOf(id) {
      assert KeyOf(id) in keys;
      var r :| r in rows && RowKey(r) == KeyOf(id);
      var i :| 0 <= i < |rows| && rows[i] == r;
    }
  }

  // ---- Two reports that agree ----

  // The row a report gives a recorded identity.
  lemma RowOf(rows: seq<Reason>, recorded: seq<Diagnostic>, id: Identity) returns (at: nat)
    requires IsReport(rows, recorded) && id in Identities(recorded)
    ensures at < |rows| && RowKey(rows[at]) == KeyOf(id) && Accounts(rows[at], recorded)
  {
    at :| 0 <= at < |rows| && RowKey(rows[at]) == KeyOf(id);
    assert Accounts(rows[at], recorded);
  }

  // The identity whose first explanation is a row's example.
  lemma IdentityOf(row: Reason, recorded: seq<Diagnostic>) returns (id: Identity)
    requires Accounts(row, recorded)
    ensures id in Identities(recorded) && KeyOf(id) == RowKey(row) && FirstExample(recorded, id) == row.example
  {
    id :| id in Identities(recorded) && KeyOf(id) == RowKey(row) && FirstExample(recorded, id) == row.example;
  }

  // Rows of one key are one row.
  ghost predicate RowsMatch(rows1: seq<Reason>, rows2: seq<Reason>) {
    forall i, j :: 0 <= i < |rows1| && 0 <= j < |rows2| && RowKey(rows1[i]) == RowKey(rows2[j]) ==> rows1[i] == rows2[j]
  }

  lemma MatchingReportsAreEqual(rows1: seq<Reason>, recorded1: seq<Diagnostic>, rows2: seq<Reason>, recorded2: seq<Diagnostic>)
    requires IsReport(rows1, recorded1) && IsReport(rows2, recorded2) && Identities(recorded1) == Identities(recorded2)
    requires RowsMatch(rows1, rows2)
    ensures rows1 == rows2
  {
    RowsAreIn(rows1, recorded1, rows2, recorded2);
    RowsAreIn(rows2, recorded2, rows1, recorded1);
    OrderedIsUnique(rows1, rows2);
  }

  lemma RowsAreIn(rows1: seq<Reason>, recorded1: seq<Diagnostic>, rows2: seq<Reason>, recorded2: seq<Diagnostic>)
    requires IsReport(rows1, recorded1) && IsReport(rows2, recorded2) && Identities(recorded1) == Identities(recorded2)
    requires RowsMatch(rows1, rows2) || RowsMatch(rows2, rows1)
    ensures forall r :: r in rows1 ==> r in rows2
  {
    forall r | r in rows1 ensures r in rows2 {
      var at :| 0 <= at < |rows1| && rows1[at] == r;
      assert Accounts(rows1[at], recorded1);
      var id := IdentityOf(rows1[at], recorded1);
      var i := RowOf(rows2, recorded2, id);
      assert rows2[i] == rows1[at];
    }
  }

  // ---- The explanations of a recording ----

  lemma {:induction false} FirstExampleExplains(recorded: seq<Diagnostic>, id: Identity) returns (d: Diagnostic)
    requires id in Identities(recorded)
    ensures d in recorded && d.identity == id && Explanation(d) == FirstExample(recorded, id)
  {
    var before, last := recorded[..|recorded| - 1], recorded[|recorded| - 1];
    assert recorded == before + [last];
    if id in Identities(before) {
      d := FirstExampleExplains(before, id);
    } else {
      d := last;
    }
  }

  lemma InReordered(a: seq<Diagnostic>, b: seq<Diagnostic>, d: Diagnostic)
    requires multiset(a) == multiset(b) && d in a
    ensures d in b
  {
    assert d in multiset(a) && d in multiset(b);
  }

  lemma RecordedIsIdentified(recorded: seq<Diagnostic>, d: Diagnostic)
    requires d in recorded
    ensures d.identity in Identities(recorded)
  {
    assert d in multiset(recorded);
    IdentitiesAreRecorded(recorded, d.identity);
  }

  /** Whatever `id` was recorded with is a least explanation of everything recorded under its key. */
  ghost predicate Settles(id: Identity, recorded: seq<Diagnostic>) {
    forall d, e :: d in recorded && e in recorded && d.identity == id && KeyOf(e.identity) == KeyOf(id)
                   ==> !Before(Explanation(e), Explanation(d))
  }

  /** Every key recorded has an identity that settles its example. */
  ghost predicate Settled(recorded: seq<Diagnostic>) {
    forall id {:trigger IsSettled(KeyOf(id), recorded)} :: id in Identities(recorded) ==> IsSettled(KeyOf(id), recorded)
  }

  ghost predicate IsSettled(key: Key, recorded: seq<Diagnostic>) {
    exists id :: id in Identities(recorded) && KeyOf(id) == key && Settles(id, recorded)
  }

  /** Every two reports of every two orders of a recording are one table. */
  ghost predicate Reproducible(recorded: seq<Diagnostic>) {
    forall a: seq<Diagnostic>, b: seq<Diagnostic>, rows1, rows2 {:trigger IsReport(rows1, a), IsReport(rows2, b)} ::
      multiset(a) == multiset(recorded) && multiset(b) == multiset(recorded) && IsReport(rows1, a) && IsReport(rows2, b) ==> rows1 == rows2
  }

  // In any order the example of a settled key is what its settling identity was recorded with.
  lemma SettledExample(row: Reason, order: seq<Diagnostic>, recorded: seq<Diagnostic>, id: Identity) returns (d: Diagnostic)
    requires multiset(order) == multiset(recorded) && Accounts(row, order)
    requires id in Identities(recorded) && KeyOf(id) == RowKey(row) && Settles(id, recorded)
    ensures d in recorded && d.identity == id && Explanation(d) == row.example
  {
    SameIdentities(order, recorded);
    var first := IdentityOf(row, order);
    var e := FirstExampleExplains(order, first);
    d := FirstExampleExplains(order, id);
    InReordered(order, recorded, d);
    InReordered(order, recorded, e);
    BeforeIsTotal(Explanation(d), row.example);
  }

  lemma SettledRowsMatch(a: Reason, order1: seq<Diagnostic>, b: Reason, order2: seq<Diagnostic>)
    requires multiset(order1) == multiset(order2) && Accounts(a, order1) && Accounts(b, order2)
    requires RowKey(a) == RowKey(b) && IsSettled(RowKey(a), order1)
    ensures a == b
  {
    var id :| id in Identities(order1) && KeyOf(id) == RowKey(a) && Settles(id, order1);
    var d := SettledExample(a, order1, order1, id);
    var e := SettledExample(b, order2, order1, id);
    BeforeIsTotal(Explanation(d), Explanation(e));
    SameIdentities(order1, order2);
    OccurrencesIgnoreOrder(order1, order2, RowKey(a), Identities(order1));
  }

  /** A table of settled keys depends on which diagnostics were recorded and on nothing else. */
  lemma SettledIgnoresOrder(rows1: seq<Reason>, order1: seq<Diagnostic>, rows2: seq<Reason>, order2: seq<Diagnostic>)
    requires IsReport(rows1, order1) && IsReport(rows2, order2) && multiset(order1) == multiset(order2)
    requires Settled(order1)
    ensures rows1 == rows2
  {
    SameIdentities(order1, order2);
    forall i, j | 0 <= i < |rows1| && 0 <= j < |rows2| && RowKey(rows1[i]) == RowKey(rows2[j]) ensures rows1[i] == rows2[j] {
      assert Accounts(rows1[i], order1) && Accounts(rows2[j], order2);
      var id := IdentityOf(rows1[i], order1);
      assert IsSettled(KeyOf(id), order1);
      SettledRowsMatch(rows1[i], order1, rows2[j], order2);
    }
    MatchingReportsAreEqual(rows1, order1, rows2, order2);
  }

  /** When every identity explains itself, every key is settled, so the table ignores the order. */
  lemma ReportIgnoresOrder(rows1: seq<Reason>, recorded1: seq<Diagnostic>, rows2: seq<Reason>, recorded2: seq<Diagnostic>)
    requires IsReport(rows1, recorded1) && IsReport(rows2, recorded2)
    requires multiset(recorded1) == multiset(recorded2)
    requires forall id :: id in Identities(recorded1) ==> Explains(id)
    ensures rows1 == rows2
  {
    forall id | id in Identities(recorded1)
      ensures IsSettled(KeyOf(id), recorded1)
    {
      var at := RowOf(rows1, recorded1, id);
      var least := IdentityOf(rows1[at], recorded1);
      ExplainedSettles(rows1[at], recorded1, least);
    }
    SettledIgnoresOrder(rows1, recorded1, rows2, recorded2);
  }

  lemma ExplainedSettles(row: Reason, recorded: seq<Diagnostic>, id: Identity)
    requires Accounts(row, recorded) && forall each :: each in Identities(recorded) ==> Explains(each)
    requires id in Identities(recorded) && KeyOf(id) == RowKey(row) && FirstExample(recorded, id) == row.example
    ensures Settles(id, recorded)
  {
    forall d, e | d in recorded && e in recorded && d.identity == id && KeyOf(e.identity) == KeyOf(id)
      ensures !Before(Explanation(e), Explanation(d))
    {
      RecordedIsIdentified(recorded, e);
      FirstIsItsExplanation(recorded, d);
      FirstIsItsExplanation(recorded, e);
    }
  }

  lemma FirstIsItsExplanation(recorded: seq<Diagnostic>, d: Diagnostic)
    requires d in recorded && Explains(d.identity)
    ensures d.identity in Identities(recorded) && FirstExample(recorded, d.identity) == Explanation(d)
  {
    RecordedIsIdentified(recorded, d);
    var first := FirstExampleExplains(recorded, d.identity);
    ExplanationIsTheIdentitys(d.identity);
  }

  // ---- An order that shows an unsettled key ----

  // The diagnostics of a key that do not carry an explanation, or all the others.
  function Louder(recorded: seq<Diagnostic>, key: Key, text: string, louder: bool): seq<Diagnostic> {
    if recorded == [] then []
    else
      var before, last := Louder(recorded[..|recorded| - 1], key, text, louder), recorded[|recorded| - 1];
      if (KeyOf(last.identity) == key && Explanation(last) != text) == louder then before + [last] else before
  }

  lemma {:induction false} LouderHolds(recorded: seq<Diagnostic>, key: Key, text: string, louder: bool, d: Diagnostic)
    ensures d in Louder(recorded, key, text, louder)
            <==> d in recorded && (KeyOf(d.identity) == key && Explanation(d) != text) == louder
  {
    if recorded != [] {
      var n := |recorded| - 1;
      LouderHolds(recorded[..n], key, text, louder, d);
      assert recorded == recorded[..n] + [recorded[n]];
    }
  }

  lemma {:induction false} LouderSplits(recorded: seq<Diagnostic>, key: Key, text: string)
    ensures multiset(Louder(recorded, key, text, true) + Louder(recorded, key, text, false)) == multiset(recorded)
  {
    if recorded != [] {
      var n := |recorded| - 1;
      LouderSplits(recorded[..n], key, text);
      assert recorded == recorded[..n] + [recorded[n]];
    }
  }

  lemma {:induction false} FirstInPrefix(a: seq<Diagnostic>, b: seq<Diagnostic>, id: Identity)
    requires id in Identities(a)
    ensures id in Identities(a + b) && FirstExample(a + b, id) == FirstExample(a, id)
  {
    if b == [] {
      assert a + b == a;
    } else {
      var n := |b| - 1;
      assert (a + b)[..|a + b| - 1] == a + b[..n];
      FirstInPrefix(a, b[..n], id);
    }
  }

  lemma {:induction false} LeastRecorded(recorded: seq<Diagnostic>, key: Key) returns (d: Diagnostic)
    requires exists e :: e in recorded && KeyOf(e.identity) == key
    ensures d in recorded && KeyOf(d.identity) == key
    ensures forall e :: e in recorded && KeyOf(e.identity) == key ==> !Before(Explanation(e), Explanation(d))
  {
    var before, last := recorded[..|recorded| - 1], recorded[|recorded| - 1];
    assert recorded == before + [last];
    BeforeIsTotal(Explanation(last), Explanation(last));
    if exists e :: e in before && KeyOf(e.identity) == key {
      d := LeastRecorded(before, key);
      BeforeIsTotal(Explanation(last), Explanation(d));
      if KeyOf(last.identity) == key && Before(Explanation(last), Explanation(d)) {
        forall e | e in recorded && KeyOf(e.identity) == key ensures !Before(Explanation(e), Explanation(last)) {
          if Before(Explanation(e), Explanation(last)) { BeforeIsTransitive(Explanation(e), Explanation(last), Explanation(d)); }
        }
        d := last;
      }
    } else {
      d := last;
    }
  }

  // With the diagnostic of the least explanation first, its key's example is that explanation.
  lemma QuietestFirst(row: Reason, order: seq<Diagnostic>, d: Diagnostic)
    requires order != [] && order[0] == d && Accounts(row, order) && RowKey(row) == KeyOf(d.identity)
    requires forall e :: e in order && KeyOf(e.identity) == KeyOf(d.identity) ==> !Before(Explanation(e), Explanation(d))
    ensures row.example == Explanation(d)
  {
    assert order == [d] + order[1..] && [d][..0] == [];
    assert Identities([d]) == {d.identity} && FirstExample([d], d.identity) == Explanation(d);
    FirstInPrefix([d], order[1..], d.identity);
    var id := IdentityOf(row, order);
    var e := FirstExampleExplains(order, id);
    BeforeIsTotal(row.example, Explanation(d));
  }

  // With every louder explanation of a key first, and none of its identities settled, the example is louder.
  lemma LouderFirst(row: Reason, louder: seq<Diagnostic>, quieter: seq<Diagnostic>, text: string)
    requires Accounts(row, louder + quieter)
    requires forall d :: d in louder ==> Explanation(d) != text
    requires forall id :: id in Identities(louder + quieter) && KeyOf(id) == RowKey(row) ==> id in Identities(louder)
    ensures row.example != text
  {
    var id := IdentityOf(row, louder + quieter);
    FirstInPrefix(louder, quieter, id);
    var d := FirstExampleExplains(louder, id);
  }

  // An identity that does not settle its key was recorded with an explanation that is not the least.
  lemma UnsettledIsLouder(recorded: seq<Diagnostic>, id: Identity, text: string)
    requires !Settles(id, recorded)
    requires forall e :: e in recorded && KeyOf(e.identity) == KeyOf(id) ==> !Before(Explanation(e), text)
    ensures id in Identities(Louder(recorded, KeyOf(id), text, true))
  {
    var d, e :| d in recorded && e in recorded && d.identity == id && KeyOf(e.identity) == KeyOf(id) && Before(Explanation(e), Explanation(d));
    LouderHolds(recorded, KeyOf(id), text, true, d);
    RecordedIsIdentified(Louder(recorded, KeyOf(id), text, true), d);
  }

  lemma QuietestOrder(recorded: seq<Diagnostic>, d: Diagnostic) returns (order: seq<Diagnostic>)
    requires d in recorded
    ensures multiset(order) == multiset(recorded) && order != [] && order[0] == d
  {
    var at :| 0 <= at < |recorded| && recorded[at] == d;
    order := [d] + (recorded[..at] + recorded[at + 1..]);
    assert recorded == recorded[..at] + [d] + recorded[at + 1..];
  }

  // Two orders of a recording whose reports differ, when no identity settles a key.
  lemma UnsettledDependsOnOrder(recorded: seq<Diagnostic>, id: Identity)
    requires id in Identities(recorded) && !IsSettled(KeyOf(id), recorded)
    ensures !Reproducible(recorded)
  {
    var key := KeyOf(id);
    IdentitiesAreRecorded(recorded, id);
    var any: Diagnostic :| any in multiset(recorded) && any.identity == id;
    assert any in recorded;
    var d := LeastRecorded(recorded, key);
    var quietest := QuietestOrder(recorded, d);
    var loudest := Louder(recorded, key, Explanation(d), true) + Louder(recorded, key, Explanation(d), false);
    LouderSplits(recorded, key, Explanation(d));
    var rows1 := ReportExists(quietest);
    var rows2 := ReportExists(loudest);
    QuietestReport(rows1, quietest, recorded, d);
    var row := LoudestRow(rows2, recorded, d, id);
    assert row !in rows1;
    assert rows1 != rows2;
  }

  lemma QuietestReport(rows: seq<Reason>, order: seq<Diagnostic>, recorded: seq<Diagnostic>, d: Diagnostic)
    requires multiset(order) == multiset(recorded) && order != [] && order[0] == d && IsReport(rows, order)
    requires forall e :: e in recorded && KeyOf(e.identity) == KeyOf(d.identity) ==> !Before(Explanation(e), Explanation(d))
    ensures forall r :: r in rows && RowKey(r) == KeyOf(d.identity) ==> r.example == Explanation(d)
  {
    forall r | r in rows && RowKey(r) == KeyOf(d.identity) ensures r.example == Explanation(d) {
      var i :| 0 <= i < |rows| && rows[i] == r;
      assert Accounts(rows[i], order);
      QuietestGives(r, order, recorded, d);
    }
  }

  lemma LoudestRow(rows: seq<Reason>, recorded: seq<Diagnostic>, d: Diagnostic, id: Identity) returns (row: Reason)
    requires var key := KeyOf(d.identity);
             IsReport(rows, Louder(recorded, key, Explanation(d), true) + Louder(recorded, key, Explanation(d), false))
    requires forall e :: e in recorded && KeyOf(e.identity) == KeyOf(d.identity) ==> !Before(Explanation(e), Explanation(d))
    requires id in Identities(recorded) && KeyOf(id) == KeyOf(d.identity) && !IsSettled(KeyOf(id), recorded)
    ensures row in rows && RowKey(row) == KeyOf(id) && row.example != Explanation(d)
  {
    var key := KeyOf(id);
    var loudest := Louder(recorded, key, Explanation(d), true) + Louder(recorded, key, Explanation(d), false);
    LouderSplits(recorded, key, Explanation(d));
    SameIdentities(loudest, recorded);
    var at := RowOf(rows, loudest, id);
    row := rows[at];
    LouderGives(row, recorded, d);
  }

  lemma QuietestGives(row: Reason, order: seq<Diagnostic>, recorded: seq<Diagnostic>, d: Diagnostic)
    requires multiset(order) == multiset(recorded) && order != [] && order[0] == d && Accounts(row, order) && RowKey(row) == KeyOf(d.identity)
    requires forall e :: e in recorded && KeyOf(e.identity) == KeyOf(d.identity) ==> !Before(Explanation(e), Explanation(d))
    ensures row.example == Explanation(d)
  {
    forall e | e in order ensures e in recorded { InReordered(order, recorded, e); }
    QuietestFirst(row, order, d);
  }

  lemma LouderGives(row: Reason, recorded: seq<Diagnostic>, d: Diagnostic)
    requires var key := KeyOf(d.identity);
             Accounts(row, Louder(recorded, key, Explanation(d), true) + Louder(recorded, key, Explanation(d), false)) && RowKey(row) == key
    requires forall e :: e in recorded && KeyOf(e.identity) == KeyOf(d.identity) ==> !Before(Explanation(e), Explanation(d))
    requires forall id :: id in Identities(recorded) && KeyOf(id) == KeyOf(d.identity) ==> !Settles(id, recorded)
    ensures row.example != Explanation(d)
  {
    var key, text := KeyOf(d.identity), Explanation(d);
    var louder, quieter := Louder(recorded, key, text, true), Louder(recorded, key, text, false);
    LouderSplits(recorded, key, text);
    SameIdentities(louder + quieter, recorded);
    forall e | e in louder ensures Explanation(e) != text { LouderHolds(recorded, key, text, true, e); }
    forall id | id in Identities(recorded) && KeyOf(id) == key ensures id in Identities(louder) { UnsettledIsLouder(recorded, id, text); }
    LouderFirst(row, louder, quieter, text);
  }

  /**
  The table is documented as reproducible whatever the order. It is exactly when, for every key recorded,
  some identity was only ever recorded with the least explanation of the key.
  */
  lemma ReproducibleExactly(recorded: seq<Diagnostic>)
    ensures Reproducible(recorded) <==> Settled(recorded)
  {
    if Settled(recorded) {
      forall a: seq<Diagnostic>, b: seq<Diagnostic>, rows1, rows2
        | multiset(a) == multiset(recorded) && multiset(b) == multiset(recorded) && IsReport(rows1, a) && IsReport(rows2, b)
        ensures rows1 == rows2
      {
        SettledAlike(recorded, a);
        SettledIgnoresOrder(rows1, a, rows2, b);
      }
    } else {
      var id :| id in Identities(recorded) && !IsSettled(KeyOf(id), recorded);
      UnsettledDependsOnOrder(recorded, id);
    }
  }

  lemma SettledAlike(a: seq<Diagnostic>, b: seq<Diagnostic>)
    requires multiset(a) == multiset(b) && Settled(a)
    ensures Settled(b)
  {
    SameIdentities(a, b);
    forall d | d in b ensures d in a { InReordered(b, a, d); }
    forall id | id in Identities(b) ensures IsSettled(KeyOf(id), b) {
      assert IsSettled(KeyOf(id), a);
      var settling :| settling in Identities(a) && KeyOf(settling) == KeyOf(id) && Settles(settling, a);
      assert Settles(settling, b);
    }
  }

  /**
  The table is documented as reproducible whatever the order. An identity without a cause or a Detail
  breaks that: of two such diagnostics the one recorded first gives the example.
  */
  lemma UnexplainedDependsOnOrder(rows1: seq<Reason>, rows2: seq<Reason>)
    requires var id := Identity(Error, 0, [], []);
             var a, b := Diagnostic(id, "a", [], 1), Diagnostic(id, "b", [], 1);
             IsReport(rows1, [a, b]) && IsReport(rows2, [b, a])
    ensures rows1 != rows2
  {
    var id := Identity(Error, 0, [], []);
    var a, b := Diagnostic(id, "a", [], 1), Diagnostic(id, "b", [], 1);
    assert Explanation(a) == "a" && Explanation(b) == "b" && "a"[0] != "b"[0];
    var i := OnlyExample(id, a, b, rows1);
    var j := OnlyExample(id, b, a, rows2);
    assert rows1[i].example[0] == 'a' && rows2[j].example[0] == 'b';
    assert rows2 == rows1 ==> 0 <= j < |rows1|;
  }

  // Every row of two diagnostics of one identity gives the first one's explanation.
  lemma OnlyExample(id: Identity, first: Diagnostic, second: Diagnostic, rows: seq<Reason>) returns (at: nat)
    requires first.identity == second.identity == id && IsReport(rows, [first, second])
    ensures at < |rows| && forall i :: 0 <= i < |rows| ==> rows[i].example == Explanation(first)
  {
    FirstOfTwo(id, first, second);
    at :| at < |rows| && RowKey(rows[at]) == KeyOf(id);
    forall i | 0 <= i < |rows| ensures rows[i].example == Explanation(first) {
      assert Accounts(rows[i], [first, second]);
    }
  }

  lemma FirstOfTwo(id: Identity, first: Diagnostic, second: Diagnostic)
    requires first.identity == second.identity == id
    ensures Identities([first, second]) == {id} && FirstExample([first, second], id) == Explanation(first)
  {
    assert [first, second][..1] == [first] && [first][..0] == [];
    assert Identities([first]) == {id};
  }
}
