/** The run's tally of distinct failures, and the table of reasons it is drained into. */
module ReasonTally {
  import opened Wrappers
  import opened Diagnostics

  const U64_MAX: nat := 0xFFFF_FFFF_FFFF_FFFF

  datatype Sighting = First | Repeat

  datatype Tallied = Tallied(occurrences: nat, example: string)

  datatype Reason = Reason(severity: Severity, code: Code, count: nat, example: string)

  datatype Key = Key(severity: Severity, code: Code)

  function KeyOf(identity: Identity): Key {
    Key(identity.severity, identity.code)
  }

  function Saturated(n: nat): nat {
    Min(U64_MAX, n)
  }

  // ---- The order of texts ----

  predicate Before(a: string, b: string) {
    b != [] && (a == [] || a[0] < b[0] || (a[0] == b[0] && Before(a[1..], b[1..])))
  }

  function Least(a: string, b: string): string {
    if Before(b, a) then b else a
  }

  lemma {:induction false} BeforeIsTotal(a: string, b: string)
    ensures Before(a, b) || Before(b, a) || a == b
    ensures !(Before(a, b) && Before(b, a)) && !Before(a, a)
  {
    if a != [] { BeforeIsTotal(a[1..], a[1..]); }
    if a != [] && b != [] && a[0] == b[0] {
      BeforeIsTotal(a[1..], b[1..]);
      assert a == [a[0]] + a[1..] && b == [b[0]] + b[1..];
    }
  }

  lemma {:induction false} BeforeIsTransitive(a: string, b: string, c: string)
    requires Before(a, b) && Before(b, c)
    ensures Before(a, c)
  {
    if a != [] && a[0] == b[0] == c[0] {
      BeforeIsTransitive(a[1..], b[1..], c[1..]);
    }
  }

  // ---- What was recorded ----

  function Identities(recorded: seq<Diagnostic>): set<Identity> {
    if recorded == [] then {} else Identities(recorded[..|recorded| - 1]) + {recorded[|recorded| - 1].identity}
  }

  /** The occurrences recorded under those of `ids` that fold into `key`. */
  function Occurrences(recorded: seq<Diagnostic>, key: Key, ids: set<Identity>): nat {
    if recorded == [] then 0
    else
      var last := recorded[|recorded| - 1];
      Occurrences(recorded[..|recorded| - 1], key, ids)
      + if KeyOf(last.identity) == key && last.identity in ids then last.occurrences else 0
  }

  // The explanation the first diagnostic of an identity carried.
  function FirstExample(recorded: seq<Diagnostic>, id: Identity): string {
    if recorded == [] then []
    else
      var before, last := recorded[..|recorded| - 1], recorded[|recorded| - 1];
      if id !in Identities(before) && last.identity == id then Explanation(last) else FirstExample(before, id)
  }

  // The least of the first examples of those of `ids` that fold into `key`.
  ghost predicate IsLeast(example: string, recorded: seq<Diagnostic>, key: Key, ids: set<Identity>) {
    && (exists id :: id in ids && KeyOf(id) == key && FirstExample(recorded, id) == example)
    && forall id :: id in ids && KeyOf(id) == key ==> !Before(FirstExample(recorded, id), example)
  }

  // Worst first, then loudest, then by code.
  predicate RowBefore(a: Reason, b: Reason) {
    || (a.severity.Error? && b.severity.Warning?)
    || (a.severity == b.severity && (a.count > b.count || (a.count == b.count && a.code < b.code)))
  }

  ghost predicate Ordered(rows: seq<Reason>) {
    forall i, j :: 0 <= i < j < |rows| ==> RowBefore(rows[i], rows[j])
  }

  function RowKey(row: Reason): Key {
    Key(row.severity, row.code)
  }

  // A row accounts for everything recorded under its code and severity.
  ghost predicate Accounts(row: Reason, recorded: seq<Diagnostic>) {
    && row.count == Saturated(Occurrences(recorded, RowKey(row), Identities(recorded)))
    && IsLeast(row.example, recorded, RowKey(row), Identities(recorded))
  }

  /** The reason table of what was recorded: one accounting row per code and severity, strictly ordered. */
  ghost predicate IsReport(rows: seq<Reason>, recorded: seq<Diagnostic>) {
    && Ordered(rows)
    && (forall i {:trigger Accounts(rows[i], recorded)} :: 0 <= i < |rows| ==> Accounts(rows[i], recorded))
    && (forall id :: id in Identities(recorded) ==> exists i :: 0 <= i < |rows| && RowKey(rows[i]) == KeyOf(id))
  }

  // ---- The tally ----

  lemma {:induction false} OccurrencesOfMore(recorded: seq<Diagnostic>, key: Key, ids: set<Identity>, id: Identity)
    requires id !in ids
    ensures Occurrences(recorded, key, ids + {id})
            == Occurrences(recorded, key, ids) + if KeyOf(id) == key then Occurrences(recorded, key, {id}) else 0
  {
    if recorded != [] {
      OccurrencesOfMore(recorded[..|recorded| - 1], key, ids, id);
    }
  }

  lemma {:induction false} OccurrencesOfUnseen(recorded: seq<Diagnostic>, key: Key, id: Identity)
    requires id !in Identities(recorded)
    ensures Occurrences(recorded, key, {id}) == 0
  {
    if recorded != [] {
      OccurrencesOfUnseen(recorded[..|recorded| - 1], key, id);
    }
  }

  ghost predicate Tallies(seen: map<Identity, Tallied>, recorded: seq<Diagnostic>) {
    && seen.Keys == Identities(recorded)
    && forall id :: id in seen ==>
         seen[id] == Tallied(Saturated(Occurrences(recorded, KeyOf(id), {id})), FirstExample(recorded, id))
  }

  lemma TallyExtends(seen: map<Identity, Tallied>, recorded: seq<Diagnostic>, d: Diagnostic, seen': map<Identity, Tallied>)
    requires Tallies(seen, recorded)
    requires seen' == seen[d.identity := if d.identity in seen then seen[d.identity].(occurrences := Saturated(seen[d.identity].occurrences + Saturated(d.occurrences)))
                                         else Tallied(Saturated(d.occurrences), Explanation(d))]
    ensures Tallies(seen', recorded + [d])
  {
    assert (recorded + [d])[..|recorded|] == recorded;
    if d.identity !in seen {
      OccurrencesOfUnseen(recorded, KeyOf(d.identity), d.identity);
    }
  }

  function Fold(folded: map<Key, (nat, string)>, key: Key, tallied: Tallied): map<Key, (nat, string)> {
    folded[key := if key in folded then (Saturated(folded[key].0 + tallied.occurrences), Least(folded[key].1, tallied.example))
                  else (tallied.occurrences, tallied.example)]
  }

  // What has been folded of the identities processed so far.
  ghost predicate Folds(folded: map<Key, (nat, string)>, recorded: seq<Diagnostic>, ids: set<Identity>) {
    && (forall id :: id in ids ==> KeyOf(id) in folded)
    && (forall key {:trigger EntryFolds(folded, key, recorded, ids)} :: key in folded ==> EntryFolds(folded, key, recorded, ids))
  }

  ghost predicate EntryFolds(folded: map<Key, (nat, string)>, key: Key, recorded: seq<Diagnostic>, ids: set<Identity>)
    requires key in folded
  {
    && folded[key].0 == Saturated(Occurrences(recorded, key, ids))
    && IsLeast(folded[key].1, recorded, key, ids)
  }

  // One identity more adds its occurrences to its key and may lower the key's example.
  lemma FoldExtends(folded: map<Key, (nat, string)>, recorded: seq<Diagnostic>, ids: set<Identity>, id: Identity, tallied: Tallied)
    requires Folds(folded, recorded, ids) && id !in ids
    requires tallied == Tallied(Saturated(Occurrences(recorded, KeyOf(id), {id})), FirstExample(recorded, id))
    ensures Folds(Fold(folded, KeyOf(id), tallied), recorded, ids + {id})
  {
    var mine := KeyOf(id);
    var folded' := Fold(folded, mine, tallied);
    forall key | key in folded'
      ensures EntryFolds(folded', key, recorded, ids + {id})
    {
      assert key in folded ==> EntryFolds(folded, key, recorded, ids);
      OccurrencesOfMore(recorded, key, ids, id);
      if key == mine {
        if mine in folded {
          LeastExtends(folded[mine].1, recorded, mine, ids, id);
        } else {
          OccurrencesOfNone(recorded, mine, ids);
          BeforeIsTotal(tallied.example, tallied.example);
        }
      } else {
        var other :| other in ids && KeyOf(other) == key && FirstExample(recorded, other) == folded[key].1;
        assert other in ids + {id};
      }
    }
  }

  lemma LeastExtends(example: string, recorded: seq<Diagnostic>, key: Key, ids: set<Identity>, id: Identity)
    requires IsLeast(example, recorded, key, ids) && KeyOf(id) == key
    ensures IsLeast(Least(example, FirstExample(recorded, id)), recorded, key, ids + {id})
  {
    var mine := FirstExample(recorded, id);
    var least := Least(example, mine);
    var other :| other in ids && KeyOf(other) == key && FirstExample(recorded, other) == example;
    assert other in ids + {id} && id in ids + {id};
    forall each | each in ids + {id} && KeyOf(each) == key ensures !Before(FirstExample(recorded, each), least) {
      BeforeIsTotal(mine, mine);
      BeforeIsTotal(mine, example);
      if each != id && Before(FirstExample(recorded, each), least) {
        if Before(mine, example) {
          BeforeIsTransitive(FirstExample(recorded, each), mine, example);
        }
      }
    }
  }

  lemma {:induction false} OccurrencesOfNone(recorded: seq<Diagnostic>, key: Key, ids: set<Identity>)
    requires forall id :: id in ids ==> KeyOf(id) != key
    ensures Occurrences(recorded, key, ids) == 0
  {
    if recorded != [] { OccurrencesOfNone(recorded[..|recorded| - 1], key, ids); }
  }

  // Where a row goes among ordered ones.
  function InsertRow(row: Reason, rows: seq<Reason>): seq<Reason> {
    if rows == [] || RowBefore(row, rows[0]) then [row] + rows else [rows[0]] + InsertRow(row, rows[1..])
  }

  lemma {:induction false} InsertRowHolds(row: Reason, rows: seq<Reason>)
    ensures forall r :: r in InsertRow(row, rows) <==> r == row || r in rows
  {
    if rows != [] && !RowBefore(row, rows[0]) {
      InsertRowHolds(row, rows[1..]);
      assert rows == [rows[0]] + rows[1..];
    }
  }

  lemma {:induction false} InsertRowOrders(row: Reason, rows: seq<Reason>)
    requires Ordered(rows) && forall r :: r in rows ==> RowKey(r) != RowKey(row)
    ensures Ordered(InsertRow(row, rows))
  {
    if rows != [] {
      assert rows[0] in rows;
      if !RowBefore(row, rows[0]) {
        InsertRowOrders(row, rows[1..]);
        InsertRowHolds(row, rows[1..]);
        var rest := InsertRow(row, rows[1..]);
        forall j | 0 <= j < |rest| ensures RowBefore(rows[0], rest[j]) {
          assert rest[j] in rest;
        }
      }
    }
  }

  class ReasonTally {
    var seen: map<Identity, Tallied>
    // Everything recorded since the last drain, in order.
    ghost var recorded: seq<Diagnostic>

    ghost predicate Valid()
      reads this
    {
      Tallies(seen, recorded)
    }

    constructor ()
      ensures Valid() && recorded == []
    {
      seen, recorded := map[], [];
    }

    /** Records one diagnostic; it is a first sighting exactly when its identity is new this cycle. */
    method Record(d: Diagnostic) returns (sighting: Sighting)
      requires Valid() && d.occurrences <= U64_MAX
      modifies this
      ensures Valid() && recorded == old(recorded) + [d]
      ensures sighting == First <==> d.identity !in Identities(old(recorded))
    {
      TallyExtends(seen, recorded, d, seen[d.identity := if d.identity in seen then seen[d.identity].(occurrences := Saturated(seen[d.identity].occurrences + d.occurrences))
                                                         else Tallied(d.occurrences, Explanation(d))]);
      recorded := recorded + [d];
      if d.identity in seen {
        var tallied := seen[d.identity];
        seen := seen[d.identity := tallied.(occurrences := Saturated(tallied.occurrences + d.occurrences))];
        return Repeat;
      }
      seen := seen[d.identity := Tallied(d.occurrences, Explanation(d))];
      return First;
    }

    /** Empties the tally into the reason table of everything recorded since the last drain. */
    method Drain() returns (rows: seq<Reason>)
      requires Valid()
      modifies this
      ensures Valid() && recorded == []
      ensures IsReport(rows, old(recorded))
    {
      var folded := FoldEntries(seen, recorded);
      ghost var all := recorded;
      seen, recorded := map[], [];
      rows := SortRows(folded);
      ReportOfFolded(folded, all, rows);
    }
  }

  // Folds the entries by code and severity, whatever order the map yields them in.
  method FoldEntries(seen: map<Identity, Tallied>, ghost recorded: seq<Diagnostic>) returns (folded: map<Key, (nat, string)>)
    requires Tallies(seen, recorded)
    ensures Folds(folded, recorded, Identities(recorded))
  {
    folded := map[];
    var pending := seen.Keys;
    ghost var ids: set<Identity> := {};
    while pending != {}
      invariant pending <= seen.Keys && ids == seen.Keys - pending
      invariant Folds(folded, recorded, ids)
      decreases |pending|
    {
      var id :| id in pending;
      FoldExtends(folded, recorded, ids, id, seen[id]);
      folded := Fold(folded, KeyOf(id), seen[id]);
      pending, ids := pending - {id}, ids + {id};
    }
    assert ids == seen.Keys;
  }

  // One row per folded key, in order, whatever order the map yields them in.
  method SortRows(folded: map<Key, (nat, string)>) returns (rows: seq<Reason>)
    ensures Ordered(rows)
    ensures forall r :: r in rows ==> RowKey(r) in folded && folded[RowKey(r)] == (r.count, r.example)
    ensures forall key :: key in folded ==> Reason(key.severity, key.code, folded[key].0, folded[key].1) in rows
  {
    rows := [];
    var pending := folded.Keys;
    while pending != {}
      invariant pending <= folded.Keys && Ordered(rows)
      invariant forall r :: r in rows ==> RowKey(r) in folded && RowKey(r) !in pending && folded[RowKey(r)] == (r.count, r.example)
      invariant forall key :: key in folded && key !in pending ==> Reason(key.severity, key.code, folded[key].0, folded[key].1) in rows
      decreases |pending|
    {
      var key :| key in pending;
      var row := Reason(key.severity, key.code, folded[key].0, folded[key].1);
      InsertRowOrders(row, rows);
      InsertRowHolds(row, rows);
      rows, pending := InsertRow(row, rows), pending - {key};
    }
  }

  lemma ReportOfFolded(folded: map<Key, (nat, string)>, recorded: seq<Diagnostic>, rows: seq<Reason>)
    requires Folds(folded, recorded, Identities(recorded)) && Ordered(rows)
    requires forall r :: r in rows ==> RowKey(r) in folded && folded[RowKey(r)] == (r.count, r.example)
    requires forall key :: key in folded ==> Reason(key.severity, key.code, folded[key].0, folded[key].1) in rows
    ensures IsReport(rows, recorded)
  {
    forall i | 0 <= i < |rows| ensures Accounts(rows[i], recorded) {
      assert rows[i] in rows && EntryFolds(folded, RowKey(rows[i]), recorded, Identities(recorded));
    }
    forall id | id in Identities(recorded) ensures exists i :: 0 <= i < |rows| && RowKey(rows[i]) == KeyOf(id) {
      var key := KeyOf(id);
      var row := Reason(key.severity, key.code, folded[key].0, folded[key].1);
      assert row in rows;
      var i :| 0 <= i < |rows| && rows[i] == row;
      assert RowKey(rows[i]) == KeyOf(id);
    }
  }

  lemma {:induction false} IdentitiesAreRecorded(recorded: seq<Diagnostic>, id: Identity)
    ensures id in Identities(recorded) <==> exists d: Diagnostic :: d in multiset(recorded) && d.identity == id
  {
    if recorded != [] {
      var init, last := recorded[..|recorded| - 1], recorded[|recorded| - 1];
      IdentitiesAreRecorded(init, id);
      assert recorded == init + [last];
      if d: Diagnostic :| d in multiset(init) && d.identity == id {
        assert d in multiset(recorded);
      }
      if d: Diagnostic :| d in multiset(recorded) && d.identity == id {
        assert d == last || d in multiset(init);
      }
      assert last in multiset(recorded);
    }
  }

  // ---- What a report adds up to ----

  function AllOccurrences(recorded: seq<Diagnostic>): nat {
    if recorded == [] then 0 else AllOccurrences(recorded[..|recorded| - 1]) + recorded[|recorded| - 1].occurrences
  }

  function AllCounts(rows: seq<Reason>): nat {
    if rows == [] then 0 else rows[0].count + AllCounts(rows[1..])
  }

  // What the diagnostics of these rows' codes and severities add up to.
  function OccurrencesOfRows(rows: seq<Reason>, recorded: seq<Diagnostic>, ids: set<Identity>): nat {
    if rows == [] then 0 else Occurrences(recorded, RowKey(rows[0]), ids) + OccurrencesOfRows(rows[1..], recorded, ids)
  }

  ghost predicate OneRowPerKey(rows: seq<Reason>) {
    forall i, j :: 0 <= i < j < |rows| ==> RowKey(rows[i]) != RowKey(rows[j])
  }

  lemma {:induction false} OneDiagnosticMore(rows: seq<Reason>, before: seq<Diagnostic>, last: Diagnostic, ids: set<Identity>)
    requires OneRowPerKey(rows) && last.identity in ids
    ensures OccurrencesOfRows(rows, before + [last], ids)
            == OccurrencesOfRows(rows, before, ids)
               + if exists i :: 0 <= i < |rows| && RowKey(rows[i]) == KeyOf(last.identity) then last.occurrences else 0
  {
    if rows != [] {
      assert (before + [last])[..|before|] == before;
      OneDiagnosticMore(rows[1..], before, last, ids);
      assert forall i :: 0 < i < |rows| ==> rows[i] == rows[1..][i - 1];
    }
  }

  lemma {:induction false} NothingRecorded(rows: seq<Reason>, ids: set<Identity>)
    ensures OccurrencesOfRows(rows, [], ids) == 0
  {
    if rows != [] { NothingRecorded(rows[1..], ids); }
  }

  lemma {:induction false} RowsCoverAll(rows: seq<Reason>, recorded: seq<Diagnostic>, ids: set<Identity>)
    requires OneRowPerKey(rows) && Identities(recorded) <= ids
    requires forall id :: id in Identities(recorded) ==> exists i :: 0 <= i < |rows| && RowKey(rows[i]) == KeyOf(id)
    ensures OccurrencesOfRows(rows, recorded, ids) == AllOccurrences(recorded)
  {
    if recorded == [] {
      NothingRecorded(rows, ids);
    } else {
      var before, last := recorded[..|recorded| - 1], recorded[|recorded| - 1];
      assert recorded == before + [last] && last.identity in Identities(recorded);
      RowsCoverAll(rows, before, ids);
      OneDiagnosticMore(rows, before, last, ids);
    }
  }

  lemma {:induction false} CountsOfRows(rows: seq<Reason>, recorded: seq<Diagnostic>)
    requires forall i {:trigger Accounts(rows[i], recorded)} :: 0 <= i < |rows| ==> Accounts(rows[i], recorded)
    requires OccurrencesOfRows(rows, recorded, Identities(recorded)) <= U64_MAX
    ensures AllCounts(rows) == OccurrencesOfRows(rows, recorded, Identities(recorded))
  {
    if rows != [] {
      assert Accounts(rows[0], recorded);
      forall i | 0 <= i < |rows| - 1 ensures Accounts(rows[1..][i], recorded) {
        assert Accounts(rows[i + 1], recorded);
      }
      CountsOfRows(rows[1..], recorded);
    }
  }

  /** No occurrence is lost or counted twice: the counts of a report add up to everything recorded, short of saturation. */
  lemma CountsAreConserved(rows: seq<Reason>, recorded: seq<Diagnostic>)
    requires IsReport(rows, recorded) && AllOccurrences(recorded) <= U64_MAX
    ensures AllCounts(rows) == AllOccurrences(recorded)
  {
    forall i, j | 0 <= i < j < |rows| ensures RowKey(rows[i]) != RowKey(rows[j]) {
      assert Accounts(rows[i], recorded) && Accounts(rows[j], recorded) && RowBefore(rows[i], rows[j]);
    }
    RowsCoverAll(rows, recorded, Identities(recorded));
    CountsOfRows(rows, recorded);
  }

  /** The errors of a report come before its warnings, and among either no row is louder than one before it, or as loud with an earlier code. */
  lemma ReportsWorstFirst(rows: seq<Reason>, recorded: seq<Diagnostic>, i: nat, j: nat)
    requires IsReport(rows, recorded) && i < j < |rows|
    ensures rows[j].severity == Error ==> rows[i].severity == Error
    ensures rows[i].severity == rows[j].severity ==> rows[j].count <= rows[i].count && (rows[j].count == rows[i].count ==> rows[i].code < rows[j].code)
  {
    assert RowBefore(rows[i], rows[j]);
  }

  // ---- Sightings ----

  /** What each record of a cycle was told. */
  function Sightings(recorded: seq<Diagnostic>): (sightings: seq<Sighting>)
    ensures |sightings| == |recorded|
  {
    if recorded == [] then []
    else
      var before, last := recorded[..|recorded| - 1], recorded[|recorded| - 1];
      Sightings(before) + [if last.identity in Identities(before) then Repeat else First]
  }

  lemma SightingsOfMore(recorded: seq<Diagnostic>, d: Diagnostic)
    ensures Sightings(recorded + [d]) == Sightings(recorded) + [if d.identity in Identities(recorded) then Repeat else First]
  {
    assert (recorded + [d])[..|recorded|] == recorded;
  }

  method RecordAll(tally: ReasonTally, diagnostics: seq<Diagnostic>) returns (sightings: seq<Sighting>)
    requires tally.Valid() && tally.recorded == []
    requires forall d :: d in diagnostics ==> d.occurrences <= U64_MAX
    modifies tally
    ensures tally.Valid() && tally.recorded == diagnostics && sightings == Sightings(diagnostics)
  {
    sightings := [];
    for i := 0 to |diagnostics|
      invariant tally.Valid() && tally.recorded == diagnostics[..i] && sightings == Sightings(diagnostics[..i])
    {
      assert diagnostics[..i + 1] == diagnostics[..i] + [diagnostics[i]];
      SightingsOfMore(diagnostics[..i], diagnostics[i]);
      var sighting := tally.Record(diagnostics[i]);
      sightings := sightings + [sighting];
    }
    assert diagnostics[..|diagnostics|] == diagnostics;
  }

  /** Every identity recorded in a cycle is new exactly once in it, the first time. */
  lemma {:induction false} FirstExactlyOnce(recorded: seq<Diagnostic>, id: Identity) returns (at: nat)
    requires id in Identities(recorded)
    ensures at < |recorded| && recorded[at].identity == id
    ensures forall i :: 0 <= i < |recorded| && recorded[i].identity == id ==> at <= i && (Sightings(recorded)[i] == First <==> i == at)
  {
    var n := |recorded| - 1;
    var before := recorded[..n];
    assert forall i :: 0 <= i < n ==> before[i] == recorded[i] && Sightings(before)[i] == Sightings(recorded)[i];
    if id in Identities(before) {
      at := FirstExactlyOnce(before, id);
    } else {
      at := n;
      forall i | 0 <= i < n ensures recorded[i].identity != id {
        assert before[i] in multiset(before);
        IdentitiesAreRecorded(before, id);
      }
    }
  }
}
